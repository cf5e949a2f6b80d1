/** The open-loop load generator: one request per tick of a constant cadence, whatever becomes of the
    requests before it. */
module OpenLoop {
  import opened Reals

  /** What the event loop adds: time lost before the clock is read in round `k`, and time slept
      beyond what was asked. */
  datatype Delays = Delays(lag: nat -> real, oversleep: nat -> real)

  ghost predicate Forward(d: Delays)
  {
    forall k :: d.lag(k) >= 0.0 && d.oversleep(k) >= 0.0
  }

  /** When tick `k` is scheduled. */
  function Tick(start: real, interval: real, k: nat): (t: real)
  {
    start + k as real * interval
  }

  /** The clock reading that opens round `k`. */
  function Reading(d: Delays, start: real, interval: real, k: nat): (t: real)
    decreases k, 0
  {
    (if k == 0 then start else Launch(d, start, interval, k - 1)) + d.lag(k)
  }

  /** When request `k` goes out. */
  function Launch(d: Delays, start: real, interval: real, k: nat): (t: real)
    decreases k, 1
  {
    var now := Reading(d, start, interval, k);
    if Tick(start, interval, k) > now then Tick(start, interval, k) + d.oversleep(k) else now
  }

  lemma TickStep(start: real, interval: real, k: nat)
    ensures Tick(start, interval, k + 1) == Tick(start, interval, k) + interval
  {
  }

  /** No request goes out before its tick, whatever was delayed before it, and one that finds its
      tick still ahead goes out on it. */
  lemma NeverEarlyNeverDrifts(d: Delays, start: real, interval: real, k: nat)
    requires Forward(d)
    ensures Launch(d, start, interval, k) >= Tick(start, interval, k)
    ensures var now := Reading(d, start, interval, k);
            now <= Tick(start, interval, k) ==>
              Launch(d, start, interval, k) <= Tick(start, interval, k) + d.oversleep(k)
    ensures k > 0 ==>
      Launch(d, start, interval, k) >= Reading(d, start, interval, k) >= Launch(d, start, interval, k - 1)
  {
  }

  /** Lateness never adds up: where no round loses more than an interval before it reads the clock,
      every request of the run goes out within the largest single delay of its tick. */
  lemma {:induction false} LatenessBounded(d: Delays, start: real, interval: real, lag: real, oversleep: real, k: nat)
    requires Forward(d) && lag <= interval
    requires forall j :: d.lag(j) <= lag && d.oversleep(j) <= oversleep
    ensures Launch(d, start, interval, k) <= Tick(start, interval, k) + Max(lag, oversleep)
  {
    if k > 0 {
      LatenessBounded(d, start, interval, lag, oversleep, k - 1);
      TickStep(start, interval, k - 1);
    }
  }

  /** Every round loses the same time. */
  function Steady(lag: real, oversleep: real): (d: Delays)
  {
    Delays(_ => lag, _ => oversleep)
  }

  ghost predicate LateBy(d: Delays, start: real, interval: real, bound: real)
  {
    forall k: nat :: Launch(d, start, interval, k) - Tick(start, interval, k) <= bound
  }

  /** The interval is the exact limit: under a steady delay lateness stays bounded if and only if a
      round loses no more than that. */
  lemma BoundedExactly(lag: real, oversleep: real, start: real, interval: real)
    requires lag >= 0.0 && oversleep >= 0.0 && interval > 0.0
    ensures (exists bound :: LateBy(Steady(lag, oversleep), start, interval, bound)) <==> lag <= interval
  {
    var d := Steady(lag, oversleep);
    if lag <= interval {
      forall k: nat ensures Launch(d, start, interval, k) - Tick(start, interval, k) <= Max(lag, oversleep) {
        LatenessBounded(d, start, interval, lag, oversleep, k);
      }
      assert LateBy(d, start, interval, Max(lag, oversleep));
    }
    forall bound | LateBy(d, start, interval, bound) ensures lag <= interval {
      if lag > interval {
        var k := Exceeds(lag - interval, bound);
        FallsBehind(lag, oversleep, start, interval, k);
      }
    }
  }

  lemma Exceeds(step: real, bound: real) returns (k: nat)
    requires step > 0.0
    ensures k as real * step > bound
  {
    var x := bound / step;
    k := if x < 0.0 then 1 else x.Floor + 1;
    assert x * step == bound;
    assert k as real > x;
    assert (k as real - x) * step > 0.0;
  }

  lemma {:induction false} FallsBehind(lag: real, oversleep: real, start: real, interval: real, k: nat)
    requires lag > interval > 0.0 && oversleep >= 0.0
    ensures Launch(Steady(lag, oversleep), start, interval, k) - Tick(start, interval, k)
        >= lag + k as real * (lag - interval)
  {
    if k > 0 {
      FallsBehind(lag, oversleep, start, interval, k - 1);
      TickStep(start, interval, k - 1);
      assert k as real * (lag - interval) == (k - 1) as real * (lag - interval) + (lag - interval);
    }
  }

  /** `count` rounds were within the duration, and the next one is not. */
  ghost predicate Stops(d: Delays, start: real, interval: real, duration: real, count: nat)
  {
    && (forall k: nat :: k < count ==> Reading(d, start, interval, k) - start < duration)
    && Reading(d, start, interval, count) - start >= duration
  }

  /** Only the last request can have been scheduled at or after the end. */
  lemma ScheduledWithin(d: Delays, start: real, interval: real, duration: real, count: nat, k: nat)
    requires Forward(d) && Stops(d, start, interval, duration, count) && k + 1 < count
    ensures Tick(start, interval, k) < start + duration
  {
    NeverEarlyNeverDrifts(d, start, interval, k);
    assert Reading(d, start, interval, k + 1) - start < duration;
  }

  lemma IntervalOrder(k: real, rate: real, duration: real)
    requires rate > 0.0
    ensures k * (1.0 / rate) < duration <==> k < duration * rate
  {
    var interval := 1.0 / rate;
    assert interval * rate == 1.0 && interval > 0.0;
    assert k * interval * rate == k;
    if k * interval < duration {
      assert k * interval * rate < duration * rate;
    } else {
      assert k * interval * rate >= duration * rate;
    }
  }

  /** Fewer than duration * rate + 2 requests go out, and none if there is no time. */
  lemma CountBounded(d: Delays, start: real, rate: real, duration: real, count: nat)
    requires Forward(d) && rate > 0.0 && Stops(d, start, 1.0 / rate, duration, count)
    ensures duration <= 0.0 ==> count == 0
    ensures duration > 0.0 ==> count as real < duration * rate + 2.0
  {
    var interval := 1.0 / rate;
    if duration <= 0.0 {
      assert Reading(d, start, interval, 0) >= start;
    } else if count >= 2 {
      ScheduledWithin(d, start, interval, duration, count, count - 2);
      assert Tick(start, interval, count - 2) - start == (count - 2) as real * interval;
      IntervalOrder((count - 2) as real, rate, duration);
    } else {
      assert duration * rate > 0.0;
    }
  }

  /** A clock that loses no time. */
  function OnTime(): (d: Delays)
  {
    Delays(_ => 0.0, _ => 0.0)
  }

  lemma {:induction false} OnTimeLaunches(start: real, interval: real, k: nat)
    requires interval > 0.0
    ensures Launch(OnTime(), start, interval, k) == Tick(start, interval, k)
    decreases k
  {
    if k > 0 {
      OnTimeLaunches(start, interval, k - 1);
      TickStep(start, interval, k - 1);
    }
  }

  /** The bound is attained: on time, a request goes out for every tick before the end and one more. */
  lemma OnTimeCount(start: real, rate: real, duration: real, count: nat)
    requires rate > 0.0 && duration > 0.0
    ensures Stops(OnTime(), start, 1.0 / rate, duration, count) <==>
        count >= 2 && (count - 2) as real < duration * rate <= (count - 1) as real
  {
    var interval := 1.0 / rate;
    forall k: nat
      ensures Reading(OnTime(), start, interval, k) - start < duration <==> k == 0 || (k - 1) as real < duration * rate
    {
      if k > 0 {
        OnTimeLaunches(start, interval, k - 1);
        assert Tick(start, interval, k - 1) - start == (k - 1) as real * interval;
        IntervalOrder((k - 1) as real, rate, duration);
      }
    }
    assert duration * rate > 0.0;
    assert count >= 1 ==> (Reading(OnTime(), start, interval, count - 1) - start < duration <==>
                           count == 1 || (count - 2) as real < duration * rate);
  }

  ghost function LastRound(rate: real, duration: real): (k: nat)
    requires rate > 0.0
    ensures k > 0 && (k - 1) as real * (1.0 / rate) >= duration
  {
    var ticks := if duration > 0.0 then (duration * rate).Floor + 1 else 0;
    assert duration > 0.0 ==> duration * rate > 0.0;
    IntervalOrder(ticks as real, rate, duration);
    assert duration <= 0.0 ==> 0.0 * (1.0 / rate) >= duration;
    ticks + 1
  }

  /** By the last round the tick alone is past the end. */
  lemma RunsOut(d: Delays, start: real, rate: real, duration: real, k: nat)
    requires Forward(d) && rate > 0.0 && Reading(d, start, 1.0 / rate, k) - start < duration
    ensures k != LastRound(rate, duration)
  {
    if k > 0 { ReadsAfterTick(d, start, 1.0 / rate, k); }
  }

  lemma ReadsAfterTick(d: Delays, start: real, interval: real, k: nat)
    requires Forward(d) && k > 0
    ensures Reading(d, start, interval, k) - start >= (k - 1) as real * interval
  {
    NeverEarlyNeverDrifts(d, start, interval, k - 1);
  }

  /** One round, from its clock reading to the next. */
  lemma RoundStep(d: Delays, start: real, interval: real, k: nat)
    ensures Reading(d, start, interval, 0) == start + d.lag(0) && Tick(start, interval, 0) == start
    ensures Reading(d, start, interval, k + 1) == Launch(d, start, interval, k) + d.lag(k + 1)
    ensures var now, tick := Reading(d, start, interval, k), Tick(start, interval, k);
            Launch(d, start, interval, k) == if tick > now then tick + d.oversleep(k) else now
    ensures Tick(start, interval, k + 1) == Tick(start, interval, k) + interval
  {
    TickStep(start, interval, k);
  }

  /** Round `k` of the loop: the clock is read `lag` after the launch before, and what is ahead of its tick is put
      off until then. */
  ghost predicate RoundIs(d: Delays, start: real, interval: real, duration: real, launches: seq<real>, k: nat)
    requires k < |launches|
  {
    var now := (if k == 0 then start else launches[k - 1]) + d.lag(k);
    var tick := start + k as real * interval;
    now - start < duration && launches[k] == if now < tick then tick + d.oversleep(k) else now
  }

  /** Every launch follows from the one before, and the loop stops at the first reading that is late. */
  ghost predicate Chained(d: Delays, start: real, interval: real, duration: real, launches: seq<real>)
  {
    && (forall k: nat :: k < |launches| ==> RoundIs(d, start, interval, duration, launches, k))
    && var n := |launches|;
    (if n == 0 then start else launches[n - 1]) + d.lag(n) - start >= duration
  }

  lemma RoundsAre(d: Delays, start: real, interval: real, duration: real, launches: seq<real>)
    requires Stops(d, start, interval, duration, |launches|)
    requires forall k: nat :: k < |launches| ==> launches[k] == Launch(d, start, interval, k)
    ensures Chained(d, start, interval, duration, launches)
  {
    forall k: nat | k < |launches| ensures RoundIs(d, start, interval, duration, launches, k) {
      assert k > 0 ==> Reading(d, start, interval, k) == launches[k - 1] + d.lag(k);
      assert Reading(d, start, interval, k) - start < duration;
    }
    var n := |launches|;
    assert n > 0 ==> Reading(d, start, interval, n) == launches[n - 1] + d.lag(n);
  }

  /** The loop. It launches each request when it should, and stops at the first reading at or past
      the duration. */
  method RunAtRate(targetRate: real, duration: real, d: Delays, start: real) returns (launches: seq<real>)
    requires targetRate > 0.0 && Forward(d)
    ensures Stops(d, start, 1.0 / targetRate, duration, |launches|)
    ensures forall k: nat :: k < |launches| ==> launches[k] == Launch(d, start, 1.0 / targetRate, k)
    ensures Chained(d, start, 1.0 / targetRate, duration, launches)
  {
    var interval := 1.0 / targetRate;
    ghost var last := LastRound(targetRate, duration);
    launches := [];
    var time, nextTick := start, start;
    RoundStep(d, start, interval, 0);
    hide Reading, Launch, Tick, LastRound, Chained;
    while true
      invariant forall k: nat :: k < |launches| ==> launches[k] == Launch(d, start, interval, k)
      invariant forall k: nat :: k < |launches| ==> Reading(d, start, interval, k) - start < duration
      invariant nextTick == Tick(start, interval, |launches|)
      invariant time + d.lag(|launches|) == Reading(d, start, interval, |launches|)
      invariant |launches| <= last
      decreases last - |launches|
    {
      var k := |launches|;
      time := time + d.lag(k);
      var now := time;
      if now - start >= duration {
        break;
      }
      RunsOut(d, start, targetRate, duration, k);
      var sleepFor := nextTick - now;
      if sleepFor > 0.0 {
        time := time + sleepFor + d.oversleep(k);
      }
      launches := launches + [time];
      RoundStep(d, start, interval, k);
      nextTick := nextTick + interval;
    }
    RoundsAre(d, start, interval, duration, launches);
  }
}
