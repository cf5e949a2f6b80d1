/** A parent collects one result per rank from a queue while its workers report, fail or die, under
    a deadline. Every step of a worker, of the clock and of the parent may interleave. */
module RankCollect {
  import opened Prelude

  datatype Report = Report(tokens: seq<int>, flips: int)

  /** What a worker sends: its reports by pair name, or the news that it failed. */
  datatype Payload = Payload(rank: nat, reports: map<string, Report>)
  datatype Message = Ok(payload: Payload) | Err(rank: nat)
  {
    function From(): (r: nat) { if Ok? then payload.rank else rank }
  }

  datatype Worker = Running(sent: Option<Message>) | Exited(code: int, sent: Option<Message>)

  datatype Outcome = Returned | TimedOut | Failed(rank: nat) | Died(dead: seq<nat>)

  /** Where the parent is: at the loop test, waiting on the queue, looking for dead workers, in the
      `finally` loop, waiting for one worker to end, or out. */
  datatype Phase =
    | Top
    | Get(since: real)
    | Poll(next: nat, dead: seq<nat>)
    | Cleanup(outcome: Outcome, next: nat)
    | Join(outcome: Outcome, next: nat, since: real)
    | Done(outcome: Outcome)

  /** `taken` and `emptied` count the queue reads that delivered and those that ran out of time. */
  datatype State = State(workers: seq<Worker>, queue: seq<Message>, clock: real, phase: Phase,
                         results: seq<Payload>, terminated: set<nat>, taken: nat, emptied: nat)

  const DEADLINE := 1080.0
  const GET_TIMEOUT := 5.0
  const JOIN_TIMEOUT := 10.0

  /** How many reads can run out of time before the deadline. */
  const MAX_EMPTIED: nat := 217

  ghost predicate Initial(s: State, n: nat, start: real)
  {
    && |s.workers| == n && (forall r :: 0 <= r < n ==> s.workers[r] == Running(None))
    && s.queue == [] && s.results == [] && s.terminated == {} && s.taken == 0 && s.emptied == 0
    && s.clock == start && s.phase == Top
  }

  // ---- the steps --------------------------------------------------------------------------

  /** A worker puts its one message on the queue. */
  ghost predicate Reports(s: State, t: State, r: nat, m: Message)
  {
    && r < |s.workers| && s.workers[r] == Running(None) && m.From() == r
    && t == s.(workers := s.workers[r := Running(Some(m))], queue := s.queue + [m])
  }

  /** A worker ends, at any time and with any code: normally after its report, or killed. */
  ghost predicate Exits(s: State, t: State, r: nat, code: int)
  {
    && r < |s.workers| && s.workers[r].Running?
    && t == s.(workers := s.workers[r := Exited(code, s.workers[r].sent)])
  }

  ghost predicate Ticks(s: State, t: State)
  {
    t.clock >= s.clock && t == s.(clock := t.clock)
  }

  /** The parent takes the oldest message. */
  function Taken(s: State): (t: State)
    requires s.queue != []
  {
    var next := s.(queue := s.queue[1..], taken := s.taken + 1);
    match s.queue[0]
    case Err(rank) => next.(phase := Cleanup(Failed(rank), 0))
    case Ok(payload) => next.(phase := Top, results := s.results + [payload])
  }

  predicate ExitedBadly(w: Worker)
  {
    w.Exited? && w.code != 0
  }

  /** One step of the parent. */
  ghost predicate Collects(s: State, t: State, start: real)
  {
    var n := |s.workers|;
    match s.phase
    case Top =>
      if |s.results| >= n then t == s.(phase := Cleanup(Returned, 0))
      else if s.clock > start + DEADLINE then t == s.(phase := Cleanup(TimedOut, 0))
      else t == s.(phase := Get(s.clock))
    case Get(since) =>
      || (s.queue != [] && t == Taken(s))
      || (s.clock >= since + GET_TIMEOUT && t == s.(phase := Poll(0, []), emptied := s.emptied + 1))
    case Poll(next, dead) =>
      if next < n then t == s.(phase := Poll(next + 1, if ExitedBadly(s.workers[next]) then dead + [next] else dead))
      else if dead != [] then t == s.(phase := Cleanup(Died(dead), 0))
      else t == s.(phase := Top)
    case Cleanup(outcome, next) =>
      if next < n then
        t == s.(phase := Join(outcome, next, s.clock),
                terminated := if s.workers[next].Running? && |s.results| < n then s.terminated + {next}
                  else s.terminated)
      else t == s.(phase := Done(outcome))
    case Join(outcome, next, since) =>
      && next < n && (s.workers[next].Exited? || s.clock >= since + JOIN_TIMEOUT)
      && t == s.(phase := Cleanup(outcome, next + 1))
    case Done(_) => false
  }

  ghost predicate Next(s: State, t: State, start: real)
  {
    || (exists r: nat, m :: Reports(s, t, r, m))
    || (exists r: nat, code: int :: Exits(s, t, r, code))
    || Ticks(s, t)
    || Collects(s, t, start)
  }

  ghost predicate Run(run: seq<State>, n: nat, start: real)
  {
    run != [] && Initial(run[0], n, start) && forall i :: 0 <= i < |run| - 1 ==> Next(run[i], run[i + 1], start)
  }

  // ---- the invariant ----------------------------------------------------------------------

  /** The messages sent so far that carry no failure or were not yet read, oldest first. */
  function Messages(s: State): (ms: seq<Message>)
  {
    seq(|s.results|, i requires 0 <= i < |s.results| => Ok(s.results[i])) + s.queue
  }

  /** Each is what its worker sent, and no worker sent two. */
  ghost predicate Genuine(s: State)
  {
    var ms := Messages(s);
    && (forall i :: 0 <= i < |ms| ==> Sent(s, ms[i]))
    && forall i, j :: 0 <= i < j < |ms| ==> ms[i].From() != ms[j].From()
  }

  ghost predicate Sent(s: State, m: Message)
  {
    m.From() < |s.workers| && s.workers[m.From()].sent == Some(m)
  }

  /** Reads that run out of time take five seconds each. */
  ghost predicate Timed(s: State, start: real)
  {
    && s.clock >= start + GET_TIMEOUT * s.emptied as real
    && s.emptied <= MAX_EMPTIED
    && (s.phase.Get? ==>
          start + GET_TIMEOUT * s.emptied as real <= s.phase.since <= s.clock && s.phase.since <= start + DEADLINE)
  }

  ghost predicate AllExitedBadly(s: State, dead: seq<nat>)
  {
    forall i :: 0 <= i < |dead| ==> dead[i] < |s.workers| && ExitedBadly(s.workers[dead[i]])
  }

  /** What each way out means. */
  ghost predicate Justified(s: State, outcome: Outcome, start: real)
  {
    && (outcome.Returned? <==> |s.results| == |s.workers|)
    && match outcome
       case Returned => s.terminated == {}
       case TimedOut => s.clock > start + 1080.0
       case Failed(rank) => Sent(s, Err(rank))
       case Died(dead) => dead != [] && AllExitedBadly(s, dead)
  }

  /** Workers below `k` are out or have been told to end. */
  ghost predicate Stopped(s: State, k: nat)
  {
    k <= |s.workers| && forall r :: 0 <= r < k ==> s.workers[r].Exited? || r in s.terminated
  }

  ghost predicate PhaseHolds(s: State, start: real)
  {
    match s.phase
    case Top => s.terminated == {} && s.taken == |s.results| <= |s.workers|
    case Get(_) => s.terminated == {} && s.taken == |s.results| < |s.workers|
    case Poll(next, dead) =>
      s.terminated == {} && s.taken == |s.results| < |s.workers| && next <= |s.workers| && AllExitedBadly(s, dead)
    case Cleanup(outcome, next) => Closing(s, outcome, next, start) && next <= |s.workers|
    case Join(outcome, next, _) => next < |s.workers| && Closing(s, outcome, next + 1, start)
    case Done(outcome) => Closing(s, outcome, |s.workers|, start)
  }

  ghost predicate Closing(s: State, outcome: Outcome, k: nat, start: real)
  {
    && Justified(s, outcome, start) && s.taken <= |s.workers| && |s.results| <= |s.workers|
    && (outcome != Returned ==> Stopped(s, k))
    && forall r :: r in s.terminated ==> r < k
  }

  ghost predicate Inv(s: State, n: nat, start: real)
  {
    |s.workers| == n && Genuine(s) && Timed(s, start) && PhaseHolds(s, start)
  }

  lemma InitialInv(s: State, n: nat, start: real)
    requires Initial(s, n, start)
    ensures Inv(s, n, start)
  {
  }

  lemma ReportsKeepsInv(s: State, t: State, r: nat, m: Message, n: nat, start: real)
    requires Inv(s, n, start) && Reports(s, t, r, m)
    ensures Inv(t, n, start)
  {
    assert Messages(t) == Messages(s) + [m];
    assert forall k: Message :: Sent(s, k) ==> Sent(t, k) && k.From() != r;
    assert t.phase == s.phase;
  }

  lemma ExitsKeepsInv(s: State, t: State, r: nat, code: int, n: nat, start: real)
    requires Inv(s, n, start) && Exits(s, t, r, code)
    ensures Inv(t, n, start)
  {
    assert Messages(t) == Messages(s);
    assert forall k: Message :: Sent(s, k) ==> Sent(t, k);
  }

  lemma TicksKeepsInv(s: State, t: State, n: nat, start: real)
    requires Inv(s, n, start) && Ticks(s, t)
    ensures Inv(t, n, start)
  {
    assert Messages(t) == Messages(s);
  }

  lemma TakenIsGenuine(s: State)
    requires Genuine(s) && s.queue != []
    ensures Sent(s, s.queue[0]) && Genuine(Taken(s))
  {
    var t, k := Taken(s), |s.results|;
    assert Messages(s)[k] == s.queue[0];
    if s.queue[0].Ok? {
      assert Messages(t) == Messages(s);
    } else {
      assert Messages(t) == Messages(s)[..k] + Messages(s)[k + 1..];
    }
  }

  lemma TakenKeepsInv(s: State, n: nat, start: real)
    requires Inv(s, n, start) && s.phase.Get? && s.queue != []
    ensures Inv(Taken(s), n, start)
  {
    hide Genuine;
    TakenIsGenuine(s);
    if s.queue[0].Err? { assert Sent(Taken(s), Err(s.queue[0].rank)); }
  }

  lemma CollectsKeepsInv(s: State, t: State, n: nat, start: real)
    requires Inv(s, n, start) && Collects(s, t, start)
    ensures Inv(t, n, start)
  {
    if s.phase.Get? && s.queue != [] && t == Taken(s) {
      TakenKeepsInv(s, n, start);
    } else {
      assert Messages(t) == Messages(s);
    }
  }

  lemma NextKeepsInv(s: State, t: State, n: nat, start: real)
    requires Inv(s, n, start) && Next(s, t, start)
    ensures Inv(t, n, start)
  {
    hide Inv, Reports, Exits, Ticks, Collects;
    if r: nat, m :| Reports(s, t, r, m) {
      ReportsKeepsInv(s, t, r, m, n, start);
    } else if r: nat, code: int :| Exits(s, t, r, code) {
      ExitsKeepsInv(s, t, r, code, n, start);
    } else if Ticks(s, t) {
      TicksKeepsInv(s, t, n, start);
    } else {
      CollectsKeepsInv(s, t, n, start);
    }
  }

  lemma {:induction false} RunKeepsInv(run: seq<State>, n: nat, start: real)
    requires Run(run, n, start)
    ensures Inv(run[|run| - 1], n, start)
    decreases |run|
  {
    hide Inv, Next;
    if |run| == 1 {
      InitialInv(run[0], n, start);
    } else {
      RunKeepsInv(run[..|run| - 1], n, start);
      assert run[..|run| - 1][|run| - 2] == run[|run| - 2];
      NextKeepsInv(run[|run| - 2], run[|run| - 1], n, start);
    }
  }

  // ---- safety -----------------------------------------------------------------------------

  ghost predicate DistinctRanks(results: seq<Payload>, n: nat)
  {
    && |results| == n && (forall i :: 0 <= i < n ==> results[i].rank < n)
    && forall i, j :: 0 <= i < j < n ==> results[i].rank != results[j].rank
  }

  /** The results hold what worker `r` reported. */
  ghost predicate ResultOf(s: State, r: nat)
    requires r < |s.workers|
  {
    exists i :: 0 <= i < |s.results| && s.results[i].rank == r && s.workers[r].sent == Some(Ok(s.results[i]))
  }

  lemma ReturnedDistinct(s: State, n: nat, start: real)
    requires Inv(s, n, start) && |s.results| == n
    ensures DistinctRanks(s.results, n) && forall i :: 0 <= i < n ==> Sent(s, Ok(s.results[i]))
  {
    var ms := Messages(s);
    assert forall i :: 0 <= i < n ==> ms[i] == Ok(s.results[i]);
    forall i | 0 <= i < n ensures Sent(s, Ok(s.results[i])) {
      assert Sent(s, ms[i]);
    }
    forall i, j | 0 <= i < j < n ensures s.results[i].rank != s.results[j].rank {
      assert ms[i].From() != ms[j].From();
    }
  }

  lemma ReturnedHasAll(s: State, n: nat, start: real, r: nat)
    requires Inv(s, n, start) && |s.results| == n && r < n
    ensures ResultOf(s, r)
  {
    ReturnedDistinct(s, n, start);
    var i := EveryRankOnce(s.results, n, r);
    assert Sent(s, Ok(s.results[i]));
  }

  /** A normal return carries what every rank reported, one result each, and nobody was terminated. */
  lemma NormalReturn(run: seq<State>, n: nat, start: real)
    requires Run(run, n, start) && run[|run| - 1].phase == Done(Returned)
    ensures var s := run[|run| - 1];
            && |s.workers| == n && DistinctRanks(s.results, n) && s.terminated == {}
            && forall r: nat :: r < n ==> ResultOf(s, r)
  {
    RunKeepsInv(run, n, start);
    var s := run[|run| - 1];
    ReturnedDistinct(s, n, start);
    forall r: nat | r < n ensures ResultOf(s, r) {
      ReturnedHasAll(s, n, start, r);
    }
  }

  /** Any other way out has a reason, misses a result, and leaves no worker untold: each has ended by
      itself or was told to. */
  lemma AbnormalExit(run: seq<State>, n: nat, start: real, outcome: Outcome)
    requires Run(run, n, start) && run[|run| - 1].phase == Done(outcome) && outcome != Returned
    ensures var s := run[|run| - 1];
            && |s.workers| == n && |s.results| < n && Justified(s, outcome, start)
            && forall r :: 0 <= r < n ==> s.workers[r].Exited? || r in s.terminated
  {
    RunKeepsInv(run, n, start);
  }

  /** How many workers the clean-up has dealt with. */
  function Settled(s: State): (k: nat)
  {
    match s.phase
    case Cleanup(_, next) => next
    case Join(_, next, _) => next + 1
    case Done(_) => |s.workers|
    case _ => 0
  }

  lemma SettledStays(s: State, t: State, n: nat, start: real, r: nat)
    requires Inv(s, n, start) && Next(s, t, start) && r < Settled(s)
    ensures r < Settled(t) && (r in t.terminated <==> r in s.terminated)
  {
    hide Genuine, Timed, Justified, Stopped;
  }

  lemma {:induction false} SettledUntilNow(run: seq<State>, n: nat, start: real, i: nat, r: nat)
    requires Run(run, n, start) && i < |run| && r < Settled(run[i])
    ensures r < Settled(run[|run| - 1]) && (r in run[|run| - 1].terminated <==> r in run[i].terminated)
    decreases |run|
  {
    hide Next, Inv, Settled;
    if i < |run| - 1 {
      var shorter := run[..|run| - 1];
      assert Run(shorter, n, start);
      SettledUntilNow(shorter, n, start, i, r);
      RunKeepsInv(shorter, n, start);
      SettledStays(run[|run| - 2], run[|run| - 1], n, start, r);
    }
  }

  /** A worker is terminated exactly if it was alive when the clean-up of a failed collection got
      to it. */
  lemma TerminatedExactly(run: seq<State>, n: nat, start: real, i: nat, outcome: Outcome, r: nat)
    requires Run(run, n, start) && i + 1 < |run| && r < n
    requires run[i].phase == Cleanup(outcome, r) && run[i + 1].phase.Join?
    ensures r in run[|run| - 1].terminated <==> run[i].workers[r].Running? && outcome != Returned
  {
    var before := run[..i + 1];
    assert before[|before| - 1] == run[i];
    RunKeepsInv(before, n, start);
    assert Next(run[i], run[i + 1], start);
    SettledUntilNow(run, n, start, i + 1, r);
  }

  // ---- termination ------------------------------------------------------------------------

  /** Every pass of the loop reads a message or waits five seconds. */
  lemma ReadsBounded(run: seq<State>, n: nat, start: real)
    requires Run(run, n, start)
    ensures var s := run[|run| - 1]; s.taken + s.emptied <= n + 217
  {
    RunKeepsInv(run, n, start);
  }

  function Times(a: nat, b: nat): (p: nat) { a * b }

  lemma OneLess(a: nat, b: nat)
    requires a > 0
    ensures Times(a, b) == Times(a - 1, b) + b
  {
  }

  /** Steps that the parent has left in its current pass, and in the passes after it. */
  function Rest(s: State): (steps: int)
  {
    var n := |s.workers|;
    match s.phase
    case Top => Passes(s) + 2 * n + 3
    case Get(_) => Passes(s) + 2 * n + 2
    case Poll(next, _) => Passes(s) + 3 * n + 4 - next
    case Cleanup(_, next) => 2 * (n - next) + 1
    case Join(_, next, _) => 2 * (n - next)
    case Done(_) => 0
  }

  function Passes(s: State): (steps: nat)
  {
    var n, got := |s.workers|, s.taken + s.emptied;
    if got <= n + MAX_EMPTIED then Times(n + MAX_EMPTIED - got, n + 3) else 0
  }

  lemma ParentAdvances(s: State, t: State, n: nat, start: real)
    requires Inv(s, n, start) && Collects(s, t, start)
    ensures 0 <= Rest(t) < Rest(s)
  {
    hide Genuine, Justified, Stopped, Times;
    if s.phase.Get? {
      OneLess(n + MAX_EMPTIED - (s.taken + s.emptied), n + 3);
    }
  }

  /** Steps of the parent in a run; the others leave its phase alone. */
  ghost function ParentSteps(run: seq<State>, start: real): (k: nat)
  {
    if |run| < 2 then 0
    else ParentSteps(run[..|run| - 1], start) + if Collects(run[|run| - 2], run[|run| - 1], start) then 1 else 0
  }

  function Budget(n: nat): (steps: nat)
  {
    Times(n + MAX_EMPTIED, n + 3) + 2 * n + 3
  }

  /** Whatever the workers and the clock do, the parent is done after a number of steps that only
      the world size decides. */
  lemma {:induction false} ParentEnds(run: seq<State>, n: nat, start: real)
    requires Run(run, n, start)
    ensures 0 <= Rest(run[|run| - 1]) && ParentSteps(run, start) + Rest(run[|run| - 1]) <= Budget(n)
    ensures Budget(n) == (n + 217) * (n + 3) + 2 * n + 3
    decreases |run|
  {
    BudgetIs(n);
    hide Times, Inv, Next, Collects, Budget;
    if |run| == 1 { StartsWithin(run[0], n); }
    if |run| > 1 {
      var shorter, s, t := run[..|run| - 1], run[|run| - 2], run[|run| - 1];
      assert Run(shorter, n, start);
      ParentEnds(shorter, n, start);
      RunKeepsInv(shorter, n, start);
      assert shorter[|shorter| - 1] == s;
      if Collects(s, t, start) {
        ParentAdvances(s, t, n, start);
      } else {
        OthersWait(s, t, n, start);
      }
    }
  }

  lemma BudgetIs(n: nat)
    ensures Budget(n) == (n + 217) * (n + 3) + 2 * n + 3
  {
  }

  lemma StartsWithin(s: State, n: nat)
    requires |s.workers| == n && s.phase == Top && s.taken == 0 && s.emptied == 0
    ensures 0 <= Rest(s) == Budget(n)
  {
  }

  lemma OthersWait(s: State, t: State, n: nat, start: real)
    requires Inv(s, n, start) && Next(s, t, start) && !Collects(s, t, start)
    ensures Rest(t) == Rest(s)
  {
    hide Genuine, Justified, Stopped, Times, Collects;
  }

  /** The parent is never stuck: once enough time has passed it can move. */
  lemma NeverStuck(s: State, n: nat, start: real)
    requires Inv(s, n, start) && !s.phase.Done?
    ensures exists later: State, t: State :: Ticks(s, later) && Collects(later, t, start)
  {
    hide Genuine, Justified, Stopped;
    var since := if s.phase.Get? || s.phase.Join? then s.phase.since else s.clock;
    var clock := if s.clock >= since + JOIN_TIMEOUT then s.clock else since + JOIN_TIMEOUT;
    var later := if s.phase.Get? || s.phase.Join? then s.(clock := clock) else s;
    assert later.clock >= s.clock;
    assert Ticks(s, later);
    var t := Moved(later, start);
    assert Collects(later, t, start);
  }

  /** The parent waits on the queue until there is a message or five seconds are over, and for a worker
      until it has ended or ten seconds are over. */
  lemma WaitsExactly(s: State, n: nat, start: real)
    requires Inv(s, n, start)
    ensures s.phase.Get? ==>
              ((exists t: State :: Collects(s, t, start)) <==> s.queue != [] || s.clock >= s.phase.since + 5.0)
    ensures s.phase.Join? ==>
              ((exists t: State :: Collects(s, t, start)) <==>
               s.workers[s.phase.next].Exited? || s.clock >= s.phase.since + 10.0)
  {
    hide Genuine, Justified, Stopped;
    if s.phase.Get? && s.queue != [] { assert Collects(s, Taken(s), start); }
    if s.phase.Get? && s.clock >= s.phase.since + 5.0 { assert Collects(s, Moved(s, start), start); }
    if s.phase.Join? && (s.workers[s.phase.next].Exited? || s.clock >= s.phase.since + 10.0) {
      assert Collects(s, Moved(s, start), start);
    }
  }

  /** Messages are read in the order in which they were put, and every result is kept in that order; only
      the news of a failure is dropped, and that ends the collection. */
  lemma ReadsInOrder(s: State, t: State, n: nat, start: real)
    requires Inv(s, n, start) && Next(s, t, start)
    ensures Messages(s) <= Messages(t)
         || (s.phase.Get? && s.queue != [] && s.queue[0].Err? && t.phase == Cleanup(Failed(s.queue[0].rank), 0)
             && t.results == s.results && t.queue == s.queue[1..])
  {
    hide Genuine, Timed, Justified, Stopped;
    if t.results == s.results && s.queue <= t.queue {
      assert Messages(t) == Messages(s) + t.queue[|s.queue|..];
    } else if s.queue != [] && t == Taken(s) && s.queue[0].Ok? {
      assert Messages(t) == Messages(s);
    }
  }

  /** One possible step of the parent. */
  function Moved(s: State, start: real): (t: State)
  {
    var n := |s.workers|;
    match s.phase
    case Top =>
      s.(phase := if |s.results| >= n then Cleanup(Returned, 0)
         else if s.clock > start + DEADLINE then Cleanup(TimedOut, 0) else Get(s.clock))
    case Get(since) => s.(phase := Poll(0, []), emptied := s.emptied + 1)
    case Poll(next, dead) =>
      if next < n then s.(phase := Poll(next + 1, if ExitedBadly(s.workers[next]) then dead + [next] else dead))
      else s.(phase := if dead != [] then Cleanup(Died(dead), 0) else Top)
    case Cleanup(outcome, next) =>
      if next < n then
        s.(phase := Join(outcome, next, s.clock),
           terminated := if s.workers[next].Running? && |s.results| < n then s.terminated + {next} else s.terminated)
      else s.(phase := Done(outcome))
    case Join(outcome, next, since) => s.(phase := Cleanup(outcome, next + 1))
    case Done(_) => s
  }

  // ---- "exited without a result" ----------------------------------------------------------

  /** Step `i` of the run looks at worker `r`, and the look at all workers ends with step `e`. */
  ghost predicate LooksAt(run: seq<State>, i: nat, e: nat, r: nat)
  {
    && i < e < |run| && run[i].phase.Poll? && run[i].phase.next == r < |run[i].workers|
    && run[i + 1].phase.Poll? && run[i + 1].phase.next == r + 1
    && (forall k :: i < k < e ==> run[k].phase.Poll?)
    && !run[e].phase.Poll?
  }

  /** Such a look after which the parent gives up on `dead`. */
  ghost predicate PolledAt(run: seq<State>, i: nat, e: nat, r: nat, dead: seq<nat>)
  {
    LooksAt(run, i, e, r) && run[e].phase == Cleanup(Died(dead), 0)
  }

  lemma PollStep(s: State, t: State, n: nat, start: real, r: nat)
    requires Inv(s, n, start) && Next(s, t, start) && s.phase.Poll? && t.phase.Poll? && r < s.phase.next
    ensures r < t.phase.next && (r in t.phase.dead <==> r in s.phase.dead)
  {
    hide Genuine, Timed;
  }

  /** While the look goes on, what it found about `r` stays. */
  lemma {:induction false} PollKeeps(run: seq<State>, n: nat, start: real, i: nat, k: nat, r: nat)
    requires Run(run, n, start) && i <= k < |run| && run[i].phase.Poll? && r < run[i].phase.next
    requires forall j :: i < j <= k ==> run[j].phase.Poll?
    ensures run[k].phase.Poll? && r < run[k].phase.next && (r in run[k].phase.dead <==> r in run[i].phase.dead)
    decreases k
  {
    hide Inv, Next;
    if i < k {
      PollKeeps(run, n, start, i, k - 1, r);
      InvAt(run, n, start, k - 1);
      assert Next(run[k - 1], run[k], start);
      PollStep(run[k - 1], run[k], n, start, r);
    }
  }

  lemma InvAt(run: seq<State>, n: nat, start: real, k: nat)
    requires Run(run, n, start) && k < |run|
    ensures Inv(run[k], n, start)
  {
    hide Inv, Next, Initial;
    var prefix := run[..k + 1];
    assert Run(prefix, n, start);
    RunKeepsInv(prefix, n, start);
  }

  /** The look at `r` itself finds it dead exactly if it has ended badly by then. Nobody below `r` was
      looked at twice. */
  lemma PollFinds(s: State, t: State, n: nat, start: real, r: nat)
    requires Inv(s, n, start) && Next(s, t, start) && s.phase.Poll? && s.phase.next == r < n
    requires t.phase.Poll? && t.phase.next == r + 1 && r !in s.phase.dead
    ensures r in t.phase.dead <==> ExitedBadly(s.workers[r])
  {
    hide Genuine, Timed;
  }

  /** Only workers that were looked at are on the list. */
  ghost predicate PollInOrder(s: State)
  {
    s.phase.Poll? ==> forall j :: 0 <= j < |s.phase.dead| ==> s.phase.dead[j] < s.phase.next
  }

  lemma {:induction false} RunPollsInOrder(run: seq<State>, n: nat, start: real, k: nat)
    requires Run(run, n, start) && k < |run|
    ensures PollInOrder(run[k])
    decreases k
  {
    if k > 0 {
      RunPollsInOrder(run, n, start, k - 1);
      assert Next(run[k - 1], run[k], start);
    }
  }

  lemma LookEnds(s: State, t: State, n: nat, start: real)
    requires Inv(s, n, start) && Next(s, t, start) && s.phase.Poll? && !t.phase.Poll?
    ensures s.phase.next == n && t.workers == s.workers
    ensures t.phase == if s.phase.dead != [] then Cleanup(Died(s.phase.dead), 0) else Top
  {
    hide Genuine, Timed;
  }

  /** A worker that has ended stays as it ended: it sends nothing any more. */
  lemma ExitedStays(s: State, t: State, start: real, r: nat)
    requires Next(s, t, start) && r < |s.workers| && s.workers[r].Exited?
    ensures r < |t.workers| && t.workers[r] == s.workers[r]
  {
  }

  lemma {:induction false} ExitedForGood(run: seq<State>, n: nat, start: real, i: nat, k: nat, r: nat)
    requires Run(run, n, start) && i <= k < |run| && r < |run[i].workers| && run[i].workers[r].Exited?
    ensures r < |run[k].workers| && run[k].workers[r] == run[i].workers[r]
    decreases k
  {
    hide Next;
    if i < k {
      ExitedForGood(run, n, start, i, k - 1, r);
      assert Next(run[k - 1], run[k], start);
      ExitedStays(run[k - 1], run[k], start, r);
    }
  }

  /** A completed look has found exactly the workers that had ended badly when they were looked at, and
      gives up if there are any. */
  lemma LookTells(run: seq<State>, n: nat, start: real, i: nat, e: nat, r: nat)
    requires Run(run, n, start) && LooksAt(run, i, e, r)
    ensures run[e - 1].phase.Poll? && run[e - 1].phase.next == n == |run[i].workers|
    ensures r in run[e - 1].phase.dead <==> ExitedBadly(run[i].workers[r])
    ensures run[e].phase == if run[e - 1].phase.dead != [] then Cleanup(Died(run[e - 1].phase.dead), 0) else Top
  {
    InvAt(run, n, start, i);
    InvAt(run, n, start, e - 1);
    RunPollsInOrder(run, n, start, i);
    assert Next(run[i], run[i + 1], start) && Next(run[e - 1], run[e], start);
    assert |run[i].workers| == n;
    hide Inv, Next;
    PollFinds(run[i], run[i + 1], n, start, r);
    PollKeeps(run, n, start, i + 1, e - 1, r);
    LookEnds(run[e - 1], run[e], n, start);
  }

  /** The error names a worker if and only if it had ended badly when it was looked at; and then it has
      no result in the end, whatever happens later, if and only if it had sent none by that look. */
  lemma DeadHaveNoResult(run: seq<State>, n: nat, start: real, i: nat, e: nat, r: nat, dead: seq<nat>)
    requires Run(run, n, start) && PolledAt(run, i, e, r, dead)
    ensures r in dead <==> run[i].workers[r].Exited? && run[i].workers[r].code != 0
    ensures r in dead ==> r < |run[|run| - 1].workers|
    ensures r in dead ==> (run[|run| - 1].workers[r].sent == None <==> run[i].workers[r].sent == None)
  {
    LookTells(run, n, start, i, e, r);
    if r in dead { ExitedForGood(run, n, start, i, |run| - 1, r); }
  }

  /** Fail fast: a worker that has ended badly by the time it is looked at makes that look end the
      collection, and is named. */
  lemma BadEndIsFound(run: seq<State>, n: nat, start: real, j: nat, i: nat, e: nat, r: nat)
    requires Run(run, n, start) && LooksAt(run, i, e, r) && j <= i
    requires r < |run[j].workers| && run[j].workers[r].Exited? && run[j].workers[r].code != 0
    ensures run[e].phase.Cleanup? && run[e].phase.outcome.Died? && run[e].phase.next == 0
    ensures r in run[e].phase.outcome.dead
  {
    ExitedForGood(run, n, start, j, i, r);
    LookTells(run, n, start, i, e, r);
  }

  /** A completed look gives up if and only if some worker had ended badly when it was looked at;
      otherwise the parent goes back to the queue. */
  lemma LookGivesUpExactly(run: seq<State>, n: nat, start: real, e: nat)
    requires Run(run, n, start) && 0 < e < |run| && run[e - 1].phase.Poll? && !run[e].phase.Poll?
    ensures run[e].phase == Top || (run[e].phase.Cleanup? && run[e].phase.outcome.Died? && run[e].phase.next == 0)
    ensures run[e].phase.Cleanup? <==> exists i: nat, r: nat ::
              LooksAt(run, i, e, r) && run[i].workers[r].Exited? && run[i].workers[r].code != 0
  {
    var dead := run[e - 1].phase.dead;
    InvAt(run, n, start, e - 1);
    RunPollsInOrder(run, n, start, e - 1);
    assert Next(run[e - 1], run[e], start);
    hide Inv, Next;
    LookEnds(run[e - 1], run[e], n, start);
    if dead != [] {
      assert dead[0] < n;
      var i := PolledBefore(run, n, start, e - 1, dead[0]);
      SameWorkers(run, n, start, i);
      assert LooksAt(run, i, e, dead[0]);
      LookTells(run, n, start, i, e, dead[0]);
    }
    forall i: nat, r: nat | LooksAt(run, i, e, r) && ExitedBadly(run[i].workers[r]) ensures run[e].phase.Cleanup? {
      BadEndIsFound(run, n, start, i, i, e, r);
    }
  }

  lemma SameWorkers(run: seq<State>, n: nat, start: real, k: nat)
    requires Run(run, n, start) && k < |run|
    ensures |run[k].workers| == n
  {
    InvAt(run, n, start, k);
  }

  /** Only a finished look leads to this way out, and it begins the clean-up. */
  lemma DiedBegins(s: State, t: State, n: nat, start: real, dead: seq<nat>)
    requires Inv(s, n, start) && Next(s, t, start) && Leaves(t, Died(dead))
    ensures Leaves(s, Died(dead)) || (s.phase.Poll? && s.phase.next == n && t.phase == Cleanup(Died(dead), 0))
  {
    hide Genuine, Timed;
  }

  ghost predicate Leaves(s: State, outcome: Outcome)
  {
    match s.phase
    case Cleanup(o, _) => o == outcome
    case Join(o, _, _) => o == outcome
    case Done(o) => o == outcome
    case _ => false
  }

  lemma {:induction false} WhereItDied(run: seq<State>, n: nat, start: real, k: nat, dead: seq<nat>) returns (e: nat)
    requires Run(run, n, start) && k < |run| && Leaves(run[k], Died(dead))
    ensures 0 < e <= k && run[e].phase == Cleanup(Died(dead), 0) && run[e - 1].phase.Poll? && run[e - 1].phase.next == n
    decreases k
  {
    hide Inv, Next;
    assert k > 0;
    InvAt(run, n, start, k - 1);
    assert Next(run[k - 1], run[k], start);
    DiedBegins(run[k - 1], run[k], n, start, dead);
    if Leaves(run[k - 1], Died(dead)) {
      e := WhereItDied(run, n, start, k - 1, dead);
    } else {
      e := k;
    }
  }

  lemma PollAdvances(s: State, t: State, n: nat, start: real)
    requires Inv(s, n, start) && Next(s, t, start) && t.phase.Poll? && t.phase.next > 0
    ensures s.phase.Poll? && s.phase.next <= t.phase.next <= s.phase.next + 1
  {
    hide Genuine, Timed;
  }

  /** The look at all workers passes each of them. */
  lemma {:induction false} PolledBefore(run: seq<State>, n: nat, start: real, k: nat, r: nat) returns (i: nat)
    requires Run(run, n, start) && k < |run| && run[k].phase.Poll? && r < run[k].phase.next
    ensures i < k && run[i].phase.Poll? && run[i].phase.next == r
    ensures run[i + 1].phase.Poll? && run[i + 1].phase.next == r + 1
    ensures forall j :: i < j <= k ==> run[j].phase.Poll?
    decreases k
  {
    hide Inv, Next;
    assert k > 0;
    InvAt(run, n, start, k - 1);
    assert Next(run[k - 1], run[k], start);
    PollAdvances(run[k - 1], run[k], n, start);
    if run[k - 1].phase.next == r {
      i := k - 1;
    } else {
      i := PolledBefore(run, n, start, k - 1, r);
    }
  }

  /** The error is complete: every worker was looked at, and the dead are exactly those that had ended
      badly by their look. */
  lemma DeadAreAllFound(run: seq<State>, n: nat, start: real, dead: seq<nat>, r: nat) returns (i: nat, e: nat)
    requires Run(run, n, start) && run[|run| - 1].phase == Done(Died(dead)) && r < n
    ensures PolledAt(run, i, e, r, dead) && r < |run[i].workers|
    ensures r in dead <==> run[i].workers[r].Exited? && run[i].workers[r].code != 0
  {
    e := WhereItDied(run, n, start, |run| - 1, dead);
    i := PolledBefore(run, n, start, e - 1, r);
    SameWorkers(run, n, start, i);
    DeadHaveNoResult(run, n, start, i, e, r, dead);
  }

  /** What leaving the loop says about the workers. */
  lemma LeavingTells(s: State, n: nat, start: real, outcome: Outcome, r: nat)
    requires Inv(s, n, start) && Leaves(s, outcome) && r < n
    ensures outcome.Returned? ==> s.workers[r].sent.Some?
    ensures outcome.Failed? ==> exists w :: 0 <= w < n && s.workers[w].sent == Some(Err(w))
    ensures outcome.Died? ==> exists w :: 0 <= w < n && ExitedBadly(s.workers[w])
    ensures outcome.TimedOut? ==> s.clock > start + 1080.0
  {
    match outcome
    case Returned => ReturnedHasAll(s, n, start, r);
    case Failed(rank) => assert s.workers[rank].sent == Some(Err(rank));
    case Died(dead) => assert ExitedBadly(s.workers[dead[0]]);
    case TimedOut =>
  }

  /** A worker that ends with code 0 and without a report is waited for: if the loop was left, while some
      worker has sent nothing, nobody ended badly and nobody sent an error, the deadline has passed. */
  lemma SilentExitIsWaitedFor(run: seq<State>, n: nat, start: real, outcome: Outcome, r: nat)
    requires Run(run, n, start) && Leaves(run[|run| - 1], outcome) && r < n
    requires var s := run[|run| - 1];
             && |s.workers| == n && s.workers[r].sent == None
             && forall w :: 0 <= w < n ==> (s.workers[w].Exited? ==> s.workers[w].code == 0)
                                           && s.workers[w].sent != Some(Err(w))
    ensures outcome == TimedOut && run[|run| - 1].clock > start + 1080.0
  {
    RunKeepsInv(run, n, start);
    LeavingTells(run[|run| - 1], n, start, outcome, r);
  }

  /** No step of the run takes longer than one wait for the queue. */
  ghost predicate Prompt(run: seq<State>)
  {
    forall k :: 0 <= k < |run| - 1 ==> run[k + 1].clock <= run[k].clock + 5.0
  }

  /** A parent back at the top of its loop after `k` waits for a lone worker that left with code 0 and no
      word. */
  function Waiting(k: nat): (s: State)
  {
    State([Exited(0, None)], [], k as real * 5.0, Top, [], {}, 0, k)
  }

  /** It goes on waiting for as long as the deadline has not passed. */
  lemma {:induction false} WaitsAgain(k: nat) returns (run: seq<State>)
    requires k <= MAX_EMPTIED
    ensures Run(run, 1, 0.0) && Prompt(run) && |run| >= 2 && run[1] == Waiting(0) && run[|run| - 1] == Waiting(k)
  {
    if k == 0 {
      var s := Waiting(0).(workers := [Running(None)]);
      assert Exits(s, Waiting(0), 0, 0) && Initial(s, 1, 0.0);
      run := [s];
      run := Then(run, Waiting(0), 1, 0.0);
    } else {
      run := WaitsAgain(k - 1);
      run := OneWait(run, k - 1);
    }
  }

  lemma OneWait(run: seq<State>, k: nat) returns (longer: seq<State>)
    requires Run(run, 1, 0.0) && Prompt(run) && |run| >= 2 && run[|run| - 1] == Waiting(k) && k < MAX_EMPTIED
    ensures Run(longer, 1, 0.0) && Prompt(longer) && longer[|longer| - 1] == Waiting(k + 1)
    ensures |longer| >= 2 && longer[..2] == run[..2]
  {
    var s0 := Waiting(k);
    var s1 := s0.(phase := Get(s0.clock));
    var s2 := s1.(clock := s1.clock + GET_TIMEOUT);
    var s3 := s2.(phase := Poll(0, []), emptied := k + 1);
    var s4 := s3.(phase := Poll(1, []));
    assert Waiting(k + 1) == s4.(phase := Top);
    assert Collects(s0, s1, 0.0) && Ticks(s1, s2);
    assert Collects(s2, s3, 0.0) && Collects(s3, s4, 0.0) && Collects(s4, Waiting(k + 1), 0.0);
    hide Collects, Ticks, Waiting, Next;
    longer := Then(run, s1, 1, 0.0);
    longer := Then(longer, s2, 1, 0.0);
    longer := Then(longer, s3, 1, 0.0);
    longer := Then(longer, s4, 1, 0.0);
    longer := Then(longer, Waiting(k + 1), 1, 0.0);
  }

  /** Such a run ends in a time-out: wait after wait the parent never learns that the worker has gone. */
  lemma SilentExitTimesOut() returns (run: seq<State>)
    ensures Run(run, 1, 0.0) && Prompt(run)
    ensures var s := run[|run| - 1];
            && s.workers == [Exited(0, None)] && s.phase == Cleanup(TimedOut, 0)
            && |run| > 1 && run[1].workers == s.workers && run[1].clock == 0.0
            && s.emptied == 217 && s.clock == 1085.0
  {
    run := WaitsAgain(MAX_EMPTIED);
    var s := Waiting(MAX_EMPTIED);
    assert Collects(s, s.(phase := Cleanup(TimedOut, 0)), 0.0);
    run := Then(run, s.(phase := Cleanup(TimedOut, 0)), 1, 0.0);
  }

  /** A worker that reports and then ends badly is named too, result and all. */
  lemma DeadWorkerHadReported() returns (run: seq<State>)
    ensures Run(run, 2, 0.0)
    ensures var s := run[|run| - 1];
            |s.workers| == 2 && s.phase == Cleanup(Died([0]), 0) && s.workers[0].sent == Some(Ok(Payload(0, map[])))
              && s.results == [Payload(0, map[])]
  {
    var m := Ok(Payload(0, map[]));
    var s0 := State([Running(None), Running(None)], [], 0.0, Top, [], {}, 0, 0);
    var s1 := s0.(workers := [Running(Some(m)), Running(None)], queue := [m]);
    var s2 := s1.(phase := Get(0.0));
    var s3 := s2.(queue := [], phase := Top, results := [m.payload], taken := 1);
    var s4 := s3.(workers := [Exited(1, Some(m)), Running(None)]);
    var s5 := s4.(phase := Get(0.0));
    var s6 := s5.(clock := 5.0);
    var s7 := s6.(phase := Poll(0, []), emptied := 1);
    var s8 := s7.(phase := Poll(1, [0]));
    var s9 := s8.(phase := Poll(2, [0]));
    var s10 := s9.(phase := Cleanup(Died([0]), 0));
    assert Reports(s0, s1, 0, m);
    assert Collects(s1, s2, 0.0);
    assert Collects(s2, s3, 0.0) by { assert s2.queue[1..] == []; }
    assert Exits(s3, s4, 0, 1);
    assert Collects(s4, s5, 0.0);
    assert Ticks(s5, s6);
    var nobody: seq<nat> := [];
    assert nobody + [0] == [0];
    assert Collects(s6, s7, 0.0) && Collects(s7, s8, 0.0) && Collects(s8, s9, 0.0) && Collects(s9, s10, 0.0);
    run := [s0];
    assert Initial(s0, 2, 0.0);
    hide Collects, Reports, Exits, Ticks, Initial;
    run := Then(run, s1, 2, 0.0);
    run := Then(run, s2, 2, 0.0);
    run := Then(run, s3, 2, 0.0);
    run := Then(run, s4, 2, 0.0);
    run := Then(run, s5, 2, 0.0);
    run := Then(run, s6, 2, 0.0);
    run := Then(run, s7, 2, 0.0);
    run := Then(run, s8, 2, 0.0);
    run := Then(run, s9, 2, 0.0);
    run := Then(run, s10, 2, 0.0);
  }

  lemma Then(run: seq<State>, t: State, n: nat, start: real) returns (longer: seq<State>)
    requires Run(run, n, start) && Next(run[|run| - 1], t, start)
    ensures longer != [] && Run(longer, n, start) && longer[|longer| - 1] == t && longer == run + [t]
  {
    hide Next, Initial;
    longer := run + [t];
  }

  // ---- what the parent does with the results ----------------------------------------------

  function ByRank(results: seq<Payload>): (perRank: seq<Payload>)
  {
    SortBy((a: Payload, b: Payload) => a.rank <= b.rank, results)
  }

  lemma {:induction false} AtMostOnce(results: seq<Payload>, x: Payload)
    requires forall i, j :: 0 <= i < j < |results| ==> results[i].rank != results[j].rank
    ensures multiset(results)[x] <= 1
    decreases |results|
  {
    if results != [] {
      var init, last := results[..|results| - 1], results[|results| - 1];
      assert results == init + [last];
      AtMostOnce(init, x);
      assert x == last ==> x !in init;
    }
  }

  /** Sorted by rank, the results of a normal return stand at their own ranks. */
  lemma ByRankIsIndexed(results: seq<Payload>, n: nat)
    requires DistinctRanks(results, n)
    ensures var perRank := ByRank(results); |perRank| == n && forall r :: 0 <= r < n ==> perRank[r].rank == r
  {
    var perRank := ByRank(results);
    assert |perRank| == |multiset(perRank)| == n;
    forall i | 0 <= i < n ensures perRank[i].rank < n {
      assert perRank[i] in multiset(perRank);
    }
    forall i, j | 0 <= i < j < n ensures perRank[i].rank < perRank[j].rank {
      RanksDiffer(results, perRank, n, i, j);
    }
    forall r | 0 <= r < n ensures perRank[r].rank == r {
      ClimbsByOne(perRank, 0, r);
      ClimbsByOne(perRank, r, n - 1);
    }
  }

  lemma RanksDiffer(results: seq<Payload>, perRank: seq<Payload>, n: nat, i: nat, j: nat)
    requires DistinctRanks(results, n) && multiset(perRank) == multiset(results) && i < j < |perRank|
    ensures perRank[i].rank != perRank[j].rank
  {
    var x, y := perRank[i], perRank[j];
    assert x in multiset(results) && y in multiset(results);
    AtMostOnce(results, x);
    assert perRank == perRank[..j] + [y] + perRank[j + 1..];
    assert x in perRank[..j];
    assert multiset(perRank)[x] >= 1 + multiset([y])[x];
  }

  lemma {:induction false} ClimbsByOne(perRank: seq<Payload>, i: nat, j: nat)
    requires i <= j < |perRank| && forall k, l :: 0 <= k < l < |perRank| ==> perRank[k].rank < perRank[l].rank
    ensures perRank[j].rank - perRank[i].rank >= j - i
    decreases j
  {
    if i < j { ClimbsByOne(perRank, i, j - 1); }
  }

  lemma EveryRankOnce(results: seq<Payload>, n: nat, r: nat) returns (i: nat)
    requires DistinctRanks(results, n) && r < n
    ensures i < n && results[i].rank == r
  {
    ByRankIsIndexed(results, n);
    var x := ByRank(results)[r];
    assert x in multiset(ByRank(results));
    i :| i < n && results[i] == x;
  }

  /** Whether the ranks of a finished probe agree: every report is compared with that of rank 0, which
      settles every pair of ranks. */
  method Probe(results: seq<Payload>, pairs: seq<string>) returns (agree: bool, rank0: Payload)
    requires results != [] && DistinctRanks(results, |results|)
    requires forall i, k :: 0 <= i < |results| && 0 <= k < |pairs| ==> pairs[k] in results[i].reports
    ensures rank0 in results && rank0.rank == 0
    ensures agree <==> forall i, j, k :: 0 <= i < |results| && 0 <= j < |results| && 0 <= k < |pairs| ==>
                         results[i].reports[pairs[k]] == results[j].reports[pairs[k]]
  {
    var perRank := ByRank(results);
    ByRankIsIndexed(results, |results|);
    assert forall x :: x in perRank <==> x in results by {
      assert forall x :: x in perRank <==> x in multiset(perRank);
      assert forall x :: x in results <==> x in multiset(results);
    }
    rank0 := perRank[0];
    assert forall i :: 0 <= i < |perRank| ==> perRank[i] in results;
    agree := forall i, k :: 0 <= i < |perRank| && 0 <= k < |pairs| ==>
      perRank[i].reports[pairs[k]].tokens == rank0.reports[pairs[k]].tokens
      && perRank[i].reports[pairs[k]].flips == rank0.reports[pairs[k]].flips;
    assert forall i :: 0 <= i < |results| ==> results[i] in perRank;
  }
}
