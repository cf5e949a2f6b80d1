/** The profiler sweep: a stack pass over the sorted trace intervals of one thread, what the stack
    means, and what the per-part counts add up to. */
module TraceSweep {
  import opened Prelude

  datatype Kind = CpuOp | Annotation

  /** A complete trace event. */
  datatype Event = Event(name: string, kind: Kind, ts: real, dur: real)
  {
    function End(): (e: real) { ts + dur }
  }

  /** The sort key: by start, longer intervals first among those that start together. */
  predicate Before(a: Event, b: Event)
  {
    a.ts < b.ts || (a.ts == b.ts && a.dur >= b.dur)
  }

  ghost predicate Sorted(events: seq<Event>)
  {
    forall i, j :: 0 <= i < j < |events| ==> Before(events[i], events[j])
  }

  function SortedEvents(events: seq<Event>): (sorted: seq<Event>)
    ensures Sorted(sorted) && multiset(sorted) == multiset(events)
  {
    SortBy(Before, events)
  }

  // ---- the stack --------------------------------------------------------------------------

  /** Positions of events, in pushing order. */
  ghost predicate Increasing(stack: seq<nat>, bound: nat)
  {
    && (forall k :: 0 <= k < |stack| ==> stack[k] < bound)
    && forall j, k :: 0 <= j < k < |stack| ==> stack[j] < stack[k]
  }

  ghost predicate Within(stack: seq<nat>, bound: nat)
  {
    forall k :: 0 <= k < |stack| ==> stack[k] < bound
  }

  /** Pops the intervals on top that have ended. */
  function Popped(events: seq<Event>, stack: seq<nat>, ts: real): (rest: seq<nat>)
    requires Within(stack, |events|)
    ensures rest <= stack
  {
    if stack == [] || events[stack[|stack| - 1]].End() > ts then stack
    else Popped(events, stack[..|stack| - 1], ts)
  }

  /** The stack that event `e` sees. */
  function StackAt(events: seq<Event>, e: nat): (stack: seq<nat>)
    requires e <= |events|
    ensures Within(stack, e)
  {
    if e == 0 then []
    else
      var before := StackAt(events, e - 1) + [e - 1];
      if e < |events| then Popped(events, before, events[e].ts) else before
  }

  lemma {:induction false} StackIncreasing(events: seq<Event>, e: nat)
    requires e <= |events|
    ensures Increasing(StackAt(events, e), e)
  {
    if e > 0 { StackIncreasing(events, e - 1); }
  }

  /** Only what is still running keeps a stack from being popped further. */
  lemma {:induction false} PoppedTop(events: seq<Event>, stack: seq<nat>, ts: real)
    requires Within(stack, |events|)
    ensures var rest := Popped(events, stack, ts); rest != [] ==> events[rest[|rest| - 1]].End() > ts
    decreases |stack|
  {
    if stack != [] && events[stack[|stack| - 1]].End() <= ts { PoppedTop(events, stack[..|stack| - 1], ts); }
  }

  lemma {:induction false} PoppedKeepsRunning(events: seq<Event>, stack: seq<nat>, ts: real, i: nat)
    requires Within(stack, |events|) && i in stack && i < |events| && events[i].End() > ts
    ensures i in Popped(events, stack, ts)
    decreases |stack|
  {
    if events[stack[|stack| - 1]].End() <= ts {
      assert stack == stack[..|stack| - 1] + [stack[|stack| - 1]];
      PoppedKeepsRunning(events, stack[..|stack| - 1], ts, i);
    }
  }

  /** In pushing order, a prefix that holds `j` holds everything before `j`. */
  lemma PrefixHoldsEarlier(stack: seq<nat>, rest: seq<nat>, bound: nat, i: nat, j: nat)
    requires rest <= stack && Increasing(stack, bound) && i in stack && j in rest && i < j
    ensures i in rest
  {
    var a :| 0 <= a < |stack| && stack[a] == i;
    var b :| 0 <= b < |rest| && rest[b] == j;
    assert stack[b] == j;
    assert a < b;
    assert rest[a] == i;
  }

  // ---- the quadratic meaning --------------------------------------------------------------

  /** Earlier interval `i` still runs when event `e` starts. */
  predicate Live(events: seq<Event>, i: nat, e: nat)
    requires i < e < |events|
  {
    events[i].End() > events[e].ts
  }

  /** The first `n` intervals that cover the start of `e`, in sorted order. */
  function Chain(events: seq<Event>, e: nat, n: nat): (chain: seq<nat>)
    requires n <= e < |events|
  {
    if n == 0 then []
    else Chain(events, e, n - 1) + if Live(events, n - 1, e) then [n - 1] else []
  }

  /** Intervals nest: a later one that starts inside an earlier one ends inside it. */
  ghost predicate Laminar(events: seq<Event>)
  {
    forall i, j :: 0 <= i < j < |events| ==> events[i].End() <= events[j].ts || events[j].End() <= events[i].End()
  }

  /** What the sweep can tell of nesting: nobody starts inside `i` and is still running when some
      event starts after `i` has ended. */
  ghost predicate NestedAsSeen(events: seq<Event>)
  {
    forall i: nat, j: nat, e: nat :: i < j < e < |events| ==> !Overhangs(events, i, j, e)
  }

  predicate Overhangs(events: seq<Event>, i: nat, j: nat, e: nat)
    requires i < j < e < |events|
  {
    events[j].ts < events[i].End() <= events[e].ts < events[j].End()
  }

  /** What event `e` sees is what event e - 1 saw and e - 1 itself, less what was popped. */
  lemma StackStep(events: seq<Event>, e: nat)
    requires 0 < e <= |events|
    ensures StackAt(events, e) <= StackAt(events, e - 1) + [e - 1]
    ensures Increasing(StackAt(events, e - 1) + [e - 1], e)
  {
    StackIncreasing(events, e - 1);
  }

  /** Even without nesting the stack never loses a live interval. */
  lemma {:induction false} StackKeepsLive(events: seq<Event>, e: nat, i: nat)
    requires Sorted(events) && i < e < |events| && Live(events, i, e)
    ensures i in StackAt(events, e)
    decreases e
  {
    var before := StackAt(events, e - 1) + [e - 1];
    if i < e - 1 {
      StackKeepsLive(events, e - 1, i);
    }
    PoppedKeepsRunning(events, before, events[e].ts, i);
  }

  /** Whoever was on the stack when `j` was pushed stays below it as long as `j` stays ... */
  lemma {:induction false} BelowStays(events: seq<Event>, i: nat, j: nat, e: nat)
    requires i < j < e <= |events| && i in StackAt(events, j) && j in StackAt(events, e)
    ensures i in StackAt(events, e)
    decreases e
  {
    StackStep(events, e);
    if j < e - 1 {
      BelowStays(events, i, j, e - 1);
    }
    PrefixHoldsEarlier(StackAt(events, e - 1) + [e - 1], StackAt(events, e), e, i, j);
  }

  /** ... and whoever is below `j` now was on the stack when `j` was pushed. */
  lemma {:induction false} BelowWas(events: seq<Event>, i: nat, j: nat, e: nat)
    requires i < j < e <= |events| && i in StackAt(events, e) && j in StackAt(events, e)
    ensures i in StackAt(events, j)
    decreases e
  {
    StackStep(events, e);
    if j < e - 1 {
      BelowWas(events, i, j, e - 1);
    }
  }

  /** With nesting, everything on the stack is still running. */
  lemma {:induction false} StackIsLive(events: seq<Event>, e: nat, i: nat)
    requires Sorted(events) && NestedAsSeen(events) && e < |events| && i in StackAt(events, e)
    ensures i < e && Live(events, i, e)
    decreases e
  {
    var stack := StackAt(events, e);
    var j := stack[|stack| - 1];
    PoppedTop(events, StackAt(events, e - 1) + [e - 1], events[e].ts);
    if i != j {
      StackIncreasing(events, e);
      BelowWas(events, i, j, e);
      StackIsLive(events, j, i);
      assert !Overhangs(events, i, j, e);
    }
  }

  ghost predicate SameMembers(a: seq<nat>, b: seq<nat>)
  {
    forall x: nat :: x in a <==> x in b
  }

  lemma {:induction false} IncreasingUnique(a: seq<nat>, b: seq<nat>, bound: nat)
    requires Increasing(a, bound) && Increasing(b, bound) && SameMembers(a, b)
    ensures a == b
    decreases |a|
  {
    assert a != [] ==> a[0] in b;
    assert b != [] ==> b[0] in a;
    if a != [] {
      var a', b' := a[..|a| - 1], b[..|b| - 1];
      LastIsLargest(a, b, bound);
      LastIsLargest(b, a, bound);
      assert SameMembers(a', b') by {
        forall z: nat ensures z in a' <==> z in b' {
          InitMembers(a, bound, z);
          InitMembers(b, bound, z);
        }
      }
      IncreasingUnique(a', b', bound);
      assert a == a' + [a[|a| - 1]] && b == b' + [b[|b| - 1]];
    }
  }

  lemma LastIsLargest(a: seq<nat>, b: seq<nat>, bound: nat)
    requires Increasing(a, bound) && a != [] && b != [] && SameMembers(a, b)
    ensures b[|b| - 1] <= a[|a| - 1]
  {
    var y := b[|b| - 1];
    assert y in b;
    var l :| 0 <= l < |a| && a[l] == y;
  }

  lemma InitMembers(a: seq<nat>, bound: nat, z: nat)
    requires Increasing(a, bound) && a != []
    ensures z in a[..|a| - 1] <==> z in a && z != a[|a| - 1]
  {
  }

  /** At every event the stack is exactly the chain of earlier intervals that cover its start, if and
      only if no overhang is ever visible. Nested intervals never overhang. */
  lemma StackIsChainExactly(events: seq<Event>)
    requires Sorted(events)
    ensures NestedAsSeen(events) <==> forall e: nat :: e < |events| ==> StackAt(events, e) == Chain(events, e, e)
    ensures Laminar(events) ==> NestedAsSeen(events)
  {
    if NestedAsSeen(events) {
      forall e: nat | e < |events| ensures StackAt(events, e) == Chain(events, e, e) {
        StackIsChain(events, e);
      }
    } else {
      var i: nat, j: nat, e: nat :| i < j < e < |events| && Overhangs(events, i, j, e);
      StackKeepsLive(events, j, i);
      StackKeepsLive(events, e, j);
      BelowStays(events, i, j, e);
      ChainMembers(events, e, e, i);
    }
  }

  lemma StackIsChain(events: seq<Event>, e: nat)
    requires Sorted(events) && NestedAsSeen(events) && e < |events|
    ensures StackAt(events, e) == Chain(events, e, e)
  {
    assert SameMembers(StackAt(events, e), Chain(events, e, e)) by {
      forall i: nat ensures i in StackAt(events, e) <==> i in Chain(events, e, e) {
        ChainMembers(events, e, e, i);
        if i in StackAt(events, e) { StackIsLive(events, e, i); }
        if i < e && Live(events, i, e) { StackKeepsLive(events, e, i); }
      }
    }
    StackIncreasing(events, e);
    ChainIncreasing(events, e, e);
    IncreasingUnique(StackAt(events, e), Chain(events, e, e), e);
  }

  lemma {:induction false} ChainMembers(events: seq<Event>, e: nat, n: nat, i: nat)
    requires n <= e < |events|
    ensures i in Chain(events, e, n) <==> i < n && Live(events, i, e)
    decreases n
  {
    if n > 0 { ChainMembers(events, e, n - 1, i); }
  }

  lemma {:induction false} ChainIncreasing(events: seq<Event>, e: nat, n: nat)
    requires n <= e < |events|
    ensures Increasing(Chain(events, e, n), n)
    decreases n
  {
    if n > 0 { ChainIncreasing(events, e, n - 1); }
  }

  // ---- counting ---------------------------------------------------------------------------

  type Part = string

  datatype Entry = Entry(ops: real, hostReads: real)

  const HOST_READ_OPS: set<string> := {"aten::_local_scalar_dense", "aten::nonzero"}

  function InsideOp(events: seq<Event>, stack: seq<nat>): (inside: bool)
    requires Within(stack, |events|)
  {
    exists k :: 0 <= k < |stack| && events[stack[k]].kind == CpuOp
  }

  /** The name of the topmost annotation. */
  function Label(events: seq<Event>, stack: seq<nat>): (annotation: Option<string>)
    requires Within(stack, |events|)
  {
    if stack == [] then None
    else
      var top := events[stack[|stack| - 1]];
      if top.kind == Annotation then Some(top.name) else Label(events, stack[..|stack| - 1])
  }

  /** The part that an op under these intervals belongs to, if any. */
  function PartUnder(categorize: string -> Part, events: seq<Event>, stack: seq<nat>, e: nat): (part: Option<Part>)
    requires Within(stack, |events|) && e < |events|
  {
    var annotation := Label(events, stack);
    if events[e].kind == CpuOp && annotation.Some? && annotation.value != "step" then Some(categorize(annotation.value))
      else None
  }

  /** Outermost ops of `part` among the first `n` events. */
  function OpsOf(categorize: string -> Part, events: seq<Event>, n: nat, part: Part): (k: nat)
    requires n <= |events|
  {
    if n == 0 then 0
    else
      var stack := StackAt(events, n - 1);
      OpsOf(categorize, events, n - 1, part)
      + if PartUnder(categorize, events, stack, n - 1) == Some(part) && !InsideOp(events, stack) then 1 else 0
  }

  function ReadsOf(categorize: string -> Part, events: seq<Event>, n: nat, part: Part): (k: nat)
    requires n <= |events|
  {
    if n == 0 then 0
    else
      ReadsOf(categorize, events, n - 1, part)
      + if PartUnder(categorize, events, StackAt(events, n - 1), n - 1) == Some(part)
        && events[n - 1].name in HOST_READ_OPS then 1 else 0
  }

  /** Some op among the first `n` events belongs to `part`. */
  ghost predicate Seen(categorize: string -> Part, events: seq<Event>, n: nat, part: Part)
    requires n <= |events|
  {
    exists e: nat :: e < n && PartUnder(categorize, events, StackAt(events, e), e) == Some(part)
  }

  function Entries(counts: map<Part, Entry>, part: Part): (entry: Entry)
  {
    if part in counts then counts[part] else Entry(0.0, 0.0)
  }

  /** `k` of something, spread over the profiled steps. */
  function PerStep(k: nat, steps: nat): (x: real)
    requires steps >= 1
  {
    k as real / steps as real
  }

  lemma PerStepAdds(a: nat, b: nat, steps: nat)
    requires steps >= 1
    ensures PerStep(a + b, steps) == PerStep(a, steps) + PerStep(b, steps) && PerStep(0, steps) == 0.0
  {
    assert (a + b) as real == a as real + b as real;
  }

  /** What the first `n` events of a thread added to the entry of `part`. */
  ghost predicate TalliedPart(categorize: string -> Part, events: seq<Event>, n: nat, steps: nat,
                              before: map<Part, Entry>, counts: map<Part, Entry>, part: Part)
    requires n <= |events| && steps >= 1
  {
    && (part in counts <==> part in before || Seen(categorize, events, n, part))
    && Entries(counts, part).ops == Entries(before, part).ops + PerStep(OpsOf(categorize, events, n, part), steps)
    && Entries(counts, part).hostReads
      == Entries(before, part).hostReads + PerStep(ReadsOf(categorize, events, n, part), steps)
  }

  ghost predicate Tallied(categorize: string -> Part, events: seq<Event>, n: nat, steps: nat, before: map<Part, Entry>,
                          counts: map<Part, Entry>)
    requires n <= |events| && steps >= 1
  {
    forall part :: TalliedPart(categorize, events, n, steps, before, counts, part)
  }

  /** One event's entry in the counts. */
  function Counted(categorize: string -> Part, events: seq<Event>, stack: seq<nat>, e: nat, steps: nat,
                   counts: map<Part, Entry>): (c: map<Part, Entry>)
    requires Within(stack, |events|) && e < |events| && steps >= 1
  {
    var part := PartUnder(categorize, events, stack, e);
    if part.None? then counts
    else
      var entry := Entries(counts, part.value);
      counts[part.value := Entry(entry.ops + PerStep(if InsideOp(events, stack) then 0 else 1, steps),
                                 entry.hostReads + PerStep(if events[e].name in HOST_READ_OPS then 1 else 0, steps))]
  }

  lemma SeenSnoc(categorize: string -> Part, events: seq<Event>, n: nat, part: Part)
    requires n < |events|
    ensures Seen(categorize, events, n + 1, part)
       <==> Seen(categorize, events, n, part) || PartUnder(categorize, events, StackAt(events, n), n) == Some(part)
  {
    if PartUnder(categorize, events, StackAt(events, n), n) == Some(part) {
      assert n < n + 1 && PartUnder(categorize, events, StackAt(events, n), n) == Some(part);
    }
    if Seen(categorize, events, n, part) {
      var e: nat :| e < n && PartUnder(categorize, events, StackAt(events, e), e) == Some(part);
      assert e < n + 1;
    }
  }

  lemma CountedTalliesPart(categorize: string -> Part, events: seq<Event>, n: nat, steps: nat, before: map<Part, Entry>,
                           counts: map<Part, Entry>, part: Part)
    requires n < |events| && steps >= 1 && TalliedPart(categorize, events, n, steps, before, counts, part)
    ensures TalliedPart(categorize, events, n + 1, steps, before,
                        Counted(categorize, events, StackAt(events, n), n, steps, counts), part)
  {
    hide PerStep, PartUnder, StackAt, InsideOp, Seen;
    SeenSnoc(categorize, events, n, part);
    var stack := StackAt(events, n);
    PerStepAdds(OpsOf(categorize, events, n, part), if InsideOp(events, stack) then 0 else 1, steps);
    PerStepAdds(ReadsOf(categorize, events, n, part), if events[n].name in HOST_READ_OPS then 1 else 0, steps);
  }

  lemma CountedTallies(categorize: string -> Part, events: seq<Event>, n: nat, steps: nat, before: map<Part, Entry>,
                       counts: map<Part, Entry>)
    requires n < |events| && steps >= 1 && Tallied(categorize, events, n, steps, before, counts)
    ensures Tallied(categorize, events, n + 1, steps, before,
                    Counted(categorize, events, StackAt(events, n), n, steps, counts))
  {
    hide TalliedPart, Counted;
    var m, next := n + 1, Counted(categorize, events, StackAt(events, n), n, steps, counts);
    forall part ensures TalliedPart(categorize, events, m, steps, before, next, part) {
      assert TalliedPart(categorize, events, n, steps, before, counts, part);
      CountedTalliesPart(categorize, events, n, steps, before, counts, part);
    }
  }

  method PopEnded(events: seq<Event>, pushed: seq<nat>, ts: real) returns (stack: seq<nat>)
    requires Within(pushed, |events|)
    ensures stack == Popped(events, pushed, ts)
  {
    stack := pushed;
    while stack != [] && events[stack[|stack| - 1]].End() <= ts
      invariant Within(stack, |events|) && Popped(events, stack, ts) == Popped(events, pushed, ts)
      decreases |stack|
    {
      stack := stack[..|stack| - 1];
    }
  }

  /** Counts one event under the intervals that the stack holds. */
  method CountEvent(categorize: string -> Part, events: seq<Event>, stack: seq<nat>, e: nat, steps: nat,
                    counts: map<Part, Entry>)
    returns (next: map<Part, Entry>)
    requires Within(stack, |events|) && e < |events| && steps >= 1
    ensures next == Counted(categorize, events, stack, e, steps, counts)
  {
    next := counts;
    if events[e].kind == CpuOp {
      var insideOp := InsideOp(events, stack);
      var annotation := Label(events, stack);
      if annotation.Some? && annotation.value != "step" {
        var part := categorize(annotation.value);
        var entry := Entries(counts, part);
        if !insideOp {
          entry := entry.(ops := entry.ops + 1.0 / steps as real);
        }
        if events[e].name in HOST_READ_OPS {
          entry := entry.(hostReads := entry.hostReads + 1.0 / steps as real);
        }
        next := counts[part := entry];
      }
    }
  }

  /** The sweep over one thread. */
  method SweepThread(categorize: string -> Part, events: seq<Event>, steps: nat, before: map<Part, Entry>)
    returns (counts: map<Part, Entry>)
    requires Sorted(events) && steps >= 1
    ensures Tallied(categorize, events, |events|, steps, before, counts)
  {
    hide Counted, Tallied, Popped;
    counts := before;
    var stack: seq<nat> := [];
    NothingTallied(categorize, events, steps, before);
    for e := 0 to |events|
      invariant Within(stack, e)
      invariant stack == if e == 0 then [] else StackAt(events, e - 1) + [e - 1]
      invariant Tallied(categorize, events, e, steps, before, counts)
    {
      stack := PopEnded(events, stack, events[e].ts);
      assert stack == StackAt(events, e);
      CountedTallies(categorize, events, e, steps, before, counts);
      counts := CountEvent(categorize, events, stack, e, steps, counts);
      stack := stack + [e];
    }
  }

  lemma NothingTallied(categorize: string -> Part, events: seq<Event>, steps: nat, before: map<Part, Entry>)
    requires steps >= 1
    ensures Tallied(categorize, events, 0, steps, before, before)
  {
    PerStepAdds(0, 0, steps);
  }

  /** What the threads before `t` added up to. */
  ghost predicate TraceTalliedPart(categorize: string -> Part, threads: seq<seq<Event>>, t: nat, steps: nat,
                                   counts: map<Part, Entry>, part: Part)
    requires t <= |threads| && steps >= 1
  {
    && (part in counts <==>
          exists u: nat :: u < t && Seen(categorize, SortedEvents(threads[u]), |SortedEvents(threads[u])|, part))
    && Entries(counts, part).ops == PerStep(TraceOpsOf(categorize, threads, t, part), steps)
    && Entries(counts, part).hostReads == PerStep(TraceReadsOf(categorize, threads, t, part), steps)
  }

  ghost function TraceOpsOf(categorize: string -> Part, threads: seq<seq<Event>>, t: nat, part: Part): (k: nat)
    requires t <= |threads|
  {
    if t == 0 then 0
    else
      var events := SortedEvents(threads[t - 1]);
      TraceOpsOf(categorize, threads, t - 1, part) + OpsOf(categorize, events, |events|, part)
  }

  ghost function TraceReadsOf(categorize: string -> Part, threads: seq<seq<Event>>, t: nat, part: Part): (k: nat)
    requires t <= |threads|
  {
    if t == 0 then 0
    else
      var events := SortedEvents(threads[t - 1]);
      TraceReadsOf(categorize, threads, t - 1, part) + ReadsOf(categorize, events, |events|, part)
  }

  ghost predicate TraceTallied(categorize: string -> Part, threads: seq<seq<Event>>, t: nat, steps: nat,
                               counts: map<Part, Entry>)
    requires t <= |threads| && steps >= 1
  {
    forall part :: TraceTalliedPart(categorize, threads, t, steps, counts, part)
  }

  lemma ThreadTallied(categorize: string -> Part, threads: seq<seq<Event>>, t: nat, steps: nat,
                      before: map<Part, Entry>, counts: map<Part, Entry>)
    requires t < |threads| && steps >= 1 && TraceTallied(categorize, threads, t, steps, before)
    requires Tallied(categorize, SortedEvents(threads[t]), |SortedEvents(threads[t])|, steps, before, counts)
    ensures TraceTallied(categorize, threads, t + 1, steps, counts)
  {
    hide PerStep, OpsOf, ReadsOf, Seen, SortedEvents, Entries;
    var events, m := SortedEvents(threads[t]), t + 1;
    forall part ensures TraceTalliedPart(categorize, threads, m, steps, counts, part) {
      assert TalliedPart(categorize, events, |events|, steps, before, counts, part);
      assert TraceTalliedPart(categorize, threads, t, steps, before, part);
      PerStepAdds(TraceOpsOf(categorize, threads, t, part), OpsOf(categorize, events, |events|, part), steps);
      PerStepAdds(TraceReadsOf(categorize, threads, t, part), ReadsOf(categorize, events, |events|, part), steps);
    }
  }

  lemma NothingSwept(categorize: string -> Part, threads: seq<seq<Event>>, steps: nat)
    requires steps >= 1
    ensures TraceTallied(categorize, threads, 0, steps, map[])
  {
    PerStepAdds(0, 0, steps);
  }

  /** The whole pass: every thread on its own stack, all of them into one table. */
  method SweepTrace(categorize: string -> Part, threads: seq<seq<Event>>, steps: nat) returns (counts: map<Part, Entry>)
    requires steps >= 1
    ensures TraceTallied(categorize, threads, |threads|, steps, counts)
  {
    hide TraceTallied, Tallied;
    counts := map[];
    NothingSwept(categorize, threads, steps);
    for t := 0 to |threads|
      invariant TraceTallied(categorize, threads, t, steps, counts)
    {
      ghost var before := counts;
      counts := SweepThread(categorize, SortedEvents(threads[t]), steps, counts);
      ThreadTallied(categorize, threads, t, steps, before, counts);
    }
  }

  // ---- what the counts mean ---------------------------------------------------------------

  /** The part of event `e` by the quadratic definition: an op whose innermost covering annotation
      is not the step itself. */
  function NestedPart(categorize: string -> Part, events: seq<Event>, e: nat): (part: Option<Part>)
    requires e < |events|
  {
    ChainWithin(events, e, e);
    PartUnder(categorize, events, Chain(events, e, e), e)
  }

  lemma {:induction false} ChainWithin(events: seq<Event>, e: nat, n: nat)
    requires n <= e < |events|
    ensures Within(Chain(events, e, n), n)
  {
    if n > 0 { ChainWithin(events, e, n - 1); }
  }

  /** No op covers the start of `e`. */
  ghost predicate Outermost(events: seq<Event>, e: nat)
    requires e < |events|
  {
    forall i: nat :: i < e && Live(events, i, e) ==> events[i].kind != CpuOp
  }

  /** Outermost ops of `part` by the quadratic definition. */
  ghost function NestedOpsOf(categorize: string -> Part, events: seq<Event>, n: nat, part: Part): (k: nat)
    requires n <= |events|
  {
    if n == 0 then 0
    else
      NestedOpsOf(categorize, events, n - 1, part)
      + if NestedPart(categorize, events, n - 1) == Some(part) && Outermost(events, n - 1) then 1 else 0
  }

  /** Outermost ops that belong to any part. */
  ghost function LabelledOps(categorize: string -> Part, events: seq<Event>, n: nat): (k: nat)
    requires n <= |events|
  {
    if n == 0 then 0
    else
      LabelledOps(categorize, events, n - 1)
      + if NestedPart(categorize, events, n - 1).Some? && Outermost(events, n - 1) then 1 else 0
  }

  lemma OutermostOnStack(events: seq<Event>, e: nat)
    requires Sorted(events) && NestedAsSeen(events) && e < |events|
    ensures Outermost(events, e) <==> !InsideOp(events, StackAt(events, e))
  {
    var stack := StackAt(events, e);
    if !Outermost(events, e) {
      var i: nat :| i < e && Live(events, i, e) && events[i].kind == CpuOp;
      StackKeepsLive(events, e, i);
      var k :| 0 <= k < |stack| && stack[k] == i;
      assert events[stack[k]].kind == CpuOp;
    }
    if InsideOp(events, stack) {
      var k :| 0 <= k < |stack| && events[stack[k]].kind == CpuOp;
      StackIsLive(events, e, stack[k]);
    }
  }

  /** Under nesting the sweep counts each outermost op once, under its innermost annotation. */
  lemma {:induction false} SweepCountsNested(categorize: string -> Part, events: seq<Event>, n: nat, part: Part)
    requires Sorted(events) && NestedAsSeen(events) && n <= |events|
    ensures OpsOf(categorize, events, n, part) == NestedOpsOf(categorize, events, n, part)
    decreases n
  {
    hide StackAt, Chain, PartUnder, Outermost, InsideOp, NestedAsSeen, Sorted;
    if n > 0 {
      SweepCountsNested(categorize, events, n - 1, part);
      OutermostOnStack(events, n - 1);
      StackIsChain(events, n - 1);
    }
  }

  /** The annotation of a chain is the last one on it: no later interval of the chain is one. */
  lemma {:induction false} LabelIsInnermost(events: seq<Event>, stack: seq<nat>)
    requires Within(stack, |events|)
    ensures match Label(events, stack)
            case Some(name) =>
              exists k ::
                && 0 <= k < |stack| && events[stack[k]].kind == Annotation && events[stack[k]].name == name
                && forall l :: k < l < |stack| ==> events[stack[l]].kind != Annotation
            case None => forall k :: 0 <= k < |stack| ==> events[stack[k]].kind != Annotation
    decreases |stack|
  {
    if stack != [] {
      var e := |stack| - 1;
      if events[stack[e]].kind != Annotation {
        LabelIsInnermost(events, stack[..e]);
        if Label(events, stack).Some? {
          var k :| 0 <= k < e && events[stack[..e][k]].kind == Annotation
            && events[stack[..e][k]].name == Label(events, stack).value
                && forall l :: k < l < e ==> events[stack[..e][l]].kind != Annotation;
          assert events[stack[k]].kind == Annotation;
          forall l | k < l < |stack| ensures events[stack[l]].kind != Annotation {
            if l < e { assert stack[..e][l] == stack[l]; }
          }
        }
      }
    }
  }

  /** The sum of the counts of the first `n` events over the listed parts. */
  ghost function TotalOpsUpTo(categorize: string -> Part, events: seq<Event>, n: nat, parts: seq<Part>): (k: nat)
    requires n <= |events|
  {
    if parts == [] then 0
    else
      TotalOpsUpTo(categorize, events, n, parts[..|parts| - 1])
      + NestedOpsOf(categorize, events, n, parts[|parts| - 1])
  }

  /** One event adds to at most one of distinct parts, and to exactly one if its own is listed. */
  lemma {:induction false} TotalOpsStep(categorize: string -> Part, events: seq<Event>, n: nat, parts: seq<Part>)
    requires n < |events| && forall i, j :: 0 <= i < j < |parts| ==> parts[i] != parts[j]
    ensures var own := NestedPart(categorize, events, n);
            TotalOpsUpTo(categorize, events, n + 1, parts)
            == TotalOpsUpTo(categorize, events, n, parts) + if own.Some? && own.value in parts
              && Outermost(events, n) then 1 else 0
    decreases |parts|
  {
    if parts != [] {
      var init, last := parts[..|parts| - 1], parts[|parts| - 1];
      TotalOpsStep(categorize, events, n, init);
      assert parts == init + [last];
    }
  }

  /** Conservation: summed over any list of distinct parts that has every part in it, the counts
      are the number of labelled outermost ops. */
  lemma {:induction false} PartsAddUp(categorize: string -> Part, events: seq<Event>, n: nat, parts: seq<Part>)
    requires n <= |events| && forall i, j :: 0 <= i < j < |parts| ==> parts[i] != parts[j]
    requires forall e: nat :: e < |events| && NestedPart(categorize, events, e).Some? ==>
        NestedPart(categorize, events, e).value in parts
    ensures TotalOpsUpTo(categorize, events, n, parts) == LabelledOps(categorize, events, n)
    decreases n
  {
    if n == 0 {
      NothingCounted(categorize, events, parts);
    } else {
      PartsAddUp(categorize, events, n - 1, parts);
      TotalOpsStep(categorize, events, n - 1, parts);
    }
  }

  lemma {:induction false} NothingCounted(categorize: string -> Part, events: seq<Event>, parts: seq<Part>)
    ensures TotalOpsUpTo(categorize, events, 0, parts) == 0
    decreases |parts|
  {
    if parts != [] { NothingCounted(categorize, events, parts[..|parts| - 1]); }
  }

  /** The sum of what the sweep counted for the listed parts. */
  ghost function SweptOps(categorize: string -> Part, events: seq<Event>, parts: seq<Part>): (k: nat)
  {
    if parts == [] then 0
    else SweptOps(categorize, events, parts[..|parts| - 1]) + OpsOf(categorize, events, |events|, parts[|parts| - 1])
  }

  lemma SweptOpsAddUp(categorize: string -> Part, events: seq<Event>, parts: seq<Part>)
    requires Sorted(events) && NestedAsSeen(events)
    requires forall i, j :: 0 <= i < j < |parts| ==> parts[i] != parts[j]
    requires forall e: nat :: e < |events| && NestedPart(categorize, events, e).Some? ==>
        NestedPart(categorize, events, e).value in parts
    ensures SweptOps(categorize, events, parts) == LabelledOps(categorize, events, |events|)
  {
    SweptIsNested(categorize, events, parts);
    PartsAddUp(categorize, events, |events|, parts);
  }

  lemma {:induction false} SweptIsNested(categorize: string -> Part, events: seq<Event>, parts: seq<Part>)
    requires Sorted(events) && NestedAsSeen(events)
    ensures SweptOps(categorize, events, parts) == TotalOpsUpTo(categorize, events, |events|, parts)
    decreases |parts|
  {
    hide OpsOf, NestedOpsOf, NestedAsSeen, Sorted;
    if parts != [] {
      SweptIsNested(categorize, events, parts[..|parts| - 1]);
      SweepCountsNested(categorize, events, |events|, parts[|parts| - 1]);
    }
  }
}
