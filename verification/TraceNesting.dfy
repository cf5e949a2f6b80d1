/** What the profiler's counts mean on the trace itself: no sorting, no stack, only which intervals of
    a thread enclose which. */
module TraceNesting {
  import opened Prelude
  import opened TraceSweep

  // ---- intervals of one thread ------------------------------------------------------------

  /** `b` starts inside `a` and is over when `a` is. */
  predicate Encloses(a: Event, b: Event)
  {
    a != b && a.ts <= b.ts < a.ts + a.dur && b.ts + b.dur <= a.ts + a.dur
  }

  predicate Apart(a: Event, b: Event)
  {
    a.ts + a.dur <= b.ts || b.ts + b.dur <= a.ts
  }

  predicate Contains(a: Event, b: Event)
  {
    a.ts <= b.ts && b.ts + b.dur <= a.ts + a.dur
  }

  /** Any two intervals are apart or one contains the other, and no two are equal. */
  ghost predicate NestedThread(thread: seq<Event>)
  {
    && (forall a :: a in thread ==> a.dur >= 0.0)
    && (forall i, j :: 0 <= i < j < |thread| ==> thread[i] != thread[j])
    && forall a, b :: a in thread && b in thread && a != b ==>
         (a.ts, a.dur) != (b.ts, b.dur) && (Apart(a, b) || Contains(a, b) || Contains(b, a))
  }

  /** `a` is the annotation right around `b`: every other one around `b` is around `a` too. */
  ghost predicate Innermost(thread: seq<Event>, a: Event, b: Event)
  {
    && a in thread && a.kind == Annotation && Encloses(a, b)
    && forall c :: c in thread && c.kind == Annotation && Encloses(c, b) && c != a ==> Encloses(c, a)
  }

  /** `b` is an op whose innermost annotation has this part and is not the step itself. */
  ghost predicate BelongsTo(categorize: string -> Part, thread: seq<Event>, b: Event, part: Part)
  {
    b.kind == CpuOp && exists a :: Innermost(thread, a, b) && a.name != "step" && categorize(a.name) == part
  }

  ghost predicate InsideSomeOp(thread: seq<Event>, b: Event)
  {
    exists a :: a in thread && a.kind == CpuOp && Encloses(a, b)
  }

  /** The ops of a part that are inside no other op. */
  ghost predicate CountsAsOp(categorize: string -> Part, thread: seq<Event>, part: Part, b: Event)
  {
    BelongsTo(categorize, thread, b, part) && !InsideSomeOp(thread, b)
  }

  /** Its ops, inside others or not, that read from the device. */
  ghost predicate CountsAsRead(categorize: string -> Part, thread: seq<Event>, part: Part, b: Event)
  {
    BelongsTo(categorize, thread, b, part) && (b.name == "aten::_local_scalar_dense" || b.name == "aten::nonzero")
  }

  // ---- what sorting does to them ----------------------------------------------------------

  lemma {:induction false} OnceEach(thread: seq<Event>, x: Event)
    requires forall i, j :: 0 <= i < j < |thread| ==> thread[i] != thread[j]
    ensures multiset(thread)[x] <= 1
    decreases |thread|
  {
    if thread != [] {
      var init, last := thread[..|thread| - 1], thread[|thread| - 1];
      assert thread == init + [last];
      OnceEach(init, x);
      assert last !in init;
    }
  }

  lemma SortedDistinct(thread: seq<Event>)
    requires forall i, j :: 0 <= i < j < |thread| ==> thread[i] != thread[j]
    ensures var s := SortedEvents(thread);
            && |s| == |thread| && (forall i, j :: 0 <= i < j < |s| ==> s[i] != s[j])
            && forall x :: x in s <==> x in thread
  {
    hide SortedEvents;
    var s := SortedEvents(thread);
    assert |s| == |multiset(s)|;
    forall i, j | 0 <= i < j < |s| ensures s[i] != s[j] {
      OnceEach(thread, s[i]);
      if s[i] == s[j] { TwiceAtLeast(s, i, j); }
    }
    forall x ensures x in s <==> x in thread {
      assert x in s <==> x in multiset(s);
      assert x in thread <==> x in multiset(thread);
    }
  }

  lemma TwiceAtLeast(s: seq<Event>, i: nat, j: nat)
    requires i < j < |s| && s[i] == s[j]
    ensures multiset(s)[s[i]] >= 2
  {
    assert s == s[..j] + [s[j]] + s[j + 1..];
    assert s[i] in s[..j];
  }

  /** The sorted thread is nested, a container stands before what it contains, and what is on the
      stack at an event is what encloses it. */
  lemma SortedIsNested(thread: seq<Event>)
    requires NestedThread(thread)
    ensures var s := SortedEvents(thread);
            && Laminar(s) && NestedAsSeen(s) && |s| == |thread|
            && (forall i, j :: 0 <= i < j < |s| ==> s[i] != s[j])
            && (forall x :: x in s <==> x in thread)
            && (forall i: nat, j: nat :: i < |s| && j < |s| ==> (Encloses(s[i], s[j]) <==> i < j && Live(s, i, j)))
  {
    hide SortedEvents;
    SortedDistinct(thread);
    var s := SortedEvents(thread);
    forall i: nat, j: nat | i < |s| && j < |s| && i != j
      ensures Encloses(s[i], s[j]) <==> i < j && Live(s, i, j)
      ensures i < j ==> s[i].End() <= s[j].ts || s[j].End() <= s[i].End()
    {
      assert s[i] in thread && s[j] in thread && s[i] != s[j];
      if i < j { assert Before(s[i], s[j]); } else { assert Before(s[j], s[i]); }
    }
    StackIsChainExactly(s);
  }

  // ---- what the sweep sees ----------------------------------------------------------------

  /** The sorted thread, with all that SortedIsNested says of it. */
  ghost predicate Enclosing(thread: seq<Event>, s: seq<Event>)
  {
    && Sorted(s) && Laminar(s) && NestedAsSeen(s)
    && (forall i, j :: 0 <= i < j < |s| ==> s[i] != s[j])
    && (forall x :: x in s <==> x in thread)
    && (forall a, b :: a in thread && b in thread && a != b ==> (a.ts, a.dur) != (b.ts, b.dur))
    && forall i: nat, j: nat :: i < |s| && j < |s| ==> (Encloses(s[i], s[j]) <==> i < j && Live(s, i, j))
  }

  lemma NestedOf(thread: seq<Event>, s: seq<Event>)
    requires Enclosing(thread, s)
    ensures Sorted(s) && Laminar(s) && NestedAsSeen(s)
  {
  }

  lemma EnclosesIsLive(thread: seq<Event>, s: seq<Event>, i: nat, j: nat)
    requires Enclosing(thread, s) && i < |s| && j < |s|
    ensures s[i] in thread && (Encloses(s[i], s[j]) <==> i < j && Live(s, i, j))
  {
  }

  lemma PlaceOf(thread: seq<Event>, s: seq<Event>, a: Event) returns (i: nat)
    requires Enclosing(thread, s) && a in thread
    ensures i < |s| && s[i] == a
  {
    assert a in s;
    i :| i < |s| && s[i] == a;
  }

  lemma OnStack(thread: seq<Event>, s: seq<Event>, n: nat, i: nat)
    requires Enclosing(thread, s) && n < |s| && i < |s|
    ensures s[i] in thread && (i in StackAt(s, n) <==> Encloses(s[i], s[n]))
  {
    hide StackAt, Chain, Encloses;
    NestedOf(thread, s);
    EnclosesIsLive(thread, s, i, n);
    hide Enclosing, NestedAsSeen, Sorted, Laminar;
    StackIsChain(s, n);
    ChainMembers(s, n, n, i);
  }

  /** Whatever encloses an event is on the stack there. */
  lemma EncloserOnStack(thread: seq<Event>, s: seq<Event>, n: nat, a: Event) returns (k: nat)
    requires Enclosing(thread, s) && n < |s| && a in thread && Encloses(a, s[n])
    ensures k < |StackAt(s, n)| && s[StackAt(s, n)[k]] == a
  {
    hide Enclosing, StackAt, Encloses;
    var i := PlaceOf(thread, s, a);
    OnStack(thread, s, n, i);
    k :| k < |StackAt(s, n)| && StackAt(s, n)[k] == i;
  }

  lemma InsideOpMeans(thread: seq<Event>, s: seq<Event>, n: nat)
    requires Enclosing(thread, s) && n < |s|
    ensures InsideOp(s, StackAt(s, n)) <==> InsideSomeOp(thread, s[n])
  {
    hide Enclosing, StackAt, Encloses;
    var stack := StackAt(s, n);
    if InsideOp(s, stack) {
      var k :| 0 <= k < |stack| && s[stack[k]].kind == CpuOp;
      OnStack(thread, s, n, stack[k]);
    }
    if InsideSomeOp(thread, s[n]) {
      var a :| a in thread && a.kind == CpuOp && Encloses(a, s[n]);
      var k := EncloserOnStack(thread, s, n, a);
    }
  }

  /** The label on the stack is the name of the innermost annotation. */
  lemma LabelMeans(thread: seq<Event>, s: seq<Event>, n: nat)
    requires Enclosing(thread, s) && n < |s|
    ensures match Label(s, StackAt(s, n))
            case Some(name) => exists a :: Innermost(thread, a, s[n]) && a.name == name
            case None => forall a :: !Innermost(thread, a, s[n])
  {
    hide Enclosing, StackAt, Encloses, Label;
    var stack := StackAt(s, n);
    LabelIsInnermost(s, stack);
    match Label(s, stack)
    case Some(name) =>
      var k :| && 0 <= k < |stack| && s[stack[k]].kind == Annotation && s[stack[k]].name == name
               && forall l :: k < l < |stack| ==> s[stack[l]].kind != Annotation;
      LastIsInnermost(thread, s, n, stack, k);
    case None =>
      forall a ensures !Innermost(thread, a, s[n]) {
        if a in thread && Encloses(a, s[n]) {
          var k := EncloserOnStack(thread, s, n, a);
        }
      }
  }

  lemma LastIsInnermost(thread: seq<Event>, s: seq<Event>, n: nat, stack: seq<nat>, k: nat)
    requires Enclosing(thread, s) && n < |s| && stack == StackAt(s, n) && k < |stack|
    requires s[stack[k]].kind == Annotation && forall l :: k < l < |stack| ==> s[stack[l]].kind != Annotation
    ensures Innermost(thread, s[stack[k]], s[n])
  {
    hide Enclosing, StackAt, Encloses;
    var i := stack[k];
    OnStack(thread, s, n, i);
    StackIncreasing(s, n);
    forall c | c in thread && c.kind == Annotation && Encloses(c, s[n]) && c != s[i] ensures Encloses(c, s[i]) {
      var l := EncloserOnStack(thread, s, n, c);
      assert l != k && l < k;
      OnStack(thread, s, n, stack[l]);
      BelowEncloses(thread, s, n, stack[l], i);
    }
  }

  /** Of two intervals on the stack the lower one encloses the upper one. */
  lemma BelowEncloses(thread: seq<Event>, s: seq<Event>, n: nat, m: nat, i: nat)
    requires Enclosing(thread, s) && m < i < n < |s| && Encloses(s[m], s[n]) && Encloses(s[i], s[n])
    ensures Encloses(s[m], s[i])
  {
    EnclosesIsLive(thread, s, m, i);
    NestedOf(thread, s);
    hide Enclosing;
    assert s[m].End() <= s[i].ts || s[i].End() <= s[m].End();
    assert Before(s[i], s[n]);
  }

  lemma InnermostIsUnique(thread: seq<Event>, a: Event, a': Event, b: Event)
    requires forall x, y :: x in thread && y in thread && x != y ==> (x.ts, x.dur) != (y.ts, y.dur)
    requires Innermost(thread, a, b) && Innermost(thread, a', b)
    ensures a == a'
  {
    assert a != a' ==> Encloses(a, a') && Encloses(a', a);
  }

  lemma PartMeans(categorize: string -> Part, thread: seq<Event>, s: seq<Event>, n: nat, part: Part)
    requires Enclosing(thread, s) && n < |s|
    ensures PartUnder(categorize, s, StackAt(s, n), n) == Some(part) <==> BelongsTo(categorize, thread, s[n], part)
  {
    hide Enclosing, Innermost, StackAt, Label;
    LabelMeans(thread, s, n);
    forall a, a' | Innermost(thread, a, s[n]) && Innermost(thread, a', s[n]) ensures a == a' {
      NoEqualPair(thread, s);
      InnermostIsUnique(thread, a, a', s[n]);
    }
  }

  lemma NoEqualPair(thread: seq<Event>, s: seq<Event>)
    requires Enclosing(thread, s)
    ensures forall x, y :: x in thread && y in thread && x != y ==> (x.ts, x.dur) != (y.ts, y.dur)
  {
  }

  // ---- counting ---------------------------------------------------------------------------

  ghost function OpsIn(categorize: string -> Part, thread: seq<Event>, part: Part): (ops: set<Event>)
  {
    set b | b in thread && CountsAsOp(categorize, thread, part, b)
  }

  ghost function ReadsIn(categorize: string -> Part, thread: seq<Event>, part: Part): (found: set<Event>)
  {
    set b | b in thread && CountsAsRead(categorize, thread, part, b)
  }

  ghost function FirstOf(s: seq<Event>, n: nat): (first: set<Event>)
    requires n <= |s|
  {
    set b | b in s[..n]
  }

  /** How many of the marked events are among the first n + 1 of distinct ones. */
  lemma OneMoreMarked(marked: set<Event>, s: seq<Event>, n: nat)
    requires n < |s| && forall i, j :: 0 <= i < j < |s| ==> s[i] != s[j]
    ensures |marked * FirstOf(s, n + 1)| == |marked * FirstOf(s, n)| + if s[n] in marked then 1 else 0
  {
    var less, more := marked * FirstOf(s, n), marked * FirstOf(s, n + 1);
    assert s[..n + 1] == s[..n] + [s[n]];
    assert s[n] !in s[..n];
    assert more == less + if s[n] in marked then {s[n]} else {};
  }

  lemma NoneMarked(marked: set<Event>, s: seq<Event>)
    ensures |marked * FirstOf(s, 0)| == 0
  {
    assert marked * FirstOf(s, 0) == {};
  }

  lemma AllMarked(marked: set<Event>, s: seq<Event>)
    requires forall b :: b in marked ==> b in s
    ensures marked * FirstOf(s, |s|) == marked
  {
    assert s[..|s|] == s;
  }

  lemma DistinctOf(thread: seq<Event>, s: seq<Event>)
    requires Enclosing(thread, s)
    ensures (forall i, j :: 0 <= i < j < |s| ==> s[i] != s[j]) && forall x :: x in s <==> x in thread
  {
  }

  lemma {:induction false} OpsAreCounted(categorize: string -> Part, thread: seq<Event>, s: seq<Event>, n: nat,
                                         part: Part)
    requires Enclosing(thread, s) && n <= |s|
    ensures OpsOf(categorize, s, n, part) == |OpsIn(categorize, thread, part) * FirstOf(s, n)|
    decreases n
  {
    hide Enclosing, OpsIn, PartUnder, StackAt, FirstOf, InsideOp;
    if n == 0 {
      NoneMarked(OpsIn(categorize, thread, part), s);
    } else {
      OpsAreCounted(categorize, thread, s, n - 1, part);
      OpMeans(categorize, thread, s, n - 1, part);
      DistinctOf(thread, s);
      OneMoreMarked(OpsIn(categorize, thread, part), s, n - 1);
    }
  }

  lemma OpMeans(categorize: string -> Part, thread: seq<Event>, s: seq<Event>, n: nat, part: Part)
    requires Enclosing(thread, s) && n < |s|
    ensures s[n] in thread
    ensures PartUnder(categorize, s, StackAt(s, n), n) == Some(part) && !InsideOp(s, StackAt(s, n))
       <==> s[n] in OpsIn(categorize, thread, part)
  {
    hide Enclosing, PartUnder, BelongsTo, InsideOp, InsideSomeOp, StackAt;
    EnclosesIsLive(thread, s, n, n);
    PartMeans(categorize, thread, s, n, part);
    InsideOpMeans(thread, s, n);
  }

  lemma {:induction false} ReadsAreCounted(categorize: string -> Part, thread: seq<Event>, s: seq<Event>, n: nat,
                                           part: Part)
    requires Enclosing(thread, s) && n <= |s|
    ensures ReadsOf(categorize, s, n, part) == |ReadsIn(categorize, thread, part) * FirstOf(s, n)|
    decreases n
  {
    hide Enclosing, ReadsIn, PartUnder, StackAt, FirstOf;
    if n == 0 {
      NoneMarked(ReadsIn(categorize, thread, part), s);
    } else {
      ReadsAreCounted(categorize, thread, s, n - 1, part);
      ReadMeans(categorize, thread, s, n - 1, part);
      DistinctOf(thread, s);
      OneMoreMarked(ReadsIn(categorize, thread, part), s, n - 1);
    }
  }

  lemma ReadMeans(categorize: string -> Part, thread: seq<Event>, s: seq<Event>, n: nat, part: Part)
    requires Enclosing(thread, s) && n < |s|
    ensures s[n] in thread
    ensures PartUnder(categorize, s, StackAt(s, n), n) == Some(part) && s[n].name in HOST_READ_OPS
       <==> s[n] in ReadsIn(categorize, thread, part)
  {
    hide Enclosing, PartUnder, BelongsTo, StackAt;
    EnclosesIsLive(thread, s, n, n);
    PartMeans(categorize, thread, s, n, part);
  }

  lemma SeenMeans(categorize: string -> Part, thread: seq<Event>, s: seq<Event>, part: Part)
    requires Enclosing(thread, s)
    ensures Seen(categorize, s, |s|, part) <==> exists b :: b in thread && BelongsTo(categorize, thread, b, part)
  {
    hide Enclosing, BelongsTo, PartUnder, StackAt;
    forall e: nat | e < |s|
      ensures s[e] in thread
      ensures PartUnder(categorize, s, StackAt(s, e), e) == Some(part) <==> BelongsTo(categorize, thread, s[e], part)
    {
      EnclosesIsLive(thread, s, e, e);
      PartMeans(categorize, thread, s, e, part);
    }
    if exists b :: b in thread && BelongsTo(categorize, thread, b, part) {
      var b :| b in thread && BelongsTo(categorize, thread, b, part);
      var e := PlaceOf(thread, s, b);
      assert PartUnder(categorize, s, StackAt(s, e), e) == Some(part);
    }
  }

  /** On a nested thread the sweep counts exactly the ops inside no other op, and the reads, whose
      innermost annotation has the part. */
  lemma ThreadCounts(categorize: string -> Part, thread: seq<Event>, part: Part)
    requires NestedThread(thread)
    ensures var s := SortedEvents(thread);
            && OpsOf(categorize, s, |s|, part) == |OpsIn(categorize, thread, part)|
            && ReadsOf(categorize, s, |s|, part) == |ReadsIn(categorize, thread, part)|
            && (Seen(categorize, s, |s|, part) <==> exists b :: b in thread && BelongsTo(categorize, thread, b, part))
  {
    var s := SortedEvents(thread);
    SortedIsEnclosing(thread);
    hide CountsAsOp, CountsAsRead, BelongsTo, SortedEvents, Seen, OpsOf, ReadsOf, Enclosing, NestedThread;
    OpsAreCounted(categorize, thread, s, |s|, part);
    ReadsAreCounted(categorize, thread, s, |s|, part);
    SeenMeans(categorize, thread, s, part);
    DistinctOf(thread, s);
    AllMarked(OpsIn(categorize, thread, part), s);
    AllMarked(ReadsIn(categorize, thread, part), s);
  }

  lemma SortedIsEnclosing(thread: seq<Event>)
    requires NestedThread(thread)
    ensures Enclosing(thread, SortedEvents(thread))
  {
    hide SortedEvents, Laminar, NestedAsSeen, Encloses, Apart, Contains;
    SortedIsNested(thread);
  }

  // ---- the whole trace --------------------------------------------------------------------

  /** Events with the thread they are on. */
  ghost function On(t: nat, events: set<Event>): (tagged: set<(nat, Event)>)
  {
    set b | b in events :: (t, b)
  }

  /** The counted ops of a part over the first `t` threads, each with its thread. */
  ghost function TraceOps(categorize: string -> Part, threads: seq<seq<Event>>, t: nat, part: Part):
    (ops: set<(nat, Event)>)
    requires t <= |threads|
  {
    set u: nat, b | u < t && b in OpsIn(categorize, threads[u], part) :: (u, b)
  }

  ghost function TraceReads(categorize: string -> Part, threads: seq<seq<Event>>, t: nat, part: Part):
    (found: set<(nat, Event)>)
    requires t <= |threads|
  {
    set u: nat, b | u < t && b in ReadsIn(categorize, threads[u], part) :: (u, b)
  }

  lemma {:induction false} TagAll(t: nat, events: set<Event>)
    ensures |On(t, events)| == |events|
    decreases |events|
  {
    if events != {} {
      var x :| x in events;
      TagAll(t, events - {x});
      assert On(t, events) == On(t, events - {x}) + {(t, x)};
    }
  }

  lemma OpsOfOneMore(categorize: string -> Part, threads: seq<seq<Event>>, t: nat, part: Part)
    requires 0 < t <= |threads|
    ensures |TraceOps(categorize, threads, t, part)|
         == |TraceOps(categorize, threads, t - 1, part)| + |OpsIn(categorize, threads[t - 1], part)|
  {
    hide OpsIn;
    var less, last := TraceOps(categorize, threads, t - 1, part), On(t - 1, OpsIn(categorize, threads[t - 1], part));
    TagAll(t - 1, OpsIn(categorize, threads[t - 1], part));
    assert TraceOps(categorize, threads, t, part) == less + last;
    assert less !! last;
  }

  lemma ReadsOfOneMore(categorize: string -> Part, threads: seq<seq<Event>>, t: nat, part: Part)
    requires 0 < t <= |threads|
    ensures |TraceReads(categorize, threads, t, part)|
         == |TraceReads(categorize, threads, t - 1, part)| + |ReadsIn(categorize, threads[t - 1], part)|
  {
    hide ReadsIn;
    var less, last := TraceReads(categorize, threads, t - 1, part),
      On(t - 1, ReadsIn(categorize, threads[t - 1], part));
    TagAll(t - 1, ReadsIn(categorize, threads[t - 1], part));
    assert TraceReads(categorize, threads, t, part) == less + last;
    assert less !! last;
  }

  lemma EmptyTrace(categorize: string -> Part, threads: seq<seq<Event>>, part: Part)
    ensures |TraceOps(categorize, threads, 0, part)| == TraceOpsOf(categorize, threads, 0, part) == 0
    ensures |TraceReads(categorize, threads, 0, part)| == TraceReadsOf(categorize, threads, 0, part) == 0
  {
    assert TraceOps(categorize, threads, 0, part) == {} && TraceReads(categorize, threads, 0, part) == {};
  }

  lemma {:induction false} TraceOpsCount(categorize: string -> Part, threads: seq<seq<Event>>, t: nat, part: Part)
    requires t <= |threads| && forall u :: 0 <= u < |threads| ==> NestedThread(threads[u])
    ensures TraceOpsOf(categorize, threads, t, part) == |TraceOps(categorize, threads, t, part)|
    ensures TraceReadsOf(categorize, threads, t, part) == |TraceReads(categorize, threads, t, part)|
    decreases t
  {
    hide TraceOps, TraceReads, TraceOpsOf, TraceReadsOf, NestedThread, OpsIn, ReadsIn;
    if t == 0 {
      EmptyTrace(categorize, threads, part);
    } else {
      TraceOpsCount(categorize, threads, t - 1, part);
      OneMoreThread(categorize, threads, t, part);
      OpsOfOneMore(categorize, threads, t, part);
      ReadsOfOneMore(categorize, threads, t, part);
    }
  }

  lemma OneMoreThread(categorize: string -> Part, threads: seq<seq<Event>>, t: nat, part: Part)
    requires 0 < t <= |threads| && NestedThread(threads[t - 1])
    ensures TraceOpsOf(categorize, threads, t, part)
         == TraceOpsOf(categorize, threads, t - 1, part) + |OpsIn(categorize, threads[t - 1], part)|
    ensures TraceReadsOf(categorize, threads, t, part)
         == TraceReadsOf(categorize, threads, t - 1, part) + |ReadsIn(categorize, threads[t - 1], part)|
  {
    hide OpsIn, ReadsIn, OpsOf, ReadsOf, SortedEvents, Seen, NestedThread, BelongsTo;
    ThreadCounts(categorize, threads[t - 1], part);
  }

  /** So what the pass returns can be read off the trace: per part, the ops inside no other op and the
      reads under it, over the number of steps; and only parts that some op belongs to. */
  lemma TraceCountsEnclosed(categorize: string -> Part, threads: seq<seq<Event>>, steps: nat, counts: map<Part, Entry>,
                            part: Part)
    requires steps >= 1 && TraceTallied(categorize, threads, |threads|, steps, counts)
    requires forall u :: 0 <= u < |threads| ==> NestedThread(threads[u])
    ensures part in counts <==>
              exists u: nat, b :: u < |threads| && b in threads[u] && BelongsTo(categorize, threads[u], b, part)
    ensures part in counts ==>
              && counts[part].ops == |TraceOps(categorize, threads, |threads|, part)| as real / steps as real
              && counts[part].hostReads == |TraceReads(categorize, threads, |threads|, part)| as real / steps as real
  {
    hide OpsIn, ReadsIn, OpsOf, ReadsOf, SortedEvents, Seen, NestedThread, BelongsTo, TraceOps, TraceReads, TraceOpsOf,
      TraceReadsOf;
    TraceOpsCount(categorize, threads, |threads|, part);
    assert TraceTalliedPart(categorize, threads, |threads|, steps, counts, part);
    forall u: nat | u < |threads|
      ensures Seen(categorize, SortedEvents(threads[u]), |SortedEvents(threads[u])|, part)
         <==> exists b :: b in threads[u] && BelongsTo(categorize, threads[u], b, part)
    {
      ThreadCounts(categorize, threads[u], part);
    }
  }
}
