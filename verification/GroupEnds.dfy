/** Where each expert's rows end in a list of expert ids sorted by id: by right-biased binary search
    in one kernel bench, by a running sum of counts in the other. */
module GroupEnds {
  /** Ids of existing experts, in order. */
  ghost predicate SortedIds(ids: seq<int>, experts: nat)
  {
    && (forall i :: 0 <= i < |ids| ==> 0 <= ids[i] < experts)
    && forall i, j :: 0 <= i < j < |ids| ==> ids[i] <= ids[j]
  }

  /** The first position in `lo..hi` whose id is above `bound`. */
  function SearchRight(ids: seq<int>, bound: int, lo: nat, hi: nat): (end: nat)
    requires lo <= hi <= |ids|
    ensures lo <= end <= hi
    decreases hi - lo
  {
    if lo == hi then lo
    else
      var mid := (lo + hi) / 2;
      if ids[mid] <= bound then SearchRight(ids, bound, mid + 1, hi) else SearchRight(ids, bound, lo, mid)
  }

  function EndsBySearch(ids: seq<int>, experts: nat): (ends: seq<nat>)
    ensures |ends| == experts
  {
    seq(experts, e => SearchRight(ids, e, 0, |ids|))
  }

  function Occurrences(ids: seq<int>, e: int): (k: nat)
  {
    if ids == [] then 0 else Occurrences(ids[..|ids| - 1], e) + if ids[|ids| - 1] == e then 1 else 0
  }

  function BinCount(ids: seq<int>, experts: nat): (counts: seq<nat>)
    ensures |counts| == experts
  {
    seq(experts, e => Occurrences(ids, e))
  }

  function CumulativeSum(counts: seq<nat>): (sums: seq<nat>)
    ensures |sums| == |counts|
  {
    if counts == [] then []
    else
      var e := |counts| - 1;
      var sums := CumulativeSum(counts[..e]);
      sums + [(if e == 0 then 0 else sums[e - 1]) + counts[e]]
  }

  function EndsByCount(ids: seq<int>, experts: nat): (ends: seq<nat>)
    ensures |ends| == experts
  {
    CumulativeSum(BinCount(ids, experts))
  }

  /** `end` separates the ids up to `bound` from those above it. */
  ghost predicate Separates(ids: seq<int>, bound: int, end: nat)
  {
    && end <= |ids|
    && (forall i :: 0 <= i < end ==> ids[i] <= bound)
    && forall i :: end <= i < |ids| ==> ids[i] > bound
  }

  lemma {:induction false} SearchSeparates(ids: seq<int>, experts: nat, bound: int, lo: nat, hi: nat)
    requires SortedIds(ids, experts) && lo <= hi <= |ids|
    requires (forall i :: 0 <= i < lo ==> ids[i] <= bound) && forall i :: hi <= i < |ids| ==> ids[i] > bound
    ensures Separates(ids, bound, SearchRight(ids, bound, lo, hi))
    decreases hi - lo
  {
    if lo < hi {
      var mid := (lo + hi) / 2;
      if ids[mid] <= bound {
        SearchSeparates(ids, experts, bound, mid + 1, hi);
      } else {
        SearchSeparates(ids, experts, bound, lo, mid);
      }
    }
  }

  /** Ids up to `bound`, in any order. */
  function UpTo(ids: seq<int>, bound: int): (k: nat)
  {
    if ids == [] then 0 else UpTo(ids[..|ids| - 1], bound) + if ids[|ids| - 1] <= bound then 1 else 0
  }

  lemma {:induction false} OneMoreBound(ids: seq<int>, bound: int)
    ensures UpTo(ids, bound) == UpTo(ids, bound - 1) + Occurrences(ids, bound)
    decreases |ids|
  {
    if ids != [] { OneMoreBound(ids[..|ids| - 1], bound); }
  }

  lemma {:induction false} NoneBelowZero(ids: seq<int>)
    requires forall i :: 0 <= i < |ids| ==> ids[i] >= 0
    ensures UpTo(ids, -1) == 0
    decreases |ids|
  {
    if ids != [] { NoneBelowZero(ids[..|ids| - 1]); }
  }

  lemma {:induction false} CumulativeCounts(ids: seq<int>, experts: nat, e: nat)
    requires e < experts && forall i :: 0 <= i < |ids| ==> ids[i] >= 0
    ensures EndsByCount(ids, experts)[e] == UpTo(ids, e)
    decreases experts
  {
    var init := BinCount(ids, experts)[..experts - 1];
    assert init == BinCount(ids, experts - 1);
    if e < experts - 1 {
      CumulativeCounts(ids, experts - 1, e);
    } else {
      OneMoreBound(ids, e);
      if e == 0 { NoneBelowZero(ids); } else { CumulativeCounts(ids, experts - 1, e - 1); }
    }
  }

  lemma {:induction false} SeparatesAtUpTo(ids: seq<int>, bound: int, end: nat)
    requires Separates(ids, bound, end)
    ensures UpTo(ids, bound) == end
    decreases |ids|
  {
    if ids != [] {
      var init := ids[..|ids| - 1];
      SeparatesAtUpTo(init, bound, if end < |ids| then end else end - 1);
    }
  }

  /** Both computations find the same ends. */
  lemma EndsAgree(ids: seq<int>, experts: nat)
    requires SortedIds(ids, experts)
    ensures EndsBySearch(ids, experts) == EndsByCount(ids, experts)
  {
    forall e: nat | e < experts ensures EndsBySearch(ids, experts)[e] == EndsByCount(ids, experts)[e] {
      SearchSeparates(ids, experts, e, 0, |ids|);
      SeparatesAtUpTo(ids, e, EndsBySearch(ids, experts)[e]);
      CumulativeCounts(ids, experts, e);
    }
  }

  /** The ends never fall, the last is the row count, and between two of them lie exactly the rows
      of one expert, none for an expert without rows. */
  lemma EndsDelimitRows(ids: seq<int>, experts: nat, e: nat, row: nat)
    requires SortedIds(ids, experts) && e < experts && row < |ids|
    ensures var ends := EndsBySearch(ids, experts);
            var start := if e == 0 then 0 else ends[e - 1];
            && start <= ends[e] <= ends[experts - 1] == |ids|
            && (ids[row] == e <==> start <= row < ends[e])
            && ends[e] - start == Occurrences(ids, e)
  {
    hide SearchRight, UpTo, Occurrences;
    var ends := EndsBySearch(ids, experts);
    SearchSeparates(ids, experts, e, 0, |ids|);
    SearchSeparates(ids, experts, experts - 1, 0, |ids|);
    SearchSeparates(ids, experts, e - 1, 0, |ids|);
    assert ids[|ids| - 1] <= experts - 1;
    SeparatesAtUpTo(ids, e, ends[e]);
    SeparatesAtUpTo(ids, e - 1, SearchRight(ids, e - 1, 0, |ids|));
    OneMoreBound(ids, e);
    if e == 0 { NoneBelowZero(ids); }
  }
}
