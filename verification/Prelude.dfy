/** What several modules share: an optional value and a stable sort. */
module Prelude {
  datatype Option<+T> = None | Some(value: T)

  /** `leq` compares any two elements and is transitive. */
  ghost predicate TotalPreorder<T(!new)>(leq: (T, T) -> bool)
  {
    && (forall a, b :: leq(a, b) || leq(b, a))
    && forall a, b, c :: leq(a, b) && leq(b, c) ==> leq(a, c)
  }

  ghost predicate SortedBy<T>(leq: (T, T) -> bool, s: seq<T>)
  {
    forall i, j :: 0 <= i < j < |s| ==> leq(s[i], s[j])
  }

  /** Insertion sort; elements that compare equal keep their order. */
  function SortBy<T(!new)>(leq: (T, T) -> bool, s: seq<T>): (sorted: seq<T>)
    requires TotalPreorder(leq)
    ensures SortedBy(leq, sorted) && multiset(sorted) == multiset(s)
  {
    if s == [] then []
    else
      assert s == s[..|s| - 1] + [s[|s| - 1]];
      Inserted(leq, SortBy(leq, s[..|s| - 1]), s[|s| - 1])
  }

  function Inserted<T(!new)>(leq: (T, T) -> bool, sorted: seq<T>, x: T): (longer: seq<T>)
    requires TotalPreorder(leq) && SortedBy(leq, sorted)
    ensures SortedBy(leq, longer) && multiset(longer) == multiset(sorted) + multiset{x}
  {
    if sorted == [] || leq(sorted[|sorted| - 1], x) then
      sorted + [x]
    else
      var init, last := sorted[..|sorted| - 1], sorted[|sorted| - 1];
      assert sorted == init + [last];
      var below := Inserted(leq, init, x);
      InsertedBelow(leq, below, init, x, last);
      below + [last]
  }

  lemma InsertedBelow<T>(leq: (T, T) -> bool, below: seq<T>, init: seq<T>, x: T, last: T)
    requires SortedBy(leq, below) && multiset(below) == multiset(init) + multiset{x}
    requires leq(x, last) && forall k :: 0 <= k < |init| ==> leq(init[k], last)
    ensures SortedBy(leq, below + [last])
  {
    forall k | 0 <= k < |below| ensures leq(below[k], last) {
      assert below[k] in multiset(below);
    }
  }

  /** The elements of `s` that compare equal to `x`, in the order of `s`. */
  function Ties<T>(leq: (T, T) -> bool, s: seq<T>, x: T): (ties: seq<T>)
  {
    if s == [] then []
    else
      var last := s[|s| - 1];
      Ties(leq, s[..|s| - 1], x) + if leq(last, x) && leq(x, last) then [last] else []
  }

  /** The sort is stable: elements that compare equal come out in the order in which they went in. */
  lemma {:induction false} SortByIsStable<T(!new)>(leq: (T, T) -> bool, s: seq<T>, x: T)
    requires TotalPreorder(leq)
    ensures Ties(leq, SortBy(leq, s), x) == Ties(leq, s, x)
    decreases |s|
  {
    if s != [] {
      SortByIsStable(leq, s[..|s| - 1], x);
      InsertedTies(leq, SortBy(leq, s[..|s| - 1]), s[|s| - 1], x);
    }
  }

  lemma {:induction false} InsertedTies<T(!new)>(leq: (T, T) -> bool, sorted: seq<T>, y: T, x: T)
    requires TotalPreorder(leq) && SortedBy(leq, sorted)
    ensures Ties(leq, Inserted(leq, sorted, y), x)
         == Ties(leq, sorted, x) + if leq(y, x) && leq(x, y) then [y] else []
    decreases |sorted|
  {
    if sorted == [] || leq(sorted[|sorted| - 1], y) {
      TiesSnoc(leq, sorted, y, x);
    } else {
      var init, last := sorted[..|sorted| - 1], sorted[|sorted| - 1];
      InsertedTies(leq, init, y, x);
      assert Inserted(leq, sorted, y) == Inserted(leq, init, y) + [last] && sorted == init + [last];
      assert leq(y, x) && leq(x, y) && leq(last, x) && leq(x, last) ==> leq(last, y);
      hide *;
      TiesSnoc(leq, init, last, x);
      TiesSnoc(leq, Inserted(leq, init, y), last, x);
      OneIsEmpty(Ties(leq, init, x), if leq(y, x) && leq(x, y) then [y] else [],
                 if leq(last, x) && leq(x, last) then [last] else []);
    }
  }

  lemma OneIsEmpty<T>(a: seq<T>, b: seq<T>, c: seq<T>)
    requires b == [] || c == []
    ensures a + b + c == a + c + b
  {
    assert a + [] == a && a + b + [] == a + b && a + [] + c == a + c;
  }

  lemma TiesSnoc<T>(leq: (T, T) -> bool, s: seq<T>, y: T, x: T)
    ensures Ties(leq, s + [y], x) == Ties(leq, s, x) + if leq(y, x) && leq(x, y) then [y] else []
  {
    assert (s + [y])[..|s|] == s;
  }
}
