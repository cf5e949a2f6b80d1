/** Vectors of reals and their sums. */
module Vectors {
  type Vector = seq<real>

  function Sum(v: Vector): (s: real)
  {
    if v == [] then 0.0 else Sum(v[..|v| - 1]) + v[|v| - 1]
  }

  /** Sums of parts add up, and one entry is its own sum. */
  lemma {:induction false} SumAdds(v: Vector, w: Vector, x: real)
    ensures Sum(v + w) == Sum(v) + Sum(w) && Sum([x]) == x
    decreases |w|
  {
    if w == [] {
      assert v + w == v;
    } else {
      assert (v + w)[..|v + w| - 1] == v + w[..|w| - 1];
      SumAdds(v, w[..|w| - 1], x);
    }
  }

  ghost predicate PositiveVector(v: Vector)
  {
    v != [] && forall j :: 0 <= j < |v| ==> v[j] > 0.0
  }

  lemma {:induction false} SumPositive(v: Vector)
    requires PositiveVector(v)
    ensures Sum(v) > 0.0
    decreases |v|
  {
    if |v| > 1 { SumPositive(v[..|v| - 1]); }
  }

  lemma {:induction false} SumNonNegative(v: Vector)
    requires forall i :: 0 <= i < |v| ==> v[i] >= 0.0
    ensures Sum(v) >= 0.0
    decreases |v|
  {
    if v != [] { SumNonNegative(v[..|v| - 1]); }
  }

  lemma {:induction false} EntryAtMostSum(v: Vector, k: nat)
    requires k < |v| && forall i :: 0 <= i < |v| ==> v[i] >= 0.0
    ensures v[k] <= Sum(v)
    decreases |v|
  {
    SumNonNegative(v[..|v| - 1]);
    if k < |v| - 1 { EntryAtMostSum(v[..|v| - 1], k); }
  }

  lemma {:induction false} SumOfSums(v: Vector, w: Vector, x: Vector)
    requires |v| == |w| == |x| && forall j :: 0 <= j < |v| ==> x[j] == v[j] + w[j]
    ensures Sum(x) == Sum(v) + Sum(w)
    decreases |v|
  {
    if v != [] { SumOfSums(v[..|v| - 1], w[..|v| - 1], x[..|v| - 1]); }
  }
}
