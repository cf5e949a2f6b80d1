/** What one Sinkhorn iteration does to row and column sums: exact column sums, and bounds on the row
    sums, for every eps. */
module SinkhornBounds {
  import opened Sinkhorn
  import opened Vectors

  // ---- sums after a half step -------------------------------------------------------------

  lemma TransposeOfColStep(a: Matrix, n: nat, m: nat, eps: real)
    requires Positive(a, n, m) && eps >= 0.0
    ensures PositiveVector(ColSums(a, m)) && PositiveVector(RowSums(Transpose(a, m))) && Positive(Transpose(a, m), m, n)
    ensures Transpose(ColStep(a, n, m, eps), m) == RowStep(Transpose(a, m), m, n, eps)
  {
    ColSumsPositive(a, n, m);
    ColSumsOfTranspose(a, m);
    MatrixExtensional(Transpose(ColStep(a, n, m, eps), m), RowStep(Transpose(a, m), m, n, eps), n);
  }

  lemma RowSumAfterRowStep(a: Matrix, n: nat, m: nat, eps: real, i: nat)
    requires Positive(a, n, m) && eps >= 0.0 && i < n
    ensures Sum(a[i]) > 0.0
    ensures Sum(RowStep(a, n, m, eps)[i]) == Sum(a[i]) / (Sum(a[i]) + eps)
  {
    SumPositive(a[i]);
    var d := Sum(a[i]) + eps;
    SumOfQuotients(a[i], seq(m, j => d), RowStep(a, n, m, eps)[i], d, d);
  }

  /** A column step leaves every column with the sum c / (c + eps): exactly 1 when eps is 0, and
      strictly below 1 when it is not. */
  lemma ColumnSumAfterColStep(a: Matrix, n: nat, m: nat, eps: real, j: nat)
    requires Positive(a, n, m) && eps >= 0.0 && j < m
    ensures var c, after := ColSums(a, m)[j], ColSums(ColStep(a, n, m, eps), m)[j];
            && c > 0.0 && after == c / (c + eps)
            && 0.0 < after <= 1.0 && (after < 1.0 <==> eps > 0.0)
  {
    TransposeOfColStep(a, n, m, eps);
    ColSumsOfTranspose(a, m);
    ColSumsOfTranspose(ColStep(a, n, m, eps), m);
    RowSumAfterRowStep(Transpose(a, m), m, n, eps, j);
    ShareOfSum(ColSums(a, m)[j], eps);
  }

  lemma ShareOfSum(c: real, eps: real)
    requires c > 0.0 && eps >= 0.0
    ensures 0.0 < c / (c + eps) <= 1.0 && (c / (c + eps) < 1.0 <==> eps > 0.0)
  {
    assert c / (c + eps) * (c + eps) == c;
  }

  // ---- row-sum bounds of one iteration ----------------------------------------------------

  ghost predicate Within(v: Vector, lo: real, hi: real)
  {
    forall i :: 0 <= i < |v| ==> lo <= v[i] <= hi
  }

  lemma QuotientBetween(x: real, d: real, lo: real, hi: real)
    requires x > 0.0 && 0.0 < lo <= d <= hi
    ensures x / hi <= x / d <= x / lo
  {
    QuotientAntitone(x, d, hi);
    QuotientAntitone(x, lo, d);
  }

  lemma QuotientAdds(x: real, y: real, d: real)
    requires d != 0.0
    ensures (x + y) / d == x / d + y / d
  {
  }

  /** Dividing the entries of `v` by numbers in [lo, hi] divides their sum by something between. */
  lemma {:induction false} SumOfQuotients(v: Vector, d: Vector, w: Vector, lo: real, hi: real)
    requires |d| == |w| == |v| && 0.0 < lo <= hi && Within(d, lo, hi)
    requires forall j :: 0 <= j < |v| ==> v[j] > 0.0 && w[j] == v[j] / d[j]
    ensures Sum(v) / hi <= Sum(w) <= Sum(v) / lo
    decreases |v|
  {
    if v != [] {
      var k := |v| - 1;
      SumOfQuotients(v[..k], d[..k], w[..k], lo, hi);
      QuotientBetween(v[k], d[k], lo, hi);
      QuotientAdds(Sum(v[..k]), v[k], hi);
      QuotientAdds(Sum(v[..k]), v[k], lo);
    }
  }

  /** `v` with eps added to every entry. */
  function Guarded(v: Vector, eps: real): (w: Vector)
    ensures |w| == |v| && forall j :: 0 <= j < |v| ==> w[j] == v[j] + eps
  {
    seq(|v|, j requires 0 <= j < |v| => v[j] + eps)
  }

  lemma QuotientAntitone(x: real, d: real, e: real)
    requires x > 0.0 && 0.0 < d <= e
    ensures x / e <= x / d
  {
    assert x / d * d == x && x / e * e == x;
    assert x / e * d <= x / e * e;
    assert (x / d - x / e) * d >= 0.0;
  }

  /** Dividing by column totals in [lo, hi] keeps each row sum within the matching bounds. */
  lemma RowSumAfterColStep(a: Matrix, n: nat, m: nat, eps: real, lo: real, hi: real, i: nat)
    requires Positive(a, n, m) && eps >= 0.0 && i < n
    requires 0.0 < lo <= hi && Within(ColSums(a, m), lo, hi)
    ensures Sum(a[i]) / (hi + eps) <= Sum(ColStep(a, n, m, eps)[i]) <= Sum(a[i]) / (lo + eps)
  {
    hide ColSums, ColStep;
    RowOfColStep(a, n, m, eps, i);
    SumOfQuotients(a[i], Guarded(ColSums(a, m), eps), ColStep(a, n, m, eps)[i], lo + eps, hi + eps);
  }

  lemma RowOfColStep(a: Matrix, n: nat, m: nat, eps: real, i: nat)
    requires Positive(a, n, m) && eps >= 0.0 && i < n
    ensures forall j :: 0 <= j < m ==>
      ColSums(a, m)[j] + eps > 0.0 && ColStep(a, n, m, eps)[i][j] == a[i][j] / (ColSums(a, m)[j] + eps)
  {
    ColSumsPositive(a, n, m);
  }

  lemma ColumnSumAfterRowStep(a: Matrix, n: nat, m: nat, eps: real, lo: real, hi: real, j: nat)
    requires Positive(a, n, m) && eps >= 0.0 && j < m
    requires 0.0 < lo <= hi && Within(RowSums(a), lo, hi)
    ensures ColSums(a, m)[j] / (hi + eps) <= ColSums(RowStep(a, n, m, eps), m)[j] <= ColSums(a, m)[j] / (lo + eps)
  {
    hide ColSums, RowStep, Transpose;
    ColumnTotal(a, m, j);
    ColumnTotal(RowStep(a, n, m, eps), m, j);
    ColumnOfRowStep(a, n, m, eps, j);
    hide Positive;
    var v, w := Transpose(a, m)[j], Transpose(RowStep(a, n, m, eps), m)[j];
    SumOfQuotients(v, Guarded(RowSums(a), eps), w, lo + eps, hi + eps);
    SameBounds(Sum(v), ColSums(a, m)[j], Sum(w), ColSums(RowStep(a, n, m, eps), m)[j], lo + eps, hi + eps);
  }

  lemma ColumnTotal(a: Matrix, m: nat, j: nat)
    requires (forall i :: 0 <= i < |a| ==> |a[i]| == m) && j < m
    ensures ColSums(a, m)[j] == Sum(Transpose(a, m)[j])
  {
    ColSumsOfTranspose(a, m);
  }

  lemma SameBounds(x: real, x': real, y: real, y': real, lo: real, hi: real)
    requires x == x' && y == y' && 0.0 < lo <= hi && x / hi <= y <= x / lo
    ensures x' / hi <= y' <= x' / lo
  {
  }

  lemma ColumnOfRowStep(a: Matrix, n: nat, m: nat, eps: real, j: nat)
    requires Positive(a, n, m) && eps >= 0.0 && j < m
    ensures forall i :: 0 <= i < n ==>
      && Transpose(a, m)[j][i] > 0.0 && RowSums(a)[i] + eps > 0.0
      && Transpose(RowStep(a, n, m, eps), m)[j][i] == Transpose(a, m)[j][i] / (RowSums(a)[i] + eps)
  {
    RowSumsPositive(a, n, m);
  }

  lemma LowerBoundAlgebra(r: real, lo: real, eps: real)
    requires 0.0 < lo <= r && eps >= 0.0
    ensures 1.0 / (lo + eps) + eps > 0.0 && 1.0 + eps * (lo + eps) > 0.0
    ensures r / (r + eps) / (1.0 / (lo + eps) + eps) >= lo / (1.0 + eps * (lo + eps))
  {
    ShareMonotone(lo, r, eps);
    var d := lo + eps;
    assert eps * d >= 0.0;
    assert (1.0 / d + eps) * d == 1.0 + eps * d;
    NestedQuotient(lo, d, 1.0 / d + eps);
    QuotientMonotone(lo / d, r / (r + eps), 1.0 / d + eps);
  }

  lemma UpperBoundAlgebra(r: real, hi: real, s: real, eps: real)
    requires 0.0 < r <= hi && s > 0.0 && eps >= 0.0
    ensures s / (hi + eps) + eps > 0.0 && s + eps * (hi + eps) > 0.0
    ensures r / (r + eps) / (s / (hi + eps) + eps) <= hi / (s + eps * (hi + eps))
  {
    ShareMonotone(r, hi, eps);
    var d := hi + eps;
    assert eps * d >= 0.0;
    QuotientPositive(s, d);
    assert (s / d + eps) * d == s + eps * d;
    NestedQuotient(hi, d, s / d + eps);
    QuotientMonotone(r / (r + eps), hi / d, s / d + eps);
  }

  lemma NestedQuotient(x: real, d: real, e: real)
    requires d > 0.0 && e > 0.0
    ensures e * d > 0.0 && x / d / e == x / (e * d)
  {
    assert x / d / e * (e * d) == x / d / e * e * d == x;
  }

  lemma QuotientMonotone(x: real, y: real, d: real)
    requires x <= y && d > 0.0
    ensures x / d <= y / d
  {
    assert y / d - x / d == (y - x) / d;
  }

  lemma ShareMonotone(x: real, y: real, eps: real)
    requires 0.0 < x <= y && eps >= 0.0
    ensures x / (x + eps) <= y / (y + eps)
  {
    var p, q := x / (x + eps), y / (y + eps);
    assert p * (x + eps) == x && q * (y + eps) == y;
    ShareOfSum(x, eps);
    ShareOfSum(y, eps);
    assert q * (y + eps) - q * (x + eps) == q * (y - x) <= y - x;
    assert (p - q) * (x + eps) <= 0.0;
  }

  /** One row-then-column iteration, with rounding guard eps. */
  function Iterate(a: Matrix, n: nat, m: nat, eps: real): (b: Matrix)
    requires Positive(a, n, m) && eps >= 0.0
    ensures Positive(b, n, m)
  {
    ColStep(RowStep(a, n, m, eps), n, m, eps)
  }

  /** If the row sums lie in [lo, hi] and the column sums in [s, 1], the next row sums lie in
      [lo / (1 + eps (lo + eps)), hi / (s + eps (hi + eps))]: inside [lo, hi] when eps is 0. */
  lemma RowSumsAfterIteration(a: Matrix, n: nat, m: nat, eps: real, lo: real, hi: real, s: real)
    requires Positive(a, n, m) && eps >= 0.0
    requires 0.0 < lo <= hi && 0.0 < s <= 1.0
    requires Within(RowSums(a), lo, hi) && Within(ColSums(a, m), s, 1.0)
    ensures 1.0 + eps * (lo + eps) > 0.0 && s + eps * (hi + eps) > 0.0
    ensures Within(RowSums(Iterate(a, n, m, eps)), lo / (1.0 + eps * (lo + eps)), hi / (s + eps * (hi + eps)))
  {
    var b := RowStep(a, n, m, eps);
    ColSumsAfterRowStep(a, n, m, eps, lo, hi, s);
    LowerBoundAlgebra(lo, lo, eps);
    UpperBoundAlgebra(hi, hi, s, eps);
    forall i | 0 <= i < n
      ensures lo / (1.0 + eps * (lo + eps)) <= RowSums(Iterate(a, n, m, eps))[i] <= hi / (s + eps * (hi + eps))
    {
      assert RowSums(a)[i] == Sum(a[i]);
      RowSumAfterIteration(a, n, m, eps, lo, hi, s, i);
    }
  }

  lemma RowSumAfterIteration(a: Matrix, n: nat, m: nat, eps: real, lo: real, hi: real, s: real, i: nat)
    requires Positive(a, n, m) && eps >= 0.0 && i < n
    requires 0.0 < lo <= Sum(a[i]) <= hi && 0.0 < s <= 1.0
    requires 0.0 < s / (hi + eps) <= 1.0 / (lo + eps)
    requires Within(ColSums(RowStep(a, n, m, eps), m), s / (hi + eps), 1.0 / (lo + eps))
    ensures 1.0 + eps * (lo + eps) > 0.0 && s + eps * (hi + eps) > 0.0
    ensures lo / (1.0 + eps * (lo + eps)) <= Sum(Iterate(a, n, m, eps)[i]) <= hi / (s + eps * (hi + eps))
  {
    hide ColSums, RowStep, ColStep;
    var b, below, above := RowStep(a, n, m, eps), s / (hi + eps), 1.0 / (lo + eps);
    RowSumAfterRowStep(a, n, m, eps, i);
    RowSumAfterColStep(b, n, m, eps, below, above, i);
    hide Positive, Within;
    NextRowSum(Sum(a[i]), Sum(b[i]), Sum(Iterate(a, n, m, eps)[i]), lo, hi, s, eps);
  }

  lemma NextRowSum(r: real, shared: real, next: real, lo: real, hi: real, s: real, eps: real)
    requires 0.0 < lo <= r <= hi && 0.0 < s && eps >= 0.0 && shared == r / (r + eps)
    requires s / (hi + eps) + eps > 0.0 && 1.0 / (lo + eps) + eps > 0.0
    requires shared / (1.0 / (lo + eps) + eps) <= next <= shared / (s / (hi + eps) + eps)
    ensures 1.0 + eps * (lo + eps) > 0.0 && s + eps * (hi + eps) > 0.0
    ensures lo / (1.0 + eps * (lo + eps)) <= next <= hi / (s + eps * (hi + eps))
  {
    LowerBoundAlgebra(r, lo, eps);
    UpperBoundAlgebra(r, hi, s, eps);
  }

  lemma ColSumsAfterRowStep(a: Matrix, n: nat, m: nat, eps: real, lo: real, hi: real, s: real)
    requires Positive(a, n, m) && eps >= 0.0
    requires 0.0 < lo <= hi && 0.0 < s <= 1.0
    requires Within(RowSums(a), lo, hi) && Within(ColSums(a, m), s, 1.0)
    ensures 0.0 < s / (hi + eps) <= 1.0 / (lo + eps)
    ensures Within(ColSums(RowStep(a, n, m, eps), m), s / (hi + eps), 1.0 / (lo + eps))
  {
    hide ColSums, RowStep;
    var c, next := ColSums(a, m), ColSums(RowStep(a, n, m, eps), m);
    WidenedQuotients(1.0, s, lo + eps, hi + eps);
    forall j | 0 <= j < m ensures s / (hi + eps) <= next[j] <= 1.0 / (lo + eps) {
      ColumnSumAfterRowStep(a, n, m, eps, lo, hi, j);
      WidenedQuotients(c[j], s, lo + eps, hi + eps);
    }
  }

  lemma WidenedQuotients(c: real, s: real, lo: real, hi: real)
    requires 0.0 < s <= c <= 1.0 && 0.0 < lo <= hi
    ensures 0.0 < s / hi <= c / hi && c / lo <= 1.0 / lo && s / hi <= 1.0 / lo
  {
    QuotientPositive(s, hi);
    QuotientMonotone(s, c, hi);
    QuotientMonotone(c, 1.0, lo);
    QuotientMonotone(s, 1.0, hi);
    QuotientAntitone(1.0, lo, hi);
  }
}
