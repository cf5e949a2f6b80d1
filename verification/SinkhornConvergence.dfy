/** Sinkhorn iterations converge, whatever the guard eps: once the row and column sums, with eps added,
    are within a factor of one, that factor contracts towards one at a geometric rate. The limit has all
    row and column sums at 1 - eps. */
module SinkhornConvergence {
  import opened Reals
  import opened Sinkhorn
  import opened SinkhornBounds
  import opened Vectors

  // ---- sums with weights ------------------------------------------------------------------

  ghost predicate Weighted(w: Vector, q: Vector, x: Vector, lo: real, hi: real)
  {
    && |w| == |q| == |x|
    && forall i :: 0 <= i < |w| ==> w[i] > 0.0 && lo <= q[i] <= hi && x[i] == Times(w[i], q[i])
  }

  lemma {:induction false} WeightedSumAtLeast(w: Vector, q: Vector, x: Vector, lo: real, hi: real)
    requires Weighted(w, q, x, lo, hi)
    ensures Times(lo, Sum(w)) <= Sum(x)
    decreases |w|
  {
    if w != [] {
      hide Times;
      var e := |w| - 1;
      WeightedSumAtLeast(w[..e], q[..e], x[..e], lo, hi);
      LowerStep(Sum(w[..e]), Sum(x[..e]), w[e], q[e], lo, 0.0);
    }
  }

  lemma LowerStep(ws: real, xs: real, w: real, q: real, lo: real, pull: real)
    requires Times(lo, ws) + pull <= xs && w > 0.0 && lo <= q
    ensures Times(lo, ws + w) + pull <= xs + Times(w, q)
  {
    assert w * lo <= w * q;
  }

  /** One weight that is not at the lower end pulls the sum up. */
  lemma {:induction false} PulledUp(w: Vector, q: Vector, x: Vector, lo: real, hi: real, k: nat)
    requires Weighted(w, q, x, lo, hi) && k < |w|
    ensures Times(lo, Sum(w)) + Times(w[k], q[k] - lo) <= Sum(x)
    decreases |w|
  {
    hide Times;
    var e := |w| - 1;
    if k < e {
      PulledUp(w[..e], q[..e], x[..e], lo, hi, k);
      LowerStep(Sum(w[..e]), Sum(x[..e]), w[e], q[e], lo, Times(w[k], q[k] - lo));
    } else {
      WeightedSumAtLeast(w[..e], q[..e], x[..e], lo, hi);
      LiftStep(Sum(w[..e]), Sum(x[..e]), w[e], q[e], lo);
    }
  }

  lemma LiftStep(ws: real, xs: real, w: real, q: real, lo: real)
    requires Times(lo, ws) <= xs
    ensures Times(lo, ws + w) + Times(w, q - lo) <= xs + Times(w, q)
  {
  }

  lemma {:induction false} Negated(v: Vector, w: Vector)
    requires |w| == |v| && forall i :: 0 <= i < |v| ==> w[i] == -v[i]
    ensures Sum(w) == -Sum(v)
    decreases |v|
  {
    if v != [] { Negated(v[..|v| - 1], w[..|v| - 1]); }
  }

  /** One weight that is not at the upper end pulls it down. */
  lemma PulledDown(w: Vector, q: Vector, x: Vector, lo: real, hi: real, k: nat)
    requires Weighted(w, q, x, lo, hi) && k < |w|
    ensures Sum(x) <= Times(hi, Sum(w)) - Times(w[k], hi - q[k])
  {
    hide Times;
    var q' := seq(|q|, i requires 0 <= i < |q| => -q[i]);
    var x' := seq(|x|, i requires 0 <= i < |x| => -x[i]);
    forall i | 0 <= i < |w| ensures Times(w[i], q'[i]) == x'[i] { TimesNegated(w[i], q[i]); }
    Negated(x, x');
    PulledUp(w, q', x', -hi, -lo, k);
    TimesNegated(hi, Sum(w));
  }

  lemma {:induction false} SumRatio(v: Vector, w: Vector, x: real, y: real)
    requires |v| == |w| && forall l :: 0 <= l < |v| ==> Times(x, v[l]) <= Times(y, w[l])
    ensures Times(x, Sum(v)) <= Times(y, Sum(w))
    decreases |v|
  {
    hide Times;
    if v == [] {
      TimesZero(x);
      TimesZero(y);
    } else {
      var e := |v| - 1;
      SumRatio(v[..e], w[..e], x, y);
      TimesAdds(x, Sum(v[..e]), v[e]);
      TimesAdds(y, Sum(w[..e]), w[e]);
    }
  }

  lemma TimesZero(x: real)
    ensures Times(x, 0.0) == 0.0
  {
  }

  // ---- cross ratios -----------------------------------------------------------------------

  /** How far the 2 x 2 minor at rows i, k and columns j, l is from rank one. */
  ghost predicate CrossAt(a: Matrix, kappa: real, n: nat, m: nat, i: nat, k: nat, j: nat, l: nat)
    requires Positive(a, n, m)
    requires i < n && k < n && j < m && l < m
  {
    a[i][j] * a[k][l] >= kappa * (a[i][l] * a[k][j])
  }

  ghost predicate CrossRatio(a: Matrix, kappa: real, n: nat, m: nat)
    requires Positive(a, n, m)
  {
    forall i: nat, k: nat, j: nat, l: nat :: i < n && k < n && j < m && l < m ==> CrossAt(a, kappa, n, m, i, k, j, l)
  }

  lemma ScaleCross(x: real, y: real, u: real, v: real, d: real, e: real, kappa: real)
    requires x * y >= kappa * (u * v) && d > 0.0 && e > 0.0
    ensures (x / d) * (y / e) >= kappa * ((u / d) * (v / e))
  {
    QuotientProduct(x, y, d, e);
    QuotientProduct(u, v, d, e);
    var f := d * e;
    QuotientMonotone(kappa * (u * v), x * y, f);
    QuotientOfMultiple(kappa, u * v, f);
  }

  lemma QuotientOfMultiple(k: real, x: real, d: real)
    requires d > 0.0
    ensures k * x / d == k * (x / d)
  {
    assert x / d * d == x;
  }

  lemma QuotientProduct(x: real, y: real, d: real, e: real)
    requires d > 0.0 && e > 0.0
    ensures d * e > 0.0 && (x / d) * (y / e) == x * y / (d * e)
  {
    var p, q := x / d, y / e;
    assert p * d == x && q * e == y;
    assert p * q * (d * e) == (p * d) * (q * e);
  }

  /** Row and column steps never change how far a matrix is from rank one. */
  lemma RowStepKeepsCross(a: Matrix, kappa: real, n: nat, m: nat, eps: real)
    requires Positive(a, n, m) && eps >= 0.0 && CrossRatio(a, kappa, n, m)
    ensures CrossRatio(RowStep(a, n, m, eps), kappa, n, m)
  {
    RowSumsPositive(a, n, m);
    var b, r := RowStep(a, n, m, eps), RowSums(a);
    forall i: nat, k: nat, j: nat, l: nat | i < n && k < n && j < m && l < m
      ensures CrossAt(b, kappa, n, m, i, k, j, l)
    {
      assert CrossAt(a, kappa, n, m, i, k, j, l);
      ScaleCross(a[i][j], a[k][l], a[i][l], a[k][j], r[i] + eps, r[k] + eps, kappa);
    }
  }

  lemma ColStepKeepsCross(a: Matrix, kappa: real, n: nat, m: nat, eps: real)
    requires Positive(a, n, m) && eps >= 0.0 && CrossRatio(a, kappa, n, m)
    ensures CrossRatio(ColStep(a, n, m, eps), kappa, n, m)
  {
    ColSumsPositive(a, n, m);
    var b, c := ColStep(a, n, m, eps), ColSums(a, m);
    forall i: nat, k: nat, j: nat, l: nat | i < n && k < n && j < m && l < m
      ensures CrossAt(b, kappa, n, m, i, k, j, l)
    {
      assert CrossAt(a, kappa, n, m, i, k, j, l);
      ScaleCross(a[i][j], a[k][l], a[k][j], a[i][l], c[j] + eps, c[l] + eps, kappa);
      assert b[i][l] * b[k][j] == b[k][j] * b[i][l];
    }
  }

  /** Rows and columns have the same grand total. */
  lemma {:induction false} GrandTotal(a: Matrix, m: nat)
    requires forall i :: 0 <= i < |a| ==> |a[i]| == m
    ensures Sum(RowSums(a)) == Sum(ColSums(a, m))
    decreases |a|
  {
    if a == [] {
      ZerosSum(m);
    } else {
      var init := a[..|a| - 1];
      GrandTotal(init, m);
      assert RowSums(a)[..|init|] == RowSums(init);
      SumOfSums(ColSums(init, m), a[|init|], ColSums(a, m));
    }
  }

  lemma {:induction false} ZerosSum(m: nat)
    ensures Sum(seq(m, j => 0.0)) == 0.0
  {
    if m > 0 {
      ZerosSum(m - 1);
      assert seq(m, j => 0.0)[..m - 1] == seq(m - 1, j => 0.0);
    }
  }

  lemma {:induction false} SumAbove(v: Vector, x: real)
    requires v != [] && forall i :: 0 <= i < |v| ==> v[i] > x
    ensures Sum(v) > x * |v| as real
    decreases |v|
  {
    if |v| > 1 { SumAbove(v[..|v| - 1], x); }
  }

  lemma {:induction false} SumBelow(v: Vector, x: real)
    requires v != [] && forall i :: 0 <= i < |v| ==> v[i] < x
    ensures Sum(v) < x * |v| as real
    decreases |v|
  {
    if |v| > 1 { SumBelow(v[..|v| - 1], x); }
  }

  lemma NonNegative(x: real, y: real)
    requires x >= 0.0 && y >= 0.0
    ensures x * y >= 0.0
  {
  }

  lemma FactorNonNegative(x: real, y: real)
    requires x > 0.0 && x * y >= 0.0
    ensures y >= 0.0
  {
  }

  // ---- how far the sums are from one ------------------------------------------------------

  /** `w` is within the factor `z` of one. */
  predicate Near(w: real, z: real)
  {
    w <= z && 1.0 <= Times(z, w)
  }

  /** `c` is w / (w + eps) for some w + eps within the factor `z` of one. */
  predicate Damped(c: real, eps: real, z: real)
  {
    1.0 - Times(eps, z) <= c && Times(z, c) <= z - eps
  }

  ghost predicate RowsNear(b: Matrix, n: nat, eps: real, z: real)
    requires Positive(b, n, n)
  {
    forall i :: 0 <= i < n ==> Near(RowSums(b)[i] + eps, z)
  }

  ghost predicate ColsDamped(b: Matrix, n: nat, eps: real, z: real)
    requires Positive(b, n, n)
  {
    forall j :: 0 <= j < n ==> Damped(ColSums(b, n)[j], eps, z)
  }

  lemma NearIsMonotone(w: real, x: real, z: real)
    requires x <= z && w > 0.0 && Near(w, x)
    ensures Near(w, z)
  {
    NonNegative(z - x, w);
  }

  lemma ShareIsDamped(r: real, eps: real, z: real)
    requires r > 0.0 && eps >= 0.0 && z > 0.0 && Near(r + eps, z)
    ensures Damped(r / (r + eps), eps, z)
  {
    var d := r + eps;
    var c, u := r / d, 1.0 / d;
    assert u * d == 1.0 && c * d == r;
    DampedAlgebra(c, u, d, eps, z);
  }

  lemma DampedAlgebra(c: real, u: real, d: real, eps: real, z: real)
    requires d > 0.0 && u * d == 1.0 && c * d == d - eps && eps >= 0.0 && z > 0.0 && Near(d, z)
    ensures Damped(c, eps, z)
  {
    assert (c - 1.0 + eps * u) * d == c * d - d + eps * (u * d);
    FactorNonNegative(d, c - 1.0 + eps * u);
    FactorNonNegative(d, 1.0 - eps * u - c);
    FactorNonNegative(d, z - u);
    assert d * (z * u - 1.0) == z * (u * d) - d;
    FactorNonNegative(d, z * u - 1.0);
    NonNegative(eps, z - u);
    NonNegative(eps, z * u - 1.0);
    assert z * c == z - eps * (z * u);
  }

  // ---- one half step ----------------------------------------------------------------------

  /** Every entry is at least the share delta of its column. */
  ghost predicate NoEntryBelow(b: Matrix, n: nat, delta: real)
    requires Positive(b, n, n)
  {
    forall i, j :: 0 <= i < n && 0 <= j < n ==> Times(delta, ColSums(b, n)[j]) <= b[i][j]
  }

  /** A matrix far from rank one whose sums are near one has no tiny entry. */
  lemma EntryFloor(b: Matrix, kappa: real, n: nat, eps: real, z: real, delta: real)
    requires Positive(b, n, n) && CrossRatio(b, kappa, n, n) && 0.0 <= kappa && eps >= 0.0 && z >= 1.0
    requires RowsNear(b, n, eps, z) && ColsDamped(b, n, eps, z)
    requires Times(Times(delta, n as real), z) <= Times(kappa, 1.0 - Times(eps, z)) && delta >= 0.0
    ensures NoEntryBelow(b, n, delta)
  {
    hide Times, CrossRatio, Near, Damped;
    GrandTotal(b, n);
    forall i, j | 0 <= i < n && 0 <= j < n ensures Times(delta, ColSums(b, n)[j]) <= b[i][j] {
      EntryAgainstTotal(b, kappa, n, i, j);
      assert Near(RowSums(b)[i] + eps, z);
      TotalAtMost(b, n, eps, z);
      ColSumsPositive(b, n, n);
      RowSumsPositive(b, n, n);
      SumPositive(RowSums(b));
      FloorAlgebra(b[i][j], Sum(RowSums(b)), RowSums(b)[i], ColSums(b, n)[j], kappa, eps, z, delta, n as real);
    }
  }

  /** An entry times the grand total is at least kappa times its row sum times its column sum. */
  lemma EntryAgainstTotal(b: Matrix, kappa: real, n: nat, i: nat, j: nat)
    requires Positive(b, n, n) && CrossRatio(b, kappa, n, n) && i < n && j < n
    ensures Times(Times(kappa, RowSums(b)[i]), ColSums(b, n)[j]) <= Times(b[i][j], Sum(RowSums(b)))
  {
    hide Times;
    var col := Transpose(b, n)[j];
    ColSumsOfTranspose(b, n);
    assert Sum(col) == ColSums(b, n)[j];
    forall k | 0 <= k < n ensures Times(Times(kappa, RowSums(b)[i]), col[k]) <= Times(b[i][j], RowSums(b)[k]) {
      forall l | 0 <= l < n ensures Times(Times(kappa, b[k][j]), b[i][l]) <= Times(b[i][j], b[k][l]) {
        assert CrossAt(b, kappa, n, n, i, k, j, l);
        CrossAlgebra(b[i][j], b[k][l], b[i][l], b[k][j], kappa);
      }
      SumRatio(b[i], b[k], Times(kappa, b[k][j]), b[i][j]);
      Swapped(kappa, b[k][j], Sum(b[i]));
    }
    SumRatio(col, RowSums(b), Times(kappa, RowSums(b)[i]), b[i][j]);
  }

  lemma Swapped(x: real, y: real, z: real)
    ensures Times(Times(x, y), z) == Times(Times(x, z), y)
  {
  }

  lemma CrossAlgebra(x: real, y: real, u: real, v: real, kappa: real)
    requires x * y >= kappa * (u * v)
    ensures Times(Times(kappa, v), u) <= Times(x, y)
  {
  }

  lemma TotalAtMost(b: Matrix, n: nat, eps: real, z: real)
    requires Positive(b, n, n) && eps >= 0.0 && z >= 1.0 && ColsDamped(b, n, eps, z)
    ensures Sum(RowSums(b)) <= n as real
  {
    GrandTotal(b, n);
    forall j | 0 <= j < n ensures ColSums(b, n)[j] <= 1.0 {
      assert Damped(ColSums(b, n)[j], eps, z);
      AtMostOne(ColSums(b, n)[j], eps, z);
    }
    SumAtMost(ColSums(b, n), 1.0);
  }

  lemma AtMostOne(c: real, eps: real, z: real)
    requires eps >= 0.0 && z >= 1.0 && Damped(c, eps, z)
    ensures c <= 1.0
  {
    FactorNonNegative(z, 1.0 - c);
  }

  lemma {:induction false} SumAtMost(v: Vector, hi: real)
    requires forall i :: 0 <= i < |v| ==> v[i] <= hi
    ensures Sum(v) <= hi * |v| as real
    decreases |v|
  {
    if v != [] { SumAtMost(v[..|v| - 1], hi); }
  }

  lemma FloorAlgebra(y: real, total: real, r: real, c: real, kappa: real, eps: real, z: real, delta: real, n: real)
    requires y > 0.0 && r > 0.0 && c > 0.0 && 0.0 < total <= n && z >= 1.0 && kappa >= 0.0 && delta >= 0.0
    requires Times(Times(kappa, r), c) <= Times(y, total) && Near(r + eps, z)
    requires Times(Times(delta, n), z) <= Times(kappa, 1.0 - Times(eps, z))
    ensures Times(delta, c) <= y
  {
    var g := 1.0 - eps * z;
    assert z * r >= g;
    assert kappa * (z * r - g) >= 0.0;
    var m := delta * n * z;
    assert m <= kappa * (z * r);
    assert (kappa * (z * r) - m) * c >= 0.0;
    assert z * (y * total - kappa * r * c) >= 0.0;
    assert m * c <= z * (y * total);
    assert y * z * (n - total) >= 0.0;
    var f := n * z;
    assert f > 0.0 && delta * c * f == m * c && y * f == y * z * n;
    assert (y - delta * c) * f >= 0.0;
  }

  /** Some row is not above its share of the total, and some row is not below. */
  lemma RowsStraddle(b: Matrix, n: nat, eps: real, z: real) returns (low: nat, high: nat)
    requires Positive(b, n, n) && z >= 1.0 && ColsDamped(b, n, eps, z)
    ensures low < n && Times(z, RowSums(b)[low]) <= z - eps
    ensures high < n && RowSums(b)[high] >= 1.0 - Times(eps, z)
  {
    hide ColSums, RowSums, Times, Damped;
    GrandTotal(b, n);
    var top := DampedRange(ColSums(b, n), eps, z);
    low := SomeAtMost(RowSums(b), ColSums(b, n), top);
    TimesOrdered(z, RowSums(b)[low], top);
    high := SomeAtLeast(RowSums(b), ColSums(b, n), 1.0 - Times(eps, z));
  }

  lemma DampedRange(c: Vector, eps: real, z: real) returns (top: real)
    requires z >= 1.0 && forall j :: 0 <= j < |c| ==> Damped(c[j], eps, z)
    ensures Times(z, top) == z - eps && forall j :: 0 <= j < |c| ==> 1.0 - Times(eps, z) <= c[j] <= top
  {
    top := (z - eps) / z;
    assert z * top == z - eps;
    forall j | 0 <= j < |c| ensures c[j] <= top { FactorNonNegative(z, top - c[j]); }
  }

  lemma SomeAtMost(v: Vector, w: Vector, x: real) returns (k: nat)
    requires v != [] && |v| == |w| && Sum(v) == Sum(w) && forall i :: 0 <= i < |w| ==> w[i] <= x
    ensures k < |v| && v[k] <= x
  {
    if i: nat :| i < |v| && v[i] <= x {
      k := i;
    } else {
      SumAbove(v, x);
      SumAtMost(w, x);
    }
  }

  lemma SomeAtLeast(v: Vector, w: Vector, x: real) returns (k: nat)
    requires v != [] && |v| == |w| && Sum(v) == Sum(w) && forall i :: 0 <= i < |w| ==> x <= w[i]
    ensures k < |v| && v[k] >= x
  {
    if i: nat :| i < |v| && v[i] >= x {
      k := i;
    } else {
      SumBelow(v, x);
      var w' := seq(|w|, i requires 0 <= i < |w| => -w[i]);
      Negated(w, w');
      SumAtMost(w', -x);
    }
  }

  /** The factor one half step leaves of `z`: the distance to one shrinks by the share sigma. */
  function Closer(z: real, sigma: real): (z': real)
  {
    z - Times(sigma, z - 1.0)
  }

  lemma CloserIs(z: real, sigma: real)
    ensures Closer(z, sigma) - 1.0 == Times(1.0 - sigma, z - 1.0)
  {
  }

  /** What a row step does: the new column sums are nearer to one than rows and columns were. */
  lemma RowStepContracts(b: Matrix, n: nat, eps: real, z: real, delta: real, sigma: real)
    requires Positive(b, n, n) && RowsNear(b, n, eps, z) && ColsDamped(b, n, eps, z) && NoEntryBelow(b, n, delta)
    requires 0.0 <= eps <= 0.5 && z >= 1.0 && Times(eps, z) < 1.0
    requires 0.0 <= delta <= 1.0 && 0.0 <= sigma <= 1.0 && Times(3.0, sigma) <= Times(1.0 - Times(eps, z), delta)
    ensures forall j :: 0 <= j < n ==> Near(ColSums(RowStep(b, n, n, eps), n)[j] + eps, Closer(z, sigma))
  {
    hide Times, Near, Damped, Closer, RowStep, ColSums;
    var low, high := RowsStraddle(b, n, eps, z);
    forall j | 0 <= j < n ensures Near(ColSums(RowStep(b, n, n, eps), n)[j] + eps, Closer(z, sigma)) {
      ColumnContracts(b, n, eps, z, delta, sigma, low, high, j);
    }
  }

  /** The reciprocals by which a row step multiplies. */
  function Factors(b: Matrix, n: nat, eps: real): (u: Vector)
    requires Positive(b, n, n) && eps >= 0.0
    ensures |u| == n
  {
    RowSumsPositive(b, n, n);
    seq(n, i requires 0 <= i < n => 1.0 / (RowSums(b)[i] + eps))
  }

  lemma FactorAt(b: Matrix, n: nat, eps: real, z: real, lo: real, i: nat)
    requires Positive(b, n, n) && eps >= 0.0 && i < n && RowsNear(b, n, eps, z) && z >= 1.0 && Times(lo, z) == 1.0
    ensures RowSums(b)[i] > 0.0
    ensures Times(Factors(b, n, eps)[i], RowSums(b)[i] + eps) == 1.0 && lo <= Factors(b, n, eps)[i] <= z
  {
    RowSumsPositive(b, n, n);
    var d, u := RowSums(b)[i] + eps, Factors(b, n, eps)[i];
    assert Near(d, z);
    assert u * d == 1.0;
    assert (z - u) * d >= 0.0;
    assert (u - lo) * (d * z) == z - d;
    assert d * z > 0.0;
  }

  lemma ColumnIsWeighted(b: Matrix, n: nat, eps: real, z: real, lo: real, j: nat)
    requires Positive(b, n, n) && eps >= 0.0 && j < n && RowsNear(b, n, eps, z) && z >= 1.0 && Times(lo, z) == 1.0
    ensures Weighted(Transpose(b, n)[j], Factors(b, n, eps), Transpose(RowStep(b, n, n, eps), n)[j], lo, z)
    ensures Sum(Transpose(b, n)[j]) == ColSums(b, n)[j]
    ensures Sum(Transpose(RowStep(b, n, n, eps), n)[j]) == ColSums(RowStep(b, n, n, eps), n)[j]
  {
    hide RowsNear, ColSums, Factors, Times, RowStep;
    ColSumsOfTranspose(b, n);
    ColSumsOfTranspose(RowStep(b, n, n, eps), n);
    forall i | 0 <= i < n
      ensures lo <= Factors(b, n, eps)[i] <= z && RowStep(b, n, n, eps)[i][j] == Times(b[i][j], Factors(b, n, eps)[i])
    {
      FactorAt(b, n, eps, z, lo, i);
      EntryScaled(b, n, eps, i, j);
    }
  }

  lemma EntryScaled(b: Matrix, n: nat, eps: real, i: nat, j: nat)
    requires Positive(b, n, n) && eps >= 0.0 && i < n && j < n
    ensures RowStep(b, n, n, eps)[i][j] == Times(b[i][j], Factors(b, n, eps)[i])
  {
    RowSumsPositive(b, n, n);
    QuotientIsProduct(b[i][j], RowSums(b)[i] + eps);
  }

  lemma QuotientIsProduct(x: real, d: real)
    requires d != 0.0
    ensures x / d == Times(x, 1.0 / d)
  {
  }

  lemma ColumnContracts(b: Matrix, n: nat, eps: real, z: real, delta: real, sigma: real, low: nat, high: nat, j: nat)
    requires Positive(b, n, n) && RowsNear(b, n, eps, z) && ColsDamped(b, n, eps, z) && NoEntryBelow(b, n, delta)
    requires 0.0 <= eps <= 0.5 && z >= 1.0 && Times(eps, z) < 1.0 && j < n
    requires 0.0 <= delta <= 1.0 && 0.0 <= sigma <= 1.0 && Times(3.0, sigma) <= Times(1.0 - Times(eps, z), delta)
    requires low < n && Times(z, RowSums(b)[low]) <= z - eps && high < n && RowSums(b)[high] >= 1.0 - Times(eps, z)
    ensures Near(ColSums(RowStep(b, n, n, eps), n)[j] + eps, Closer(z, sigma))
  {
    hide Times, Near, Damped, Closer, RowStep, ColSums, Factors, Weighted, RowsNear;
    var lo := 1.0 / z;
    Inverse(z);
    var u, c, next := Factors(b, n, eps), ColSums(b, n)[j], ColSums(RowStep(b, n, n, eps), n)[j];
    ColumnBounds(b, n, eps, z, lo, j, low);
    ColumnBounds(b, n, eps, z, lo, j, high);
    FactorAt(b, n, eps, z, lo, low);
    FactorAt(b, n, eps, z, lo, high);
    assert c > 0.0 by { ColSumsPositive(b, n, n); }
    assert Damped(c, eps, z);
    var wl, wh := b[low][j], b[high][j];
    assert Times(delta, c) <= wl && Times(delta, c) <= wh;
    hide ColsDamped, NoEntryBelow, Positive;
    LowGap(RowSums(b)[low], u[low], eps, z);
    HighGap(RowSums(b)[high], u[high], eps, z);
    LowerAlgebra(next, c, wl, u[low], lo, z, eps, delta, sigma);
    UpperAlgebra(next, c, wh, u[high], z, eps, delta, sigma);
    BothSides(next + eps, Closer(z, sigma));
  }

  lemma BothSides(x: real, z: real)
    requires x <= z && 1.0 <= Times(z, x)
    ensures Near(x, z)
  {
  }

  lemma ColumnBounds(b: Matrix, n: nat, eps: real, z: real, lo: real, j: nat, k: nat)
    requires Positive(b, n, n) && eps >= 0.0 && j < n && k < n && RowsNear(b, n, eps, z) && z >= 1.0
    requires Times(lo, z) == 1.0
    ensures var u, c, next := Factors(b, n, eps), ColSums(b, n)[j], ColSums(RowStep(b, n, n, eps), n)[j];
            && Times(lo, c) + Times(b[k][j], u[k] - lo) <= next <= Times(z, c) - Times(b[k][j], z - u[k])
  {
    hide Times, RowsNear, Factors, ColSums;
    ColumnIsWeighted(b, n, eps, z, lo, j);
    var w, x := Transpose(b, n)[j], Transpose(RowStep(b, n, n, eps), n)[j];
    PulledUp(w, Factors(b, n, eps), x, lo, z, k);
    PulledDown(w, Factors(b, n, eps), x, lo, z, k);
  }

  lemma Inverse(z: real)
    requires z > 0.0
    ensures Times(1.0 / z, z) == 1.0
  {
  }

  /** The factor of a row at or below its share is well above 1 / z. */
  lemma LowGap(r: real, u: real, eps: real, z: real)
    requires 0.0 <= eps <= 0.5 && z >= 1.0 && r > 0.0 && Times(z, r) <= z - eps && Times(u, r + eps) == 1.0
    ensures z - 1.0 <= 3.0 * (Times(z, u) - 1.0)
  {
    var d := r + eps;
    var g := z * u - 1.0;
    assert z * d <= z - eps + eps * z;
    NonNegative(z - 1.0, 0.5 * z - eps);
    FactorNonNegative(z, z - d - 0.5 * (z - 1.0));
    NonNegative(z, 0.5 - eps);
    FactorNonNegative(z, 1.5 - d);
    assert d * g == z * (u * d) - d;
    FactorNonNegative(d, g);
    NonNegative(g, 1.5 - d);
  }

  /** The factor of a row at or above its share is well below z. */
  lemma HighGap(r: real, u: real, eps: real, z: real)
    requires eps >= 0.0 && z >= 1.0 && r > 0.0 && Times(eps, z) < 1.0 && r >= 1.0 - Times(eps, z)
    requires Times(u, r + eps) == 1.0
    ensures Times(1.0 - Times(eps, z), z - 1.0) <= z - u
  {
    var g, d := 1.0 - eps * z, r + eps;
    var f := g + eps;
    NonNegative(eps, z - 1.0);
    FactorNonNegative(d, u);
    NonNegative(u, d - f);
    NonNegative(g, z - 1.0);
    assert z * f - 1.0 == g * (z - 1.0);
    Widened(z, u, f, g * (z - 1.0));
  }

  lemma Widened(z: real, u: real, f: real, h: real)
    requires 0.0 < f <= 1.0 && h >= 0.0 && z * f - 1.0 == h && u * f <= 1.0
    ensures h <= z - u
  {
    NonNegative(h, 1.0 - f);
    FactorNonNegative(f, z - u - h);
  }

  lemma LowerAlgebra(next: real, c: real, w: real, u: real, lo: real, z: real, eps: real, delta: real, sigma: real)
    requires z >= 1.0 && eps >= 0.0 && Times(eps, z) < 1.0 && Times(lo, z) == 1.0 && 0.0 <= sigma <= 1.0 && delta >= 0.0
    requires Times(lo, c) + Times(w, u - lo) <= next && Times(delta, c) <= w && lo <= u && c > 0.0 && Damped(c, eps, z)
    requires z - 1.0 <= 3.0 * (Times(z, u) - 1.0) && Times(3.0, sigma) <= Times(1.0 - Times(eps, z), delta)
    ensures 1.0 <= Times(Closer(z, sigma), next + eps)
  {
    hide Times;
    var g, k, s := Times(z, u) - 1.0, Times(delta, c), Times(sigma, z - 1.0);
    Scaled(next, c, w, u, lo, z);
    assert Times(k, g) <= Times(w, g) by { TimesOrdered(g, k, w); TimesCommutes(g, k); TimesCommutes(g, w); }
    assert k >= 3.0 * sigma by { Threefold(c, 1.0 - Times(eps, z), delta, sigma); }
    Gains(k, g, sigma, z - 1.0);
    assert s >= 0.0 by { NonNegativeTimes(sigma, z - 1.0); }
    assert s <= z - 1.0 by { TimesOrdered(z - 1.0, sigma, 1.0); TimesCommutes(z - 1.0, sigma); TimesOne(z - 1.0); }
    assert Times(z, next + eps) == Times(z, next) + Times(eps, z) by { TimesAdds(z, next, eps); TimesCommutes(z, eps); }
    LastStep(next + eps, s, z);
  }

  lemma Threefold(c: real, damp: real, delta: real, sigma: real)
    requires delta >= 0.0 && c >= damp && Times(3.0, sigma) <= Times(damp, delta)
    ensures Times(delta, c) >= 3.0 * sigma
  {
    NonNegative(delta, c - damp);
  }

  lemma Scaled(next: real, c: real, w: real, u: real, lo: real, z: real)
    requires z >= 1.0 && Times(lo, z) == 1.0 && Times(lo, c) + Times(w, u - lo) <= next
    ensures Times(z, next) >= c + Times(w, Times(z, u) - 1.0)
  {
    assert z * (lo * c) == c * (lo * z);
    assert z * (w * (u - lo)) == w * (z * u) - w * (lo * z);
    NonNegative(z, next - lo * c - w * (u - lo));
  }

  lemma Gains(k: real, g: real, sigma: real, d: real)
    requires k >= 3.0 * sigma >= 0.0 && 0.0 <= d <= 3.0 * g
    ensures Times(k, g) >= Times(sigma, d)
  {
    NonNegative(k - 3.0 * sigma, g);
    NonNegative(sigma, 3.0 * g - d);
  }

  lemma LastStep(x: real, s: real, z: real)
    requires z >= 1.0 && 0.0 <= s <= z - 1.0 && Times(z, x) >= 1.0 + s
    ensures 1.0 <= Times(z - s, x)
  {
    var p := z * x;
    NonNegative(z - s, p - 1.0 - s);
    NonNegative(s, z - 1.0 - s);
    assert z * (s * x) == s * p;
    FactorNonNegative(z, p - s * x - 1.0);
  }

  lemma UpperAlgebra(next: real, c: real, w: real, u: real, z: real, eps: real, delta: real, sigma: real)
    requires z >= 1.0 && 0.0 <= eps <= 0.5 && Times(eps, z) < 1.0 && 0.0 <= sigma <= 1.0 && 0.0 <= delta <= 1.0
    requires next <= Times(z, c) - Times(w, z - u) && Times(delta, c) <= w && 0.0 <= u <= z && Damped(c, eps, z)
    requires Times(1.0 - Times(eps, z), z - 1.0) <= z - u && Times(3.0, sigma) <= Times(1.0 - Times(eps, z), delta)
    ensures next + eps <= Closer(z, sigma)
  {
    hide Times;
    var pull := Times(delta, z - u);
    assert Times(sigma, z - 1.0) >= 0.0 by { NonNegativeTimes(sigma, z - 1.0); }
    assert z - u >= 0.0 by { NonNegativeTimes(1.0 - Times(eps, z), z - 1.0); }
    PullAtLeast(w, c, delta, z - u);
    GapShare(1.0 - Times(eps, z), z - u, delta, sigma, z - 1.0);
    UpperGain(next + eps, c, z, eps, pull);
  }

  lemma PullAtLeast(w: real, c: real, delta: real, gap: real)
    requires 0.0 <= delta <= 1.0 && gap >= 0.0 && Times(delta, c) <= w
    ensures 0.0 <= Times(delta, gap) <= gap && Times(w, gap) >= Times(c, Times(delta, gap))
  {
    NonNegative(delta, gap);
    NonNegative(w - delta * c, gap);
    NonNegative(1.0 - delta, gap);
    assert delta * c * gap == c * (delta * gap);
  }

  lemma GapShare(damp: real, gap: real, delta: real, sigma: real, d: real)
    requires Times(damp, d) <= gap && d >= 0.0 && delta >= 0.0 && Times(3.0, sigma) <= Times(damp, delta)
    ensures Times(delta, gap) >= 3.0 * Times(sigma, d)
  {
    NonNegative(delta, gap - damp * d);
    NonNegative(damp * delta - 3.0 * sigma, d);
  }

  lemma UpperGain(x: real, c: real, z: real, eps: real, pull: real)
    requires x - eps <= Times(z, c) - Times(c, pull) && 0.0 <= pull <= z && z >= 1.0 && 0.0 <= eps <= 0.5
    requires Times(z, c) <= z - eps
    ensures 2.0 * (z - x) >= pull
  {
    var k := z - pull;
    NonNegative(z - eps - z * c, k);
    assert z * (c * k) == z * c * k;
    NonNegative(z, z * c - c * pull - x + eps);
    NonNegative(pull, 0.5 * z - eps);
    FactorNonNegative(z, 2.0 * (z - x) - pull);
  }

  // ---- one iteration ----------------------------------------------------------------------

  /** Rows and columns are within the factor `z`, and the matrix is at most kappa from rank one. */
  ghost predicate Balanced(b: Matrix, kappa: real, n: nat, eps: real, z: real)
  {
    Positive(b, n, n) && CrossRatio(b, kappa, n, n) && RowsNear(b, n, eps, z) && ColsDamped(b, n, eps, z)
  }

  /** Rates of contraction that are good for every factor up to `z`. */
  ghost predicate Rates(kappa: real, n: nat, eps: real, z: real, delta: real, sigma: real)
  {
    && 0.0 <= delta <= 1.0 && 0.0 <= sigma <= 1.0 && 0.0 <= kappa
    && Times(Times(delta, n as real), z) <= Times(kappa, 1.0 - Times(eps, z))
    && Times(3.0, sigma) <= Times(1.0 - Times(eps, z), delta)
  }

  lemma RatesBelow(kappa: real, n: nat, eps: real, x: real, z: real, delta: real, sigma: real)
    requires Rates(kappa, n, eps, z, delta, sigma) && x <= z && eps >= 0.0
    ensures Rates(kappa, n, eps, x, delta, sigma)
  {
    hide Times;
    var gx, gz := 1.0 - Times(eps, x), 1.0 - Times(eps, z);
    TimesOrdered(eps, x, z);
    TimesOrdered(kappa, gz, gx);
    TimesOrdered(delta, gz, gx);
    TimesCommutes(gx, delta);
    TimesCommutes(gz, delta);
    assert Times(delta, n as real) >= 0.0 by { NonNegativeTimes(delta, n as real); }
    TimesOrdered(Times(delta, n as real), x, z);
  }

  lemma TransposeTwice(b: Matrix, n: nat, m: nat)
    requires Positive(b, n, m) && Positive(Transpose(b, m), m, n)
    ensures Transpose(Transpose(b, m), n) == b
  {
    MatrixExtensional(Transpose(Transpose(b, m), n), b, m);
  }

  lemma CrossOfTranspose(b: Matrix, kappa: real, n: nat)
    requires Positive(b, n, n) && CrossRatio(b, kappa, n, n) && Positive(Transpose(b, n), n, n)
    ensures CrossRatio(Transpose(b, n), kappa, n, n)
  {
    var t := Transpose(b, n);
    forall i: nat, k: nat, j: nat, l: nat | i < n && k < n && j < n && l < n
      ensures CrossAt(t, kappa, n, n, i, k, j, l)
    {
      assert CrossAt(b, kappa, n, n, j, l, i, k);
      assert b[l][i] * b[j][k] == b[j][k] * b[l][i];
    }
  }

  /** After a row step each row sum is the damped share of what it was. */
  lemma RowStepDamps(b: Matrix, n: nat, eps: real, x: real)
    requires Positive(b, n, n) && eps >= 0.0 && x >= 1.0 && RowsNear(b, n, eps, x)
    ensures forall i :: 0 <= i < n ==> Damped(RowSums(RowStep(b, n, n, eps))[i], eps, x)
  {
    hide Near, Damped, RowStep;
    RowSumsPositive(b, n, n);
    forall i | 0 <= i < n ensures Damped(RowSums(RowStep(b, n, n, eps))[i], eps, x) {
      assert Near(RowSums(b)[i] + eps, x);
      RowSumAfterRowStep(b, n, n, eps, i);
      ShareIsDamped(RowSums(b)[i], eps, x);
    }
  }

  /** A row step and a transposition: the columns come out as rows, within the factor to which the
      step contracts, and the rows as columns, within the factor that they had. */
  lemma HalfIteration(b: Matrix, kappa: real, n: nat, eps: real, x: real, z: real, delta: real, sigma: real)
    requires Balanced(b, kappa, n, eps, z) && RowsNear(b, n, eps, x) && 1.0 <= x <= z
    requires Rates(kappa, n, eps, z, delta, sigma) && 0.0 <= eps <= 0.5 && Times(eps, z) < 1.0
    ensures var t := Transpose(RowStep(b, n, n, eps), n);
            && Positive(t, n, n) && CrossRatio(t, kappa, n, n)
            && RowsNear(t, n, eps, Closer(z, sigma)) && ColsDamped(t, n, eps, x)
  {
    hide Near, Damped, Closer, CrossRatio, ColSums, RowStep, Times;
    var s := RowStep(b, n, n, eps);
    var t := Transpose(s, n);
    TransposePositive(s, n, n);
    RowStepKeepsCross(b, kappa, n, n, eps);
    CrossOfTranspose(s, kappa, n);
    EntryFloor(b, kappa, n, eps, z, delta);
    RowStepContracts(b, n, eps, z, delta, sigma);
    RowStepDamps(b, n, eps, x);
    hide RowsNear, Balanced, Rates, NoEntryBelow;
    HalfSums(s, n);
    RowsNearFrom(s, t, n, eps, Closer(z, sigma));
    ColsDampedFrom(s, t, n, eps, x);
  }

  lemma HalfSums(s: Matrix, n: nat)
    requires Positive(s, n, n) && Positive(Transpose(s, n), n, n)
    ensures RowSums(Transpose(s, n)) == ColSums(s, n) && ColSums(Transpose(s, n), n) == RowSums(s)
  {
    hide ColSums;
    ColSumsOfTranspose(s, n);
    ColSumsOfTranspose(Transpose(s, n), n);
    TransposeTwice(s, n, n);
  }

  lemma RowsNearFrom(s: Matrix, t: Matrix, n: nat, eps: real, z: real)
    requires Positive(s, n, n) && Positive(t, n, n) && RowSums(t) == ColSums(s, n)
    requires forall j :: 0 <= j < n ==> Near(ColSums(s, n)[j] + eps, z)
    ensures RowsNear(t, n, eps, z)
  {
    hide Near, RowSums, ColSums;
  }

  lemma ColsDampedFrom(s: Matrix, t: Matrix, n: nat, eps: real, z: real)
    requires Positive(s, n, n) && Positive(t, n, n) && ColSums(t, n) == RowSums(s)
    requires forall i :: 0 <= i < n ==> Damped(RowSums(s)[i], eps, z)
    ensures ColsDamped(t, n, eps, z)
  {
    hide Damped, RowSums, ColSums;
  }

  /** One iteration brings all sums nearer to one, with eps added: the distance of the factor from
      one shrinks by the share sigma. */
  lemma IterationContracts(b: Matrix, kappa: real, n: nat, eps: real, z: real, delta: real, sigma: real)
    requires Balanced(b, kappa, n, eps, z) && z >= 1.0 && Rates(kappa, n, eps, z, delta, sigma)
    requires 0.0 <= eps <= 0.5 && Times(eps, z) < 1.0
    ensures 1.0 <= Closer(z, sigma) <= z && Closer(z, sigma) - 1.0 == Times(1.0 - sigma, z - 1.0)
    ensures Balanced(Iterate(b, n, n, eps), kappa, n, eps, Closer(z, sigma))
  {
    CloserIs(z, sigma);
    hide Near, Damped, Rates, Closer, CrossRatio, ColSums, RowStep;
    var z' := Closer(z, sigma);
    CloserBetween(z, sigma, kappa, n, eps, delta);
    var s := RowStep(b, n, n, eps);
    var t := Transpose(s, n);
    HalfIteration(b, kappa, n, eps, z, z, delta, sigma);
    RowsWiden(t, n, eps, z', z);
    HalfIteration(t, kappa, n, eps, z', z, delta, sigma);
    TransposeOfColStep(s, n, n, eps);
    TransposeTwice(ColStep(s, n, n, eps), n, n);
  }

  lemma CloserBetween(z: real, sigma: real, kappa: real, n: nat, eps: real, delta: real)
    requires z >= 1.0 && Rates(kappa, n, eps, z, delta, sigma)
    ensures 1.0 <= Closer(z, sigma) <= z
  {
    NonNegative(sigma, z - 1.0);
    NonNegative(1.0 - sigma, z - 1.0);
  }

  lemma RowsWiden(b: Matrix, n: nat, eps: real, x: real, z: real)
    requires Positive(b, n, n) && eps >= 0.0 && x <= z && RowsNear(b, n, eps, x)
    ensures RowsNear(b, n, eps, z)
  {
    RowSumsPositive(b, n, n);
    forall i | 0 <= i < n ensures Near(RowSums(b)[i] + eps, z) { NearIsMonotone(RowSums(b)[i] + eps, x, z); }
  }

  // ---- many iterations --------------------------------------------------------------------

  /** `d` shrunk `t` times by the factor 1 - delta. */
  function Shrunk(d: real, delta: real, t: nat): (s: real)
  {
    if t == 0 then d else (1.0 - delta) * Shrunk(d, delta, t - 1)
  }

  /** From any iteration on, the distance of the factor from one shrinks by the share sigma every time. */
  lemma {:induction false} RunContracts(a: Matrix, kappa: real, n: nat, eps: real, z: real, delta: real, sigma: real,
                                        from: nat, t: nat)
    requires Positive(a, n, n) && 0.0 <= eps <= 0.5 && z >= 1.0 && Times(eps, z) < 1.0
    requires Rates(kappa, n, eps, z, delta, sigma)
    requires Balanced(Normalised(a, n, n, eps, from), kappa, n, eps, z)
    ensures 0.0 <= Shrunk(z - 1.0, sigma, t) <= z - 1.0
    ensures Balanced(Normalised(a, n, n, eps, from + t), kappa, n, eps, 1.0 + Shrunk(z - 1.0, sigma, t))
  {
    hide Balanced, Rates, Closer, Times, Positive, Normalised, Iterate;
    if t > 0 {
      NextIteration(a, n, eps, from + t);
      RunContracts(a, kappa, n, eps, z, delta, sigma, from, t - 1);
      ShrunkIsCloser(z, sigma, t);
      ContractsAgain(Normalised(a, n, n, eps, from + t - 1), kappa, n, eps, 1.0 + Shrunk(z - 1.0, sigma, t - 1), z,
                     delta, sigma);
    }
  }

  lemma NextIteration(a: Matrix, n: nat, eps: real, t: nat)
    requires Positive(a, n, n) && eps >= 0.0 && t > 0
    ensures Normalised(a, n, n, eps, t) == Iterate(Normalised(a, n, n, eps, t - 1), n, n, eps)
  {
  }

  lemma ContractsAgain(b: Matrix, kappa: real, n: nat, eps: real, x: real, z: real, delta: real, sigma: real)
    requires 0.0 <= eps <= 0.5 && 1.0 <= x <= z && Times(eps, z) < 1.0 && Rates(kappa, n, eps, z, delta, sigma)
    requires Balanced(b, kappa, n, eps, x)
    ensures 1.0 <= Closer(x, sigma) <= x && Positive(b, n, n)
    ensures Balanced(Iterate(b, n, n, eps), kappa, n, eps, Closer(x, sigma))
  {
    hide Rates, Closer, Times;
    RatesBelow(kappa, n, eps, x, z, delta, sigma);
    TimesOrdered(eps, x, z);
    IterationContracts(b, kappa, n, eps, x, delta, sigma);
  }

  lemma ShrunkIsCloser(z: real, sigma: real, t: nat)
    requires t > 0
    ensures Closer(1.0 + Shrunk(z - 1.0, sigma, t - 1), sigma) == 1.0 + Shrunk(z - 1.0, sigma, t)
  {
  }

  /** The rate of the whole run, known before it starts. */
  function RunRate(kappa: real, n: nat, eps: real, z: real): (sigma: real)
    requires n > 0 && z > 0.0
  {
    Times(1.0 - Times(eps, z), Share(kappa, n, eps, z)) / 3.0
  }

  function Share(kappa: real, n: nat, eps: real, z: real): (delta: real)
    requires n > 0 && z > 0.0
  {
    var nz := n as real * z;
    assert nz > 0.0;
    Times(kappa, 1.0 - Times(eps, z)) / nz
  }

  lemma RunRateIsRate(kappa: real, n: nat, eps: real, z: real)
    requires 0.0 < kappa <= 1.0 && n > 0 && z >= 1.0 && eps >= 0.0 && Times(eps, z) < 1.0
    ensures 0.0 < RunRate(kappa, n, eps, z) <= 1.0
    ensures Rates(kappa, n, eps, z, Share(kappa, n, eps, z), RunRate(kappa, n, eps, z))
  {
    var g, delta := 1.0 - Times(eps, z), Share(kappa, n, eps, z);
    assert Times(eps, z) >= 0.0 by { NonNegativeTimes(eps, z); }
    hide Times, RunRate;
    ShareBounds(kappa, n as real, z, g, delta) by {
      ShareOfProduct(kappa, n, eps, z);
    }
    assert 0.0 < Times(g, delta) <= 1.0 by { PositiveAtMostOne(g, delta); }
    RateParts(kappa, n, eps, z);
  }

  lemma ShareOfProduct(kappa: real, n: nat, eps: real, z: real)
    requires n > 0 && z > 0.0
    ensures Times(Share(kappa, n, eps, z), Times(n as real, z)) == Times(kappa, 1.0 - Times(eps, z))
  {
  }

  lemma ShareBounds(kappa: real, n: real, z: real, g: real, delta: real)
    requires 0.0 < kappa <= 1.0 && n >= 1.0 && z >= 1.0 && 0.0 < g <= 1.0
    requires Times(delta, Times(n, z)) == Times(kappa, g)
    ensures 0.0 < delta <= 1.0 && Times(Times(delta, n), z) == Times(kappa, g)
  {
    var nz := n * z;
    NonNegative(n - 1.0, z - 1.0);
    NonNegative(kappa, 1.0 - g);
    assert kappa * g > 0.0;
    FactorNonNegative(nz, delta);
    FactorNonNegative(nz, 1.0 - delta);
    assert delta * n * z == delta * nz;
  }

  lemma PositiveAtMostOne(x: real, y: real)
    requires 0.0 < x <= 1.0 && 0.0 < y <= 1.0
    ensures 0.0 < Times(x, y) <= 1.0
  {
    NonNegative(1.0 - x, y);
  }

  lemma RateParts(kappa: real, n: nat, eps: real, z: real)
    requires n > 0 && z > 0.0
    ensures Times(3.0, RunRate(kappa, n, eps, z)) == Times(1.0 - Times(eps, z), Share(kappa, n, eps, z))
  {
  }

  lemma KappaAtMostOne(a: Matrix, kappa: real, n: nat)
    requires Positive(a, n, n) && CrossRatio(a, kappa, n, n)
    ensures kappa <= 1.0
  {
    assert CrossAt(a, kappa, n, n, 0, 0, 0, 0);
    var x := a[0][0];
    assert x * x > 0.0;
    assert x * x >= kappa * (x * x);
  }

  // ---- the limit --------------------------------------------------------------------------

  /** Every row and column sum is within `d` of 1 - eps, columns even within eps times that. */
  ghost predicate SumsWithin(b: Matrix, n: nat, eps: real, d: real)
    requires Positive(b, n, n)
  {
    && (forall i :: 0 <= i < n ==> Abs(RowSums(b)[i] - (1.0 - eps)) <= d)
    && forall j :: 0 <= j < n ==> Abs(ColSums(b, n)[j] - (1.0 - eps)) <= Times(eps, d)
  }

  lemma BalancedSums(b: Matrix, kappa: real, n: nat, eps: real, d: real)
    requires eps >= 0.0 && d >= 0.0 && Balanced(b, kappa, n, eps, 1.0 + d)
    ensures SumsWithin(b, n, eps, d)
  {
    hide Near, Damped, CrossRatio, ColSums;
    forall i | 0 <= i < n ensures Abs(RowSums(b)[i] - (1.0 - eps)) <= d {
      assert Near(RowSums(b)[i] + eps, 1.0 + d);
      NearDistance(RowSums(b)[i], eps, d);
    }
    forall j | 0 <= j < n ensures Abs(ColSums(b, n)[j] - (1.0 - eps)) <= Times(eps, d) {
      assert Damped(ColSums(b, n)[j], eps, 1.0 + d);
      DampedDistance(ColSums(b, n)[j], eps, d);
    }
  }

  lemma NearDistance(r: real, eps: real, d: real)
    requires d >= 0.0 && Near(r + eps, 1.0 + d)
    ensures Abs(r - (1.0 - eps)) <= d
  {
    var w := r + eps;
    assert (1.0 + d) * (w - 1.0 + d) == (1.0 + d) * w - 1.0 + d * d;
    NonNegative(d, d);
    FactorNonNegative(1.0 + d, w - 1.0 + d);
  }

  lemma DampedDistance(c: real, eps: real, d: real)
    requires d >= 0.0 && eps >= 0.0 && Damped(c, eps, 1.0 + d)
    ensures Abs(c - (1.0 - eps)) <= Times(eps, d)
  {
    var e := eps * d;
    NonNegative(eps, d);
    NonNegative(d, e);
    assert (1.0 + d) * (1.0 - eps + e - c) == 1.0 + d - eps + d * e - (1.0 + d) * c;
    FactorNonNegative(1.0 + d, 1.0 - eps + e - c);
  }

  /** Row and column sums approach 1 - eps at a geometric rate that is known in advance. */
  lemma SumsApproachLimit(a: Matrix, kappa: real, n: nat, eps: real, z: real, from: nat, t: nat)
    requires Positive(a, n, n) && 0.0 <= eps <= 0.5 && z >= 1.0 && Times(eps, z) < 1.0 && kappa > 0.0
    requires Balanced(Normalised(a, n, n, eps, from), kappa, n, eps, z)
    ensures 0.0 < RunRate(kappa, n, eps, z) <= 1.0
    ensures SumsWithin(Normalised(a, n, n, eps, from + t), n, eps, Shrunk(z - 1.0, RunRate(kappa, n, eps, z), t))
  {
    hide Times, Normalised, RowsNear, ColsDamped, CrossRatio, RunRate, Share, Rates, SumsWithin, Shrunk;
    KappaAtMostOne(Normalised(a, n, n, eps, from), kappa, n);
    RunRateIsRate(kappa, n, eps, z);
    hide Positive, Balanced;
    RunContracts(a, kappa, n, eps, z, Share(kappa, n, eps, z), RunRate(kappa, n, eps, z), from, t);
    BalancedSums(Normalised(a, n, n, eps, from + t), kappa, n, eps, Shrunk(z - 1.0, RunRate(kappa, n, eps, z), t));
  }

  /** Bernoulli: the geometric factor falls below any harmonic one. */
  lemma {:induction false} ShrunkFalls(d: real, delta: real, t: nat)
    requires 0.0 <= delta <= 1.0 && d >= 0.0
    ensures 0.0 <= Shrunk(d, delta, t) && Shrunk(d, delta, t) * (1.0 + delta * t as real) <= d
  {
    if t > 0 {
      ShrunkFalls(d, delta, t - 1);
      BernoulliStep(Shrunk(d, delta, t - 1), d, delta, (t - 1) as real);
      assert t as real == (t - 1) as real + 1.0;
    }
  }

  lemma BernoulliStep(p: real, d: real, delta: real, t: real)
    requires 0.0 <= delta <= 1.0 && p >= 0.0 && t >= 0.0 && p * (1.0 + delta * t) <= d
    ensures 0.0 <= (1.0 - delta) * p && (1.0 - delta) * p * (1.0 + delta * (t + 1.0)) <= d
  {
    var x := delta * t;
    assert 1.0 + delta * (t + 1.0) == 1.0 + x + delta;
    var y := (1.0 - delta) * (1.0 + x + delta);
    assert y == 1.0 + x - delta * x - delta * delta;
    assert delta * x >= 0.0 && delta * delta >= 0.0;
    assert p * y <= p * (1.0 + x);
    assert (1.0 - delta) * p * (1.0 + x + delta) == p * y;
  }

  /** Every positive matrix has some positive cross ratio. */
  lemma SomeCrossRatio(a: Matrix, n: nat, m: nat) returns (kappa: real)
    requires Positive(a, n, m)
    ensures kappa > 0.0 && CrossRatio(a, kappa, n, m)
  {
    var lo, hi := EntryRange(a, n, m);
    var l2 := PositiveProduct(lo, lo);
    var h2 := PositiveProduct(hi, hi);
    QuotientPositive(l2, h2);
    kappa := l2 / h2;
    assert kappa * h2 == l2;
    hide CrossAt;
    forall i: nat, k: nat, j: nat, l: nat | i < n && k < n && j < m && l < m
      ensures CrossAt(a, kappa, n, m, i, k, j, l)
    {
      CrossAtFromRange(a, n, m, lo, hi, kappa, i, k, j, l);
    }
  }

  lemma CrossAtFromRange(a: Matrix, n: nat, m: nat, lo: real, hi: real, kappa: real, i: nat, k: nat, j: nat, l: nat)
    requires Positive(a, n, m) && 0.0 < lo && kappa > 0.0 && kappa * (hi * hi) == lo * lo
    requires forall i, j :: 0 <= i < n && 0 <= j < m ==> lo <= a[i][j] <= hi
    requires i < n && k < n && j < m && l < m
    ensures CrossAt(a, kappa, n, m, i, k, j, l)
  {
    CrossFromRange(a[i][j], a[k][l], a[i][l], a[k][j], lo, hi, kappa);
  }

  lemma CrossFromRange(x: real, y: real, u: real, v: real, lo: real, hi: real, kappa: real)
    requires 0.0 < lo && lo <= x && lo <= y && 0.0 < u <= hi && 0.0 < v <= hi && kappa > 0.0
    requires kappa * (hi * hi) == lo * lo
    ensures x * y >= kappa * (u * v)
  {
    ProductsOrdered(lo, x, lo, y);
    ProductsOrdered(u, hi, v, hi);
    ProductsOrdered(kappa, kappa, u * v, hi * hi);
  }

  lemma PositiveProduct(x: real, y: real) returns (p: real)
    requires x > 0.0 && y > 0.0
    ensures p == x * y && p > 0.0
  {
    p := x * y;
  }

  lemma ProductsOrdered(x: real, x': real, y: real, y': real)
    requires 0.0 <= x <= x' && 0.0 <= y <= y'
    ensures 0.0 <= x * y <= x' * y'
  {
    assert x * y <= x * y' <= x' * y';
  }

  lemma {:induction false} EntryRange(a: Matrix, n: nat, m: nat) returns (lo: real, hi: real)
    requires Positive(a, n, m)
    ensures 0.0 < lo <= hi && forall i, j :: 0 <= i < n && 0 <= j < m ==> lo <= a[i][j] <= hi
    decreases n
  {
    lo, hi := VectorRange(a[n - 1]);
    if n > 1 {
      var l, g := EntryRange(a[..n - 1], n - 1, m);
      lo, hi := Min(l, lo), Max(g, hi);
    }
  }

  lemma {:induction false} VectorRange(v: Vector) returns (lo: real, hi: real)
    requires PositiveVector(v)
    ensures 0.0 < lo <= hi && forall i :: 0 <= i < |v| ==> lo <= v[i] <= hi
    decreases |v|
  {
    lo, hi := v[|v| - 1], v[|v| - 1];
    if |v| > 1 {
      var l, g := VectorRange(v[..|v| - 1]);
      lo, hi := Min(l, lo), Max(g, hi);
    }
  }

  /** After one iteration no sum is above `n`, and with a small enough guard some factor for all of them
      is below 1 / eps. */
  lemma FirstFactor(a: Matrix, kappa: real, n: nat, eps: real) returns (z: real)
    requires Positive(a, n, n) && CrossRatio(a, kappa, n, n) && eps >= 0.0 && Times(eps, (n + 1) as real) <= 1.0
    ensures z >= 1.0 && Times(eps, z) < 1.0 && Balanced(Normalised(a, n, n, eps, 1), kappa, n, eps, z)
  {
    hide CrossRatio, Near, Damped, Times, RowStep, ColStep, ColSums;
    var b := Normalised(a, n, n, eps, 0);
    var s := RowStep(b, n, n, eps);
    var c := Normalised(a, n, n, eps, 1);
    ColStepKeepsCross(a, kappa, n, n, eps);
    RowStepKeepsCross(b, kappa, n, n, eps);
    ColStepKeepsCross(s, kappa, n, n, eps);
    ColSumsPositive(s, n, n);
    RowSumsPositive(c, n, n);
    ColSumsAtMostN(b, n, eps);
    RowSumsAtMostN(s, n, eps);
    var sums := RowSums(c) + ColSums(s, n);
    assert forall k :: 0 <= k < |sums| ==> 0.0 < sums[k] <= n as real;
    GuardIsSmall(eps, n);
    z := CommonFactor(sums, n as real, eps);
    forall i | 0 <= i < n ensures Near(RowSums(c)[i] + eps, z) {
      assert sums[i] == RowSums(c)[i];
    }
    forall j | 0 <= j < n ensures Damped(ColSums(c, n)[j], eps, z) {
      assert sums[n + j] == ColSums(s, n)[j];
      ColumnSumAfterColStep(s, n, n, eps, j);
      ShareIsDamped(ColSums(s, n)[j], eps, z);
    }
  }

  lemma GuardIsSmall(eps: real, n: nat)
    requires n > 0 && eps >= 0.0 && Times(eps, (n + 1) as real) <= 1.0
    ensures Times(eps, n as real + eps) < 1.0 && eps <= 0.5
  {
    GuardAlgebra(eps, n as real);
  }

  lemma GuardAlgebra(eps: real, m: real)
    requires m >= 1.0 && eps >= 0.0 && Times(eps, m + 1.0) <= 1.0
    ensures Times(eps, m + eps) < 1.0 && eps <= 0.5
  {
    NonNegative(eps, m - 1.0);
    assert eps > 0.0 ==> eps * eps < eps;
  }

  lemma ColSumsAtMostN(b: Matrix, n: nat, eps: real)
    requires Positive(b, n, n) && eps >= 0.0
    ensures forall j :: 0 <= j < n ==> ColSums(RowStep(b, n, n, eps), n)[j] <= n as real
  {
    var s := RowStep(b, n, n, eps);
    hide RowStep, ColSums, PositiveVector;
    RowSumsPositive(b, n, n);
    RowSumsPositive(s, n, n);
    ColSumsPositive(s, n, n);
    forall i | 0 <= i < n ensures RowSums(s)[i] <= 1.0 {
      RowSumAfterRowStep(b, n, n, eps, i);
      ShareOfSum(Sum(b[i]), eps);
    }
    GrandTotal(s, n);
    hide RowSums;
    TotalOfShares(RowSums(s), ColSums(s, n));
  }

  /** Numbers that add up to as many shares of one are at most that many. */
  lemma TotalOfShares(shares: Vector, v: Vector)
    requires PositiveVector(v) && Sum(shares) == Sum(v)
    requires forall i :: 0 <= i < |shares| ==> shares[i] <= 1.0
    ensures forall j :: 0 <= j < |v| ==> v[j] <= |shares| as real
  {
    SumAtMost(shares, 1.0);
    forall j: nat | j < |v| ensures v[j] <= |shares| as real { EntryAtMostSum(v, j); }
  }

  lemma RowSumsAtMostN(s: Matrix, n: nat, eps: real)
    requires Positive(s, n, n) && eps >= 0.0
    ensures forall i :: 0 <= i < n ==> RowSums(ColStep(s, n, n, eps))[i] <= n as real
  {
    var c := ColStep(s, n, n, eps);
    hide ColStep, ColSums, PositiveVector;
    RowSumsPositive(c, n, n);
    forall j | 0 <= j < n ensures ColSums(c, n)[j] <= 1.0 { ColumnSumAfterColStep(s, n, n, eps, j); }
    GrandTotal(c, n);
    hide RowSums;
    TotalOfShares(ColSums(c, n), RowSums(c));
  }

  /** Positive numbers up to `top`, with eps added, are all within some factor below 1 / eps. */
  lemma {:induction false} CommonFactor(v: Vector, top: real, eps: real) returns (z: real)
    requires top >= 1.0 && eps >= 0.0 && Times(eps, top + eps) < 1.0 && forall i :: 0 <= i < |v| ==> 0.0 < v[i] <= top
    ensures z >= top + eps && Times(eps, z) < 1.0 && forall i :: 0 <= i < |v| ==> Near(v[i] + eps, z)
    decreases |v|
  {
    hide Near, Times;
    if v == [] {
      z := top + eps;
    } else {
      var e := |v| - 1;
      var x := CommonFactor(v[..e], top, eps);
      var u := Recip(v[e], eps);
      z := Max(x, u);
      forall i | 0 <= i < |v| ensures Near(v[i] + eps, z) {
        if i < e {
          assert Near(v[..e][i] + eps, x);
          NearIsMonotone(v[i] + eps, x, z);
        } else {
          NearOfRecip(v[e] + eps, u, z);
        }
      }
    }
  }

  lemma Recip(x: real, eps: real) returns (u: real)
    requires x > 0.0 && eps >= 0.0
    ensures u > 0.0 && Times(u, x + eps) == 1.0 && Times(eps, u) < 1.0
  {
    u := 1.0 / (x + eps);
    assert u * (x + eps) == 1.0;
    assert u * x > 0.0;
  }

  lemma NearOfRecip(w: real, u: real, z: real)
    requires w > 0.0 && Times(u, w) == 1.0 && u <= z && w <= z
    ensures Near(w, z)
  {
    NonNegative(z - u, w);
  }

  /** Row and column sums are all close to 1 - eps. */
  ghost predicate NearlyDoublyStochastic(b: Matrix, n: nat, eps: real, tolerance: real)
  {
    Positive(b, n, n) && SumsWithin(b, n, eps, tolerance)
  }

  /** So for every guard up to 1 / (n + 1) iterating makes any positive square matrix 1 - eps times a doubly
      stochastic one in the limit. */
  lemma BecomesDoublyStochastic(a: Matrix, n: nat, eps: real, tolerance: real) returns (enough: nat)
    requires Positive(a, n, n) && eps >= 0.0 && Times(eps, (n + 1) as real) <= 1.0 && tolerance > 0.0
    ensures forall t: nat :: t >= enough ==> NearlyDoublyStochastic(Normalised(a, n, n, eps, t), n, eps, tolerance)
  {
    hide CrossRatio, Balanced, SumsWithin, RunRate, Times, Shrunk, FarEnough, Normalised;
    var kappa := SomeCrossRatio(a, n, n);
    var z := FirstFactor(a, kappa, n, eps);
    GuardIsSmall(eps, n);
    SumsApproachLimit(a, kappa, n, eps, z, 1, 0);
    var rate := RunRate(kappa, n, eps, z);
    enough := EnoughIterations(z - 1.0, rate, tolerance);
    enough := enough + 1;
    forall t: nat | t >= enough ensures NearlyDoublyStochastic(Normalised(a, n, n, eps, t), n, eps, tolerance) {
      SumsApproachLimit(a, kappa, n, eps, z, 1, t - 1);
      WithinTolerance(z - 1.0, rate, tolerance, t - 1);
      SumsWiden(Normalised(a, n, n, eps, t), n, eps, Shrunk(z - 1.0, rate, t - 1), tolerance);
    }
  }

  lemma SumsWiden(b: Matrix, n: nat, eps: real, d: real, e: real)
    requires Positive(b, n, n) && eps >= 0.0 && d <= e && SumsWithin(b, n, eps, d)
    ensures SumsWithin(b, n, eps, e)
  {
    hide Times;
    TimesOrdered(eps, d, e);
  }

  /** Iteration `t` is late enough for a first distance `d` to have become harmless. */
  ghost predicate FarEnough(d: real, sigma: real, tolerance: real, t: nat)
  {
    d <= tolerance * sigma * t as real
  }

  lemma WithinTolerance(d: real, sigma: real, tolerance: real, t: nat)
    requires 0.0 < sigma <= 1.0 && tolerance > 0.0 && d >= 0.0 && FarEnough(d, sigma, tolerance, t)
    ensures Shrunk(d, sigma, t) <= tolerance
  {
    ShrunkFalls(d, sigma, t);
    ToleranceAlgebra(Shrunk(d, sigma, t), d, sigma * t as real, tolerance) by {
      NonNegative(sigma, t as real);
      assert tolerance * sigma * t as real == tolerance * (sigma * t as real);
    }
  }

  lemma ToleranceAlgebra(s: real, d: real, u: real, tolerance: real)
    requires u >= 0.0 && tolerance > 0.0 && s >= 0.0 && s * (1.0 + u) <= d && d <= tolerance * u
    ensures s <= tolerance
  {
    assert s * (1.0 + u) == s + s * u;
    if s > tolerance { NonNegative(s - tolerance, u); }
  }

  lemma EnoughIterations(d: real, sigma: real, tolerance: real) returns (k: nat)
    requires d >= 0.0 && sigma > 0.0 && tolerance > 0.0
    ensures forall t: nat :: t >= k ==> FarEnough(d, sigma, tolerance, t)
  {
    var b := PositiveProduct(tolerance, sigma);
    var x := d / b;
    k := if x <= 0.0 then 0 else x.Floor + 1;
    assert x * b == d;
    forall t: nat | t >= k ensures FarEnough(d, sigma, tolerance, t) {
      assert t as real >= x;
      NonNegative(t as real - x, b);
    }
  }
}
