/** Sinkhorn normalisation of a positive matrix: the matrix loop, the scale-vector rewrite that
    leaves the matrix alone, and the transposed variants of both. */
module Sinkhorn {
  import opened Vectors

  type Matrix = seq<Vector>

  /** A matrix of `n` rows and `m` columns, all entries positive. */
  ghost predicate Positive(a: Matrix, n: nat, m: nat)
  {
    n > 0 && m > 0 && |a| == n && forall i :: 0 <= i < n ==> |a[i]| == m && PositiveVector(a[i])
  }

  function Transpose(a: Matrix, m: nat): (t: Matrix)
    requires forall i :: 0 <= i < |a| ==> |a[i]| == m
    ensures |t| == m && forall j :: 0 <= j < m ==> |t[j]| == |a|
    ensures forall i, j :: 0 <= i < |a| && 0 <= j < m ==> t[j][i] == a[i][j]
  {
    seq(m, j requires 0 <= j < m => seq(|a|, i requires 0 <= i < |a| => a[i][j]))
  }

  function RowSums(a: Matrix): (s: Vector)
    ensures |s| == |a| && forall i :: 0 <= i < |a| ==> s[i] == Sum(a[i])
  {
    seq(|a|, i requires 0 <= i < |a| => Sum(a[i]))
  }

  /** The sum along axis 0: rows are added up one after the other. */
  function ColSums(a: Matrix, m: nat): (s: Vector)
    requires forall i :: 0 <= i < |a| ==> |a[i]| == m
    ensures |s| == m
  {
    if a == [] then seq(m, j => 0.0)
    else
      var above, last := ColSums(a[..|a| - 1], m), a[|a| - 1];
      seq(m, j requires 0 <= j < m => above[j] + last[j])
  }

  /** Summing along axis 0 is summing the rows of the transpose. */
  lemma {:induction false} ColSumsOfTranspose(a: Matrix, m: nat)
    requires forall i :: 0 <= i < |a| ==> |a[i]| == m
    ensures ColSums(a, m) == RowSums(Transpose(a, m))
    decreases |a|
  {
    if a != [] {
      var init, last := a[..|a| - 1], a[|a| - 1];
      ColSumsOfTranspose(init, m);
      forall j | 0 <= j < m ensures ColSums(a, m)[j] == RowSums(Transpose(a, m))[j] {
        TransposeSnoc(a, m, j);
        SumSnoc(Transpose(init, m)[j], last[j]);
      }
    }
  }

  lemma TransposeSnoc(a: Matrix, m: nat, j: nat)
    requires a != [] && (forall i :: 0 <= i < |a| ==> |a[i]| == m) && j < m
    ensures Transpose(a, m)[j] == Transpose(a[..|a| - 1], m)[j] + [a[|a| - 1][j]]
  {
  }

  lemma SumSnoc(v: Vector, x: real)
    ensures Sum(v + [x]) == Sum(v) + x
  {
    assert (v + [x])[..|v|] == v;
  }

  // ---- the two half steps -----------------------------------------------------------------

  /** Row `i` divided by `d[i] + eps`. */
  function DivideRows(a: Matrix, d: Vector, eps: real): (b: Matrix)
    requires |d| == |a| && forall i :: 0 <= i < |a| ==> d[i] + eps != 0.0
    ensures |b| == |a| && forall i :: 0 <= i < |a| ==> |b[i]| == |a[i]|
    ensures forall i, j :: 0 <= i < |a| && 0 <= j < |a[i]| ==> b[i][j] == a[i][j] / (d[i] + eps)
  {
    seq(|a|, i requires 0 <= i < |a| => seq(|a[i]|, j requires 0 <= j < |a[i]| => a[i][j] / (d[i] + eps)))
  }

  /** Column `j` divided by `d[j] + eps`. */
  function DivideCols(a: Matrix, d: Vector, eps: real): (b: Matrix)
    requires forall i :: 0 <= i < |a| ==> |a[i]| == |d|
    requires forall j :: 0 <= j < |d| ==> d[j] + eps != 0.0
    ensures |b| == |a| && forall i :: 0 <= i < |a| ==> |b[i]| == |d|
    ensures forall i, j :: 0 <= i < |a| && 0 <= j < |d| ==> b[i][j] == a[i][j] / (d[j] + eps)
  {
    seq(|a|, i requires 0 <= i < |a| => seq(|d|, j requires 0 <= j < |d| => a[i][j] / (d[j] + eps)))
  }

  lemma TransposePositive(a: Matrix, n: nat, m: nat)
    requires Positive(a, n, m)
    ensures Positive(Transpose(a, m), m, n)
  {
  }

  lemma RowSumsPositive(a: Matrix, n: nat, m: nat)
    requires Positive(a, n, m)
    ensures PositiveVector(RowSums(a))
  {
    forall i | 0 <= i < n ensures RowSums(a)[i] > 0.0 { SumPositive(a[i]); }
  }

  lemma ColSumsPositive(a: Matrix, n: nat, m: nat)
    requires Positive(a, n, m)
    ensures PositiveVector(ColSums(a, m))
  {
    TransposePositive(a, n, m);
    ColSumsOfTranspose(a, m);
    RowSumsPositive(Transpose(a, m), m, n);
  }

  lemma QuotientPositive(x: real, y: real)
    requires x > 0.0 && y > 0.0
    ensures x / y > 0.0
  {
  }

  function RowStep(a: Matrix, n: nat, m: nat, eps: real): (b: Matrix)
    requires Positive(a, n, m) && eps >= 0.0
    ensures Positive(b, n, m)
  {
    RowSumsPositive(a, n, m);
    var b := DivideRows(a, RowSums(a), eps);
    assert forall i, j :: 0 <= i < n && 0 <= j < m ==> b[i][j] > 0.0 by {
      forall i, j | 0 <= i < n && 0 <= j < m ensures b[i][j] > 0.0 { QuotientPositive(a[i][j], RowSums(a)[i] + eps); }
    }
    b
  }

  function ColStep(a: Matrix, n: nat, m: nat, eps: real): (b: Matrix)
    requires Positive(a, n, m) && eps >= 0.0
    ensures Positive(b, n, m)
  {
    ColSumsPositive(a, n, m);
    var b := DivideCols(a, ColSums(a, m), eps);
    assert forall i, j :: 0 <= i < n && 0 <= j < m ==> b[i][j] > 0.0 by {
      forall i, j | 0 <= i < n && 0 <= j < m
        ensures b[i][j] > 0.0
      {
        QuotientPositive(a[i][j], ColSums(a, m)[j] + eps);
      }
    }
    b
  }

  /** The normalised matrix: a column step, then `trips` times a row step and a column step. */
  function Normalised(a: Matrix, n: nat, m: nat, eps: real, trips: nat): (b: Matrix)
    requires Positive(a, n, m) && eps >= 0.0
    ensures Positive(b, n, m)
  {
    if trips == 0 then ColStep(a, n, m, eps)
    else ColStep(RowStep(Normalised(a, n, m, eps, trips - 1), n, m, eps), n, m, eps)
  }

  /** `y` is `x` divided by `d`. */
  ghost predicate Divided(x: real, d: real, y: real)
  {
    d != 0.0 && y * d == x
  }

  /** `y` is `x` with every entry divided by its row's sum plus eps. */
  ghost predicate RowsNormalised(x: Matrix, y: Matrix, n: nat, m: nat, eps: real)
    requires Shaped(x, n, m) && Shaped(y, n, m)
  {
    forall i, j :: 0 <= i < n && 0 <= j < m ==> Divided(x[i][j], Sum(x[i]) + eps, y[i][j])
  }

  /** `y` is `x` with every entry divided by its column's sum plus eps. */
  ghost predicate ColumnsNormalised(x: Matrix, y: Matrix, n: nat, m: nat, eps: real)
    requires Shaped(x, n, m) && Shaped(y, n, m)
  {
    forall i, j, column: Vector ::
      0 <= i < n && 0 <= j < m && |column| == n && (forall k :: 0 <= k < n ==> column[k] == x[k][j]) ==>
        Divided(x[i][j], Sum(column) + eps, y[i][j])
  }

  ghost predicate Shaped(x: Matrix, n: nat, m: nat)
  {
    |x| == n && forall i :: 0 <= i < n ==> |x[i]| == m
  }

  /** The columns of a positive matrix are normalised first, and then in every trip its rows and again its
      columns. */
  lemma NormalisedIs(a: Matrix, n: nat, m: nat, eps: real, trips: nat) returns (rows: Matrix)
    requires Positive(a, n, m) && eps >= 0.0
    ensures Shaped(rows, n, m)
    ensures ColumnsNormalised(if trips == 0 then a else rows, Normalised(a, n, m, eps, trips), n, m, eps)
    ensures trips > 0 ==> RowsNormalised(Normalised(a, n, m, eps, trips - 1), rows, n, m, eps)
  {
    if trips == 0 {
      rows := a;
    } else {
      var before := Normalised(a, n, m, eps, trips - 1);
      rows := RowStep(before, n, m, eps);
      RowStepIs(before, n, m, eps);
    }
    ColStepIs(rows, n, m, eps);
    hide RowStep, ColStep;
  }

  lemma RowStepIs(a: Matrix, n: nat, m: nat, eps: real)
    requires Positive(a, n, m) && eps >= 0.0
    ensures RowsNormalised(a, RowStep(a, n, m, eps), n, m, eps)
  {
    RowSumsPositive(a, n, m);
    var b := RowStep(a, n, m, eps);
    hide Divided;
    forall i, j | 0 <= i < n && 0 <= j < m ensures Divided(a[i][j], Sum(a[i]) + eps, b[i][j]) {
      assert b[i][j] == a[i][j] / (RowSums(a)[i] + eps);
      QuotientIs(a[i][j], RowSums(a)[i] + eps);
    }
  }

  lemma ColStepIs(a: Matrix, n: nat, m: nat, eps: real)
    requires Positive(a, n, m) && eps >= 0.0
    ensures ColumnsNormalised(a, ColStep(a, n, m, eps), n, m, eps)
  {
    hide Divided, ColStep;
    forall i, j, column: Vector |
      0 <= i < n && 0 <= j < m && |column| == n && (forall k :: 0 <= k < n ==> column[k] == a[k][j])
      ensures Divided(a[i][j], Sum(column) + eps, ColStep(a, n, m, eps)[i][j])
    {
      assert column == Transpose(a, m)[j];
      ColStepAt(a, n, m, eps, i, j);
    }
  }

  lemma ColStepAt(a: Matrix, n: nat, m: nat, eps: real, i: nat, j: nat)
    requires Positive(a, n, m) && eps >= 0.0 && i < n && j < m
    ensures Divided(a[i][j], Sum(Transpose(a, m)[j]) + eps, ColStep(a, n, m, eps)[i][j])
  {
    ColSumsPositive(a, n, m);
    ColSumsOfTranspose(a, m);
    hide ColSums, Transpose, Divided;
    assert ColStep(a, n, m, eps)[i][j] == a[i][j] / (ColSums(a, m)[j] + eps);
    QuotientIs(a[i][j], ColSums(a, m)[j] + eps);
  }

  lemma QuotientIs(x: real, d: real)
    requires d > 0.0
    ensures Divided(x, d, x / d)
  {
  }

  // ---- the matrix loop --------------------------------------------------------------------

  method RowPass(comb: Matrix, n: nat, m: nat, eps: real) returns (next: Matrix)
    requires Positive(comb, n, m) && eps >= 0.0
    ensures next == RowStep(comb, n, m, eps)
  {
    RowSumsPositive(comb, n, m);
    next := DivideRows(comb, RowSums(comb), eps);
  }

  method ColPass(comb: Matrix, n: nat, m: nat, eps: real) returns (next: Matrix)
    requires Positive(comb, n, m) && eps >= 0.0
    ensures next == ColStep(comb, n, m, eps)
  {
    ColSumsPositive(comb, n, m);
    next := DivideCols(comb, ColSums(comb, m), eps);
  }

  method ColPassTrans(comb: Matrix, n: nat, m: nat, eps: real) returns (next: Matrix)
    requires Positive(comb, n, m) && eps >= 0.0
    ensures next == ColStep(comb, n, m, eps)
  {
    ColSumsPositive(comb, n, m);
    ColSumsOfTranspose(comb, m);
    next := DivideCols(comb, RowSums(Transpose(comb, m)), eps);
  }

  /** The oracle, and the kernel with column sums along axis 0. */
  method LoopAxis0(a: Matrix, n: nat, m: nat, eps: real, trips: nat) returns (comb: Matrix)
    requires Positive(a, n, m) && eps >= 0.0
    ensures comb == Normalised(a, n, m, eps, trips)
  {
    comb := ColPass(a, n, m, eps);
    for t := 0 to trips
      invariant comb == Normalised(a, n, m, eps, t)
    {
      comb := RowPass(comb, n, m, eps);
      comb := ColPass(comb, n, m, eps);
    }
  }

  /** The same kernel with column sums taken as row sums of the transpose. */
  method LoopTrans(a: Matrix, n: nat, m: nat, eps: real, trips: nat) returns (comb: Matrix)
    requires Positive(a, n, m) && eps >= 0.0
    ensures comb == Normalised(a, n, m, eps, trips)
  {
    comb := ColPassTrans(a, n, m, eps);
    for t := 0 to trips
      invariant comb == Normalised(a, n, m, eps, t)
    {
      comb := RowPass(comb, n, m, eps);
      comb := ColPassTrans(comb, n, m, eps);
    }
  }

  // ---- the scale-vector loop --------------------------------------------------------------

  /** `a[i][j] * r[i] * c[j]`: the matrix that the two vectors stand for. */
  function Scaled(a: Matrix, r: Vector, c: Vector): (b: Matrix)
    requires |r| == |a| && forall i :: 0 <= i < |a| ==> |a[i]| == |c|
    ensures |b| == |a| && forall i :: 0 <= i < |a| ==> |b[i]| == |c|
    ensures forall i, j :: 0 <= i < |a| && 0 <= j < |c| ==> b[i][j] == a[i][j] * r[i] * c[j]
  {
    seq(|a|, i requires 0 <= i < |a| => seq(|c|, j requires 0 <= j < |c| => a[i][j] * r[i] * c[j]))
  }

  function DivideVector(v: Vector, d: Vector, eps: real): (w: Vector)
    requires |d| == |v| && forall i :: 0 <= i < |v| ==> d[i] + eps != 0.0
    ensures |w| == |v| && forall i :: 0 <= i < |v| ==> w[i] == v[i] / (d[i] + eps)
  {
    seq(|v|, i requires 0 <= i < |v| => v[i] / (d[i] + eps))
  }

  lemma DivideThenScale(x: real, r: real, c: real, d: real)
    requires d != 0.0
    ensures x * r * c / d == x * (r / d) * c == x * r * (c / d)
  {
  }

  lemma MatrixExtensional(x: Matrix, y: Matrix, m: nat)
    requires |x| == |y| && forall i :: 0 <= i < |x| ==> |x[i]| == |y[i]| == m
    requires forall i, j :: 0 <= i < |x| && 0 <= j < m ==> x[i][j] == y[i][j]
    ensures x == y
  {
    forall i | 0 <= i < |x| ensures x[i] == y[i] {
      assert forall j :: 0 <= j < m ==> x[i][j] == y[i][j];
    }
  }

  /** Dividing the row scales is a row step of the matrix they stand for. */
  lemma RowStepOfScaled(a: Matrix, n: nat, m: nat, eps: real, r: Vector, c: Vector)
    requires |a| == |r| == n && |c| == m && forall i :: 0 <= i < n ==> |a[i]| == m
    requires Positive(Scaled(a, r, c), n, m) && eps >= 0.0
    ensures var rs := RowSums(Scaled(a, r, c));
            PositiveVector(rs) && Scaled(a, DivideVector(r, rs, eps), c) == RowStep(Scaled(a, r, c), n, m, eps)
  {
    var s := Scaled(a, r, c);
    RowSumsPositive(s, n, m);
    var rs := RowSums(s);
    var x, y := Scaled(a, DivideVector(r, rs, eps), c), RowStep(s, n, m, eps);
    forall i, j | 0 <= i < n && 0 <= j < m ensures x[i][j] == y[i][j] {
      DivideThenScale(a[i][j], r[i], c[j], rs[i] + eps);
    }
    MatrixExtensional(x, y, m);
  }

  /** Dividing the column scales is a column step of the matrix they stand for. */
  lemma ColStepOfScaled(a: Matrix, n: nat, m: nat, eps: real, r: Vector, c: Vector)
    requires |a| == |r| == n && |c| == m && forall i :: 0 <= i < n ==> |a[i]| == m
    requires Positive(Scaled(a, r, c), n, m) && eps >= 0.0
    ensures var cs := ColSums(Scaled(a, r, c), m);
            PositiveVector(cs) && Scaled(a, r, DivideVector(c, cs, eps)) == ColStep(Scaled(a, r, c), n, m, eps)
  {
    var s := Scaled(a, r, c);
    ColSumsPositive(s, n, m);
    var cs := ColSums(s, m);
    var x, y := Scaled(a, r, DivideVector(c, cs, eps)), ColStep(s, n, m, eps);
    forall i, j | 0 <= i < n && 0 <= j < m ensures x[i][j] == y[i][j] {
      DivideThenScale(a[i][j], r[i], c[j], cs[j] + eps);
    }
    MatrixExtensional(x, y, m);
  }

  function Ones(n: nat): (v: Vector)
    ensures |v| == n && forall i :: 0 <= i < n ==> v[i] == 1.0
  {
    seq(n, i => 1.0)
  }

  lemma ScaledByOnes(a: Matrix, n: nat, m: nat)
    requires Positive(a, n, m)
    ensures Scaled(a, Ones(n), Ones(m)) == a
  {
    MatrixExtensional(Scaled(a, Ones(n), Ones(m)), a, m);
  }

  /** The scale vectors stand for the matrix `b` over the fixed matrix `a`. */
  ghost predicate StandsFor(a: Matrix, n: nat, m: nat, r: Vector, c: Vector, b: Matrix)
  {
    && |a| == |r| == n && |c| == m && (forall i :: 0 <= i < n ==> |a[i]| == m)
    && Scaled(a, r, c) == b && Positive(b, n, m)
  }

  method FirstColScale(a: Matrix, n: nat, m: nat, eps: real) returns (colScale: Vector)
    requires Positive(a, n, m) && eps >= 0.0
    ensures StandsFor(a, n, m, Ones(n), colScale, ColStep(a, n, m, eps))
  {
    ScaledByOnes(a, n, m);
    ColStepOfScaled(a, n, m, eps, Ones(n), Ones(m));
    colScale := DivideVector(Ones(m), ColSums(a, m), eps);
  }

  method RowScalePass(a: Matrix, n: nat, m: nat, eps: real, rowScale: Vector, colScale: Vector, ghost b: Matrix)
    returns (r: Vector)
    requires StandsFor(a, n, m, rowScale, colScale, b) && eps >= 0.0
    ensures StandsFor(a, n, m, r, colScale, RowStep(b, n, m, eps))
  {
    RowStepOfScaled(a, n, m, eps, rowScale, colScale);
    var rs := RowSums(Scaled(a, rowScale, colScale));
    r := DivideVector(rowScale, rs, eps);
  }

  method ColScalePass(a: Matrix, n: nat, m: nat, eps: real, rowScale: Vector, colScale: Vector, ghost b: Matrix)
    returns (c: Vector)
    requires StandsFor(a, n, m, rowScale, colScale, b) && eps >= 0.0
    ensures StandsFor(a, n, m, rowScale, c, ColStep(b, n, m, eps))
  {
    ColStepOfScaled(a, n, m, eps, rowScale, colScale);
    var cs := ColSums(Scaled(a, rowScale, colScale), m);
    c := DivideVector(colScale, cs, eps);
  }

  method ColScalePassTrans(a: Matrix, n: nat, m: nat, eps: real, rowScale: Vector, colScale: Vector, ghost b: Matrix)
    returns (c: Vector)
    requires StandsFor(a, n, m, rowScale, colScale, b) && eps >= 0.0
    ensures StandsFor(a, n, m, rowScale, c, ColStep(b, n, m, eps))
  {
    ColStepOfScaled(a, n, m, eps, rowScale, colScale);
    ColSumsOfTranspose(b, m);
    var cs := RowSums(Transpose(Scaled(a, rowScale, colScale), m));
    c := DivideVector(colScale, cs, eps);
  }

  /** Only the two scale vectors change in the loop; the result is the same matrix. */
  method ScaleVecAxis0(a: Matrix, n: nat, m: nat, eps: real, trips: nat) returns (comb: Matrix)
    requires Positive(a, n, m) && eps >= 0.0
    ensures comb == Normalised(a, n, m, eps, trips)
  {
    var colScale := FirstColScale(a, n, m, eps);
    var rowScale := Ones(n);
    for t := 0 to trips
      invariant StandsFor(a, n, m, rowScale, colScale, Normalised(a, n, m, eps, t))
    {
      ghost var b := Normalised(a, n, m, eps, t);
      rowScale := RowScalePass(a, n, m, eps, rowScale, colScale, b);
      colScale := ColScalePass(a, n, m, eps, rowScale, colScale, RowStep(b, n, m, eps));
    }
    comb := Scaled(a, rowScale, colScale);
  }

  /** The scale-vector loop with the in-loop column sums taken from the transpose. */
  method ScaleVecTrans(a: Matrix, n: nat, m: nat, eps: real, trips: nat) returns (comb: Matrix)
    requires Positive(a, n, m) && eps >= 0.0
    ensures comb == Normalised(a, n, m, eps, trips)
  {
    var colScale := FirstColScale(a, n, m, eps);
    var rowScale := Ones(n);
    for t := 0 to trips
      invariant StandsFor(a, n, m, rowScale, colScale, Normalised(a, n, m, eps, t))
    {
      ghost var b := Normalised(a, n, m, eps, t);
      rowScale := RowScalePass(a, n, m, eps, rowScale, colScale, b);
      colScale := ColScalePassTrans(a, n, m, eps, rowScale, colScale, RowStep(b, n, m, eps));
    }
    comb := Scaled(a, rowScale, colScale);
  }
}
