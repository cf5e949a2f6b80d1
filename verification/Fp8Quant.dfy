/** Block quantisation of a 2-D weight to e4m3 with one scale per tile, over reals, and the loader's
    dequantisation to bf16. */
module Fp8Quant {
  import opened Blocks
  import opened Reals

  type Matrix = seq<seq<real>>

  const E4M3_MAX := 448.0

  ghost predicate Shaped(w: Matrix, rows: nat, cols: nat)
  {
    |w| == rows && forall i :: 0 <= i < rows ==> |w[i]| == cols
  }

  // ---- tiles ------------------------------------------------------------------------------

  lemma RowInTile(a: nat, b: nat, block: nat)
    requires a * block + b < block * block
    ensures a < block
  {
    if a >= block { Ordered(block - 1, a, block); }
  }

  /** The zero-padded weight. */
  function Padded(w: Matrix, rows: nat, cols: nat, i: nat, j: nat): (x: real)
    requires Shaped(w, rows, cols)
  {
    if i < rows && j < cols then w[i][j] else 0.0
  }

  /** The place of cell `c` in its tile. */
  function RowIn(c: nat, block: nat): (a: nat)
    requires block >= 1
  {
    c / block
  }

  function ColumnIn(c: nat, block: nat): (b: nat)
    requires block >= 1
  {
    c % block
  }

  /** Largest magnitude among the first `k` cells, in row order, of the tile with corner (i0, j0). */
  function CellsAbsMax(w: Matrix, rows: nat, cols: nat, block: nat, i0: nat, j0: nat, k: nat): (m: real)
    requires Shaped(w, rows, cols) && block >= 1
    ensures m >= 0.0
  {
    if k == 0 then 0.0
    else Max(CellsAbsMax(w, rows, cols, block, i0, j0, k - 1),
             Abs(Padded(w, rows, cols, i0 + RowIn(k - 1, block), j0 + ColumnIn(k - 1, block))))
  }

  function TileAbsMax(w: Matrix, rows: nat, cols: nat, block: nat, bi: nat, bj: nat): (m: real)
    requires Shaped(w, rows, cols) && block >= 1
    ensures m >= 0.0
  {
    CellsAbsMax(w, rows, cols, block, bi * block, bj * block, block * block)
  }

  /** (i, j) is an element of the weight, not of the padding, in tile (bi, bj). */
  ghost predicate InTile(rows: nat, cols: nat, block: nat, bi: nat, bj: nat, i: nat, j: nat)
  {
    i < rows && j < cols && bi * block <= i < bi * block + block && bj * block <= j < bj * block + block
  }

  lemma {:induction false} CellsBound(w: Matrix, rows: nat, cols: nat, block: nat, i0: nat, j0: nat, k: nat, a: nat,
                                      b: nat)
    requires Shaped(w, rows, cols) && block >= 1 && b < block && a * block + b < k
    ensures Abs(Padded(w, rows, cols, i0 + a, j0 + b)) <= CellsAbsMax(w, rows, cols, block, i0, j0, k)
    decreases k
  {
    if a * block + b < k - 1 {
      CellsBound(w, rows, cols, block, i0, j0, k - 1, a, b);
    } else {
      CellCoordinates(a, b, block);
    }
  }

  lemma CellCoordinates(a: nat, b: nat, block: nat)
    requires b < block
    ensures RowIn(a * block + b, block) == a && ColumnIn(a * block + b, block) == b
  {
    var p, z: int := a * block + b, block;
    var d := p / block - a;
    assert p == p / block * block + p % block;
    assert d * z == b - p % block;
    assert d >= 1 ==> d * z >= z;
    assert d <= -1 ==> (0 - d) * z >= z;
  }

  lemma CellOf(c: nat, block: nat)
    requires block >= 1
    ensures RowIn(c, block) * block + ColumnIn(c, block) == c && ColumnIn(c, block) < block
  {
  }

  /** The maximum is zero or attained by a cell, and an attaining cell is never padding. */
  lemma {:induction false} CellsAttained(w: Matrix, rows: nat, cols: nat, block: nat, i0: nat, j0: nat, k: nat)
    returns (a: nat, b: nat)
    requires Shaped(w, rows, cols) && block >= 1
    ensures b < block && (k > 0 ==> a * block + b < k)
    ensures var m := CellsAbsMax(w, rows, cols, block, i0, j0, k);
            m > 0.0 ==> i0 + a < rows && j0 + b < cols && Abs(w[i0 + a][j0 + b]) == m
    decreases k
  {
    hide RowIn, ColumnIn;
    a, b := 0, 0;
    if k > 0 {
      var last := Abs(Padded(w, rows, cols, i0 + RowIn(k - 1, block), j0 + ColumnIn(k - 1, block)));
      if last >= CellsAbsMax(w, rows, cols, block, i0, j0, k - 1) {
        a, b := RowIn(k - 1, block), ColumnIn(k - 1, block);
        CellOf(k - 1, block);
      } else {
        a, b := CellsAttained(w, rows, cols, block, i0, j0, k - 1);
      }
    }
  }

  /** Padding never changes a tile's maximum: it bounds the tile's own elements, and ... */
  lemma ElementBelowAbsMax(w: Matrix, rows: nat, cols: nat, block: nat, bi: nat, bj: nat, i: nat, j: nat)
    requires Shaped(w, rows, cols) && block >= 1 && InTile(rows, cols, block, bi, bj, i, j)
    ensures Abs(w[i][j]) <= TileAbsMax(w, rows, cols, block, bi, bj)
  {
    var a, b := i - bi * block, j - bj * block;
    Ordered(a, block, block);
    CellsBound(w, rows, cols, block, bi * block, bj * block, block * block, a, b);
  }

  /** ... unless it is zero, one of them attains it. */
  lemma ElementAttainsAbsMax(w: Matrix, rows: nat, cols: nat, block: nat, bi: nat, bj: nat) returns (i: nat, j: nat)
    requires Shaped(w, rows, cols) && block >= 1 && TileAbsMax(w, rows, cols, block, bi, bj) > 0.0
    ensures InTile(rows, cols, block, bi, bj, i, j) && Abs(w[i][j]) == TileAbsMax(w, rows, cols, block, bi, bj)
  {
    var a, b := CellsAttained(w, rows, cols, block, bi * block, bj * block, block * block);
    RowInTile(a, b, block);
    i, j := bi * block + a, bj * block + b;
  }

  // ---- scales and quotients ---------------------------------------------------------------

  /** The tile scale: absmax / 448, or 1 for a tile of zeros. */
  function Scale(w: Matrix, rows: nat, cols: nat, block: nat, bi: nat, bj: nat): (s: real)
    requires Shaped(w, rows, cols) && block >= 1
    ensures s > 0.0
  {
    ScaleOf(TileAbsMax(w, rows, cols, block, bi, bj))
  }

  /** The scale of the tile that holds element (i, j). */
  function OwnScale(w: Matrix, rows: nat, cols: nat, block: nat, i: nat, j: nat): (s: real)
    requires Shaped(w, rows, cols) && block >= 1 && i < rows && j < cols
    ensures s > 0.0
  {
    Scale(w, rows, cols, block, i / block, j / block)
  }

  /** What is cast: each element over the scale of its own tile. */
  function Quotient(w: Matrix, rows: nat, cols: nat, block: nat, i: nat, j: nat): (x: real)
    requires Shaped(w, rows, cols) && block >= 1 && i < rows && j < cols
  {
    w[i][j] / OwnScale(w, rows, cols, block, i, j)
  }

  lemma ElementInOwnTile(rows: nat, cols: nat, block: nat, i: nat, j: nat)
    requires block >= 1 && i < rows && j < cols
    ensures InTile(rows, cols, block, i / block, j / block, i, j)
  {
    BlockOfIndex(i, rows, block);
    BlockOfIndex(j, cols, block);
  }

  function ScaleOf(m: real): (s: real)
    requires m >= 0.0
    ensures s > 0.0
  {
    if m / E4M3_MAX > 0.0 then m / E4M3_MAX else 1.0
  }

  lemma QuotientBound(x: real, m: real)
    requires Abs(x) <= m
    ensures Abs(x / ScaleOf(m)) <= E4M3_MAX
    ensures m > 0.0 && Abs(x) == m ==> Abs(x / ScaleOf(m)) == E4M3_MAX
  {
    var s := ScaleOf(m);
    AbsQuotient(x, s);
    if m > 0.0 {
      assert s * E4M3_MAX == m;
      assert (E4M3_MAX - Abs(x / s)) * s == m - Abs(x);
    } else {
      assert x == 0.0 && x / s == 0.0;
    }
  }

  lemma AbsQuotient(x: real, s: real)
    requires s > 0.0
    ensures Times(x / s, s) == x && Times(Abs(x / s), s) == Abs(x)
  {
    assert x / s * s == x;
    assert x < 0.0 ==> x / s < 0.0;
    assert x >= 0.0 ==> x / s >= 0.0;
  }

  /** Every quotient is in e4m3 range. */
  lemma QuotientInRange(w: Matrix, rows: nat, cols: nat, block: nat, i: nat, j: nat)
    requires Shaped(w, rows, cols) && block >= 1 && i < rows && j < cols
    ensures Abs(Quotient(w, rows, cols, block, i, j)) <= E4M3_MAX
  {
    hide TileAbsMax, InTile;
    ElementInOwnTile(rows, cols, block, i, j);
    ElementBelowAbsMax(w, rows, cols, block, i / block, j / block, i, j);
    QuotientBound(w[i][j], TileAbsMax(w, rows, cols, block, i / block, j / block));
  }

  /** Every tile that is not all zero uses the whole range. */
  lemma TileReachesTheTop(w: Matrix, rows: nat, cols: nat, block: nat, bi: nat, bj: nat) returns (i: nat, j: nat)
    requires Shaped(w, rows, cols) && block >= 1 && TileAbsMax(w, rows, cols, block, bi, bj) > 0.0
    ensures i < rows && j < cols && i / block == bi && j / block == bj
    ensures Abs(Quotient(w, rows, cols, block, i, j)) == E4M3_MAX
  {
    hide TileAbsMax;
    i, j := ElementAttainsAbsMax(w, rows, cols, block, bi, bj);
    CellCoordinates(bi, i - bi * block, block);
    CellCoordinates(bj, j - bj * block, block);
    QuotientBound(w[i][j], TileAbsMax(w, rows, cols, block, bi, bj));
  }

  // ---- e4m3 -------------------------------------------------------------------------------

  function Pow2(p: nat): (x: real)
    ensures x >= 1.0
  {
    if p == 0 then 1.0 else 2.0 * Pow2(p - 1)
  }

  /** The finite e4m3 values in units of 2^-9: a subnormal row of step 1, then 14 binades of 8 steps
      each, the last one cut at 448. */
  ghost predicate GridPoint(m: int, p: nat)
  {
    && -15 <= m <= 15 && p <= 14
    && (p > 0 ==> m >= 8 || m <= -8)
    && (p == 14 ==> -14 <= m <= 14)
  }

  function GridValue(m: int, p: nat): (v: real)
  {
    Times(m as real, Pow2(p)) / 512.0
  }

  ghost predicate E4M3(v: real)
  {
    exists m: int, p: nat :: GridPoint(m, p) && v == GridValue(m, p)
  }

  /** What the bits of the format say: a sign, four bits of exponent with bias 7, three of mantissa. Exponent
      zero has no leading one, and the largest exponent with the largest mantissa is no number. */
  ghost predicate Encodes(negative: bool, e: nat, f: nat, v: real)
  {
    && e <= 15 && f <= 7 && !(e == 15 && f == 7)
    && var magnitude := if e == 0 then f as real / 512.0 else Times((8 + f) as real, Pow2(e - 1)) / 512.0;
    v == if negative then -magnitude else magnitude
  }

  /** The grid is exactly the numbers of the format. */
  lemma GridIsTheFormat(v: real)
    ensures E4M3(v) <==> exists negative, e, f :: Encodes(negative, e, f, v)
  {
    hide Times;
    if E4M3(v) {
      var m: int, p: nat :| GridPoint(m, p) && v == GridValue(m, p);
      var a := if m < 0 then -m else m;
      TimesNegated(a as real, Pow2(p));
      FirstPowers(a as real);
      assert m < 0 ==> m as real == -(a as real);
      assert Encodes(m < 0, if a < 8 then 0 else p + 1, if a < 8 then a else a - 8, v);
    }
    forall negative, e, f | Encodes(negative, e, f, v) ensures E4M3(v) {
      FormatOnGrid(negative, e, f, v);
    }
  }

  lemma FormatOnGrid(negative: bool, e: nat, f: nat, v: real)
    requires Encodes(negative, e, f, v)
    ensures E4M3(v)
  {
    hide Times;
    var a, p := if e == 0 then f else 8 + f, if e == 0 then 0 else e - 1;
    FirstPowers(a as real);
    assert GridPoint(a, p) && GridValue(a, p) == if negative then -v else v;
    if negative { NegatedGridValue(-v); }
  }

  /** The cast: the closest e4m3 value, on the range that the quotients stay in. */
  ghost predicate RoundsToNearest(cast: real -> real)
  {
    forall x {:trigger cast(x)} :: Abs(x) <= E4M3_MAX ==> E4M3(cast(x)) && forall v :: E4M3(v) ==>
      Abs(cast(x) - x) <= Abs(v - x)
  }

  lemma {:induction false} Pow2Monotone(p: nat, q: nat)
    requires p <= q
    ensures Pow2(p) <= Pow2(q)
    decreases q
  {
    if p < q { Pow2Monotone(p, q - 1); }
  }

  lemma Pow2Of14()
    ensures Pow2(14) == 16384.0
  {
  }

  lemma GridValuesInRange(v: real)
    requires E4M3(v)
    ensures Abs(v) <= E4M3_MAX
  {
    hide Times;
    var m: int, p: nat :| GridPoint(m, p) && v == GridValue(m, p);
    Pow2Monotone(p, 14);
    Pow2Of14();
    if p < 14 {
      Pow2Monotone(p, 13);
      assert Pow2(14) == 2.0 * Pow2(13);
      ProductInRange(m as real, 15.0, Pow2(p), 8192.0);
    } else {
      ProductInRange(m as real, 14.0, Pow2(p), 16384.0);
    }
  }

  lemma ProductInRange(m: real, a: real, x: real, b: real)
    requires -a <= m <= a && 0.0 <= x <= b
    ensures -(a * b) <= Times(m, x) <= a * b
  {
    assert a * x <= a * b;
    assert (a - m) * x >= 0.0 && (a + m) * x >= 0.0;
  }

  lemma NegatedGridValue(v: real)
    requires E4M3(v)
    ensures E4M3(-v)
  {
    hide Times;
    var m: int, p: nat :| GridPoint(m, p) && v == GridValue(m, p);
    TimesNegated(m as real, Pow2(p));
    assert (-m) as real == -(m as real);
    assert GridPoint(-m, p) && GridValue(-m, p) == -v;
  }

  lemma TimesDoubled(x: real, p: nat)
    ensures Times(x, Pow2(p + 1)) == 2.0 * Times(x, Pow2(p))
  {
  }

  lemma FirstPowers(x: real)
    ensures Times(x, Pow2(0)) == x && Times(x, Pow2(1)) == 2.0 * x
  {
  }

  /** The grid point closest enough to `y`, in units of 2^-9: halve until the first binade, round to
      an integer there, and double back. */
  lemma {:induction false} RoundOnGrid(y: real, q: nat) returns (m: nat, p: nat)
    requires 0.0 <= y <= 14.0 * Pow2(q)
    ensures p <= q && m <= 15 && (p == q ==> m <= 14) && (p > 0 || y >= 8.0 ==> m >= 8)
    ensures Abs(Times(m as real, Pow2(p)) - y) <= Max(0.5, y / 16.0)
    decreases q
  {
    hide Times;
    if y < 16.0 {
      m, p := (y + 0.5).Floor, 0;
      FirstPowers(m as real);
      FirstPowers(8.0);
      if m == 16 {
        m, p := 8, 1;
      }
    } else {
      m, p := RoundOnGrid(y / 2.0, q - 1);
      TimesDoubled(m as real, p);
      p := p + 1;
    }
  }

  /** Some e4m3 value lies within 1/16 of every number in range, or within 2^-10. */
  lemma GridIsDense(x: real) returns (v: real)
    requires 0.0 <= x <= E4M3_MAX
    ensures E4M3(v) && Abs(v - x) <= Max(x / 16.0, 1.0 / 1024.0)
  {
    hide Times;
    Pow2Of14();
    var m, p := RoundOnGrid(x * 512.0, 14);
    assert GridPoint(m, p);
    v := GridValue(m, p);
  }

  /** So rounding to nearest is accurate to relative 1/16 or absolute 2^-10, and exact on e4m3. */
  lemma CastAccuracy(cast: real -> real, x: real)
    requires RoundsToNearest(cast) && Abs(x) <= E4M3_MAX
    ensures Abs(cast(x) - x) <= Max(Abs(x) / 16.0, 1.0 / 1024.0) && Abs(cast(x)) <= E4M3_MAX && E4M3(cast(x))
    ensures E4M3(x) ==> cast(x) == x
  {
    var v := GridIsDense(Abs(x));
    NegatedGridValue(v);
    if x >= 0.0 {
      assert Abs(cast(x) - x) <= Abs(v - x);
    } else {
      assert Abs(cast(x) - x) <= Abs(-v - x);
    }
    GridValuesInRange(cast(x));
    if E4M3(x) {
      assert Abs(cast(x) - x) <= Abs(x - x);
    }
  }

  lemma {:induction false} Pow2IsWhole(d: nat) returns (k: int)
    ensures Pow2(d) == k as real
  {
    if d == 0 {
      k := 1;
    } else {
      k := Pow2IsWhole(d - 1);
      k := 2 * k;
    }
  }

  lemma {:induction false} Pow2Adds(p: nat, d: nat)
    ensures Pow2(p + d) == Times(Pow2(d), Pow2(p))
    decreases d
  {
    if d > 0 { Pow2Adds(p, d - 1); }
  }

  /** No two e4m3 values are closer than 1/16 of either. */
  lemma GridGap(u: real, v: real)
    requires E4M3(u) && E4M3(v) && 16.0 * Abs(u - v) < Abs(v)
    ensures u == v
  {
    var k: int, q: nat :| GridPoint(k, q) && u == GridValue(k, q);
    var m: int, p: nat :| GridPoint(m, p) && v == GridValue(m, p);
    hide Times;
    UnitsOfValue(k, q, u);
    UnitsOfValue(m, p, v);
    if q < p {
      SmallerBinade(k, q, m, p);
    } else {
      var w := Pow2IsWhole(q - p);
      Pow2Adds(p, q - p);
      Regroup(k, w, Pow2(p));
      SameUnit(k * w, m, Pow2(p));
    }
  }

  lemma UnitsOfValue(m: int, p: nat, v: real)
    requires v == GridValue(m, p)
    ensures 512.0 * v == Times(m as real, Pow2(p))
  {
  }

  lemma Regroup(k: int, w: int, unit: real)
    ensures Times(k as real, Times(w as real, unit)) == Times((k * w) as real, unit)
  {
    assert (k * w) as real == k as real * w as real;
  }

  lemma SameUnit(k: int, m: int, unit: real)
    requires unit >= 1.0 && -15 <= m <= 15
    requires 16.0 * Abs(Times(k as real, unit) - Times(m as real, unit)) < Abs(Times(m as real, unit))
    ensures k == m
  {
    hide Times;
    AbsTimes(m as real, unit);
    TimesMinus(k as real, m as real, unit);
    AbsTimes(k as real - m as real, unit);
    if k != m {
      assert Abs(k as real - m as real) >= 1.0;
      ScaleBound(1.0, Abs(k as real - m as real), unit);
      ScaleBound(Abs(m as real), 15.0, unit);
      TimesUnit(unit);
    }
  }

  lemma TimesUnit(unit: real)
    ensures Times(1.0, unit) == unit && Times(15.0, unit) == 15.0 * unit
  {
  }

  lemma SmallerBinade(k: int, q: nat, m: int, p: nat)
    requires GridPoint(k, q) && GridPoint(m, p) && q < p
    ensures 16.0 * Abs(Times(k as real, Pow2(q)) - Times(m as real, Pow2(p))) >= Abs(Times(m as real, Pow2(p)))
  {
    hide Times;
    AbsTimes(m as real, Pow2(p));
    AbsTimes(k as real, Pow2(q));
    ScaleBound(8.0, Abs(m as real), Pow2(p));
    ScaleBound(Abs(k as real), 15.0, Pow2(q));
    Pow2Monotone(q, p - 1);
    BinadeUnits(Pow2(q), Pow2(p));
  }

  lemma BinadeUnits(x: real, y: real)
    ensures Times(8.0, y) == 8.0 * y && Times(15.0, x) == 15.0 * x
  {
  }

  /** A bf16 cast: eight bits of precision, symmetric, and never past a number that it leaves alone. */
  ghost predicate RoundsToBf16(half: real -> real)
  {
    (forall x :: RoundsAt(half, x)) && forall x, v :: NotPast(half, x, v)
  }

  ghost predicate RoundsAt(half: real -> real, x: real)
  {
    256.0 * Abs(half(x) - x) <= Abs(x) && half(-x) == -half(x)
  }

  ghost predicate NotPast(half: real -> real, x: real, v: real)
  {
    half(v) == v ==> Abs(half(x) - x) <= Abs(v - x)
  }

  /** The weights are bf16 numbers. */
  ghost predicate IsBf16(half: real -> real, w: Matrix)
  {
    forall i, j :: 0 <= i < |w| && 0 <= j < |w[i]| ==> half(w[i][j]) == w[i][j]
  }

  lemma HalfAtMost(half: real -> real, x: real, m: real)
    requires RoundsToBf16(half) && Abs(x) <= m && (half(m) == m || half(-m) == -m)
    ensures Abs(half(x)) <= m
  {
    assert RoundsAt(half, m) && NotPast(half, x, m) && NotPast(half, x, -m);
  }

  // ---- quantise and dequantise ------------------------------------------------------------

  function QuantWeights(cast: real -> real, w: Matrix, rows: nat, cols: nat, block: nat): (q: Matrix)
    requires Shaped(w, rows, cols) && block >= 1
    ensures Shaped(q, rows, cols)
  {
    seq(rows, i requires 0 <= i < rows =>
        seq(cols, j requires 0 <= j < cols => cast(Quotient(w, rows, cols, block, i, j))))
  }

  function ScaleGrid(w: Matrix, rows: nat, cols: nat, block: nat): (s: Matrix)
    requires Shaped(w, rows, cols) && block >= 1
    ensures Shaped(s, CeilDiv(rows, block), CeilDiv(cols, block))
  {
    seq(CeilDiv(rows, block), bi requires 0 <= bi < CeilDiv(rows, block) =>
      seq(CeilDiv(cols, block), bj requires 0 <= bj < CeilDiv(cols, block) => Scale(w, rows, cols, block, bi, bj)))
  }

  /** The loader's side: each element times the scale of its tile, as bf16. */
  function Dequant(half: real -> real, q: Matrix, s: Matrix, rows: nat, cols: nat, block: nat): (w: Matrix)
    requires block >= 1 && Shaped(q, rows, cols) && Shaped(s, CeilDiv(rows, block), CeilDiv(cols, block))
    ensures Shaped(w, rows, cols)
  {
    seq(rows, i requires 0 <= i < rows => seq(cols, j requires 0 <= j < cols =>
      BlockOfIndex(i, rows, block);
      BlockOfIndex(j, cols, block);
      half(Times(q[i][j], s[i / block][j / block]))))
  }

  function RoundTrip(cast: real -> real, half: real -> real, w: Matrix, rows: nat, cols: nat, block: nat): (w': Matrix)
    requires Shaped(w, rows, cols) && block >= 1
    ensures Shaped(w', rows, cols)
  {
    Dequant(half, QuantWeights(cast, w, rows, cols, block), ScaleGrid(w, rows, cols, block), rows, cols, block)
  }

  /** One element after casting and scaling back. */
  function RoundTripElement(cast: real -> real, half: real -> real, w: Matrix, rows: nat, cols: nat, block: nat, i: nat,
                            j: nat): (x: real)
    requires Shaped(w, rows, cols) && block >= 1 && i < rows && j < cols
  {
    half(Times(cast(Quotient(w, rows, cols, block, i, j)), OwnScale(w, rows, cols, block, i, j)))
  }

  lemma RoundTripAt(cast: real -> real, half: real -> real, w: Matrix, rows: nat, cols: nat, block: nat, i: nat, j: nat)
    requires Shaped(w, rows, cols) && block >= 1 && i < rows && j < cols
    ensures RoundTrip(cast, half, w, rows, cols, block)[i][j]
        == RoundTripElement(cast, half, w, rows, cols, block, i, j)
  {
    hide Times, Quotient, Scale;
    BlockOfIndex(i, rows, block);
    BlockOfIndex(j, cols, block);
  }

  /** What is stored for a tile: a scale whose 448-fold is the largest magnitude of the tile's elements, or 1 for
      a tile of zeros, ... */
  lemma StagedScale(w: Matrix, rows: nat, cols: nat, block: nat, i: nat, j: nat)
    requires Shaped(w, rows, cols) && block >= 1 && i < rows && j < cols
    requires i / block < CeilDiv(rows, block) && j / block < CeilDiv(cols, block)
    ensures var s := ScaleGrid(w, rows, cols, block)[i / block][j / block];
            && s > 0.0 && Abs(w[i][j]) <= 448.0 * s
            && (w[i][j] == 0.0 || exists k: nat, l: nat :: Largest(w, rows, cols, block, i, j, k, l, s))
            && ((forall k: nat, l: nat :: Beside(rows, cols, block, i, j, k, l) ==> w[k][l] == 0.0) ==> s == 1.0)
  {
    var bi, bj := i / block, j / block;
    var m := TileAbsMax(w, rows, cols, block, bi, bj);
    ElementInOwnTile(rows, cols, block, i, j);
    ElementBelowAbsMax(w, rows, cols, block, bi, bj, i, j);
    hide TileAbsMax, InTile;
    if m > 0.0 {
      var k, l := AttainedWithTile(w, rows, cols, block, bi, bj);
      assert Beside(rows, cols, block, i, j, k, l);
      assert Largest(w, rows, cols, block, i, j, k, l, ScaleOf(m));
    }
  }

  /** ... and each element cast after division by that scale. Loading multiplies the two. */
  lemma StagedElement(cast: real -> real, half: real -> real, w: Matrix, rows: nat, cols: nat, block: nat, i: nat,
                      j: nat)
    requires Shaped(w, rows, cols) && block >= 1 && i < rows && j < cols
    requires i / block < CeilDiv(rows, block) && j / block < CeilDiv(cols, block)
    ensures var s := ScaleGrid(w, rows, cols, block)[i / block][j / block];
            && s > 0.0
            && QuantWeights(cast, w, rows, cols, block)[i][j] == cast(w[i][j] / s)
            && RoundTrip(cast, half, w, rows, cols, block)[i][j] == half(Times(cast(w[i][j] / s), s))
  {
    RoundTripAt(cast, half, w, rows, cols, block, i, j);
    OwnScaleIs(w, rows, cols, block, i, j);
    hide TileAbsMax, RoundTrip, Times, Scale, OwnScale, ScaleGrid;
  }

  lemma OwnScaleIs(w: Matrix, rows: nat, cols: nat, block: nat, i: nat, j: nat)
    requires Shaped(w, rows, cols) && block >= 1 && i < rows && j < cols
    requires i / block < CeilDiv(rows, block) && j / block < CeilDiv(cols, block)
    ensures ScaleGrid(w, rows, cols, block)[i / block][j / block] == OwnScale(w, rows, cols, block, i, j) > 0.0
  {
    hide Scale;
  }

  /** Elements (i, j) and (k, l) are in the same tile. */
  ghost predicate Beside(rows: nat, cols: nat, block: nat, i: nat, j: nat, k: nat, l: nat)
    requires block >= 1
  {
    k < rows && l < cols && k / block == i / block && l / block == j / block
  }

  /** Element (k, l) of that tile is as large as the scale `s` allows. */
  ghost predicate Largest(w: Matrix, rows: nat, cols: nat, block: nat, i: nat, j: nat, k: nat, l: nat, s: real)
    requires Shaped(w, rows, cols) && block >= 1
  {
    Beside(rows, cols, block, i, j, k, l) && Abs(w[k][l]) == 448.0 * s
  }

  /** What a reader of the staged weights sees is off by at most 1/16 of the element, or 1/1024 of
      the tile's scale, and by what bf16 rounds away. */
  lemma DequantError(cast: real -> real, half: real -> real, w: Matrix, rows: nat, cols: nat, block: nat, i: nat,
                     j: nat)
    requires RoundsToNearest(cast) && RoundsToBf16(half) && Shaped(w, rows, cols) && block >= 1 && i < rows && j < cols
    ensures var off := Max(Abs(w[i][j]) / 16.0, OwnScale(w, rows, cols, block, i, j) / 1024.0);
            Abs(RoundTrip(cast, half, w, rows, cols, block)[i][j] - w[i][j]) <= off + (Abs(w[i][j]) + off) / 256.0
  {
    hide OwnScale, RoundTrip, Times, RoundsToNearest;
    var x, s := Quotient(w, rows, cols, block, i, j), OwnScale(w, rows, cols, block, i, j);
    RoundTripAt(cast, half, w, rows, cols, block, i, j);
    QuotientInRange(w, rows, cols, block, i, j);
    CastAccuracy(cast, x);
    ErrorAlgebra(cast(x), x, w[i][j], s);
    var y := Times(cast(x), s);
    assert RoundsAt(half, y);
  }

  lemma ErrorAlgebra(c: real, x: real, y: real, s: real)
    requires s > 0.0 && x == y / s && Abs(c - x) <= Max(Abs(x) / 16.0, 1.0 / 1024.0)
    ensures Abs(Times(c, s) - y) <= Max(Abs(y) / 16.0, s / 1024.0)
  {
    hide Times;
    AbsQuotient(y, s);
    TimesMinus(c, x, s);
    AbsTimes(c - x, s);
    if Abs(c - x) <= Abs(x) / 16.0 {
      ScaleBound(Abs(c - x), Abs(x) / 16.0, s);
      Sixteenth(Abs(x), s);
    } else {
      ScaleBound(Abs(c - x), 1.0 / 1024.0, s);
      ThousandTwentyFourth(s);
    }
  }

  lemma TimesMinus(c: real, x: real, s: real)
    ensures Times(c - x, s) == Times(c, s) - Times(x, s)
  {
  }

  lemma Sixteenth(x: real, s: real)
    ensures Times(x / 16.0, s) == Times(x, s) / 16.0
  {
  }

  lemma ThousandTwentyFourth(s: real)
    ensures Times(1.0 / 1024.0, s) == s / 1024.0
  {
  }

  lemma ScaleBound(x: real, y: real, s: real)
    requires x <= y && s > 0.0
    ensures Times(x, s) <= Times(y, s)
  {
  }

  lemma AbsTimes(x: real, s: real)
    requires s > 0.0
    ensures Abs(Times(x, s)) == Times(Abs(x), s)
  {
    assert x < 0.0 ==> x * s < 0.0;
    assert x >= 0.0 ==> x * s >= 0.0;
  }

  lemma TopTimesScale(m: real)
    requires m > 0.0
    ensures Times(E4M3_MAX, ScaleOf(m)) == m
  {
  }

  lemma TimesThenDivide(x: real, s: real)
    requires s > 0.0
    ensures Times(x, s) / s == x
  {
  }

  lemma TopIsGridValue()
    ensures E4M3(448.0) && E4M3(-448.0)
  {
    Pow2Of14();
    assert GridPoint(14, 14) && GridValue(14, 14) == 448.0;
    NegatedGridValue(448.0);
  }

  lemma ZeroIsGridValue()
    ensures E4M3(0.0)
  {
    assert GridPoint(0, 0) && GridValue(0, 0) == 0.0;
  }

  /** The round trip of bf16 weights leaves every tile's maximum, and so its scale, exactly where it
      was. */
  lemma RoundTripKeepsScale(cast: real -> real, half: real -> real, w: Matrix, rows: nat, cols: nat, block: nat,
                            bi: nat, bj: nat)
    requires RoundsToNearest(cast) && RoundsToBf16(half) && Shaped(w, rows, cols) && block >= 1 && IsBf16(half, w)
    ensures TileAbsMax(RoundTrip(cast, half, w, rows, cols, block), rows, cols, block, bi, bj)
         == TileAbsMax(w, rows, cols, block, bi, bj)
  {
    hide TileAbsMax, RoundTrip, RoundsToNearest, RoundsToBf16, IsBf16, InTile;
    var w' := RoundTrip(cast, half, w, rows, cols, block);
    var m, m' := TileAbsMax(w, rows, cols, block, bi, bj), TileAbsMax(w', rows, cols, block, bi, bj);
    if m > 0.0 {
      var i, j := TileReachesTheTop(w, rows, cols, block, bi, bj);
      TopSurvives(cast, half, w, rows, cols, block, i, j, m);
      ElementInOwnTile(rows, cols, block, i, j);
      ElementBelowAbsMax(w', rows, cols, block, bi, bj, i, j);
    }
    if m' > 0.0 {
      var i, j := AttainedWithTile(w', rows, cols, block, bi, bj);
      RoundTripBelow(cast, half, w, rows, cols, block, i, j, m);
    }
  }

  lemma AttainedWithTile(w: Matrix, rows: nat, cols: nat, block: nat, bi: nat, bj: nat) returns (i: nat, j: nat)
    requires Shaped(w, rows, cols) && block >= 1 && TileAbsMax(w, rows, cols, block, bi, bj) > 0.0
    ensures i < rows && j < cols && i / block == bi && j / block == bj
    ensures Abs(w[i][j]) == TileAbsMax(w, rows, cols, block, bi, bj)
  {
    hide TileAbsMax;
    i, j := ElementAttainsAbsMax(w, rows, cols, block, bi, bj);
    CellCoordinates(bi, i - bi * block, block);
    CellCoordinates(bj, j - bj * block, block);
  }

  lemma TopSurvives(cast: real -> real, half: real -> real, w: Matrix, rows: nat, cols: nat, block: nat, i: nat, j: nat,
                    m: real)
    requires RoundsToNearest(cast) && Shaped(w, rows, cols) && block >= 1 && i < rows && j < cols && IsBf16(half, w)
    requires m == TileAbsMax(w, rows, cols, block, i / block, j / block) && m > 0.0
    requires Abs(Quotient(w, rows, cols, block, i, j)) == E4M3_MAX
    ensures RoundTrip(cast, half, w, rows, cols, block)[i][j] == w[i][j] && Abs(w[i][j]) == m
  {
    hide TileAbsMax, RoundTrip, RoundsToNearest, Times, ScaleOf;
    var x := Quotient(w, rows, cols, block, i, j);
    RoundTripAt(cast, half, w, rows, cols, block, i, j);
    TopIsGridValue();
    CastAccuracy(cast, x);
    AbsTimes(x, ScaleOf(m));
    TopTimesScale(m);
    DivideThenTimes(w[i][j], ScaleOf(m));
  }

  lemma DivideThenTimes(y: real, s: real)
    requires s > 0.0
    ensures Times(y / s, s) == y
  {
  }

  /** Before it is rounded to bf16, a dequantised element is within its tile's maximum. */
  lemma ProductBelow(cast: real -> real, w: Matrix, rows: nat, cols: nat, block: nat, i: nat, j: nat, m: real)
    requires RoundsToNearest(cast) && Shaped(w, rows, cols) && block >= 1 && i < rows && j < cols
    requires m == TileAbsMax(w, rows, cols, block, i / block, j / block)
    ensures Abs(Times(cast(Quotient(w, rows, cols, block, i, j)), OwnScale(w, rows, cols, block, i, j))) <= m
  {
    hide TileAbsMax, InTile, RoundsToNearest, Times, Quotient, ScaleOf;
    var x := Quotient(w, rows, cols, block, i, j);
    QuotientInRange(w, rows, cols, block, i, j);
    CastAccuracy(cast, x);
    AbsTimes(cast(x), ScaleOf(m));
    if m > 0.0 {
      TopTimesScale(m);
      ScaleBound(Abs(cast(x)), E4M3_MAX, ScaleOf(m));
    } else {
      ElementInOwnTile(rows, cols, block, i, j);
      ElementBelowAbsMax(w, rows, cols, block, i / block, j / block, i, j);
      ZeroQuotient(w, rows, cols, block, i, j);
      ZeroIsGridValue();
      CastAccuracy(cast, 0.0);
    }
  }

  lemma RoundTripBelow(cast: real -> real, half: real -> real, w: Matrix, rows: nat, cols: nat, block: nat, i: nat,
                       j: nat, m: real)
    requires RoundsToNearest(cast) && RoundsToBf16(half) && Shaped(w, rows, cols) && block >= 1 && i < rows && j < cols
    requires IsBf16(half, w) && m == TileAbsMax(w, rows, cols, block, i / block, j / block)
    ensures Abs(RoundTrip(cast, half, w, rows, cols, block)[i][j]) <= m
  {
    hide TileAbsMax, RoundTrip, RoundsToNearest, Times, Quotient, OwnScale;
    RoundTripAt(cast, half, w, rows, cols, block, i, j);
    ProductBelow(cast, w, rows, cols, block, i, j, m);
    MaximumIsBf16(half, w, rows, cols, block, i / block, j / block);
    HalfAtMost(half, Times(cast(Quotient(w, rows, cols, block, i, j)), OwnScale(w, rows, cols, block, i, j)), m);
  }

  lemma MaximumIsBf16(half: real -> real, w: Matrix, rows: nat, cols: nat, block: nat, bi: nat, bj: nat)
    requires RoundsToBf16(half) && Shaped(w, rows, cols) && block >= 1 && IsBf16(half, w)
    ensures var m := TileAbsMax(w, rows, cols, block, bi, bj);
            half(m) == m || half(-m) == -m
  {
    hide TileAbsMax;
    var m := TileAbsMax(w, rows, cols, block, bi, bj);
    if m > 0.0 {
      var i, j := AttainedWithTile(w, rows, cols, block, bi, bj);
      assert half(w[i][j]) == w[i][j];
    } else {
      assert RoundsAt(half, 0.0);
    }
  }

  lemma ZeroQuotient(w: Matrix, rows: nat, cols: nat, block: nat, i: nat, j: nat)
    requires Shaped(w, rows, cols) && block >= 1 && i < rows && j < cols && w[i][j] == 0.0
    ensures Quotient(w, rows, cols, block, i, j) == 0.0
    ensures Times(0.0, OwnScale(w, rows, cols, block, i, j)) == 0.0
  {
    hide TileAbsMax;
  }

  /** Quantising what the loader dequantised gives back the staged tensors exactly, both the e4m3
      weights and the scale grid: bf16 is finer than the gaps between e4m3 values. */
  lemma RequantIsExact(cast: real -> real, half: real -> real, w: Matrix, rows: nat, cols: nat, block: nat)
    requires RoundsToNearest(cast) && RoundsToBf16(half) && Shaped(w, rows, cols) && block >= 1 && IsBf16(half, w)
    ensures var w' := RoundTrip(cast, half, w, rows, cols, block);
            && QuantWeights(cast, w', rows, cols, block) == QuantWeights(cast, w, rows, cols, block)
            && ScaleGrid(w', rows, cols, block) == ScaleGrid(w, rows, cols, block)
  {
    hide TileAbsMax, RoundTrip, RoundsToNearest, RoundsToBf16, IsBf16;
    var w' := RoundTrip(cast, half, w, rows, cols, block);
    var g, g' := ScaleGrid(w, rows, cols, block), ScaleGrid(w', rows, cols, block);
    forall bi | 0 <= bi < |g| ensures g'[bi] == g[bi] {
      forall bj | 0 <= bj < |g[bi]| ensures g'[bi][bj] == g[bi][bj] {
        RoundTripKeepsScale(cast, half, w, rows, cols, block, bi, bj);
      }
    }
    var q, q' := QuantWeights(cast, w, rows, cols, block), QuantWeights(cast, w', rows, cols, block);
    forall i | 0 <= i < rows ensures q'[i] == q[i] {
      forall j | 0 <= j < cols ensures q'[i][j] == q[i][j] {
        RequantAt(cast, half, w, rows, cols, block, i, j);
      }
    }
  }

  lemma RequantAt(cast: real -> real, half: real -> real, w: Matrix, rows: nat, cols: nat, block: nat, i: nat, j: nat)
    requires RoundsToNearest(cast) && RoundsToBf16(half) && Shaped(w, rows, cols) && block >= 1 && IsBf16(half, w)
    requires i < rows && j < cols
    ensures cast(Quotient(RoundTrip(cast, half, w, rows, cols, block), rows, cols, block, i, j))
        == cast(Quotient(w, rows, cols, block, i, j))
  {
    hide TileAbsMax, RoundTrip, Times, RoundsToNearest, RoundsToBf16, IsBf16, E4M3;
    var w' := RoundTrip(cast, half, w, rows, cols, block);
    var x, x', s := Quotient(w, rows, cols, block, i, j), Quotient(w', rows, cols, block, i, j),
      OwnScale(w, rows, cols, block, i, j);
    RoundTripKeepsScale(cast, half, w, rows, cols, block, i / block, j / block);
    RoundTripAt(cast, half, w, rows, cols, block, i, j);
    QuotientInRange(w, rows, cols, block, i, j);
    QuotientInRange(w', rows, cols, block, i, j);
    CastAccuracy(cast, x);
    HalfOfProduct(half, cast(x), s);
    CastOfNear(cast, x', cast(x));
  }

  lemma HalfOfProduct(half: real -> real, c: real, s: real)
    requires RoundsToBf16(half) && s > 0.0
    ensures 256.0 * Abs(half(Times(c, s)) / s - c) <= Abs(c)
  {
    hide Times, RoundsToBf16;
    var y, z := Times(c, s), half(Times(c, s));
    var e := (z - y) / s;
    assert 256.0 * Abs(z - y) <= Abs(y) by { HalfAccuracy(half, y); }
    AbsQuotient(z - y, s);
    AbsTimes(c, s);
    CancelScale(256.0, Abs(e), Abs(c), s);
    QuotientMinus(z, y, s);
    TimesThenDivide(c, s);
  }

  lemma HalfAccuracy(half: real -> real, y: real)
    requires RoundsToBf16(half)
    ensures 256.0 * Abs(half(y) - y) <= Abs(y)
  {
    assert RoundsAt(half, y);
  }

  lemma QuotientMinus(x: real, y: real, s: real)
    requires s > 0.0
    ensures x / s - y / s == (x - y) / s
  {
  }

  lemma CancelScale(k: real, x: real, y: real, s: real)
    requires s > 0.0 && k * Times(x, s) <= Times(y, s)
    ensures k * x <= y
  {
    assert (y - k * x) * s == y * s - k * (x * s);
    assert (y - k * x) * s >= 0.0;
  }

  /** What is nearest to something that close to an e4m3 value is that value. */
  lemma CastOfNear(cast: real -> real, x: real, c: real)
    requires RoundsToNearest(cast) && Abs(x) <= E4M3_MAX && E4M3(c) && 256.0 * Abs(x - c) <= Abs(c)
    ensures cast(x) == c
  {
    hide E4M3;
    assert E4M3(cast(x)) && Abs(cast(x) - x) <= Abs(c - x);
    if c != 0.0 { GridGap(cast(x), c); }
  }
}
