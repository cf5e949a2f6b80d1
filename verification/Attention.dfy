/** Softmax attention over reals: the masked form that the references compute, and the plain
    average over the visible rows that it stands for. `exp` is any positive function. */
module Attention {
  import opened Reals
  import opened Vectors

  ghost predicate PositiveFunction(exp: real -> real)
  {
    forall x :: exp(x) > 0.0
  }

  function Dot(a: Vector, b: Vector): (d: real)
    requires |a| == |b|
  {
    if a == [] then 0.0 else Dot(a[..|a| - 1], b[..|b| - 1]) + Times(a[|a| - 1], b[|b| - 1])
  }

  // ---- the plain average ------------------------------------------------------------------

  function Largest(xs: Vector): (m: real)
    requires xs != []
    ensures m in xs && forall i :: 0 <= i < |xs| ==> xs[i] <= m
  {
    if |xs| == 1 then xs[0]
    else
      var m := Largest(xs[..|xs| - 1]);
      if xs[|xs| - 1] > m then xs[|xs| - 1] else m
  }

  function Exponentials(exp: real -> real, xs: Vector, shift: real): (w: Vector)
    ensures |w| == |xs| && forall i :: 0 <= i < |xs| ==> w[i] == exp(xs[i] - shift)
  {
    seq(|xs|, i requires 0 <= i < |xs| => exp(xs[i] - shift))
  }

  /** A value with its weight's share of the total. */
  function Portion(weight: real, total: real, x: real): (y: real)
    requires total != 0.0
  {
    weight / total * x
  }

  /** Column `c` of the weighted sum of `values`. */
  function Combine(weights: Vector, values: seq<Vector>, total: real, c: nat): (x: real)
    requires |weights| == |values| && total != 0.0 && forall i :: 0 <= i < |values| ==> c < |values[i]|
  {
    if weights == [] then 0.0
    else
      var e := |weights| - 1;
      Combine(weights[..e], values[..e], total, c) + Portion(weights[e], total, values[e][c])
  }

  ghost predicate Rows(values: seq<Vector>, width: nat)
  {
    forall i :: 0 <= i < |values| ==> |values[i]| == width
  }

  /** Softmax of the scores, averaged over the values: no mask, at least one row. */
  function SoftmaxAverage(exp: real -> real, xs: Vector, values: seq<Vector>, width: nat): (out: Vector)
    requires PositiveFunction(exp) && |xs| == |values| >= 1 && Rows(values, width)
    ensures |out| == width
  {
    var w := Exponentials(exp, xs, Largest(xs));
    SumPositive(w);
    seq(width, c requires 0 <= c < width => Combine(w, values, Sum(w), c))
  }

  // ---- what the average and the scores are ------------------------------------------------

  /** `u` and `v` added up row by row. */
  ghost predicate AddUp(u: seq<Vector>, v: seq<Vector>, sum: seq<Vector>, c: nat)
  {
    && |u| == |v| == |sum|
    && forall i :: 0 <= i < |u| ==> c < |u[i]| && c < |v[i]| && c < |sum[i]| && sum[i][c] == u[i][c] + v[i][c]
  }

  lemma {:induction false} CombineAdds(w: Vector, u: seq<Vector>, v: seq<Vector>, sum: seq<Vector>, total: real, c: nat)
    requires |w| == |u| && AddUp(u, v, sum, c) && total != 0.0
    ensures Combine(w, sum, total, c) == Combine(w, u, total, c) + Combine(w, v, total, c)
    decreases |w|
  {
    if w != [] {
      var e := |w| - 1;
      CombineAdds(w[..e], u[..e], v[..e], sum[..e], total, c);
      hide Portion;
      PortionAdds(w[e], total, u[e][c], v[e][c]);
    }
  }

  lemma PortionAdds(w: real, total: real, x: real, y: real)
    requires total != 0.0
    ensures Portion(w, total, x + y) == Portion(w, total, x) + Portion(w, total, y) && Portion(w, total, 0.0) == 0.0
  {
  }

  /** Column `c` is `x` in row `k` and zero everywhere else. */
  ghost predicate OnlyRow(values: seq<Vector>, c: nat, k: nat, x: real)
  {
    forall i :: 0 <= i < |values| ==> c < |values[i]| && values[i][c] == if i == k then x else 0.0
  }

  lemma {:induction false} CombineOnlyRow(w: Vector, values: seq<Vector>, total: real, c: nat, k: nat, x: real)
    requires |w| == |values| && total != 0.0 && OnlyRow(values, c, k, x)
    ensures Combine(w, values, total, c) == if k < |w| then Portion(w[k], total, x) else 0.0
    decreases |w|
  {
    if w != [] {
      var e := |w| - 1;
      CombineOnlyRow(w[..e], values[..e], total, c, k, x);
      hide Portion;
      PortionAdds(w[e], total, 0.0, 0.0);
    }
  }

  lemma SoftmaxAt(exp: real -> real, xs: Vector, values: seq<Vector>, width: nat, c: nat)
    requires PositiveFunction(exp) && |xs| == |values| >= 1 && Rows(values, width) && c < width
    ensures var w := Exponentials(exp, xs, Largest(xs));
            && Sum(w) > 0.0 && (forall i :: 0 <= i < |w| ==> w[i] > 0.0)
            && SoftmaxAverage(exp, xs, values, width)[c] == Combine(w, values, Sum(w), c)
  {
    hide Combine;
    SumPositive(Exponentials(exp, xs, Largest(xs)));
  }

  /** A row counts with its own share: exp(x_k - max) over the sum of all of them. */
  lemma SoftmaxOfOnlyRow(exp: real -> real, xs: Vector, values: seq<Vector>, width: nat, c: nat, k: nat, x: real)
    requires PositiveFunction(exp) && |xs| == |values| >= 1 && Rows(values, width) && c < width && k < |xs|
    requires OnlyRow(values, c, k, x)
    ensures var w := Exponentials(exp, xs, Largest(xs));
            && Sum(w) > 0.0
            && Times(Sum(w), SoftmaxAverage(exp, xs, values, width)[c]) == Times(exp(xs[k] - Largest(xs)), x)
  {
    hide Combine, SoftmaxAverage, Largest, Sum, Portion, Times;
    var w := Exponentials(exp, xs, Largest(xs));
    SoftmaxAt(exp, xs, values, width, c);
    CombineOnlyRow(w, values, Sum(w), c, k, x);
    PortionOfTotal(w[k], Sum(w), x);
  }

  /** The average of sums is the sum of the averages; with the shares of single rows this says all. */
  lemma SoftmaxAdds(exp: real -> real, xs: Vector, u: seq<Vector>, v: seq<Vector>, sum: seq<Vector>, width: nat, c: nat)
    requires PositiveFunction(exp) && |xs| == |u| >= 1 && c < width && AddUp(u, v, sum, c)
    requires Rows(u, width) && Rows(v, width) && Rows(sum, width)
    ensures SoftmaxAverage(exp, xs, sum, width)[c]
         == SoftmaxAverage(exp, xs, u, width)[c] + SoftmaxAverage(exp, xs, v, width)[c]
  {
    hide Combine, SoftmaxAverage, Largest, Sum;
    var w := Exponentials(exp, xs, Largest(xs));
    SoftmaxAt(exp, xs, u, width, c);
    SoftmaxAt(exp, xs, v, width, c);
    SoftmaxAt(exp, xs, sum, width, c);
    CombineAdds(w, u, v, sum, Sum(w), c);
  }

  lemma {:induction false} CombineBetween(w: Vector, values: seq<Vector>, total: real, c: nat, lo: real, hi: real)
    requires |w| == |values| && total > 0.0 && forall i :: 0 <= i < |w| ==> w[i] > 0.0
    requires forall i :: 0 <= i < |values| ==> c < |values[i]| && lo <= values[i][c] <= hi
    ensures Times(lo, Sum(w)) <= Times(total, Combine(w, values, total, c)) <= Times(hi, Sum(w))
    decreases |w|
  {
    if w != [] {
      var e := |w| - 1;
      CombineBetween(w[..e], values[..e], total, c, lo, hi);
      CombineLast(w, values, total, c);
      hide Combine, Sum, Times, Portion;
      BetweenOneMore(Sum(w[..e]), Combine(w[..e], values[..e], total, c), w[e], total, values[e][c], lo, hi);
    }
  }

  lemma BetweenOneMore(sum: real, y: real, w: real, total: real, x: real, lo: real, hi: real)
    requires total > 0.0 && w > 0.0 && lo <= x <= hi && Times(lo, sum) <= Times(total, y) <= Times(hi, sum)
    ensures Times(lo, sum + w) <= Times(total, y + Portion(w, total, x)) <= Times(hi, sum + w)
  {
    hide Times, Portion;
    PortionOfTotal(w, total, x);
    TimesAdds(total, y, Portion(w, total, x));
    TimesAdds(lo, sum, w);
    TimesAdds(hi, sum, w);
    TimesOrdered(w, lo, x);
    TimesOrdered(w, x, hi);
    TimesCommutes(w, lo);
    TimesCommutes(w, hi);
  }

  lemma PortionOfTotal(w: real, total: real, x: real)
    requires total != 0.0
    ensures Times(total, Portion(w, total, x)) == Times(w, x)
  {
    var b := w / total;
    assert b * total == w;
    assert total * (b * x) == b * total * x;
  }

  lemma CombineLast(w: Vector, values: seq<Vector>, total: real, c: nat)
    requires |w| == |values| && w != [] && total != 0.0 && forall i :: 0 <= i < |values| ==> c < |values[i]|
    ensures var e := |w| - 1;
            && Combine(w, values, total, c)
               == Combine(w[..e], values[..e], total, c) + Portion(w[e], total, values[e][c])
            && Sum(w) == Sum(w[..e]) + w[e]
  {
  }

  /** The average lies between the least and the greatest value of its column. */
  lemma SoftmaxBetween(exp: real -> real, xs: Vector, values: seq<Vector>, width: nat, c: nat, lo: real, hi: real)
    requires PositiveFunction(exp) && |xs| == |values| >= 1 && Rows(values, width) && c < width
    requires forall i :: 0 <= i < |values| ==> lo <= values[i][c] <= hi
    ensures lo <= SoftmaxAverage(exp, xs, values, width)[c] <= hi
  {
    hide Combine, SoftmaxAverage, Largest, Sum;
    var w := Exponentials(exp, xs, Largest(xs));
    SoftmaxAt(exp, xs, values, width, c);
    CombineBetween(w, values, Sum(w), c, lo, hi);
    Divided(Sum(w), lo, Combine(w, values, Sum(w), c), hi);
  }

  lemma Divided(total: real, lo: real, x: real, hi: real)
    requires total > 0.0 && Times(lo, total) <= Times(total, x) <= Times(hi, total)
    ensures lo <= x <= hi
  {
    assert x < lo ==> (lo - x) * total > 0.0;
    assert x > hi ==> (x - hi) * total > 0.0;
  }

  function Column(values: seq<Vector>, c: nat): (x: Vector)
    requires forall i :: 0 <= i < |values| ==> c < |values[i]|
    ensures |x| == |values|
  {
    seq(|values|, i requires 0 <= i < |values| => values[i][c])
  }

  lemma {:induction false} CombineEqual(w: Vector, values: seq<Vector>, total: real, c: nat, x: real)
    requires |w| == |values| && total != 0.0 && forall i :: 0 <= i < |values| ==> c < |values[i]| && w[i] == x
    ensures Combine(w, values, total, c) == Portion(x, total, Sum(Column(values, c)))
    ensures Sum(w) == Times(|w| as real, x)
    decreases |w|
  {
    if w != [] {
      var e := |w| - 1;
      CombineEqual(w[..e], values[..e], total, c, x);
      assert Column(values, c)[..e] == Column(values[..e], c);
      assert Sum(Column(values, c)) == Sum(Column(values[..e], c)) + values[e][c];
      hide Combine, Sum, Portion, Times;
      CombineLast(w, values, total, c);
      PortionAdds(x, total, Sum(Column(values[..e], c)), values[e][c]);
      assert |w| as real == e as real + 1.0;
      TimesAdds(x, e as real, 1.0);
      TimesOne(x);
      TimesCommutes(x, |w| as real);
      TimesCommutes(x, e as real);
    } else {
      CombineNothing(x, total);
    }
  }

  lemma CombineNothing(x: real, total: real)
    requires total != 0.0
    ensures Portion(x, total, 0.0) == 0.0 && Times(0.0, x) == 0.0
  {
  }

  /** Equal scores give the mean. */
  lemma EqualScoresGiveMean(exp: real -> real, xs: Vector, values: seq<Vector>, width: nat, c: nat)
    requires PositiveFunction(exp) && |xs| == |values| >= 1 && Rows(values, width) && c < width
    requires forall i :: 0 <= i < |xs| ==> xs[i] == xs[0]
    ensures SoftmaxAverage(exp, xs, values, width)[c] == Sum(Column(values, c)) / |values| as real
  {
    hide Combine, SoftmaxAverage, Largest, Sum;
    var w := Exponentials(exp, xs, Largest(xs));
    SoftmaxAt(exp, xs, values, width, c);
    CombineEqual(w, values, Sum(w), c, exp(xs[0] - Largest(xs)));
    EqualShares(exp(xs[0] - Largest(xs)), |w| as real, Sum(Column(values, c)));
  }

  lemma EqualShares(x: real, n: real, sum: real)
    requires x > 0.0 && n > 0.0
    ensures Times(n, x) > 0.0 && Portion(x, Times(n, x), sum) == sum / n
  {
    assert n * x > 0.0;
    assert x / (n * x) == 1.0 / n;
  }

  lemma {:induction false} DotAdds(a: Vector, b: Vector, sum: Vector, c: Vector)
    requires |a| == |b| == |sum| == |c| && forall i :: 0 <= i < |a| ==> sum[i] == a[i] + b[i]
    ensures Dot(sum, c) == Dot(a, c) + Dot(b, c) && Dot(c, sum) == Dot(c, a) + Dot(c, b)
    decreases |a|
  {
    if a != [] {
      var e := |a| - 1;
      DotAdds(a[..e], b[..e], sum[..e], c[..e]);
      hide Times;
      TimesAdds(c[e], a[e], b[e]);
      TimesCommutes(c[e], a[e]);
      TimesCommutes(c[e], b[e]);
      TimesCommutes(c[e], sum[e]);
    }
  }

  lemma {:induction false} DotScales(k: real, a: Vector, scaled: Vector, b: Vector)
    requires |a| == |scaled| == |b| && forall i :: 0 <= i < |a| ==> scaled[i] == Times(k, a[i])
    ensures Dot(scaled, b) == Times(k, Dot(a, b)) && Dot(b, scaled) == Times(k, Dot(b, a))
    decreases |a|
  {
    if a == [] {
      TimesCommutes(k, 0.0);
    } else {
      var e := |a| - 1;
      DotScales(k, a[..e], scaled[..e], b[..e]);
      hide Times;
      TimesAdds(k, Dot(a[..e], b[..e]), Times(a[e], b[e]));
      TimesAdds(k, Dot(b[..e], a[..e]), Times(b[e], a[e]));
      TimesAssociates(k, a[e], b[e]);
    }
  }

  /** Against a unit vector the product picks one entry. */
  lemma {:induction false} DotUnit(a: Vector, unit: Vector, k: nat)
    requires |a| == |unit| && forall i :: 0 <= i < |a| ==> unit[i] == if i == k then 1.0 else 0.0
    ensures Dot(a, unit) == if k < |a| then a[k] else 0.0
    decreases |a|
  {
    if a != [] {
      var e := |a| - 1;
      DotUnit(a[..e], unit[..e], k);
      assert Times(a[e], 1.0) == a[e] && Times(a[e], 0.0) == 0.0;
    }
  }

  // ---- the masked form --------------------------------------------------------------------

  /** A score, or the large negative constant that a mask puts in its place. */
  datatype Score = Real(x: real) | Masked

  /** Masked is below every real score. */
  function LargestScore(scores: seq<Score>): (m: Score)
    requires scores != []
  {
    var last := scores[|scores| - 1];
    if |scores| == 1 then last
    else
      var m := LargestScore(scores[..|scores| - 1]);
      if last.Real? && (m.Masked? || last.x > m.x) then last else m
  }

  /** exp(score - max): a masked score underflows to exactly zero unless every score is masked. */
  function Weight(exp: real -> real, score: Score, m: Score): (w: real)
  {
    match (score, m)
    case (Real(x), Real(y)) => exp(x - y)
    case (Masked, Real(_)) => 0.0
    case (_, Masked) => exp(0.0)
  }

  function Weights(exp: real -> real, scores: seq<Score>, m: Score): (w: Vector)
    ensures |w| == |scores| && forall i :: 0 <= i < |scores| ==> w[i] == Weight(exp, scores[i], m)
  {
    seq(|scores|, i requires 0 <= i < |scores| => Weight(exp, scores[i], m))
  }

  lemma {:induction false} WeightsSumPositive(exp: real -> real, scores: seq<Score>)
    requires PositiveFunction(exp) && scores != []
    ensures Sum(Weights(exp, scores, LargestScore(scores))) > 0.0
  {
    var m := LargestScore(scores);
    LargestScoreAttained(scores);
    var k :| 0 <= k < |scores| && scores[k] == m;
    SumWithPositive(Weights(exp, scores, m), k);
  }

  lemma {:induction false} LargestScoreAttained(scores: seq<Score>)
    requires scores != []
    ensures exists k :: 0 <= k < |scores| && scores[k] == LargestScore(scores)
    decreases |scores|
  {
    if |scores| > 1 {
      LargestScoreAttained(scores[..|scores| - 1]);
      var k :| 0 <= k < |scores| - 1 && scores[..|scores| - 1][k] == LargestScore(scores[..|scores| - 1]);
      assert scores[k] == scores[..|scores| - 1][k];
      assert scores[|scores| - 1] == LargestScore(scores) || scores[k] == LargestScore(scores);
    } else {
      assert scores[0] == LargestScore(scores);
    }
  }

  lemma {:induction false} SumWithPositive(v: Vector, k: nat)
    requires k < |v| && v[k] > 0.0 && forall i :: 0 <= i < |v| ==> v[i] >= 0.0
    ensures Sum(v) > 0.0
    decreases |v|
  {
    var init := v[..|v| - 1];
    if k < |init| {
      SumWithPositive(init, k);
    } else {
      SumNonNegative(init);
    }
  }

  /** What the references compute: mask, subtract the maximum, exponentiate, normalise, combine. */
  function MaskedAverage(exp: real -> real, scores: seq<Score>, values: seq<Vector>, width: nat): (out: Vector)
    requires PositiveFunction(exp) && |scores| == |values| >= 1 && Rows(values, width)
    ensures |out| == width
  {
    var w := Weights(exp, scores, LargestScore(scores));
    WeightsSumPositive(exp, scores);
    seq(width, c requires 0 <= c < width => Combine(w, values, Sum(w), c))
  }

  /** The first `visible` scores are real, the others masked. */
  function Mask(xs: Vector, visible: int): (scores: seq<Score>)
    ensures |scores| == |xs|
    ensures forall i :: 0 <= i < |xs| ==> scores[i] == if i < visible then Real(xs[i]) else Masked
  {
    seq(|xs|, i requires 0 <= i < |xs| => if i < visible then Real(xs[i]) else Masked)
  }

  lemma MaskSnoc(xs: Vector, visible: int)
    requires xs != []
    ensures var e := |xs| - 1; Mask(xs, visible)[..e] == Mask(xs[..e], visible)
  {
  }

  lemma {:induction false} LargestAllVisible(xs: Vector)
    requires xs != []
    ensures LargestScore(Mask(xs, |xs|)) == Real(Largest(xs))
    decreases |xs|
  {
    var e := |xs| - 1;
    if e > 0 {
      MaskSnoc(xs, |xs|);
      assert Mask(xs[..e], |xs|) == Mask(xs[..e], e);
      LargestAllVisible(xs[..e]);
    }
  }

  lemma {:induction false} LargestOfMask(xs: Vector, visible: nat)
    requires 1 <= visible <= |xs|
    ensures LargestScore(Mask(xs, visible)) == Real(Largest(xs[..visible]))
    decreases |xs|
  {
    if visible == |xs| {
      assert xs[..visible] == xs;
      LargestAllVisible(xs);
    } else {
      var e := |xs| - 1;
      MaskSnoc(xs, visible);
      LargestOfMask(xs[..e], visible);
      assert xs[..e][..visible] == xs[..visible];
    }
  }

  lemma {:induction false} SumZeroTail(w: Vector, k: nat)
    requires k <= |w| && forall i :: k <= i < |w| ==> w[i] == 0.0
    ensures Sum(w) == Sum(w[..k])
    decreases |w|
  {
    if k < |w| {
      SumZeroTail(w[..|w| - 1], k);
      assert w[..|w| - 1][..k] == w[..k];
    } else {
      assert w[..k] == w;
    }
  }

  lemma {:induction false} CombineZeroTail(w: Vector, values: seq<Vector>, total: real, c: nat, k: nat)
    requires |w| == |values| && total != 0.0 && (forall i :: 0 <= i < |values| ==> c < |values[i]|)
    requires k <= |w| && forall i :: k <= i < |w| ==> w[i] == 0.0
    ensures Combine(w, values, total, c) == Combine(w[..k], values[..k], total, c)
    decreases |w|
  {
    if k < |w| {
      var e := |w| - 1;
      CombineZeroTail(w[..e], values[..e], total, c, k);
      assert w[..e][..k] == w[..k] && values[..e][..k] == values[..k];
      assert 0.0 / total == 0.0;
    } else {
      assert w[..k] == w && values[..k] == values;
    }
  }

  lemma WeightsOfMask(exp: real -> real, xs: Vector, visible: nat)
    requires 1 <= visible <= |xs|
    ensures var w := Weights(exp, Mask(xs, visible), LargestScore(Mask(xs, visible)));
            && w[..visible] == Exponentials(exp, xs[..visible], Largest(xs[..visible]))
            && forall i :: visible <= i < |w| ==> w[i] == 0.0
  {
    hide LargestScore, Largest;
    LargestOfMask(xs, visible);
  }

  /** Masking is truncation: whatever lies behind the mask has no influence at all, as long as one
      row is visible. */
  lemma MaskIsTruncation(exp: real -> real, xs: Vector, values: seq<Vector>, width: nat, visible: nat)
    requires PositiveFunction(exp) && |xs| == |values| && Rows(values, width)
    requires 1 <= visible <= |xs|
    ensures MaskedAverage(exp, Mask(xs, visible), values, width)
        == SoftmaxAverage(exp, xs[..visible], values[..visible], width)
  {
    hide LargestScore, Largest, Weights, Exponentials, Mask;
    var scores := Mask(xs, visible);
    WeightsSumPositive(exp, scores);
    WeightsOfMask(exp, xs, visible);
    var w := Weights(exp, scores, LargestScore(scores));
    SumZeroTail(w, visible);
    var masked, plain := MaskedAverage(exp, scores, values, width),
      SoftmaxAverage(exp, xs[..visible], values[..visible], width);
    forall c | 0 <= c < width ensures masked[c] == plain[c] {
      CombineZeroTail(w, values, Sum(w), c, visible);
    }
  }

  lemma {:induction false} LargestAllMasked(xs: Vector, visible: int)
    requires xs != [] && visible <= 0
    ensures LargestScore(Mask(xs, visible)) == Masked
    decreases |xs|
  {
    if |xs| > 1 {
      LargestAllMasked(xs[..|xs| - 1], visible);
      MaskSnoc(xs, visible);
    }
  }

  /** With nothing visible the scores play no part: every row, padding included, weighs the same. */
  lemma NothingVisible(exp: real -> real, xs: Vector, ys: Vector, values: seq<Vector>, width: nat, visible: int)
    requires PositiveFunction(exp) && |xs| == |ys| == |values| >= 1 && Rows(values, width) && visible <= 0
    ensures MaskedAverage(exp, Mask(xs, visible), values, width) == MaskedAverage(exp, Mask(ys, visible), values, width)
    ensures forall i :: 0 <= i < |xs| ==>
        Weights(exp, Mask(xs, visible), LargestScore(Mask(xs, visible)))[i] == exp(0.0)
  {
    LargestAllMasked(xs, visible);
    LargestAllMasked(ys, visible);
    assert Mask(xs, visible) == Mask(ys, visible);
  }

  // ---- one query against many keys --------------------------------------------------------

  function Scores(keys: seq<Vector>, q: Vector, scale: real): (xs: Vector)
    requires Rows(keys, |q|)
    ensures |xs| == |keys| && forall i :: 0 <= i < |keys| ==> xs[i] == Dot(keys[i], q) * scale
  {
    seq(|keys|, i requires 0 <= i < |keys| => Dot(keys[i], q) * scale)
  }

  /** Plain attention of one query over all the given rows. */
  function Attend(exp: real -> real, q: Vector, keys: seq<Vector>, values: seq<Vector>, scale: real): (out: Vector)
    requires PositiveFunction(exp) && |keys| == |values| >= 1 && Rows(keys, |q|) && Rows(values, |q|)
    ensures |out| == |q|
  {
    SoftmaxAverage(exp, Scores(keys, q, scale), values, |q|)
  }

  /** The softmax average over the scaled products of the query with the keys. */
  lemma AttendIs(exp: real -> real, q: Vector, keys: seq<Vector>, values: seq<Vector>, scale: real, xs: Vector)
    requires PositiveFunction(exp) && |keys| == |values| == |xs| >= 1 && Rows(keys, |q|) && Rows(values, |q|)
    requires forall i :: 0 <= i < |keys| ==> xs[i] == Dot(keys[i], q) * scale
    ensures Attend(exp, q, keys, values, scale) == SoftmaxAverage(exp, xs, values, |q|)
  {
    hide SoftmaxAverage, Dot;
    assert xs == Scores(keys, q, scale);
  }

  /** The masked computation of one output row. */
  function MaskedAttend(exp: real -> real, q: Vector, keys: seq<Vector>, values: seq<Vector>, scale: real,
                        visible: int): (out: Vector)
    requires PositiveFunction(exp) && |keys| == |values| >= 1 && Rows(keys, |q|) && Rows(values, |q|)
    ensures |out| == |q|
  {
    MaskedAverage(exp, Mask(Scores(keys, q, scale), visible), values, |q|)
  }

  lemma MaskedAttendIsAttend(exp: real -> real, q: Vector, keys: seq<Vector>, values: seq<Vector>, scale: real,
                             visible: nat)
    requires PositiveFunction(exp) && |keys| == |values| && Rows(keys, |q|) && Rows(values, |q|)
    requires 1 <= visible <= |keys|
    ensures MaskedAttend(exp, q, keys, values, scale, visible)
        == Attend(exp, q, keys[..visible], values[..visible], scale)
  {
    hide MaskedAverage, SoftmaxAverage, Dot;
    ScoresPrefix(keys, q, scale, visible);
    MaskIsTruncation(exp, Scores(keys, q, scale), values, |q|, visible);
  }

  lemma ScoresPrefix(keys: seq<Vector>, q: Vector, scale: real, n: nat)
    requires Rows(keys, |q|) && n <= |keys|
    ensures Scores(keys, q, scale)[..n] == Scores(keys[..n], q, scale)
  {
    hide Dot;
    var xs, ys := Scores(keys, q, scale), Scores(keys[..n], q, scale);
    forall i | 0 <= i < n ensures xs[..n][i] == ys[i] {
      assert keys[..n][i] == keys[i];
    }
  }

  // ---- the dense reference ----------------------------------------------------------------

  type Tensor = seq<seq<Vector>>

  ghost predicate Shaped(t: Tensor, heads: nat, rows: nat, width: nat)
  {
    |t| == heads && forall h :: 0 <= h < heads ==> |t[h]| == rows && Rows(t[h], width)
  }

  function DenseHead(exp: real -> real, q: seq<Vector>, k: seq<Vector>, v: seq<Vector>, scale: real, causal: bool,
                     width: nat): (out: seq<Vector>)
    requires PositiveFunction(exp) && |k| == |v| >= 1 && Rows(q, width) && Rows(k, width) && Rows(v, width)
    ensures |out| == |q| && Rows(out, width)
  {
    seq(|q|, i requires 0 <= i < |q| => MaskedAttend(exp, q[i], k, v, scale, if causal then i + 1 else |k|))
  }

  /** All heads and all query rows at once. */
  function DenseReference(exp: real -> real, q: Tensor, k: Tensor, v: Tensor, scale: real, causal: bool, heads: nat,
                          seqQ: nat, seqK: nat, width: nat): (out: Tensor)
    requires PositiveFunction(exp) && Shaped(q, heads, seqQ, width) && Shaped(k, heads, seqK, width)
    requires Shaped(v, heads, seqK, width)
    requires seqK >= 1
    ensures Shaped(out, heads, seqQ, width)
  {
    seq(heads, h requires 0 <= h < heads => DenseHead(exp, q[h], k[h], v[h], scale, causal, width))
  }

  /** Row `i` of causal attention is plain attention over the first i + 1 keys; without the mask it
      is plain attention over all of them. */
  lemma DenseRow(exp: real -> real, q: seq<Vector>, k: seq<Vector>, v: seq<Vector>, scale: real, causal: bool,
                 width: nat, i: nat)
    requires PositiveFunction(exp) && |k| == |v| >= 1 && Rows(q, width) && Rows(k, width) && Rows(v, width) && i < |q|
    ensures var n := if causal && i + 1 < |k| then i + 1 else |k|;
            DenseHead(exp, q, k, v, scale, causal, width)[i] == Attend(exp, q[i], k[..n], v[..n], scale)
  {
    hide MaskedAverage, Attend, Dot;
    var n := if causal && i + 1 < |k| then i + 1 else |k|;
    var xs := Scores(k, q[i], scale);
    assert Mask(xs, if causal then i + 1 else |k|) == Mask(xs, n);
    MaskedAttendIsAttend(exp, q[i], k, v, scale, n);
  }
}
