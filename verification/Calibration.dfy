/** Binned calibration error: equal-width bins over [0, 1], the gap between confidence and accuracy
    in each, and what their weighted sum says about the whole. */
module Calibration {
  import opened Auroc
  import opened Reals
  import opened Vectors

  /** Bins are closed on the left; the last one is closed on the right too. */
  predicate InBin(p: real, b: int, numBins: int)
    requires numBins >= 1
  {
    var lo, hi := b as real / numBins as real, (b + 1) as real / numBins as real;
    lo <= p < hi || (b == numBins - 1 && p == hi)
  }

  function Bucket(obs: seq<Observation>, b: int, numBins: int): (bucket: seq<Observation>)
    requires numBins >= 1
    ensures |bucket| <= |obs|
  {
    if obs == [] then []
    else
      var last := obs[|obs| - 1];
      Bucket(obs[..|obs| - 1], b, numBins) + if InBin(last.score, b, numBins) then [last] else []
  }

  function Hits(obs: seq<Observation>): (k: nat)
    ensures k <= |obs|
  {
    if obs == [] then 0 else Hits(obs[..|obs| - 1]) + if obs[|obs| - 1].hit then 1 else 0
  }

  function Confidences(obs: seq<Observation>): (s: real)
  {
    if obs == [] then 0.0 else Confidences(obs[..|obs| - 1]) + obs[|obs| - 1].score
  }

  function Mean(sum: real, n: nat): (m: real)
    requires n > 0
  {
    sum / n as real
  }

  /** By how much the confidences add up to more than the hits. */
  function Overconfidence(obs: seq<Observation>): (x: real)
  {
    Confidences(obs) - Hits(obs) as real
  }

  // ---- the bins partition [0, 1] ----------------------------------------------------------

  /** The bin of a confidence. */
  function BinOf(p: real, numBins: int): (b: int)
    requires numBins >= 1
  {
    if p == 1.0 then numBins - 1 else Times(p, numBins as real).Floor
  }

  lemma InBinScaled(p: real, b: int, numBins: int)
    requires numBins >= 1
    ensures InBin(p, b, numBins) <==> ScaledInBin(Times(p, numBins as real), b, numBins)
  {
    hide Times;
    var n := numBins as real;
    QuotientOrder(p, b as real, n);
    QuotientOrder(p, (b + 1) as real, n);
  }

  predicate ScaledInBin(y: real, b: int, numBins: int)
  {
    b as real <= y < (b + 1) as real || (b == numBins - 1 && y == (b + 1) as real)
  }

  lemma QuotientOrder(p: real, x: real, n: real)
    requires n > 0.0
    ensures (x / n <= p <==> x <= Times(p, n)) && (p == x / n <==> Times(p, n) == x)
  {
    var q := x / n;
    assert q * n == x;
    if q <= p { assert q * n <= p * n; } else { assert q * n > p * n; }
  }

  /** Every confidence from 0 to 1 is in exactly one bin, and no other number is in any. */
  lemma BinsPartition(p: real, b: int, numBins: int)
    requires numBins >= 1 && 0 <= b < numBins
    ensures InBin(p, b, numBins) <==> 0.0 <= p <= 1.0 && b == BinOf(p, numBins)
    ensures InBin(p, b, numBins) <==>
              b as real <= Times(p, numBins as real) < (b + 1) as real || (p == 1.0 && b == numBins - 1)
    ensures 0.0 <= p <= 1.0 ==> 0 <= BinOf(p, numBins) < numBins
  {
    hide InBin, Times;
    InBinScaled(p, b, numBins);
    UnitScaled(p, numBins as real);
    OnlyOneBin(Times(p, numBins as real), b, numBins);
  }

  lemma OnlyOneBin(y: real, b: int, numBins: int)
    requires numBins >= 1 && 0 <= b < numBins
    ensures ScaledInBin(y, b, numBins)
       <==> 0.0 <= y <= numBins as real && b == if y == numBins as real then numBins - 1 else y.Floor
    ensures 0.0 <= y < numBins as real ==> 0 <= y.Floor < numBins
  {
    assert y.Floor as real <= y < (y.Floor + 1) as real;
  }

  lemma UnitScaled(p: real, n: real)
    requires n > 0.0
    ensures (Times(p, n) == n <==> p == 1.0) && (0.0 <= p <==> 0.0 <= Times(p, n)) && (p <= 1.0 <==> Times(p, n) <= n)
  {
    if p < 1.0 { assert p * n < 1.0 * n; }
    if p > 1.0 { assert p * n > 1.0 * n; }
  }

  // ---- adding up over bins ----------------------------------------------------------------

  function Total(w: Observation -> real, obs: seq<Observation>): (s: real)
  {
    if obs == [] then 0.0 else Total(w, obs[..|obs| - 1]) + w(obs[|obs| - 1])
  }

  function BinTotals(w: Observation -> real, obs: seq<Observation>, k: nat, numBins: int): (s: real)
    requires numBins >= 1
  {
    if k == 0 then 0.0 else BinTotals(w, obs, k - 1, numBins) + Total(w, Bucket(obs, k - 1, numBins))
  }

  ghost predicate InUnit(obs: seq<Observation>)
  {
    forall i :: 0 <= i < |obs| ==> 0.0 <= obs[i].score <= 1.0
  }

  lemma TotalSnoc(w: Observation -> real, obs: seq<Observation>, o: Observation)
    ensures Total(w, obs + [o]) == Total(w, obs) + w(o)
  {
  }

  lemma BucketSnoc(obs: seq<Observation>, o: Observation, b: int, numBins: int)
    requires numBins >= 1
    ensures Bucket(obs + [o], b, numBins) == if InBin(o.score, b, numBins) then Bucket(obs, b, numBins) + [o]
        else Bucket(obs, b, numBins)
  {
    hide InBin;
    assert (obs + [o])[..|obs|] == obs;
    assert Bucket(obs, b, numBins) + [] == Bucket(obs, b, numBins);
  }

  /** One more observation adds to the first `k` bins exactly if its own is one of them. */
  lemma {:induction false} BinTotalsSnoc(w: Observation -> real, obs: seq<Observation>, o: Observation, k: nat,
                                         numBins: int)
    requires numBins >= 1 && k <= numBins && 0.0 <= o.score <= 1.0
    ensures BinTotals(w, obs + [o], k, numBins)
         == BinTotals(w, obs, k, numBins) + if BinOf(o.score, numBins) < k then w(o) else 0.0
    decreases k
  {
    hide InBin, BinOf, Total, Bucket;
    if k == 0 {
      BinsPartition(o.score, 0, numBins);
    } else {
      BinTotalsSnoc(w, obs, o, k - 1, numBins);
      BinsPartition(o.score, k - 1, numBins);
      BucketSnoc(obs, o, k - 1, numBins);
      TotalSnoc(w, Bucket(obs, k - 1, numBins), o);
    }
  }

  lemma {:induction false} BinTotalsAll(w: Observation -> real, obs: seq<Observation>, numBins: int)
    requires numBins >= 1 && InUnit(obs)
    ensures BinTotals(w, obs, numBins, numBins) == Total(w, obs)
    decreases |obs|
  {
    if obs == [] {
      NothingInBins(w, numBins, numBins);
    } else {
      hide InBin, BinOf, BinTotals;
      var init, last := obs[..|obs| - 1], obs[|obs| - 1];
      assert obs == init + [last];
      BinTotalsAll(w, init, numBins);
      BinTotalsSnoc(w, init, last, numBins, numBins);
      BinsPartition(last.score, 0, numBins);
    }
  }

  lemma {:induction false} NothingInBins(w: Observation -> real, k: nat, numBins: int)
    requires numBins >= 1
    ensures BinTotals(w, [], k, numBins) == 0.0
    decreases k
  {
    if k > 0 { NothingInBins(w, k - 1, numBins); }
  }

  // ---- the error --------------------------------------------------------------------------

  function Signed(o: Observation): (x: real) { o.score - if o.hit then 1.0 else 0.0 }
  function One(o: Observation): (x: real) { 1.0 }

  /** The unsigned gaps of the first `k` bins, as counts of observations. */
  function Gaps(obs: seq<Observation>, k: nat, numBins: int): (g: real)
    requires numBins >= 1
  {
    if k == 0 then 0.0 else Gaps(obs, k - 1, numBins) + Abs(Overconfidence(Bucket(obs, k - 1, numBins)))
  }

  /** The calibration error: the share of observations by which the bins are off, each in its own
      direction. */
  function Ece(obs: seq<Observation>, numBins: int): (e: real)
  {
    if obs == [] || numBins <= 0 then 0.0 else Mean(Gaps(obs, numBins, numBins), |obs|)
  }

  /** What an observation adds to bin `b` of the error: its confidence, less one if it is a hit. */
  ghost predicate IsShare(o: Observation, b: int, numBins: int, x: real)
    requires numBins >= 1
  {
    x == if b as real <= Times(o.score, numBins as real) < (b + 1) as real || (o.score == 1.0 && b == numBins - 1)
         then o.score - (if o.hit then 1.0 else 0.0) else 0.0
  }

  /** Row `b` of `shares` is what the observations add to bin `b`. The error is the sum of the unsigned sums of
      these rows, over the number of observations; without observations or bins it is zero. */
  lemma EceIs(obs: seq<Observation>, numBins: int, shares: seq<Vector>, gaps: Vector)
    requires |shares| == |gaps| == if numBins >= 1 then numBins else 0
    requires forall b :: 0 <= b < |shares| ==> |shares[b]| == |obs| && gaps[b] == Abs(Sum(shares[b]))
    requires forall b, i :: 0 <= b < |shares| && 0 <= i < |obs| ==> IsShare(obs[i], b, numBins, shares[b][i])
    ensures Times(Ece(obs, numBins), |obs| as real) == Sum(gaps)
    ensures obs == [] ==> Ece(obs, numBins) == 0.0
  {
    hide InBin, Bucket, Overconfidence, Abs, IsShare, Gaps;
    if numBins >= 1 {
      GapsAre(obs, numBins, numBins, shares, gaps);
      assert gaps[..numBins] == gaps;
    }
    if obs == [] {
      forall b | 0 <= b < |gaps| ensures gaps[b] == 0.0 { assert shares[b] == []; ZeroAbs(); }
      SumOfZeros(gaps);
    } else if numBins >= 1 {
      MeanTimes(Gaps(obs, numBins, numBins), |obs|);
    }
  }

  lemma MeanTimes(x: real, n: nat)
    requires n > 0
    ensures Times(Mean(x, n), n as real) == x
  {
  }

  lemma ZeroAbs()
    ensures Abs(Sum([])) == 0.0
  {
  }

  lemma {:induction false} SumOfZeros(v: Vector)
    requires forall i :: 0 <= i < |v| ==> v[i] == 0.0
    ensures Sum(v) == 0.0
    decreases |v|
  {
    if v != [] { SumOfZeros(v[..|v| - 1]); }
  }

  lemma {:induction false} GapsAre(obs: seq<Observation>, k: nat, numBins: int, shares: seq<Vector>, gaps: Vector)
    requires numBins >= 1 && k <= |shares| == |gaps| <= numBins
    requires forall b :: 0 <= b < |shares| ==> |shares[b]| == |obs| && gaps[b] == Abs(Sum(shares[b]))
    requires forall b, i :: 0 <= b < |shares| && 0 <= i < |obs| ==> IsShare(obs[i], b, numBins, shares[b][i])
    ensures Gaps(obs, k, numBins) == Sum(gaps[..k])
    decreases k
  {
    hide Bucket, Overconfidence, Abs, IsShare;
    if k > 0 {
      GapsAre(obs, k - 1, numBins, shares, gaps);
      SharesAddUp(obs, k - 1, numBins, shares[k - 1]);
      assert gaps[..k][..k - 1] == gaps[..k - 1];
    }
  }

  lemma {:induction false} SharesAddUp(obs: seq<Observation>, b: nat, numBins: int, shares: Vector)
    requires numBins >= 1 && b < numBins && |shares| == |obs|
    requires forall i :: 0 <= i < |obs| ==> IsShare(obs[i], b, numBins, shares[i])
    ensures Overconfidence(Bucket(obs, b, numBins)) == Sum(shares)
    decreases |obs|
  {
    hide InBin, IsShare;
    if obs != [] {
      var init, last := obs[..|obs| - 1], obs[|obs| - 1];
      SharesAddUp(init, b, numBins, shares[..|obs| - 1]);
      ShareOf(last, b, numBins, shares[|obs| - 1]);
      OverconfidenceSnoc(Bucket(init, b, numBins), last);
      BucketSnoc(init, last, b, numBins);
      assert obs == init + [last] && Sum(shares) == Sum(shares[..|obs| - 1]) + shares[|obs| - 1];
    }
  }

  lemma ShareOf(o: Observation, b: nat, numBins: int, x: real)
    requires numBins >= 1 && b < numBins && IsShare(o, b, numBins, x)
    ensures x == if InBin(o.score, b, numBins) then Signed(o) else 0.0
  {
    BinsPartition(o.score, b, numBins);
    hide InBin, Times;
  }

  lemma OverconfidenceSnoc(obs: seq<Observation>, o: Observation)
    ensures Overconfidence(obs + [o]) == Overconfidence(obs) + Signed(o)
  {
  }

  lemma BinShare(len: real, total: real, confidences: real, hits: real)
    requires len > 0.0 && total > 0.0
    ensures len / total * Abs(confidences / len - hits / len) == Abs(confidences - hits) / total
  {
    var d := confidences / len - hits / len;
    var x := confidences - hits;
    assert d * len == x;
    assert Abs(d) * len == Abs(x);
    assert len / total * Abs(d) == Abs(d) * len / total;
  }

  method ExpectedCalibrationError(observations: seq<Observation>, numBins: int) returns (ece: real)
    ensures ece == Ece(observations, numBins)
  {
    if observations == [] {
      return 0.0;
    }
    var total := |observations|;
    ece := 0.0;
    var b := 0;
    while b < numBins
      invariant 0 <= b && (numBins >= 1 ==> b <= numBins)
      invariant ece == if numBins >= 1 then Mean(Gaps(observations, b, numBins), total) else 0.0
    {
      hide Bucket, Abs, Confidences, Hits, Mean, Overconfidence;
      var bucket := Bucket(observations, b, numBins);
      if bucket != [] {
        ece := ece + WeightedGap(bucket, total);
      }
      EmptyGap();
      MeanOfSum(Gaps(observations, b, numBins), Abs(Overconfidence(bucket)), total);
      b := b + 1;
    }
  }

  /** The weighted gap between mean confidence and accuracy of one bin. */
  function WeightedGap(bucket: seq<Observation>, total: nat): (g: real)
    requires bucket != [] && total > 0
    ensures g == Mean(Abs(Overconfidence(bucket)), total)
  {
    var meanConf := Mean(Confidences(bucket), |bucket|);
    var accuracy := Mean(Hits(bucket) as real, |bucket|);
    BinShare(|bucket| as real, total as real, Confidences(bucket), Hits(bucket) as real);
    |bucket| as real / total as real * Abs(meanConf - accuracy)
  }

  lemma EmptyGap()
    ensures Abs(Overconfidence([])) == 0.0
  {
  }

  lemma MeanOfSum(x: real, y: real, n: nat)
    requires n > 0
    ensures Mean(x + y, n) == Mean(x, n) + Mean(y, n) && Mean(0.0, n) == 0.0
  {
  }

  lemma {:induction false} OverconfidenceIsTotal(obs: seq<Observation>)
    ensures Overconfidence(obs) == Total(Signed, obs)
    decreases |obs|
  {
    if obs != [] { OverconfidenceIsTotal(obs[..|obs| - 1]); }
  }

  lemma {:induction false} LengthIsTotal(obs: seq<Observation>)
    ensures |obs| as real == Total(One, obs)
    decreases |obs|
  {
    if obs != [] { LengthIsTotal(obs[..|obs| - 1]); }
  }

  lemma {:induction false} BucketInUnit(obs: seq<Observation>, b: int, numBins: int)
    requires numBins >= 1 && InUnit(obs)
    ensures InUnit(Bucket(obs, b, numBins))
    decreases |obs|
  {
    if obs != [] { BucketInUnit(obs[..|obs| - 1], b, numBins); }
  }

  /** Confidence and accuracy are both between nothing and everything. */
  lemma {:induction false} OverconfidenceBounded(obs: seq<Observation>)
    requires InUnit(obs)
    ensures Abs(Overconfidence(obs)) <= |obs| as real
    decreases |obs|
  {
    if obs != [] { OverconfidenceBounded(obs[..|obs| - 1]); }
  }

  lemma {:induction false} GapsBetween(obs: seq<Observation>, k: nat, numBins: int)
    requires numBins >= 1 && k <= numBins && InUnit(obs)
    ensures Abs(BinTotals(Signed, obs, k, numBins)) <= Gaps(obs, k, numBins) <= BinTotals(One, obs, k, numBins)
    decreases k
  {
    if k > 0 {
      GapsBetween(obs, k - 1, numBins);
      BucketGap(obs, k - 1, numBins);
      hide Abs, Bucket, Overconfidence, Total, InUnit;
      AbsAdds(BinTotals(Signed, obs, k - 1, numBins), Overconfidence(Bucket(obs, k - 1, numBins)));
    }
  }

  lemma BucketGap(obs: seq<Observation>, b: int, numBins: int)
    requires numBins >= 1 && InUnit(obs)
    ensures var bucket := Bucket(obs, b, numBins);
            && Overconfidence(bucket) == Total(Signed, bucket)
            && Abs(Overconfidence(bucket)) <= Total(One, bucket)
  {
    hide Abs, Bucket, Overconfidence, Total, InUnit;
    var bucket := Bucket(obs, b, numBins);
    OverconfidenceIsTotal(bucket);
    LengthIsTotal(bucket);
    BucketInUnit(obs, b, numBins);
    OverconfidenceBounded(bucket);
  }

  lemma AbsAdds(x: real, y: real)
    ensures Abs(x + y) <= Abs(x) + Abs(y)
  {
  }

  lemma GapsOfAll(obs: seq<Observation>, numBins: int)
    requires numBins >= 1 && InUnit(obs)
    ensures Abs(Overconfidence(obs)) <= Gaps(obs, numBins, numBins) <= |obs| as real
  {
    hide Overconfidence, Abs, BinTotals, Total, Gaps;
    GapsBetween(obs, numBins, numBins);
    BinTotalsAll(Signed, obs, numBins);
    BinTotalsAll(One, obs, numBins);
    OverconfidenceIsTotal(obs);
    LengthIsTotal(obs);
  }

  /** With confidences in [0, 1], the error lies between the overall gap and one, whatever the bins. */
  lemma EceBetween(obs: seq<Observation>, numBins: int)
    requires obs != [] && numBins >= 1 && InUnit(obs)
    ensures Abs(Mean(Confidences(obs), |obs|) - Mean(Hits(obs) as real, |obs|)) <= Ece(obs, numBins) <= 1.0
  {
    hide Overconfidence, Abs, Mean, Gaps, Confidences, Hits, InUnit;
    GapsOfAll(obs, numBins);
    GapOfObservations(obs);
    MeanMonotone(Abs(Overconfidence(obs)), Gaps(obs, numBins, numBins), |obs|);
  }

  lemma GapOfObservations(obs: seq<Observation>)
    requires obs != []
    ensures Abs(Mean(Confidences(obs), |obs|) - Mean(Hits(obs) as real, |obs|)) == Mean(Abs(Overconfidence(obs)), |obs|)
  {
    hide Abs, Mean, Confidences, Hits;
    GapOfMeans(|obs|, Confidences(obs), Hits(obs) as real);
  }

  lemma GapOfMeans(n: nat, confidences: real, hits: real)
    requires n > 0
    ensures Abs(Mean(confidences, n) - Mean(hits, n)) == Mean(Abs(confidences - hits), n)
  {
    var x := Mean(confidences - hits, n);
    assert Mean(confidences, n) - Mean(hits, n) == x;
    assert confidences < hits ==> x < 0.0 && -x == Mean(hits - confidences, n);
    assert confidences >= hits ==> x >= 0.0;
  }

  lemma MeanMonotone(x: real, y: real, n: nat)
    requires n > 0 && x <= y <= n as real
    ensures Mean(x, n) <= Mean(y, n) <= 1.0
  {
    QuotientOrder(Mean(y, n), y, n as real);
    QuotientOrder(Mean(y, n), x, n as real);
    QuotientOrder(1.0, y, n as real);
  }
}
