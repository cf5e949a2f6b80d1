/** Rank-based AUROC with tie correction, and what it means: the share of (positive, negative)
    pairs that the scores order correctly, ties counted as one half. */
module Auroc {
  import opened Prelude

  datatype Observation = Observation(score: real, hit: bool)

  // ---- the quadratic meaning --------------------------------------------------------------

  /** The value of one comparison: `a` is beaten by `b`, tied with it, or neither. */
  function Beaten(a: real, b: real): (v: real)
  {
    if a < b then 1.0 else if a == b then 0.5 else 0.0
  }

  function CountBeaten(ys: seq<real>, x: real): (v: real)
    ensures 0.0 <= v <= |ys| as real
  {
    if ys == [] then 0.0 else CountBeaten(ys[..|ys| - 1], x) + Beaten(ys[|ys| - 1], x)
  }

  /** Over all pairs (x, y): one for every y below x, one half for every tie. */
  function Pairs(xs: seq<real>, ys: seq<real>): (v: real)
  {
    if xs == [] then 0.0 else Pairs(xs[..|xs| - 1], ys) + CountBeaten(ys, xs[|xs| - 1])
  }

  function Scores(obs: seq<Observation>, hit: bool): (xs: seq<real>)
    ensures |xs| <= |obs|
  {
    if obs == [] then []
    else
      var last := obs[|obs| - 1];
      Scores(obs[..|obs| - 1], hit) + if last.hit == hit then [last.score] else []
  }

  function AllScores(obs: seq<Observation>): (xs: seq<real>)
    ensures |xs| == |obs|
  {
    seq(|obs|, i requires 0 <= i < |obs| => obs[i].score)
  }

  lemma ProductPositive(m: nat, n: nat)
    requires m > 0 && n > 0
    ensures m * n > 0
  {
  }

  /** How many (positive, negative) pairs there are. */
  function PairCount(pos: seq<real>, neg: seq<real>): (n: real)
    requires pos != [] && neg != []
    ensures n > 0.0
  {
    ProductPositive(|pos|, |neg|);
    (|pos| * |neg|) as real
  }

  /** The probability that a random positive outscores a random negative. */
  function PairwiseAuroc(obs: seq<Observation>): (v: Option<real>)
  {
    var pos, neg := Scores(obs, true), Scores(obs, false);
    if pos == [] || neg == [] then None
    else Some(Pairs(pos, neg) / PairCount(pos, neg))
  }

  // ---- counting pairs ---------------------------------------------------------------------

  lemma {:induction false} CountBeatenAppend(ys: seq<real>, zs: seq<real>, x: real)
    ensures CountBeaten(ys + zs, x) == CountBeaten(ys, x) + CountBeaten(zs, x)
    decreases |zs|
  {
    if zs == [] {
      assert ys + zs == ys;
    } else {
      assert (ys + zs)[..|ys + zs| - 1] == ys + zs[..|zs| - 1];
      CountBeatenAppend(ys, zs[..|zs| - 1], x);
    }
  }

  lemma {:induction false} PairsSnoc(xs: seq<real>, ys: seq<real>, y: real)
    ensures Pairs(xs, ys + [y]) + CountBeaten(xs, y) == Pairs(xs, ys) + |xs| as real
    decreases |xs|
  {
    if xs != [] {
      PairsSnoc(xs[..|xs| - 1], ys, y);
      assert (ys + [y])[..|ys|] == ys;
    }
  }

  /** Every pair is won by one side or shared, so the two directions make up all pairs. */
  lemma {:induction false} PairsBothWays(xs: seq<real>, ys: seq<real>)
    ensures Pairs(xs, ys) + Pairs(ys, xs) == (|xs| * |ys|) as real
    decreases |ys|
  {
    if ys == [] {
      PairsNone(xs);
    } else {
      var init, y := ys[..|ys| - 1], ys[|ys| - 1];
      assert ys == init + [y];
      PairsBothWays(xs, init);
      PairsSnoc(xs, init, y);
      assert |xs| * |ys| == |xs| * |init| + |xs|;
    }
  }

  lemma {:induction false} PairsNone(xs: seq<real>)
    ensures Pairs(xs, []) == 0.0
    decreases |xs|
  {
    if xs != [] { PairsNone(xs[..|xs| - 1]); }
  }

  lemma {:induction false} PairsSplit(xs: seq<real>, obs: seq<Observation>)
    ensures Pairs(xs, AllScores(obs)) == Pairs(xs, Scores(obs, true)) + Pairs(xs, Scores(obs, false))
    decreases |xs|
  {
    if xs != [] {
      PairsSplit(xs[..|xs| - 1], obs);
      CountBeatenSplit(obs, xs[|xs| - 1]);
    }
  }

  lemma {:induction false} CountBeatenSplit(obs: seq<Observation>, x: real)
    ensures CountBeaten(AllScores(obs), x) == CountBeaten(Scores(obs, true), x) + CountBeaten(Scores(obs, false), x)
    decreases |obs|
  {
    if obs != [] {
      var init, last := obs[..|obs| - 1], obs[|obs| - 1];
      CountBeatenSplit(init, x);
      assert AllScores(obs)[..|init|] == AllScores(init);
      CountBeatenAppend(Scores(init, last.hit), [last.score], x);
      assert Scores(init, !last.hit) + [] == Scores(init, !last.hit);
      assert [last.score][..0] == [];
    }
  }

  // ---- ranks ------------------------------------------------------------------------------

  ghost predicate Sorted(obs: seq<Observation>)
  {
    forall i, j :: 0 <= i < j < |obs| ==> obs[i].score <= obs[j].score
  }

  /** The tie-averaged 1-based rank of position `k`. */
  function Rank(obs: seq<Observation>, k: nat): (r: real)
    requires k < |obs|
  {
    CountBeaten(AllScores(obs), obs[k].score) + 0.5
  }

  /** `i..j` is a whole tie group of a sorted list. */
  ghost predicate TieGroup(obs: seq<Observation>, i: nat, j: nat)
  {
    && i <= j < |obs|
    && (forall k :: 0 <= k < i ==> obs[k].score < obs[i].score)
    && (forall k :: i <= k <= j ==> obs[k].score == obs[i].score)
    && (forall k :: j < k < |obs| ==> obs[k].score > obs[i].score)
  }

  lemma {:induction false} CountBeatenInGroup(obs: seq<Observation>, i: nat, j: nat, m: nat)
    requires TieGroup(obs, i, j) && m <= |obs|
    ensures CountBeaten(AllScores(obs)[..m], obs[i].score)
         == if m <= i then m as real else if m <= j + 1 then i as real + (m - i) as real / 2.0
           else i as real + (j + 1 - i) as real / 2.0
    decreases m
  {
    if m > 0 {
      CountBeatenInGroup(obs, i, j, m - 1);
      assert AllScores(obs)[..m][..m - 1] == AllScores(obs)[..m - 1];
      assert AllScores(obs)[..m][m - 1] == obs[m - 1].score;
    }
  }

  /** The average of the first and last position of a tie group is the rank of each member. */
  lemma GroupRank(obs: seq<Observation>, i: nat, j: nat, k: nat)
    requires TieGroup(obs, i, j) && i <= k <= j
    ensures Rank(obs, k) == (i + j) as real / 2.0 + 1.0
  {
    CountBeatenInGroup(obs, i, j, |obs|);
    assert AllScores(obs)[..|obs|] == AllScores(obs);
  }

  function RankSum(obs: seq<Observation>, m: nat): (s: real)
    requires m <= |obs|
  {
    if m == 0 then 0.0 else RankSum(obs, m - 1) + if obs[m - 1].hit then Rank(obs, m - 1) else 0.0
  }

  lemma {:induction false} RankSumIsPairs(obs: seq<Observation>, m: nat)
    requires m <= |obs|
    ensures var pos := Scores(obs[..m], true); RankSum(obs, m) == Pairs(pos, AllScores(obs)) + |pos| as real / 2.0
    decreases m
  {
    if m > 0 {
      RankSumIsPairs(obs, m - 1);
      ScoresOfPrefix(obs, m);
      var init, x := Scores(obs[..m - 1], true), obs[m - 1].score;
      PairsLast(init, x, AllScores(obs));
      hide Scores, Pairs, CountBeaten, AllScores;
      assert (|init| + 1) as real == |init| as real + 1.0;
    }
  }

  lemma ScoresOfPrefix(obs: seq<Observation>, m: nat)
    requires 0 < m <= |obs|
    ensures var init := Scores(obs[..m - 1], true);
            Scores(obs[..m], true) == if obs[m - 1].hit then init + [obs[m - 1].score] else init
  {
    assert obs[..m][..m - 1] == obs[..m - 1];
    assert Scores(obs[..m - 1], true) + [] == Scores(obs[..m - 1], true);
  }

  lemma PairsLast(xs: seq<real>, x: real, ys: seq<real>)
    ensures Pairs(xs + [x], ys) == Pairs(xs, ys) + CountBeaten(ys, x)
  {
    assert (xs + [x])[..|xs|] == xs;
  }

  /** Taking the positives' own ranks off the rank sum leaves the pairs against the negatives. */
  lemma RankSumMinusOwn(obs: seq<Observation>)
    ensures var pos, neg := Scores(obs, true), Scores(obs, false);
            RankSum(obs, |obs|) - (|pos| * (|pos| + 1)) as real / 2.0 == Pairs(pos, neg)
  {
    var pos := Scores(obs, true);
    assert obs[..|obs|] == obs;
    RankSumIsPairs(obs, |obs|);
    PairsSplit(pos, obs);
    PairsBothWays(pos, pos);
    assert |pos| * (|pos| + 1) == |pos| * |pos| + |pos|;
  }

  // ---- input order ------------------------------------------------------------------------

  lemma {:induction false} CountBeatenPermuted(ys: seq<real>, zs: seq<real>, x: real)
    requires multiset(ys) == multiset(zs)
    ensures CountBeaten(ys, x) == CountBeaten(zs, x)
    decreases |ys|
  {
    if ys == [] {
      assert |multiset(zs)| == 0;
    } else {
      var init, y := ys[..|ys| - 1], ys[|ys| - 1];
      assert ys == init + [y];
      assert y in multiset(zs);
      var i :| 0 <= i < |zs| && zs[i] == y;
      WithoutOne(ys, zs, i);
      CountBeatenPermuted(init, zs[..i] + zs[i + 1..], x);
      CountBeatenWithout(zs, i, x);
    }
  }

  lemma WithoutOne(ys: seq<real>, zs: seq<real>, i: nat)
    requires multiset(ys) == multiset(zs) && ys != [] && i < |zs| && zs[i] == ys[|ys| - 1]
    ensures multiset(ys[..|ys| - 1]) == multiset(zs[..i] + zs[i + 1..])
  {
    var init, y := ys[..|ys| - 1], ys[|ys| - 1];
    assert ys == init + [y] + [] && init + [] == init;
    assert zs == zs[..i] + [y] + zs[i + 1..];
    WithInserted(init, [], y);
    WithInserted(zs[..i], zs[i + 1..], y);
    CancelOne(multiset(init), multiset(zs[..i] + zs[i + 1..]), y);
  }

  lemma WithInserted(a: seq<real>, b: seq<real>, y: real)
    ensures multiset(a + [y] + b) == multiset(a + b) + multiset{y}
  {
  }

  lemma CancelOne(a: multiset<real>, b: multiset<real>, y: real)
    requires a + multiset{y} == b + multiset{y}
    ensures a == b
  {
    assert a == a + multiset{y} - multiset{y};
  }

  lemma CountBeatenWithout(zs: seq<real>, i: nat, x: real)
    requires i < |zs|
    ensures CountBeaten(zs, x) == CountBeaten(zs[..i] + zs[i + 1..], x) + Beaten(zs[i], x)
  {
    assert zs == zs[..i] + ([zs[i]] + zs[i + 1..]);
    CountBeatenAppend(zs[..i], [zs[i]] + zs[i + 1..], x);
    CountBeatenAppend([zs[i]], zs[i + 1..], x);
    CountBeatenAppend(zs[..i], zs[i + 1..], x);
    assert [zs[i]][..0] == [];
  }

  lemma {:induction false} PairsPermutedRight(xs: seq<real>, ys: seq<real>, zs: seq<real>)
    requires multiset(ys) == multiset(zs)
    ensures Pairs(xs, ys) == Pairs(xs, zs)
    decreases |xs|
  {
    if xs != [] {
      PairsPermutedRight(xs[..|xs| - 1], ys, zs);
      CountBeatenPermuted(ys, zs, xs[|xs| - 1]);
    }
  }

  lemma PairsPermuted(xs: seq<real>, xs': seq<real>, ys: seq<real>, ys': seq<real>)
    requires multiset(xs) == multiset(xs') && multiset(ys) == multiset(ys')
    ensures Pairs(xs, ys) == Pairs(xs', ys')
  {
    assert |xs| == |multiset(xs)| == |xs'|;
    PairsPermutedRight(xs, ys, ys');
    PairsPermutedRight(ys', xs, xs');
    PairsBothWays(xs, ys');
    PairsBothWays(xs', ys');
  }

  lemma {:induction false} ScoresMultiset(obs: seq<Observation>, hit: bool, x: real)
    ensures multiset(Scores(obs, hit))[x] == multiset(obs)[Observation(x, hit)]
    decreases |obs|
  {
    if obs != [] {
      var init := obs[..|obs| - 1];
      ScoresMultiset(init, hit, x);
      assert obs == init + [obs[|obs| - 1]];
    }
  }

  lemma ScoresPermuted(a: seq<Observation>, b: seq<Observation>, hit: bool)
    requires multiset(a) == multiset(b)
    ensures multiset(Scores(a, hit)) == multiset(Scores(b, hit)) && |Scores(a, hit)| == |Scores(b, hit)|
  {
    forall x
      ensures multiset(Scores(a, hit))[x] == multiset(Scores(b, hit))[x]
    {
      ScoresMultiset(a, hit, x);
      ScoresMultiset(b, hit, x);
    }
    assert |Scores(a, hit)| == |multiset(Scores(a, hit))|;
  }

  /** AUROC ignores the order of the observations. */
  lemma AurocIgnoresOrder(a: seq<Observation>, b: seq<Observation>)
    requires multiset(a) == multiset(b)
    ensures PairwiseAuroc(a) == PairwiseAuroc(b)
  {
    ScoresPermuted(a, b, true);
    ScoresPermuted(a, b, false);
    PairsPermuted(Scores(a, true), Scores(b, true), Scores(a, false), Scores(b, false));
  }

  // ---- the meaning as numbers of pairs ----------------------------------------------------

  ghost function WhereHit(obs: seq<Observation>, hit: bool): (places: set<nat>)
  {
    set i: nat | i < |obs| && obs[i].hit == hit
  }

  /** Pairs of a hit and a miss that it outscores. */
  ghost function Won(obs: seq<Observation>): (pairs: set<(nat, nat)>)
  {
    set i: nat, j: nat | i < |obs| && j < |obs| && obs[i].hit && !obs[j].hit && obs[i].score > obs[j].score :: (i, j)
  }

  /** Pairs of a hit and a miss with its score. */
  ghost function Drawn(obs: seq<Observation>): (pairs: set<(nat, nat)>)
  {
    set i: nat, j: nat | i < |obs| && j < |obs| && obs[i].hit && !obs[j].hit && obs[i].score == obs[j].score :: (i, j)
  }

  predicate Above(x: real, y: real) { x > y }
  predicate Level(x: real, y: real) { x == y }

  /** Misses among the first `m` observations that `x` compares to in this way. */
  ghost function Misses(obs: seq<Observation>, m: nat, rel: (real, real) -> bool, x: real): (places: set<nat>)
    requires m <= |obs|
  {
    set j: nat | j < m && !obs[j].hit && rel(x, obs[j].score)
  }

  /** Pairs of a hit among the first `m` observations and a miss that it compares to in this way. */
  ghost function Compared(obs: seq<Observation>, m: nat, rel: (real, real) -> bool): (pairs: set<(nat, nat)>)
    requires m <= |obs|
  {
    set i: nat, j: nat | i < m && obs[i].hit && j in Misses(obs, |obs|, rel, obs[i].score) :: (i, j)
  }

  lemma MissesStep(obs: seq<Observation>, m: nat, rel: (real, real) -> bool, x: real)
    requires 0 < m <= |obs|
    ensures |Misses(obs, m, rel, x)|
         == |Misses(obs, m - 1, rel, x)| + if !obs[m - 1].hit && rel(x, obs[m - 1].score) then 1 else 0
    ensures |Misses(obs, 0, rel, x)| == 0
  {
    var e := m - 1;
    assert Misses(obs, 0, rel, x) == {};
    assert Misses(obs, m, rel, x) == Misses(obs, e, rel, x) + if !obs[e].hit && rel(x, obs[e].score) then {e} else {};
  }

  lemma {:induction false} CountBeatenCounts(obs: seq<Observation>, m: nat, x: real)
    requires m <= |obs|
    ensures CountBeaten(Scores(obs[..m], false), x)
         == |Misses(obs, m, Above, x)| as real + |Misses(obs, m, Level, x)| as real / 2.0
    decreases m
  {
    if m == 0 {
      assert Misses(obs, 0, Above, x) == {} && Misses(obs, 0, Level, x) == {};
    } else {
      hide Misses, Scores, CountBeaten;
      CountBeatenCounts(obs, m - 1, x);
      MissesStep(obs, m, Above, x);
      MissesStep(obs, m, Level, x);
      BeatenStep(obs, m, x);
    }
  }

  lemma BeatenStep(obs: seq<Observation>, m: nat, x: real)
    requires 0 < m <= |obs|
    ensures var o := obs[m - 1];
            CountBeaten(Scores(obs[..m], false), x)
            == CountBeaten(Scores(obs[..m - 1], false), x)
               + if o.hit then 0.0 else if o.score < x then 1.0 else if o.score == x then 0.5 else 0.0
  {
    var e := m - 1;
    assert obs[..m][..e] == obs[..e];
    assert Scores(obs[..e], false) + [] == Scores(obs[..e], false);
    CountBeatenAppend(Scores(obs[..e], false), [obs[e].score], x);
    assert [obs[e].score][..0] == [];
  }

  ghost function From(i: nat, places: set<nat>): (pairs: set<(nat, nat)>)
  {
    set j | j in places :: (i, j)
  }

  lemma {:induction false} AsManyPairs(i: nat, places: set<nat>)
    ensures |From(i, places)| == |places|
    decreases |places|
  {
    if places != {} {
      var x :| x in places;
      AsManyPairs(i, places - {x});
      assert From(i, places) == From(i, places - {x}) + {(i, x)};
    }
  }

  /** One more observation: if it is a hit, it brings the misses that it compares to. */
  lemma ComparedStep(obs: seq<Observation>, m: nat, rel: (real, real) -> bool)
    requires 0 < m <= |obs|
    ensures |Compared(obs, m, rel)|
         == |Compared(obs, m - 1, rel)| + if obs[m - 1].hit then |Misses(obs, |obs|, rel, obs[m - 1].score)| else 0
    ensures |Compared(obs, 0, rel)| == 0
  {
    hide Misses;
    var e := m - 1;
    var less, own := Compared(obs, e, rel), Misses(obs, |obs|, rel, obs[e].score);
    assert Compared(obs, 0, rel) == {};
    if obs[e].hit {
      AsManyPairs(e, own);
      assert less !! From(e, own);
      assert Compared(obs, m, rel) == less + From(e, own);
    } else {
      assert Compared(obs, m, rel) == less;
    }
  }

  lemma {:induction false} PairsAreCounted(obs: seq<Observation>, m: nat)
    requires m <= |obs|
    ensures Pairs(Scores(obs[..m], true), Scores(obs, false))
         == |Compared(obs, m, Above)| as real + |Compared(obs, m, Level)| as real / 2.0
    decreases m
  {
    hide CountBeaten, Misses;
    if m == 0 {
      assert Compared(obs, 0, Above) == {} && Compared(obs, 0, Level) == {};
    } else {
      hide Compared, Scores, Pairs;
      PairsAreCounted(obs, m - 1);
      ComparedStep(obs, m, Above);
      ComparedStep(obs, m, Level);
      ScoresOfPrefix(obs, m);
      PairsLast(Scores(obs[..m - 1], true), obs[m - 1].score, Scores(obs, false));
      CountBeatenCounts(obs, |obs|, obs[m - 1].score);
      assert obs[..|obs|] == obs;
    }
  }

  lemma {:induction false} ScoresAreCounted(obs: seq<Observation>, hit: bool)
    ensures |Scores(obs, hit)| == |WhereHit(obs, hit)|
    decreases |obs|
  {
    if obs == [] {
      assert WhereHit(obs, hit) == {};
    } else {
      var e := |obs| - 1;
      ScoresAreCounted(obs[..e], hit);
      assert WhereHit(obs, hit) == WhereHit(obs[..e], hit) + if obs[e].hit == hit then {e} else {};
    }
  }

  lemma WonAndDrawn(obs: seq<Observation>)
    ensures Won(obs) == Compared(obs, |obs|, Above) && Drawn(obs) == Compared(obs, |obs|, Level)
  {
  }

  /** Counted out: of all pairs of a hit and a miss, those that the hit wins and half of those that are
      drawn; none without a hit or without a miss. */
  lemma AurocCounts(obs: seq<Observation>)
    ensures var hits, misses := |WhereHit(obs, true)|, |WhereHit(obs, false)|;
            && (PairwiseAuroc(obs).Some? <==> hits > 0 && misses > 0)
            && (PairwiseAuroc(obs).Some? ==>
                PairwiseAuroc(obs).value * (hits * misses) as real
                == |Won(obs)| as real + |Drawn(obs)| as real / 2.0)
  {
    WonAndDrawn(obs);
    hide Won, Drawn, WhereHit, Pairs, Scores, Compared;
    ScoresAreCounted(obs, true);
    ScoresAreCounted(obs, false);
    PairsAreCounted(obs, |obs|);
    assert obs[..|obs|] == obs;
    var pos, neg := Scores(obs, true), Scores(obs, false);
    if pos != [] && neg != [] {
      ShareTimesCount(Pairs(pos, neg), PairCount(pos, neg));
    }
  }

  lemma ShareTimesCount(x: real, n: real)
    requires n > 0.0
    ensures x / n * n == x
  {
  }

  /** It is 1 exactly if every hit is above every miss. */
  lemma AurocOne(obs: seq<Observation>)
    requires PairwiseAuroc(obs).Some?
    ensures PairwiseAuroc(obs).value == 1.0
       <==> forall i: nat, j: nat :: i < |obs| && j < |obs| && obs[i].hit && !obs[j].hit ==> obs[i].score > obs[j].score
  {
    AurocCounts(obs);
    PairsSplitUp(obs);
    NoneDrawnOrLost(obs);
    hide Won, Drawn, Lost, WhereHit, PairwiseAuroc;
    ProductPositive(|WhereHit(obs, true)|, |WhereHit(obs, false)|);
    OnlyWins(PairwiseAuroc(obs).value, |Won(obs)|, |Drawn(obs)|, |Lost(obs)|,
             |WhereHit(obs, true)| * |WhereHit(obs, false)|);
  }

  lemma OnlyWins(v: real, won: nat, drawn: nat, lost: nat, all: nat)
    requires all == won + drawn + lost && all > 0 && v * all as real == won as real + drawn as real / 2.0
    ensures v == 1.0 <==> drawn == 0 && lost == 0
  {
    OneIfWhole(v, all as real);
    assert all as real == won as real + drawn as real + lost as real;
    assert drawn as real >= 0.0 && lost as real >= 0.0;
    assert (drawn > 0 ==> drawn as real >= 1.0) && (lost > 0 ==> lost as real >= 1.0);
  }

  lemma OneIfWhole(v: real, n: real)
    requires n > 0.0
    ensures v == 1.0 <==> v * n == n
  {
    if v < 1.0 {
      assert (1.0 - v) * n > 0.0;
    } else if v > 1.0 {
      assert (v - 1.0) * n > 0.0;
    }
  }

  ghost function Lost(obs: seq<Observation>): (pairs: set<(nat, nat)>)
  {
    set i: nat, j: nat | i < |obs| && j < |obs| && obs[i].hit && !obs[j].hit && obs[i].score < obs[j].score :: (i, j)
  }

  ghost function Across(a: set<nat>, b: set<nat>): (pairs: set<(nat, nat)>)
  {
    set i, j | i in a && j in b :: (i, j)
  }

  lemma {:induction false} AllPairs(a: set<nat>, b: set<nat>)
    ensures |Across(a, b)| == |a| * |b|
    decreases |a|
  {
    if a == {} {
      assert Across(a, b) == {};
    } else {
      var x :| x in a;
      AllPairs(a - {x}, b);
      AsManyPairs(x, b);
      AcrossStep(a, b, x);
      assert |a| * |b| == (|a| - 1) * |b| + |b|;
    }
  }

  lemma AcrossStep(a: set<nat>, b: set<nat>, x: nat)
    requires x in a
    ensures |Across(a, b)| == |Across(a - {x}, b)| + |From(x, b)|
  {
    var less, own := Across(a - {x}, b), From(x, b);
    assert less !! own;
    assert Across(a, b) == less + own;
  }

  /** Every pair of a hit and a miss is won, drawn or lost. */
  lemma PairsSplitUp(obs: seq<Observation>)
    ensures |WhereHit(obs, true)| * |WhereHit(obs, false)| == |Won(obs)| + |Drawn(obs)| + |Lost(obs)|
  {
    var hits, misses := WhereHit(obs, true), WhereHit(obs, false);
    AllPairs(hits, misses);
    var won, drawn, lost := Won(obs), Drawn(obs), Lost(obs);
    assert won !! drawn && won !! lost && drawn !! lost;
    assert Across(hits, misses) == won + drawn + lost;
  }

  lemma NoneDrawnOrLost(obs: seq<Observation>)
    ensures |Drawn(obs)| == 0 && |Lost(obs)| == 0
       <==> forall i: nat, j: nat :: i < |obs| && j < |obs| && obs[i].hit && !obs[j].hit ==> obs[i].score > obs[j].score
  {
    var drawn, lost := Drawn(obs), Lost(obs);
    forall i: nat, j: nat | i < |obs| && j < |obs| && obs[i].hit && !obs[j].hit
      ensures obs[i].score > obs[j].score <==> (i, j) !in drawn && (i, j) !in lost
    {
    }
    assert |drawn| == 0 <==> drawn == {};
    assert |lost| == 0 <==> lost == {};
  }

  // ---- range and symmetry -----------------------------------------------------------------

  lemma {:induction false} PairsNonNegative(xs: seq<real>, ys: seq<real>)
    ensures Pairs(xs, ys) >= 0.0
    decreases |xs|
  {
    if xs != [] { PairsNonNegative(xs[..|xs| - 1], ys); }
  }

  lemma QuotientInUnitInterval(a: real, n: real)
    requires 0.0 <= a <= n && n > 0.0
    ensures 0.0 <= a / n <= 1.0
  {
    assert a / n * n == a;
  }

  lemma QuotientsMakeOne(a: real, b: real, n: real)
    requires a + b == n && n > 0.0
    ensures b / n == 1.0 - a / n
  {
    assert a / n + b / n == (a + b) / n;
  }

  lemma AurocInUnitInterval(obs: seq<Observation>)
    ensures var v := PairwiseAuroc(obs); v.Some? ==> 0.0 <= v.value <= 1.0
  {
    var pos, neg := Scores(obs, true), Scores(obs, false);
    PairsNonNegative(pos, neg);
    PairsNonNegative(neg, pos);
    PairsBothWays(pos, neg);
    if pos != [] && neg != [] {
      QuotientInUnitInterval(Pairs(pos, neg), PairCount(pos, neg));
    }
  }

  function Flipped(obs: seq<Observation>): (f: seq<Observation>)
    ensures |f| == |obs|
  {
    seq(|obs|, i requires 0 <= i < |obs| => Observation(obs[i].score, !obs[i].hit))
  }

  lemma {:induction false} ScoresFlipped(obs: seq<Observation>, hit: bool)
    ensures Scores(Flipped(obs), hit) == Scores(obs, !hit)
    decreases |obs|
  {
    if obs != [] {
      ScoresFlipped(obs[..|obs| - 1], hit);
      assert Flipped(obs)[..|obs| - 1] == Flipped(obs[..|obs| - 1]);
    }
  }

  lemma ShareOfOtherSide(pos: seq<real>, neg: seq<real>)
    requires pos != [] && neg != []
    ensures Pairs(neg, pos) / PairCount(neg, pos) == 1.0 - Pairs(pos, neg) / PairCount(pos, neg)
  {
    PairsBothWays(pos, neg);
    assert |pos| * |neg| == |neg| * |pos|;
    QuotientsMakeOne(Pairs(pos, neg), Pairs(neg, pos), PairCount(pos, neg));
  }

  /** Swapping the two classes turns x into 1 - x. */
  lemma AurocOfFlippedLabels(obs: seq<Observation>)
    ensures PairwiseAuroc(Flipped(obs)) == match PairwiseAuroc(obs) case None => None case Some(x) => Some(1.0 - x)
  {
    var pos, neg := Scores(obs, true), Scores(obs, false);
    ScoresFlipped(obs, true);
    ScoresFlipped(obs, false);
    if pos != [] && neg != [] {
      ShareOfOtherSide(pos, neg);
    }
  }

  /** Only the order of the scores matters: any strictly increasing rescaling gives the same value. */
  lemma AurocIsRankBased(obs: seq<Observation>, rescaled: seq<Observation>, f: real -> real)
    requires |rescaled| == |obs|
    requires forall i :: 0 <= i < |obs| ==> rescaled[i] == Observation(f(obs[i].score), obs[i].hit)
    requires forall a, b :: a < b ==> f(a) < f(b)
    ensures PairwiseAuroc(rescaled) == PairwiseAuroc(obs)
  {
    ScoresRescaled(obs, rescaled, f, true);
    ScoresRescaled(obs, rescaled, f, false);
    PairsRescaled(Scores(obs, true), Scores(obs, false), Scores(rescaled, true), Scores(rescaled, false), f);
  }

  ghost predicate Image(xs: seq<real>, fs: seq<real>, f: real -> real)
  {
    |fs| == |xs| && forall i :: 0 <= i < |xs| ==> fs[i] == f(xs[i])
  }

  lemma {:induction false} ScoresRescaled(obs: seq<Observation>, rescaled: seq<Observation>, f: real -> real, hit: bool)
    requires |rescaled| == |obs|
    requires forall i :: 0 <= i < |obs| ==> rescaled[i] == Observation(f(obs[i].score), obs[i].hit)
    ensures Image(Scores(obs, hit), Scores(rescaled, hit), f)
    decreases |obs|
  {
    if obs != [] { ScoresRescaled(obs[..|obs| - 1], rescaled[..|obs| - 1], f, hit); }
  }

  lemma {:induction false} PairsRescaled(xs: seq<real>, ys: seq<real>, fxs: seq<real>, fys: seq<real>, f: real -> real)
    requires Image(xs, fxs, f) && Image(ys, fys, f)
    requires forall a, b :: a < b ==> f(a) < f(b)
    ensures Pairs(fxs, fys) == Pairs(xs, ys)
    decreases |xs|
  {
    if xs != [] {
      PairsRescaled(xs[..|xs| - 1], ys, fxs[..|xs| - 1], fys, f);
      CountBeatenRescaled(ys, fys, xs[|xs| - 1], f);
    }
  }

  lemma {:induction false} CountBeatenRescaled(ys: seq<real>, fys: seq<real>, x: real, f: real -> real)
    requires Image(ys, fys, f)
    requires forall a, b :: a < b ==> f(a) < f(b)
    ensures CountBeaten(fys, f(x)) == CountBeaten(ys, x)
    decreases |ys|
  {
    if ys != [] { CountBeatenRescaled(ys[..|ys| - 1], fys[..|ys| - 1], x, f); }
  }

  // ---- the program ------------------------------------------------------------------------

  function Ordered(obs: seq<Observation>): (ordered: seq<Observation>)
    ensures Sorted(ordered) && multiset(ordered) == multiset(obs)
  {
    SortBy((a: Observation, b: Observation) => a.score <= b.score, obs)
  }

  /** Walks the tie groups of a sorted list and gives every position its group's average rank. */
  method TieRanks(ordered: seq<Observation>) returns (ranks: map<nat, real>)
    requires Sorted(ordered)
    ensures forall k :: 0 <= k < |ordered| ==> k in ranks && ranks[k] == Rank(ordered, k)
  {
    ranks := map[];
    var i := 0;
    while i < |ordered|
      invariant 0 <= i <= |ordered|
      invariant 0 < i < |ordered| ==> ordered[i - 1].score < ordered[i].score
      invariant forall k :: 0 <= k < i ==> k in ranks && ranks[k] == Rank(ordered, k)
    {
      var j := i;
      while j + 1 < |ordered| && ordered[j + 1].score == ordered[i].score
        invariant i <= j < |ordered|
        invariant forall k :: i <= k <= j ==> ordered[k].score == ordered[i].score
      {
        j := j + 1;
      }
      assert TieGroup(ordered, i, j);
      var avgRank := (i + j) as real / 2.0 + 1.0;
      for k := i to j + 1
        invariant forall q :: 0 <= q < k ==> q in ranks && ranks[q] == Rank(ordered, q)
      {
        GroupRank(ordered, i, j, k);
        ranks := ranks[k := avgRank];
      }
      i := j + 1;
    }
  }

  lemma SortedRankSum(obs: seq<Observation>, ordered: seq<Observation>)
    requires multiset(ordered) == multiset(obs)
    ensures var pos, neg := Scores(obs, true), Scores(obs, false);
            RankSum(ordered, |ordered|) - (|pos| * (|pos| + 1)) as real / 2.0 == Pairs(pos, neg)
  {
    RankSumMinusOwn(ordered);
    ScoresPermuted(obs, ordered, true);
    ScoresPermuted(obs, ordered, false);
    PairsPermuted(Scores(obs, true), Scores(ordered, true), Scores(obs, false), Scores(ordered, false));
  }

  method SumHitRanks(ordered: seq<Observation>, ranks: map<nat, real>) returns (sum: real)
    requires forall k :: 0 <= k < |ordered| ==> k in ranks && ranks[k] == Rank(ordered, k)
    ensures sum == RankSum(ordered, |ordered|)
  {
    hide Rank;
    sum := 0.0;
    for idx := 0 to |ordered|
      invariant sum == RankSum(ordered, idx)
    {
      if ordered[idx].hit {
        sum := sum + ranks[idx];
      }
    }
  }

  /** The tie-corrected rank-sum AUROC is the pairwise one. */
  method ComputeAuroc(observations: seq<Observation>) returns (v: Option<real>)
    ensures v == PairwiseAuroc(observations)
    ensures var hits, misses := |WhereHit(observations, true)|, |WhereHit(observations, false)|;
            && (v.Some? <==> hits > 0 && misses > 0)
            && (v.Some? ==>
                v.value * (hits * misses) as real == |Won(observations)| as real + |Drawn(observations)| as real / 2.0)
  {
    AurocCounts(observations);
    hide Won, Drawn, WhereHit;
    var pos, neg := Scores(observations, true), Scores(observations, false);
    if pos == [] || neg == [] {
      return None;
    }
    var ordered := Ordered(observations);
    var ranks := TieRanks(ordered);
    var rankSumPos := SumHitRanks(ordered, ranks);
    var nPos, nNeg := |pos|, |neg|;
    var numerator := rankSumPos - (nPos * (nPos + 1)) as real / 2.0;
    assert numerator == Pairs(pos, neg) by { SortedRankSum(observations, ordered); }
    ProductPositive(nPos, nNeg);
    return Some(numerator / (nPos * nNeg) as real);
  }
}
