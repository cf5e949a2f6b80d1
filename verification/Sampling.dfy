/** Rejection sampling: what the accept test and the residual draw emit together, when that is the
    target's own distribution, and what whole runs of the speculative loop then emit. */
module Sampling {
  import opened GreedyTrajectory
  import opened Reals
  import Speculative
  import opened Vectors

  /** The floor under a draft probability and under the residual mass. */
  const FLOOR := 0.00000001

  ghost predicate Distribution(p: Vector)
  {
    p != [] && (forall x :: 0 <= x < |p| ==> p[x] >= 0.0) && Sum(p) == 1.0
  }

  // ---- one position -----------------------------------------------------------------------

  /** The chance that a proposed token with these target and draft probabilities is accepted. */
  function AcceptProb(p: real, q: real): (a: real)
  {
    Min(p / Max(q, FLOOR), 1.0)
  }

  /** For each token, the chance that it is proposed and accepted. */
  function Accepted(p: Vector, q: Vector): (a: Vector)
    requires |p| == |q|
    ensures |a| == |p|
  {
    seq(|p|, x requires 0 <= x < |p| => Times(q[x], AcceptProb(p[x], q[x])))
  }

  /** How far the target is above the draft. */
  function Excess(p: Vector, q: Vector): (e: Vector)
    requires |p| == |q|
    ensures |e| == |p|
  {
    seq(|p|, x requires 0 <= x < |p| => Max(p[x] - q[x], 0.0))
  }

  /** What a rejection draws from: the normalised excess, or the target when hardly any is left. */
  function Residual(p: Vector, q: Vector): (r: Vector)
    requires |p| == |q|
    ensures |r| == |p|
  {
    var kept := if Sum(Excess(p, q)) <= FLOOR then p else Excess(p, q);
    seq(|p|, x requires 0 <= x < |p| => kept[x] / Max(Sum(kept), FLOOR))
  }

  /** For each token, the chance that it is drawn on a rejection. */
  function RejectWeight(p: Vector, q: Vector): (w: Vector)
    requires |p| == |q|
    ensures |w| == |p|
  {
    var rejected, r := 1.0 - Sum(Accepted(p, q)), Residual(p, q);
    seq(|p|, x requires 0 <= x < |p| => Times(rejected, r[x]))
  }

  /** The law of the token that a position emits: proposed and accepted, or drawn on rejection. */
  function Emitted(p: Vector, q: Vector): (e: Vector)
    requires |p| == |q|
    ensures |e| == |p|
  {
    var a, w := Accepted(p, q), RejectWeight(p, q);
    seq(|p|, x requires 0 <= x < |p| => a[x] + w[x])
  }

  // ---- what the floor costs ---------------------------------------------------------------

  /** Both probabilities are below the floor, so the floored ratio is too small. */
  predicate Tiny(p: real, q: real)
  {
    0.0 < p < FLOOR && 0.0 < q < FLOOR
  }

  /** Acceptance that the floor takes away from a token. */
  function Loss(p: Vector, q: Vector): (l: Vector)
    requires |p| == |q|
    ensures |l| == |p|
  {
    seq(|p|, x requires 0 <= x < |p| => Min(p[x], q[x]) - Times(q[x], AcceptProb(p[x], q[x])))
  }

  function Common(p: Vector, q: Vector): (c: Vector)
    requires |p| == |q|
    ensures |c| == |p|
  {
    seq(|p|, x requires 0 <= x < |p| => Min(p[x], q[x]))
  }

  lemma AcceptedIsCommon(p: real, q: real)
    requires p >= 0.0 && q >= 0.0
    ensures 0.0 <= Times(q, AcceptProb(p, q)) <= Min(p, q)
    ensures Times(q, AcceptProb(p, q)) == Min(p, q) <==> !(0.0 < p < 0.00000001 && 0.0 < q < 0.00000001)
    ensures Min(p, q) - Times(q, AcceptProb(p, q)) <= 0.00000001
  {
    var m := Max(q, FLOOR);
    var ratio := p / m;
    assert ratio * m == p && ratio >= 0.0;
    if q >= FLOOR {
      RatioTimes(ratio, q);
    } else if p >= FLOOR {
      assert ratio >= 1.0;
    } else {
      FloorLoses(p, q, ratio);
    }
  }

  /** The chance spelled out: the ratio of the two probabilities, at most one, with the draft's raised to
      1e-8 where it is below that. */
  lemma AcceptSpelledOut(p: real, q: real)
    requires p >= 0.0 && q >= 0.0
    ensures q >= 0.00000001 ==> Times(AcceptProb(p, q), q) == if p <= q then p else q
    ensures q < 0.00000001 ==> Times(AcceptProb(p, q), 0.00000001) == if p <= 0.00000001 then p else 0.00000001
  {
    var m := Max(q, FLOOR);
    var ratio := p / m;
    assert ratio * m == p;
    RatioTimes(ratio, m);
    TimesCommutes(m, AcceptProb(p, q));
  }

  lemma FloorLoses(p: real, q: real, ratio: real)
    requires 0.0 <= p < FLOOR && 0.0 <= q < FLOOR && ratio * FLOOR == p
    ensures 0.0 <= ratio < 1.0 && 0.0 <= Times(q, ratio) <= p && Times(q, ratio) <= q
    ensures p > 0.0 && q > 0.0 ==> Times(q, ratio) < p && Times(q, ratio) < q
    ensures p == 0.0 || q == 0.0 ==> Times(q, ratio) == 0.0
  {
    assert Times(q, ratio) <= q && (q > 0.0 ==> Times(q, ratio) < q) by {
      Smaller(q, ratio, 1.0);
      TimesOne(q);
    }
    assert Times(q, ratio) == Times(ratio, q);
    assert Times(ratio, q) <= p && (p > 0.0 ==> Times(ratio, q) < p) by { Smaller(ratio, q, FLOOR); }
  }

  lemma Smaller(x: real, y: real, z: real)
    requires x >= 0.0 && 0.0 <= y < z
    ensures 0.0 <= Times(x, y) <= Times(x, z) && (x > 0.0 ==> Times(x, y) < Times(x, z))
  {
  }

  lemma RatioTimes(ratio: real, q: real)
    requires q > 0.0
    ensures Times(q, Min(ratio, 1.0)) == Min(ratio * q, q)
  {
    if ratio < 1.0 {
      assert ratio * q < q;
    } else {
      assert ratio * q >= q;
    }
  }

  lemma LossBounds(p: Vector, q: Vector, x: nat)
    requires Distribution(p) && Distribution(q) && |p| == |q| && x < |p|
    ensures 0.0 <= Loss(p, q)[x] <= FLOOR && (Loss(p, q)[x] == 0.0 <==> !Tiny(p[x], q[x])) && Accepted(p, q)[x] >= 0.0
  {
    hide AcceptProb, Times;
    AcceptedIsCommon(p[x], q[x]);
  }

  /** A rejection makes up for the excess and for what the floor took. */
  lemma RejectionMass(p: Vector, q: Vector)
    requires Distribution(p) && Distribution(q) && |p| == |q|
    ensures 1.0 - Sum(Accepted(p, q)) == Sum(Excess(p, q)) + Sum(Loss(p, q))
  {
    hide AcceptProb, Times;
    SumOfSums(Accepted(p, q), Loss(p, q), Common(p, q));
    SumOfSums(Common(p, q), Excess(p, q), p);
  }

  /** What a position emits, token by token. */
  lemma EmittedAt(p: Vector, q: Vector, x: nat)
    requires Distribution(p) && Distribution(q) && |p| == |q| && x < |p|
    ensures Emitted(p, q)[x]
         == p[x] - Excess(p, q)[x] - Loss(p, q)[x] + Times(Sum(Excess(p, q)) + Sum(Loss(p, q)), Residual(p, q)[x])
  {
    hide AcceptProb, Times, Residual;
    RejectionMass(p, q);
    assert Min(p[x], q[x]) == p[x] - Excess(p, q)[x];
  }

  lemma ResidualAt(p: Vector, q: Vector, x: nat)
    requires Distribution(p) && |p| == |q| && x < |p|
    ensures var mass := Sum(Excess(p, q));
            Residual(p, q)[x] == if mass <= FLOOR then p[x] else Excess(p, q)[x] / mass
  {
    var mass := Sum(Excess(p, q));
    if mass <= FLOOR {
      assert Residual(p, q)[x] == p[x] / Max(Sum(p), FLOOR);
      OverOne(p[x], Max(Sum(p), FLOOR));
    } else {
      assert Residual(p, q)[x] == Excess(p, q)[x] / Max(mass, FLOOR);
    }
  }

  /** A rejection draws from the excess over the draft, normalised, when there is more than 1e-8 of it, and
      from the target otherwise. */
  lemma ResidualSpelledOut(p: Vector, q: Vector, x: nat)
    requires Distribution(p) && |p| == |q| && x < |p|
    ensures Excess(p, q)[x] == if p[x] > q[x] then p[x] - q[x] else 0.0
    ensures Sum(Excess(p, q)) > 0.00000001 ==> Times(Residual(p, q)[x], Sum(Excess(p, q))) == Excess(p, q)[x]
    ensures Sum(Excess(p, q)) <= 0.00000001 ==> Residual(p, q)[x] == p[x]
  {
    ResidualAt(p, q, x);
    if Sum(Excess(p, q)) > FLOOR { QuotientTimes(Excess(p, q)[x], Sum(Excess(p, q))); }
  }

  lemma QuotientTimes(x: real, d: real)
    requires d > 0.0
    ensures Times(x / d, d) == x
  {
  }

  /** The law that a position emits: drafted and accepted, or drawn with what acceptance leaves. */
  lemma EmittedSpelledOut(p: Vector, q: Vector, x: nat)
    requires |p| == |q| && x < |p|
    ensures Accepted(p, q)[x] == Times(q[x], AcceptProb(p[x], q[x]))
    ensures Emitted(p, q)[x] == Accepted(p, q)[x] + Times(1.0 - Sum(Accepted(p, q)), Residual(p, q)[x])
  {
    hide AcceptProb, Residual, Times;
  }

  lemma OverOne(x: real, d: real)
    requires d == 1.0
    ensures x / d == x
  {
  }

  lemma MassIsNonNegative(p: Vector, q: Vector)
    requires Distribution(p) && Distribution(q) && |p| == |q|
    ensures Sum(Excess(p, q)) >= 0.0 && Sum(Loss(p, q)) >= 0.0
  {
    hide Loss;
    forall x | 0 <= x < |p| ensures Loss(p, q)[x] >= 0.0 { LossBounds(p, q, x); }
    SumNonNegative(Loss(p, q));
    SumNonNegative(Excess(p, q));
  }

  // ---- exactness --------------------------------------------------------------------------

  /** The condition under which the residual puts back exactly what is missing: it is shared out in
      the same proportions. */
  ghost predicate PutsBack(p: Vector, q: Vector)
    requires |p| == |q|
  {
    var mass, loss := Sum(Excess(p, q)), Sum(Loss(p, q));
    forall x :: 0 <= x < |p| ==>
      if mass > FLOOR then Times(Loss(p, q)[x], mass) == Times(loss, Excess(p, q)[x])
      else Excess(p, q)[x] + Loss(p, q)[x] == Times(mass + loss, p[x])
  }

  lemma ShareAlgebra(e: real, l: real, mass: real, loss: real)
    requires mass > 0.0
    ensures Times(mass + loss, e / mass) == e + l <==> Times(l, mass) == Times(loss, e)
  {
    var r := e / mass;
    assert r * mass == e;
    assert Times(mass + loss, r) == e + loss * r;
    if Times(l, mass) == Times(loss, e) {
      assert (loss * r - l) * mass == 0.0;
    } else if loss * r == l {
      assert l * mass == loss * (r * mass);
    }
  }

  /** A position emits the target's own distribution if and only if the residual puts back exactly
      what is missing. */
  lemma LosslessExactly(p: Vector, q: Vector)
    requires Distribution(p) && Distribution(q) && |p| == |q|
    ensures Emitted(p, q) == p <==> PutsBack(p, q)
  {
    hide Emitted, Excess, Loss, Times;
    var e, l := Excess(p, q), Loss(p, q);
    var mass, loss := Sum(e), Sum(l);
    forall x: nat | x < |p|
      ensures Emitted(p, q)[x] == p[x] <==>
              if mass > FLOOR then Times(l[x], mass) == Times(loss, e[x]) else e[x] + l[x] == Times(mass + loss, p[x])
    {
      LosslessToken(p, q, x);
    }
    if PutsBack(p, q) {
      assert Emitted(p, q) == p;
    }
  }

  lemma LosslessToken(p: Vector, q: Vector, x: nat)
    requires Distribution(p) && Distribution(q) && |p| == |q| && x < |p|
    ensures var e, l := Excess(p, q), Loss(p, q);
            var mass, loss := Sum(e), Sum(l);
            Emitted(p, q)[x] == p[x] <==>
              if mass > FLOOR then Times(l[x], mass) == Times(loss, e[x]) else e[x] + l[x] == Times(mass + loss, p[x])
  {
    hide Times, Emitted, Residual, Excess, Loss;
    var e, l := Excess(p, q), Loss(p, q);
    EmittedAt(p, q, x);
    ResidualAt(p, q, x);
    if Sum(e) > FLOOR { ShareAlgebra(e[x], l[x], Sum(e), Sum(l)); }
  }

  ghost predicate NoTinyPair(p: Vector, q: Vector)
    requires |p| == |q|
  {
    forall x :: 0 <= x < |p| ==> !Tiny(p[x], q[x])
  }

  lemma {:induction false} ZeroSum(v: Vector)
    requires forall i :: 0 <= i < |v| ==> v[i] == 0.0
    ensures Sum(v) == 0.0
    decreases |v|
  {
    if v != [] { ZeroSum(v[..|v| - 1]); }
  }

  /** Two distributions exceed each other by the same mass. */
  lemma ExcessIsMutual(p: Vector, q: Vector)
    requires Distribution(p) && Distribution(q) && |p| == |q|
    ensures Sum(Excess(p, q)) == Sum(Excess(q, p))
  {
    assert Common(p, q) == Common(q, p);
    SumOfSums(Common(p, q), Excess(p, q), p);
    SumOfSums(Common(p, q), Excess(q, p), q);
  }

  /** Where no pair of probabilities is below the floor, a position is lossless if and only if the
      residual mass is above the floor, or the draft is the target scaled down, with what that
      leaves over put on tokens that the target never emits. */
  lemma LosslessAboveFloor(p: Vector, q: Vector)
    requires Distribution(p) && Distribution(q) && |p| == |q| && NoTinyPair(p, q)
    ensures var mass := Sum(Excess(p, q));
            Emitted(p, q) == p <==> mass > 0.00000001 || forall x :: 0 <= x < |p| && p[x] > 0.0 ==>
              q[x] == Times(1.0 - mass, p[x])
  {
    hide Emitted, Excess, Loss;
    var mass := Sum(Excess(p, q));
    forall x: nat | x < |p| ensures Loss(p, q)[x] == 0.0 { LossBounds(p, q, x); }
    ZeroSum(Loss(p, q));
    LosslessExactly(p, q);
    MassIsNonNegative(p, q);
    forall x: nat | x < |p|
      ensures Excess(p, q)[x] == Times(mass, p[x]) <==> p[x] > 0.0 ==> q[x] == Times(1.0 - mass, p[x])
    {
      ExcessOfScaled(p, q, x);
    }
  }

  lemma ExcessOfScaled(p: Vector, q: Vector, x: nat)
    requires Distribution(p) && Distribution(q) && |p| == |q| && x < |p|
    ensures var mass := Sum(Excess(p, q));
            Excess(p, q)[x] == Times(mass, p[x]) <==> p[x] > 0.0 ==> q[x] == Times(1.0 - mass, p[x])
  {
    MassIsNonNegative(p, q);
    ExcessIsMutual(p, q);
    EntryAtMostSum(Excess(p, q), x);
    EntryAtMostSum(Excess(q, p), x);
    ScaledAlgebra(p[x], q[x], Sum(Excess(p, q)));
  }

  lemma ScaledAlgebra(p: real, q: real, mass: real)
    requires p >= 0.0 && q >= 0.0 && mass >= 0.0 && (mass == 0.0 ==> p == q)
    ensures Max(p - q, 0.0) == Times(mass, p) <==> p > 0.0 ==> q == Times(1.0 - mass, p)
  {
    assert Times(1.0 - mass, p) == p - Times(mass, p);
    assert p > 0.0 && mass > 0.0 ==> Times(mass, p) > 0.0;
  }

  /** With mass left to share out, the test needs no sums: every two tokens lose and exceed in the
      same proportion. Without it, the draft must be the target scaled by the chance of acceptance,
      where a tiny pair counts as a target at the floor. */
  lemma LosslessTest(p: Vector, q: Vector)
    requires Distribution(p) && Distribution(q) && |p| == |q|
    ensures var e, l := Excess(p, q), Loss(p, q);
            Emitted(p, q) == p <==>
            if Sum(e) > 0.00000001 then InProportion(l, e)
            else forall x :: 0 <= x < |p| && p[x] > 0.0 ==>
                   q[x] == Times(Sum(Accepted(p, q)), if Tiny(p[x], q[x]) then 0.00000001 else p[x])
  {
    hide Emitted, Excess, Loss, Accepted, Times;
    var e, l := Excess(p, q), Loss(p, q);
    LosslessExactly(p, q);
    if Sum(e) > FLOOR {
      ProportionTest(l, e);
    } else {
      RejectionMass(p, q);
      forall x: nat | x < |p|
        ensures e[x] + l[x] == Times(Sum(e) + Sum(l), p[x])
           <==> p[x] > 0.0 ==> q[x] == Times(Sum(Accepted(p, q)), if Tiny(p[x], q[x]) then FLOOR else p[x])
      {
        MissingIsScaled(p, q, x);
      }
    }
  }

  ghost predicate InProportion(l: Vector, e: Vector)
    requires |l| == |e|
  {
    forall x, y :: 0 <= x < |l| && 0 <= y < |l| ==> Times(l[x], e[y]) == Times(l[y], e[x])
  }

  lemma ProportionTest(l: Vector, e: Vector)
    requires |l| == |e| && Sum(e) > 0.0
    ensures InProportion(l, e) <==> forall x :: 0 <= x < |l| ==> Times(l[x], Sum(e)) == Times(Sum(l), e[x])
  {
    hide Times;
    if InProportion(l, e) {
      forall x: nat | x < |l| ensures Times(l[x], Sum(e)) == Times(Sum(l), e[x]) {
        var w := seq(|l|, y requires 0 <= y < |l| => Times(l[x], e[y]));
        SumScaled(l[x], e, w);
        forall y: nat | y < |l| ensures w[y] == Times(e[x], l[y]) { TimesCommutes(l[y], e[x]); }
        SumScaled(e[x], l, w);
        TimesCommutes(e[x], Sum(l));
      }
    }
    forall x: nat, y: nat | x < |l| && y < |l| && Times(l[x], Sum(e)) == Times(Sum(l), e[x])
      && Times(l[y], Sum(e)) == Times(Sum(l), e[y])
      ensures Times(l[x], e[y]) == Times(l[y], e[x])
    {
      CrossMultiply(l[x], e[x], l[y], e[y], Sum(l), Sum(e));
    }
  }

  lemma CrossMultiply(lx: real, ex: real, ly: real, ey: real, loss: real, mass: real)
    requires mass > 0.0 && Times(lx, mass) == Times(loss, ex) && Times(ly, mass) == Times(loss, ey)
    ensures Times(lx, ey) == Times(ly, ex)
  {
    var k := loss / mass;
    assert k * mass == loss;
    assert (lx - k * ex) * mass == 0.0;
    assert (ly - k * ey) * mass == 0.0;
    assert lx == k * ex && ly == k * ey;
  }

  /** What a token misses is in the target's proportion exactly when its draft is scaled. */
  lemma MissingIsScaled(p: Vector, q: Vector, x: nat)
    requires Distribution(p) && Distribution(q) && |p| == |q| && x < |p|
    ensures var missing := Sum(Excess(p, q)) + Sum(Loss(p, q));
            && (Excess(p, q)[x] + Loss(p, q)[x] == Times(missing, p[x])
                <==> p[x] > 0.0 ==> q[x] == Times(1.0 - missing, if Tiny(p[x], q[x]) then FLOOR else p[x]))
  {
    hide Times, AcceptProb;
    var mass, loss := Sum(Excess(p, q)), Sum(Loss(p, q));
    MassIsNonNegative(p, q);
    LossBounds(p, q, x);
    if Tiny(p[x], q[x]) {
      TinyMisses(p[x], q[x], mass + loss);
    } else {
      ExcessIsMutual(p, q);
      EntryAtMostSum(Excess(p, q), x);
      EntryAtMostSum(Excess(q, p), x);
      ScaledAlgebra(p[x], q[x], mass + loss);
    }
  }

  lemma TinyMisses(p: real, q: real, missing: real)
    requires Tiny(p, q)
    ensures Max(p - q, 0.0) + (Min(p, q) - Times(q, AcceptProb(p, q))) == Times(missing, p)
       <==> q == Times(1.0 - missing, FLOOR)
  {
    var ratio := p / FLOOR;
    assert p == ratio * FLOOR;
    assert Times(q, AcceptProb(p, q)) == ratio * q;
    assert p - ratio * q - missing * p == ratio * (FLOOR - q - missing * FLOOR);
  }

  /** So where one token that is no tiny pair is above its draft, a position with mass to share out
      is lossless if and only if no pair is tiny. */
  lemma LosslessOnRealExcess(p: Vector, q: Vector, y: nat)
    requires Distribution(p) && Distribution(q) && |p| == |q| && Sum(Excess(p, q)) > 0.00000001
    requires y < |p| && p[y] > q[y] && !Tiny(p[y], q[y])
    ensures Emitted(p, q) == p <==> NoTinyPair(p, q)
  {
    hide Emitted, Excess, Loss, Times;
    var e, l := Excess(p, q), Loss(p, q);
    LosslessTest(p, q);
    forall x: nat | x < |p| ensures (l[x] == 0.0 <==> !Tiny(p[x], q[x])) { LossBounds(p, q, x); }
    assert e[y] > 0.0 by { ExcessAt(p, q, y); }
    forall x: nat, z: nat | x < |p| && z < |p| && l[x] == 0.0 && l[z] == 0.0
      ensures Times(l[x], e[z]) == Times(l[z], e[x])
    {
      ZeroTimes(e[z]);
      ZeroTimes(e[x]);
    }
    forall x: nat | x < |p| && Times(l[x], e[y]) == Times(l[y], e[x]) ensures l[x] == 0.0 {
      ZeroTimes(e[x]);
      ZeroProduct(l[x], e[y]);
    }
  }

  lemma ExcessAt(p: Vector, q: Vector, x: nat)
    requires |p| == |q| && x < |p|
    ensures Excess(p, q)[x] == Max(p[x] - q[x], 0.0)
  {
  }

  lemma ZeroTimes(x: real)
    ensures Times(0.0, x) == 0.0
  {
  }

  lemma ZeroProduct(x: real, y: real)
    requires y > 0.0
    ensures Times(x, y) == 0.0 ==> x == 0.0
  {
  }

  /** In particular with more mass than tiny pairs alone can hold. */
  lemma LosslessOnLargeMass(p: Vector, q: Vector)
    requires Distribution(p) && Distribution(q) && |p| == |q| && Sum(Excess(p, q)) > |p| as real * 0.00000001
    ensures Emitted(p, q) == p <==> NoTinyPair(p, q)
  {
    hide Emitted, Excess, Loss;
    var e := Excess(p, q);
    if y: nat :| y < |p| && e[y] > FLOOR {
      ExcessAt(p, q, y);
      LosslessOnRealExcess(p, q, y);
    } else {
      SumUnder(e, FLOOR);
    }
  }

  /** Never far off: at most what the floor takes, and the residual mass where that is below it. */
  lemma EmittedIsClose(p: Vector, q: Vector, x: nat)
    requires Distribution(p) && Distribution(q) && |p| == |q| && x < |p|
    ensures var mass, loss := Sum(Excess(p, q)), Sum(Loss(p, q));
            && loss <= |p| as real * 0.00000001
            && -(loss + Min(mass, 0.00000001)) <= Emitted(p, q)[x] - p[x] <= loss + Min(mass, 0.00000001)
  {
    hide Emitted, Residual, AcceptProb;
    var e, l := Excess(p, q), Loss(p, q);
    var mass, loss := Sum(e), Sum(l);
    MassIsNonNegative(p, q);
    EmittedAt(p, q, x);
    ResidualAt(p, q, x);
    EntryAtMostSum(e, x);
    EntryAtMostSum(p, x);
    forall y: nat | y < |p| ensures 0.0 <= l[y] <= FLOOR { LossBounds(p, q, y); }
    EntryAtMostSum(l, x);
    SumUnder(l, FLOOR);
    if mass > FLOOR {
      ShareBounds(e[x], mass, loss);
    } else {
      ProductBounds(p[x], mass + loss);
    }
  }

  lemma {:induction false} SumUnder(v: Vector, hi: real)
    requires forall i :: 0 <= i < |v| ==> v[i] <= hi
    ensures Sum(v) <= |v| as real * hi
    decreases |v|
  {
    if v != [] {
      SumUnder(v[..|v| - 1], hi);
      assert |v| as real * hi == (|v| - 1) as real * hi + hi;
    }
  }

  lemma ProductBounds(p: real, m: real)
    requires 0.0 <= p <= 1.0 && m >= 0.0
    ensures 0.0 <= Times(m, p) <= m
  {
    assert m * (1.0 - p) >= 0.0;
  }

  lemma ShareBounds(e: real, mass: real, loss: real)
    requires 0.0 <= e <= mass && mass > 0.0 && loss >= 0.0
    ensures e <= Times(mass + loss, e / mass) <= e + loss
  {
    var r := e / mass;
    assert r * mass == e;
    assert 0.0 <= r <= 1.0;
    ProductBounds(r, loss);
    assert Times(mass + loss, r) == e + Times(loss, r);
  }

  /** Whatever the draft, the emitted law is a distribution. */
  lemma EmittedIsDistribution(p: Vector, q: Vector)
    requires Distribution(p) && Distribution(q) && |p| == |q|
    ensures Distribution(Emitted(p, q))
  {
    hide Accepted, Residual, Excess, Loss, Times;
    var a, r := Accepted(p, q), Residual(p, q);
    var rejected := 1.0 - Sum(a);
    RejectionMass(p, q);
    MassIsNonNegative(p, q);
    ResidualIsDistribution(p, q);
    var drawn := seq(|p|, x requires 0 <= x < |p| => Times(rejected, r[x]));
    SumScaled(rejected, r, drawn);
    SumOfSums(a, drawn, Emitted(p, q));
    TimesOne(rejected);
    forall x: nat | x < |p| ensures Emitted(p, q)[x] >= 0.0 {
      LossBounds(p, q, x);
      NonNegativeTimes(rejected, r[x]);
    }
  }

  lemma {:induction false} SumScaled(k: real, v: Vector, w: Vector)
    requires |w| == |v| && forall i :: 0 <= i < |v| ==> w[i] == Times(k, v[i])
    ensures Sum(w) == Times(k, Sum(v))
    decreases |v|
  {
    if v != [] {
      var e := |v| - 1;
      SumScaled(k, v[..e], w[..e]);
      assert k * Sum(v) == k * Sum(v[..e]) + k * v[e];
    }
  }

  lemma ResidualIsDistribution(p: Vector, q: Vector)
    requires Distribution(p) && Distribution(q) && |p| == |q|
    ensures Distribution(Residual(p, q))
  {
    var r, e := Residual(p, q), Excess(p, q);
    var mass := Sum(e);
    forall x: nat | x < |p| ensures r[x] == if mass <= FLOOR then p[x] else e[x] / mass { ResidualAt(p, q, x); }
    if mass <= FLOOR {
      assert r == p;
    } else {
      forall x: nat | x < |p| ensures r[x] == Times(1.0 / mass, e[x]) && r[x] >= 0.0 { Reciprocal(e[x], mass); }
      SumScaled(1.0 / mass, e, r);
      Reciprocal(mass, mass);
    }
  }

  lemma Reciprocal(e: real, mass: real)
    requires mass > 0.0 && e >= 0.0
    ensures e / mass == Times(1.0 / mass, e) && e / mass >= 0.0 && mass / mass == 1.0
  {
  }

  /** The fallback is not exact: a draft this close to the target emits something else. */
  lemma FallbackIsNotExact()
    ensures var p, q := [0.5, 0.5], [0.499999999, 0.500000001];
            Distribution(p) && Distribution(q) && NoTinyPair(p, q) && Emitted(p, q) != p
  {
    var p, q := [0.5, 0.5], [0.499999999, 0.500000001];
    var e := Excess(p, q);
    TwoSum(p); TwoSum(q); TwoSum(e);
    LosslessAboveFloor(p, q);
    assert q[0] != Times(1.0 - Sum(e), p[0]);
  }

  /** Nor is the floored ratio, even where the residual is not small. */
  lemma FloorIsNotExact()
    ensures var p, q := [0.000000001, 0.999999999, 0.0], [0.000000001, 0.5, 0.499999999];
            Distribution(p) && Distribution(q) && Sum(Excess(p, q)) > 0.00000001 && Emitted(p, q) != p
  {
    var p, q := [0.000000001, 0.999999999, 0.0], [0.000000001, 0.5, 0.499999999];
    var e, l := Excess(p, q), Loss(p, q);
    ThreeSum(p); ThreeSum(q); ThreeSum(e); ThreeSum(l);
    MassIsNonNegative(p, q);
    assert l[0] > 0.0 by { LossBounds(p, q, 0); }
    assert e[0] == 0.0 && Sum(e) > FLOOR;
    assert Times(l[0], Sum(e)) > 0.0;
    assert Times(Sum(l), e[0]) == 0.0;
    LosslessExactly(p, q);
  }

  /** The bound on the mass is sharp: a little above it the position is exact, a little below it is not. */
  lemma MassBoundIsSharp()
    ensures var p, q := [0.5, 0.5], [0.499999989, 0.500000011];
            Distribution(p) && Distribution(q) && Emitted(p, q) == p
    ensures var p, q := [0.5, 0.5], [0.499999991, 0.500000009];
            Distribution(p) && Distribution(q) && Emitted(p, q) != p
  {
    var p, q, r := [0.5, 0.5], [0.499999989, 0.500000011], [0.499999991, 0.500000009];
    TwoSum(p); TwoSum(q); TwoSum(r); TwoSum(Excess(p, q)); TwoSum(Excess(p, r));
    LosslessAboveFloor(p, q);
    LosslessAboveFloor(p, r);
    assert r[0] != Times(1.0 - Sum(Excess(p, r)), p[0]);
  }

  /** So is the floor under the draft: a little above it a token is kept in full, a little below it is
      not. */
  lemma FloorIsSharp()
    ensures Times(0.000000011, AcceptProb(0.000000011, 0.000000011)) == 0.000000011
    ensures Times(0.000000009, AcceptProb(0.000000009, 0.000000009)) < 0.000000009
  {
    AcceptedIsCommon(0.000000011, 0.000000011);
    AcceptedIsCommon(0.000000009, 0.000000009);
  }

  lemma TwoSum(v: Vector)
    requires |v| == 2
    ensures Sum(v) == v[0] + v[1]
  {
    assert v[..1][..0] == [];
    assert Sum(v[..1]) == v[0];
  }

  lemma ThreeSum(v: Vector)
    requires |v| == 3
    ensures Sum(v) == v[0] + v[1] + v[2]
  {
    TwoSum(v[..2]);
  }

  // ---- the accepted prefix, and the greedy case -------------------------------------------

  /** One draw per proposed token: 1 if it passes its accept test. */
  function Passed(target: seq<Vector>, draft: seq<Vector>, proposed: seq<Token>, uniform: seq<real>): (flags: seq<nat>)
    requires |target| == |draft| == |proposed| == |uniform|
    requires forall i :: 0 <= i < |proposed| ==> 0 <= proposed[i] < |target[i]| == |draft[i]|
    ensures |flags| == |proposed|
  {
    seq(|proposed|, i requires 0 <= i < |proposed| =>
      if uniform[i] < AcceptProb(target[i][proposed[i]], draft[i][proposed[i]]) then 1 else 0)
  }

  function CumulativeProduct(flags: seq<nat>): (c: seq<nat>)
    ensures |c| == |flags|
  {
    if flags == [] then []
    else
      var e := |flags| - 1;
      var c := CumulativeProduct(flags[..e]);
      c + [Product(if e == 0 then 1 else c[e - 1], flags[e])]
  }

  function Product(a: nat, b: nat): (c: nat) { a * b }

  function AcceptedPrefixLength(target: seq<Vector>, draft: seq<Vector>, proposed: seq<Token>,
                                uniform: seq<real>): (k: nat)
    requires |target| == |draft| == |proposed| == |uniform|
    requires forall i :: 0 <= i < |proposed| ==> 0 <= proposed[i] < |target[i]| == |draft[i]|
  {
    if proposed == [] then 0 else Speculative.Sum(CumulativeProduct(Passed(target, draft, proposed, uniform)))
  }

  /** `k` is how many flags are set before the first that is not. */
  ghost predicate IsPrefixOfOnes(flags: seq<nat>, k: nat)
  {
    k <= |flags| && (forall i :: 0 <= i < k ==> flags[i] == 1) && (k < |flags| ==> flags[k] == 0)
  }

  /** Summing the cumulative product counts the leading ones, whatever comes after them. */
  lemma {:induction false} CumulativeProductCountsPrefix(flags: seq<nat>)
    requires forall i :: 0 <= i < |flags| ==> flags[i] <= 1
    ensures var c := CumulativeProduct(flags);
            && IsPrefixOfOnes(flags, Speculative.Sum(c))
            && (c != [] ==> c[|c| - 1] == if Speculative.Sum(c) == |c| then 1 else 0)
    decreases |flags|
  {
    if flags != [] {
      var e := |flags| - 1;
      var c, init := CumulativeProduct(flags), flags[..e];
      CumulativeProductCountsPrefix(init);
      CumulativeStep(flags);
      hide Product, CumulativeProduct;
      ProductOfFlags(if e == 0 then 1 else c[e - 1], flags[e]);
      PrefixOfOnesGrows(flags, Speculative.Sum(c[..e]));
    }
  }

  lemma CumulativeStep(flags: seq<nat>)
    requires flags != []
    ensures var e, c := |flags| - 1, CumulativeProduct(flags);
            c[..e] == CumulativeProduct(flags[..e]) && c[e] == Product(if e == 0 then 1 else c[e - 1], flags[e])
  {
  }

  lemma ProductOfFlags(a: nat, b: nat)
    requires a <= 1 && b <= 1
    ensures Product(a, b) == if a == 1 && b == 1 then 1 else 0
  {
  }

  lemma PrefixOfOnesGrows(flags: seq<nat>, k: nat)
    requires flags != [] && flags[|flags| - 1] <= 1 && IsPrefixOfOnes(flags[..|flags| - 1], k)
    ensures IsPrefixOfOnes(flags, if k == |flags| - 1 && flags[k] == 1 then k + 1 else k)
  {
  }

  function OneHot(n: nat, t: nat): (p: Vector)
    requires t < n
    ensures |p| == n
  {
    seq(n, x => if x == t then 1.0 else 0.0)
  }

  lemma {:induction false} SumOfOneHot(n: nat, v: Vector, t: nat)
    requires |v| <= n && t < n && forall x :: 0 <= x < |v| ==> v[x] == if x == t then 1.0 else 0.0
    ensures Sum(v) == if t < |v| then 1.0 else 0.0
    decreases |v|
  {
    if v != [] { SumOfOneHot(n, v[..|v| - 1], t); }
  }

  /** At temperature zero both laws are one-hot, and a position emits the target's argmax whatever
      the drafter proposed. */
  lemma GreedyCollapse(n: nat, argmax: nat, proposed: nat)
    requires argmax < n && proposed < n
    ensures Emitted(OneHot(n, argmax), OneHot(n, proposed)) == OneHot(n, argmax)
    ensures Residual(OneHot(n, argmax), OneHot(n, proposed)) == OneHot(n, argmax)
  {
    var p, q := OneHot(n, argmax), OneHot(n, proposed);
    SumOfOneHot(n, p, argmax);
    SumOfOneHot(n, q, proposed);
    var e := Excess(p, q);
    if argmax == proposed {
      ZeroSum(e);
    } else {
      SumOfOneHot(n, e, argmax);
    }
    LosslessAboveFloor(p, q);
    forall x: nat | x < n ensures Residual(p, q)[x] == p[x] { ResidualAt(p, q, x); }
  }

  /** There the accepted prefix is the agreement with the target's argmax tokens, for any draws. */
  lemma GreedyPrefix(n: nat, argmax: seq<nat>, target: seq<Vector>, draft: seq<Vector>, proposed: seq<Token>,
                     uniform: seq<real>)
    requires |argmax| == |target| == |draft| == |proposed| == |uniform|
    requires forall i :: 0 <= i < |proposed| ==> 0 <= proposed[i] < n && argmax[i] < n && 0.0 <= uniform[i] < 1.0
    requires forall i :: 0 <= i < |proposed| ==>
        |target[i]| == |draft[i]| == n && target[i] == OneHot(n, argmax[i]) && draft[i] == OneHot(n, proposed[i])
    ensures var k := AcceptedPrefixLength(target, draft, proposed, uniform);
            && k <= |proposed| && (forall i :: 0 <= i < k ==> proposed[i] == argmax[i])
            && (k < |proposed| ==> proposed[k] != argmax[k])
  {
    var flags := Passed(target, draft, proposed, uniform);
    forall i | 0 <= i < |proposed| ensures flags[i] == if proposed[i] == argmax[i] then 1 else 0 {
      assert AcceptProb(1.0, 1.0) == 1.0 && AcceptProb(0.0, 1.0) == 0.0;
    }
    CumulativeProductCountsPrefix(flags);
  }

  // ---- whole runs -------------------------------------------------------------------------

  /** A model's law of the token after a prefix, over `n` tokens. */
  type Law = seq<Token> -> Vector

  ghost predicate IsLaw(p: Law, n: nat)
  {
    forall s :: |p(s)| == n && Distribution(p(s))
  }

  ghost predicate InVocab(y: seq<Token>, n: nat)
  {
    forall i :: 0 <= i < |y| ==> 0 <= y[i] < n
  }

  /** The chance that the target alone continues `prefix` with `y`. */
  ghost function TargetLaw(p: Law, n: nat, prefix: seq<Token>, y: seq<Token>): (c: real)
    requires IsLaw(p, n) && InVocab(y, n)
    decreases |y|
  {
    if y == [] then 1.0 else Times(p(prefix)[y[0]], TargetLaw(p, n, prefix + [y[0]], y[1..]))
  }

  /** A drafter: its law of the next draft, and whether it is confident enough to offer that draft;
      both see what was committed when the round began and the drafts of the round so far. */
  datatype Drafter = Drafter(draft: (seq<Token>, seq<Token>) -> Vector, offers: (seq<Token>, seq<Token>) -> bool,
                             blockSize: nat)

  ghost predicate IsDrafter(d: Drafter, n: nat)
  {
    forall r, s :: |d.draft(r, s)| == n && Distribution(d.draft(r, s))
  }

  /** The round that began at `round` goes on offering drafts at `prefix`. */
  predicate GoesOn(d: Drafter, round: seq<Token>, prefix: seq<Token>)
  {
    |prefix| < |round| + d.blockSize && d.offers(round, prefix)
  }

  /** The chance that the loop, in a round that began at `round` and has accepted drafts up to
      `prefix`, goes on to emit `y`. A rejection or a bonus token ends the round. */
  ghost function LoopLaw(p: Law, d: Drafter, n: nat, round: seq<Token>, prefix: seq<Token>, y: seq<Token>): (c: real)
    requires IsLaw(p, n) && IsDrafter(d, n) && InVocab(y, n)
    decreases |y|
  {
    if y == [] then 1.0
    else
      var longer := prefix + [y[0]];
      var restart := LoopLaw(p, d, n, longer, longer, y[1..]);
      if GoesOn(d, round, prefix) then
        var q := d.draft(round, prefix);
        var a, w := Accepted(p(prefix), q), RejectWeight(p(prefix), q);
        Times(a[y[0]], LoopLaw(p, d, n, round, longer, y[1..])) + Times(w[y[0]], restart)
      else Times(p(prefix)[y[0]], restart)
  }

  // ---- when a run is a draw from the target -----------------------------------------------

  /** With some chance the round that begins at `round` comes to have accepted all of `t`. */
  ghost predicate Reaches(p: Law, d: Drafter, n: nat, round: seq<Token>, t: seq<Token>)
    requires IsLaw(p, n) && IsDrafter(d, n)
    decreases |t|
  {
    t == [] || (Reaches(p, d, n, round, t[..|t| - 1]) && Accepts(p, d, n, round, round + t[..|t| - 1], t[|t| - 1]))
  }

  /** With some chance the draft after `prefix` is `x` and is accepted. */
  ghost predicate Accepts(p: Law, d: Drafter, n: nat, round: seq<Token>, prefix: seq<Token>, x: Token)
    requires IsLaw(p, n) && IsDrafter(d, n)
  {
    0 <= x < n && GoesOn(d, round, prefix) && Accepted(p(prefix), d.draft(round, prefix))[x] != 0.0
  }

  /** With some chance the round ends at `prefix` with the token `x`, drawn on a rejection or as bonus. */
  ghost predicate EndsWith(p: Law, d: Drafter, n: nat, round: seq<Token>, prefix: seq<Token>, x: Token)
    requires IsLaw(p, n) && IsDrafter(d, n)
  {
    0 <= x < n
    && if GoesOn(d, round, prefix) then RejectWeight(p(prefix), d.draft(round, prefix))[x] != 0.0
      else p(prefix)[x] != 0.0
  }

  /** With some chance a run that begins a round at `start` comes to begin one at `round`. */
  ghost predicate Begins(p: Law, d: Drafter, n: nat, start: seq<Token>, round: seq<Token>)
    requires IsLaw(p, n) && IsDrafter(d, n)
    decreases |round|
  {
    || round == start
    || exists earlier, t ::
         && earlier + t < round && |round| == |earlier + t| + 1
         && Begins(p, d, n, start, earlier) && Reaches(p, d, n, earlier, t)
         && EndsWith(p, d, n, earlier, earlier + t, round[|round| - 1])
  }

  /** A round offers drafts as long as the drafter is confident and the block is not full, so it never
      accepts more than a block. */
  lemma {:induction false} RoundsStayInBlock(p: Law, d: Drafter, n: nat, round: seq<Token>, t: seq<Token>)
    requires IsLaw(p, n) && IsDrafter(d, n)
    ensures GoesOn(d, round, round + t) <==> |t| < d.blockSize && d.offers(round, round + t)
    ensures Reaches(p, d, n, round, t) ==> |t| <= d.blockSize
    decreases |t|
  {
    if t != [] { RoundsStayInBlock(p, d, n, round, t[..|t| - 1]); }
  }

  lemma ReachesFurther(p: Law, d: Drafter, n: nat, round: seq<Token>, t: seq<Token>, x: Token)
    requires IsLaw(p, n) && IsDrafter(d, n) && Reaches(p, d, n, round, t) && Accepts(p, d, n, round, round + t, x)
    ensures Reaches(p, d, n, round, t + [x])
  {
    assert (t + [x])[..|t|] == t;
  }

  lemma BeginsNext(p: Law, d: Drafter, n: nat, start: seq<Token>, round: seq<Token>, t: seq<Token>, x: Token)
    requires IsLaw(p, n) && IsDrafter(d, n) && Begins(p, d, n, start, round) && Reaches(p, d, n, round, t)
    requires EndsWith(p, d, n, round, round + t, x)
    ensures Begins(p, d, n, start, round + t + [x])
  {
    hide Reaches, EndsWith;
    assert round + t < round + t + [x];
  }

  /** At every position that a run from `start` may verify, the residual puts back what is missing. */
  ghost predicate LosslessRounds(p: Law, d: Drafter, n: nat, start: seq<Token>)
    requires IsLaw(p, n) && IsDrafter(d, n)
  {
    forall round, t :: Verifies(p, d, n, start, round, t) ==> PutsBack(p(round + t), d.draft(round, round + t))
  }

  /** A run from `start` may begin a round at `round`, accept `t` in it, and verify one more draft. */
  ghost predicate Verifies(p: Law, d: Drafter, n: nat, start: seq<Token>, round: seq<Token>, t: seq<Token>)
    requires IsLaw(p, n) && IsDrafter(d, n)
  {
    Begins(p, d, n, start, round) && Reaches(p, d, n, round, t) && GoesOn(d, round, round + t)
  }

  /** From a round that begins at `round` the loop emits what the target would. */
  ghost predicate ExactFrom(p: Law, d: Drafter, n: nat, round: seq<Token>)
    requires IsLaw(p, n) && IsDrafter(d, n)
  {
    forall y :: InVocab(y, n) ==> LoopLaw(p, d, n, round, round, y) == TargetLaw(p, n, round, y)
  }

  lemma {:induction false} LoopIsLossless(p: Law, d: Drafter, n: nat, start: seq<Token>, round: seq<Token>,
                                          t: seq<Token>, y: seq<Token>)
    requires IsLaw(p, n) && IsDrafter(d, n) && InVocab(y, n) && LosslessRounds(p, d, n, start)
    requires Begins(p, d, n, start, round) && Reaches(p, d, n, round, t)
    ensures LoopLaw(p, d, n, round, round + t, y) == TargetLaw(p, n, round + t, y)
    decreases |y|
  {
    if y == [] {
      NothingMore(p, d, n, round, round + t);
    } else {
      hide Begins, Reaches, LosslessRounds, Accepted, RejectWeight, Times, LoopLaw, TargetLaw;
      var x, prefix, more := y[0], round + t, y[1..];
      var longer := prefix + [x];
      assert y == [x] + more;
      Unfolded(p, d, n, round, prefix, x, more);
      if EndsWith(p, d, n, round, prefix, x) {
        BeginsNext(p, d, n, start, round, t, x);
        EmptyIsReached(p, d, n, longer);
        assert longer + [] == longer;
        LoopIsLossless(p, d, n, start, longer, [], more);
      }
      if Accepts(p, d, n, round, prefix, x) {
        ReachesFurther(p, d, n, round, t, x);
        assert round + (t + [x]) == longer;
        LoopIsLossless(p, d, n, start, round, t + [x], more);
      }
      var rest, restart := TargetLaw(p, n, longer, more), LoopLaw(p, d, n, longer, longer, more);
      if GoesOn(d, round, prefix) {
        var q := d.draft(round, prefix);
        LosslessAt(p, d, n, start, round, t, x);
        Mixture(Accepted(p(prefix), q)[x], RejectWeight(p(prefix), q)[x], p(prefix)[x],
                LoopLaw(p, d, n, round, longer, more), restart, rest);
      } else {
        SameUnlessZero(p(prefix)[x], restart, rest);
      }
    }
  }

  lemma NothingMore(p: Law, d: Drafter, n: nat, round: seq<Token>, prefix: seq<Token>)
    requires IsLaw(p, n) && IsDrafter(d, n)
    ensures LoopLaw(p, d, n, round, prefix, []) == TargetLaw(p, n, prefix, []) == 1.0
  {
  }

  /** One more token, seen from either law. */
  lemma Unfolded(p: Law, d: Drafter, n: nat, round: seq<Token>, prefix: seq<Token>, x: Token, y: seq<Token>)
    requires IsLaw(p, n) && IsDrafter(d, n) && InVocab(y, n) && 0 <= x < n
    ensures var longer := prefix + [x];
            TargetLaw(p, n, prefix, [x] + y) == Times(p(prefix)[x], TargetLaw(p, n, longer, y))
    ensures var longer, law, q := prefix + [x], p(prefix), d.draft(round, prefix);
            LoopLaw(p, d, n, round, prefix, [x] + y)
            == if GoesOn(d, round, prefix) then
                 Times(Accepted(law, q)[x], LoopLaw(p, d, n, round, longer, y))
                 + Times(RejectWeight(law, q)[x], LoopLaw(p, d, n, longer, longer, y))
               else Times(law[x], LoopLaw(p, d, n, longer, longer, y))
  {
    hide Accepted, Residual, Times;
    assert ([x] + y)[1..] == y;
  }

  lemma EmptyIsReached(p: Law, d: Drafter, n: nat, round: seq<Token>)
    requires IsLaw(p, n) && IsDrafter(d, n)
    ensures Reaches(p, d, n, round, [])
  {
  }

  lemma LosslessAt(p: Law, d: Drafter, n: nat, start: seq<Token>, round: seq<Token>, t: seq<Token>, x: Token)
    requires IsLaw(p, n) && IsDrafter(d, n) && LosslessRounds(p, d, n, start) && 0 <= x < n
    requires Verifies(p, d, n, start, round, t)
    ensures var law, q := p(round + t), d.draft(round, round + t);
            Accepted(law, q)[x] + RejectWeight(law, q)[x] == law[x]
  {
    hide Accepted, Residual, Times, PutsBack, Begins, Reaches;
    LosslessExactly(p(round + t), d.draft(round, round + t));
    EmittedParts(p(round + t), d.draft(round, round + t), x);
  }

  lemma EmittedParts(p: Vector, q: Vector, x: nat)
    requires |p| == |q| && x < |p|
    ensures Emitted(p, q)[x] == Accepted(p, q)[x] + RejectWeight(p, q)[x]
  {
  }

  lemma Mixture(a: real, w: real, c: real, accepted: real, rejected: real, rest: real)
    requires a + w == c && (a != 0.0 ==> accepted == rest) && (w != 0.0 ==> rejected == rest)
    ensures Times(a, accepted) + Times(w, rejected) == Times(c, rest)
  {
    SameUnlessZero(a, accepted, rest);
    SameUnlessZero(w, rejected, rest);
    Distribute(a, w, rest);
  }

  lemma SameUnlessZero(a: real, x: real, y: real)
    requires a != 0.0 ==> x == y
    ensures Times(a, x) == Times(a, y)
  {
    if a == 0.0 {
      ZeroTimes(x);
      ZeroTimes(y);
    }
  }

  lemma Unmix(a: real, w: real, c: real, accepted: real, rejected: real, rest: real)
    requires a + w == c && a != 0.0 && (w != 0.0 ==> rejected == rest)
    requires Times(a, accepted) + Times(w, rejected) == Times(c, rest)
    ensures accepted == rest
  {
    SameUnlessZero(w, rejected, rest);
    Distribute(a, w, rest);
    assert a * (accepted - rest) == 0.0;
  }

  /** If the loop is exact from every round that a run may begin, then also from inside those rounds: what a
      rejection leads to is exact already, and so what the accepted draft leads to is as well. */
  lemma {:induction false} ReachedIsExact(p: Law, d: Drafter, n: nat, start: seq<Token>, round: seq<Token>,
                                          t: seq<Token>, y: seq<Token>)
    requires IsLaw(p, n) && IsDrafter(d, n) && InVocab(y, n)
    requires forall r :: Begins(p, d, n, start, r) ==> ExactFrom(p, d, n, r)
    requires Begins(p, d, n, start, round) && Reaches(p, d, n, round, t)
    ensures LoopLaw(p, d, n, round, round + t, y) == TargetLaw(p, n, round + t, y)
    decreases |t|
  {
    hide Begins, Accepted, Residual, Times, LoopLaw, TargetLaw;
    if t == [] {
      assert round + t == round && ExactFrom(p, d, n, round);
    } else {
      var e := |t| - 1;
      var x, prefix := t[e], round + t[..e];
      assert prefix + [x] == round + t;
      assert ([x] + y)[1..] == y;
      ReachedIsExact(p, d, n, start, round, t[..e], [x] + y);
      ReachedIsExact(p, d, n, start, round, t[..e], [x]);
      hide ExactFrom, Reaches;
      OneToken(p, d, n, round, prefix, x);
      var q := d.draft(round, prefix);
      EmittedParts(p(prefix), q, x);
      if EndsWith(p, d, n, round, prefix, x) {
        BeginsNext(p, d, n, start, round, t[..e], x);
        ExactAt(p, d, n, round + t, y);
      }
      Unfolded(p, d, n, round, prefix, x, y);
      Unmix(Accepted(p(prefix), q)[x], RejectWeight(p(prefix), q)[x], p(prefix)[x],
            LoopLaw(p, d, n, round, round + t, y), LoopLaw(p, d, n, round + t, round + t, y),
            TargetLaw(p, n, round + t, y));
    }
  }

  lemma ExactAt(p: Law, d: Drafter, n: nat, round: seq<Token>, y: seq<Token>)
    requires IsLaw(p, n) && IsDrafter(d, n) && InVocab(y, n) && ExactFrom(p, d, n, round)
    ensures LoopLaw(p, d, n, round, round, y) == TargetLaw(p, n, round, y)
  {
  }

  /** Losslessness over whole runs: for every drafter, block size and confidence rule, and across any
      number of rounds, every round that a run may begin goes on with the target's own law if and only
      if every position that the run may verify is lossless. */
  lemma LoopIsLosslessExactly(p: Law, d: Drafter, n: nat, start: seq<Token>)
    requires IsLaw(p, n) && IsDrafter(d, n)
    ensures LosslessRounds(p, d, n, start)
       <==> forall round :: Begins(p, d, n, start, round) ==> ExactFrom(p, d, n, round)
  {
    hide Begins, Reaches, PutsBack, LoopLaw, TargetLaw;
    if LosslessRounds(p, d, n, start) {
      hide LosslessRounds;
      forall round | Begins(p, d, n, start, round) ensures ExactFrom(p, d, n, round) {
        BegunIsExact(p, d, n, start, round);
      }
    }
    if forall round :: Begins(p, d, n, start, round) ==> ExactFrom(p, d, n, round) {
      hide ExactFrom;
      forall round, t | Verifies(p, d, n, start, round, t) ensures PutsBack(p(round + t), d.draft(round, round + t)) {
        VerifiedPutsBack(p, d, n, start, round, t);
      }
    }
  }

  lemma BegunIsExact(p: Law, d: Drafter, n: nat, start: seq<Token>, round: seq<Token>)
    requires IsLaw(p, n) && IsDrafter(d, n) && LosslessRounds(p, d, n, start) && Begins(p, d, n, start, round)
    ensures ExactFrom(p, d, n, round)
  {
    hide Begins, LosslessRounds, LoopLaw, TargetLaw;
    EmptyIsReached(p, d, n, round);
    assert round + [] == round;
    forall y | InVocab(y, n) ensures LoopLaw(p, d, n, round, round, y) == TargetLaw(p, n, round, y) {
      LoopIsLossless(p, d, n, start, round, [], y);
    }
  }

  lemma VerifiedPutsBack(p: Law, d: Drafter, n: nat, start: seq<Token>, round: seq<Token>, t: seq<Token>)
    requires IsLaw(p, n) && IsDrafter(d, n) && Verifies(p, d, n, start, round, t)
    requires forall r :: Begins(p, d, n, start, r) ==> ExactFrom(p, d, n, r)
    ensures PutsBack(p(round + t), d.draft(round, round + t))
  {
    hide Begins, Reaches, PutsBack, LoopLaw, TargetLaw, ExactFrom, Emitted;
    var law, q := p(round + t), d.draft(round, round + t);
    forall x: nat | x < n ensures Emitted(law, q)[x] == law[x] {
      ReachedIsExact(p, d, n, start, round, t, [x]);
      OneToken(p, d, n, round, round + t, x);
    }
    assert Emitted(law, q) == law;
    LosslessExactly(law, q);
  }

  /** Where every position that a run may verify has more mass than tiny pairs alone can hold, it goes on
      with the target's own law if and only if it never meets a tiny pair. */
  lemma LoopIsLosslessOnLargeMass(p: Law, d: Drafter, n: nat, start: seq<Token>)
    requires IsLaw(p, n) && IsDrafter(d, n)
    requires forall round, t :: Verifies(p, d, n, start, round, t) ==>
               Sum(Excess(p(round + t), d.draft(round, round + t))) > n as real * 0.00000001
    ensures (forall round, t :: Verifies(p, d, n, start, round, t) ==>
               NoTinyPair(p(round + t), d.draft(round, round + t)))
       <==> forall round :: Begins(p, d, n, start, round) ==> ExactFrom(p, d, n, round)
  {
    hide Verifies, Begins, ExactFrom;
    forall round, t | Verifies(p, d, n, start, round, t)
      ensures PutsBack(p(round + t), d.draft(round, round + t)) <==> NoTinyPair(p(round + t), d.draft(round, round + t))
    {
      LosslessExactly(p(round + t), d.draft(round, round + t));
      LosslessOnLargeMass(p(round + t), d.draft(round, round + t));
    }
    hide PutsBack, NoTinyPair;
    LoopIsLosslessExactly(p, d, n, start);
  }

  lemma OneToken(p: Law, d: Drafter, n: nat, round: seq<Token>, prefix: seq<Token>, x: nat)
    requires IsLaw(p, n) && IsDrafter(d, n) && x < n && GoesOn(d, round, prefix)
    ensures LoopLaw(p, d, n, round, prefix, [x]) == Emitted(p(prefix), d.draft(round, prefix))[x]
    ensures TargetLaw(p, n, prefix, [x]) == p(prefix)[x]
  {
  }

  lemma Distribute(a: real, b: real, c: real)
    ensures Times(a, c) + Times(b, c) == Times(a + b, c)
  {
  }

  /** The chance that a whole generation is `y`: its first token is always the target's most likely
      one, whatever the temperature, and the loop goes on from there. */
  ghost function RunLaw(p: Law, d: Drafter, n: nat, prompt: seq<Token>, top: Token, y: seq<Token>): (c: real)
    requires IsLaw(p, n) && IsDrafter(d, n) && InVocab(y, n)
  {
    if y == [] then 1.0
    else if y[0] != top then 0.0
    else LoopLaw(p, d, n, prompt + [top], prompt + [top], y[1..])
  }

  /** A whole generation is a draw from the target's law if and only if the target was certain of its
      first token and the loop goes on from there with the target's law. */
  lemma RunIsLosslessExactly(p: Law, d: Drafter, n: nat, prompt: seq<Token>, top: Token)
    requires IsLaw(p, n) && IsDrafter(d, n) && 0 <= top < n
    ensures (forall y :: InVocab(y, n) ==> RunLaw(p, d, n, prompt, top, y) == TargetLaw(p, n, prompt, y))
       <==> p(prompt)[top] == 1.0 && ExactFrom(p, d, n, prompt + [top])
  {
    hide LoopLaw;
    var begun := prompt + [top];
    if p(prompt)[top] == 1.0 && ExactFrom(p, d, n, begun) {
      forall y: seq<Token> | InVocab(y, n) ensures RunLaw(p, d, n, prompt, top, y) == TargetLaw(p, n, prompt, y) {
        if y != [] && y[0] != top { OthersAreZero(p(prompt), top, y[0]); }
      }
    }
    if forall y :: InVocab(y, n) ==> RunLaw(p, d, n, prompt, top, y) == TargetLaw(p, n, prompt, y) {
      CertainOfFirst(p, d, n, prompt, top);
      forall y | InVocab(y, n) ensures LoopLaw(p, d, n, begun, begun, y) == TargetLaw(p, n, begun, y) {
        var longer := [top] + y;
        assert longer[1..] == y;
        assert RunLaw(p, d, n, prompt, top, longer) == TargetLaw(p, n, prompt, longer);
      }
    }
  }

  lemma CertainOfFirst(p: Law, d: Drafter, n: nat, prompt: seq<Token>, top: Token)
    requires IsLaw(p, n) && IsDrafter(d, n) && 0 <= top < n
    requires forall y :: InVocab(y, n) ==> RunLaw(p, d, n, prompt, top, y) == TargetLaw(p, n, prompt, y)
    ensures p(prompt)[top] == 1.0
  {
    hide LoopLaw, TargetLaw, Times;
    var y: seq<Token> := [top];
    assert InVocab(y, n) && y == [top] + [] && y[1..] == [];
    NothingMore(p, d, n, prompt + [top], prompt + [top]);
    Unfolded(p, d, n, prompt, prompt, top, []);
    TimesOne(p(prompt)[top]);
    assert RunLaw(p, d, n, prompt, top, y) == TargetLaw(p, n, prompt, y);
  }

  /** For the second half it is enough that every position that the run may verify is lossless. */
  lemma RunIsLossless(p: Law, d: Drafter, n: nat, prompt: seq<Token>, top: Token)
    requires IsLaw(p, n) && IsDrafter(d, n) && 0 <= top < n && LosslessRounds(p, d, n, prompt + [top])
    ensures p(prompt)[top] == 1.0
       <==> forall y :: InVocab(y, n) ==> RunLaw(p, d, n, prompt, top, y) == TargetLaw(p, n, prompt, y)
  {
    hide LosslessRounds, ExactFrom, RunLaw, TargetLaw;
    BegunIsExact(p, d, n, prompt + [top], prompt + [top]);
    RunIsLosslessExactly(p, d, n, prompt, top);
  }

  // ---- how far off a run can be -----------------------------------------------------------

  /** What one position may be off by. */
  function Slack(n: nat): (e: real)
    ensures e >= 0.0
  {
    (n + 1) as real * FLOOR
  }

  /** What `k` positions may be off by. */
  function Drift(k: nat, n: nat): (e: real)
  {
    k as real * Slack(n)
  }

  lemma DriftGrows(k: nat, n: nat)
    ensures 0.0 <= Drift(k, n) && Drift(k + 1, n) == Drift(k, n) + Slack(n)
  {
    hide Slack;
    NonNegativeTimes(k as real, Slack(n));
    assert (k + 1) as real == k as real + 1.0;
  }

  lemma EmittedWithin(p: Vector, q: Vector, x: nat)
    requires Distribution(p) && Distribution(q) && |p| == |q| && x < |p|
    ensures Abs(Emitted(p, q)[x] - p[x]) <= Slack(|p|)
  {
    hide Emitted, Excess, Loss;
    EmittedIsClose(p, q, x);
    MassIsNonNegative(p, q);
  }

  /** Whatever the drafter does and whatever tiny pairs the loop meets, no sequence is more or less
      likely than under the target by more than the slack of one position per token. */
  lemma LoopIsClose(p: Law, d: Drafter, n: nat, round: seq<Token>, prefix: seq<Token>, y: seq<Token>)
    requires IsLaw(p, n) && IsDrafter(d, n) && InVocab(y, n)
    ensures Abs(LoopLaw(p, d, n, round, prefix, y) - TargetLaw(p, n, prefix, y))
         <= |y| as real * ((n + 1) as real * 0.00000001)
  {
    hide LoopLaw, TargetLaw, Abs;
    LoopDrifts(p, d, n, round, prefix, y);
  }

  lemma {:induction false} LoopDrifts(p: Law, d: Drafter, n: nat, round: seq<Token>, prefix: seq<Token>,
                                       y: seq<Token>)
    requires IsLaw(p, n) && IsDrafter(d, n) && InVocab(y, n)
    ensures Abs(LoopLaw(p, d, n, round, prefix, y) - TargetLaw(p, n, prefix, y)) <= Drift(|y|, n)
    decreases |y|
  {
    if y == [] {
      NothingMore(p, d, n, round, prefix);
    } else {
      hide Accepted, RejectWeight, Times, Slack, Drift, Emitted, LoopLaw, TargetLaw;
      var x, more := y[0], y[1..];
      var longer, e := prefix + [x], Drift(|more|, n);
      assert y == [x] + more;
      Unfolded(p, d, n, round, prefix, x, more);
      LoopDrifts(p, d, n, longer, longer, more);
      TargetIsChance(p, n, longer, more);
      DriftGrows(|more|, n);
      var rest, restart := TargetLaw(p, n, longer, more), LoopLaw(p, d, n, longer, longer, more);
      if GoesOn(d, round, prefix) {
        LoopDrifts(p, d, n, round, longer, more);
        PositionIsClose(p(prefix), d.draft(round, prefix), x, LoopLaw(p, d, n, round, longer, more), restart, rest, e);
      } else {
        BonusIsClose(p(prefix), x, restart, rest, e, Slack(n));
      }
    }
  }

  lemma PositionIsClose(p: Vector, q: Vector, x: nat, accepted: real, rejected: real, rest: real, e: real)
    requires Distribution(p) && Distribution(q) && |p| == |q| && x < |p| && 0.0 <= rest <= 1.0 && e >= 0.0
    requires Abs(accepted - rest) <= e && Abs(rejected - rest) <= e
    ensures Abs(Times(Accepted(p, q)[x], accepted) + Times(RejectWeight(p, q)[x], rejected) - Times(p[x], rest))
         <= e + Slack(|p|)
  {
    hide Accepted, RejectWeight, Times, Slack, Emitted, Distribution;
    EmittedWithin(p, q, x);
    EmittedParts(p, q, x);
    WeightsAreChances(p, q, x);
    CloseMixture(Accepted(p, q)[x], RejectWeight(p, q)[x], p[x], accepted, rejected, rest, e, Slack(|p|));
  }

  lemma BonusIsClose(p: Vector, x: nat, restart: real, rest: real, e: real, slack: real)
    requires Distribution(p) && x < |p| && 0.0 <= rest <= 1.0 && e >= 0.0 && slack >= 0.0 && Abs(restart - rest) <= e
    ensures Abs(Times(p[x], restart) - Times(p[x], rest)) <= e + slack
  {
    EntryAtMostSum(p, x);
    ZeroTimes(restart);
    CloseMixture(0.0, p[x], p[x], restart, restart, rest, e, slack);
  }

  lemma {:induction false} TargetIsChance(p: Law, n: nat, prefix: seq<Token>, y: seq<Token>)
    requires IsLaw(p, n) && InVocab(y, n)
    ensures 0.0 <= TargetLaw(p, n, prefix, y) <= 1.0
    decreases |y|
  {
    if y != [] {
      hide Times;
      TargetIsChance(p, n, prefix + [y[0]], y[1..]);
      EntryAtMostSum(p(prefix), y[0]);
      ProductBounds(TargetLaw(p, n, prefix + [y[0]], y[1..]), p(prefix)[y[0]]);
    }
  }

  lemma WeightsAreChances(p: Vector, q: Vector, x: nat)
    requires Distribution(p) && Distribution(q) && |p| == |q| && x < |p|
    ensures Accepted(p, q)[x] >= 0.0 && RejectWeight(p, q)[x] >= 0.0
    ensures Accepted(p, q)[x] + RejectWeight(p, q)[x] <= 1.0
  {
    hide Accepted, Residual, Times, Emitted, Excess, Loss;
    LossBounds(p, q, x);
    RejectionMass(p, q);
    MassIsNonNegative(p, q);
    ResidualIsDistribution(p, q);
    NonNegativeTimes(1.0 - Sum(Accepted(p, q)), Residual(p, q)[x]);
    EmittedIsDistribution(p, q);
    EntryAtMostSum(Emitted(p, q), x);
    EmittedParts(p, q, x);
  }

  lemma CloseMixture(a: real, w: real, c: real, accepted: real, rejected: real, rest: real, e: real, slack: real)
    requires a >= 0.0 && w >= 0.0 && a + w <= 1.0 && 0.0 <= rest <= 1.0 && e >= 0.0
    requires Abs(a + w - c) <= slack && Abs(accepted - rest) <= e && Abs(rejected - rest) <= e
    ensures Abs(Times(a, accepted) + Times(w, rejected) - Times(c, rest)) <= e + slack
  {
    hide Times, Abs;
    var x, y, z := accepted - rest, rejected - rest, a + w - c;
    Deviations(a, w, c, accepted, rejected, rest);
    Shrinks(a, x, e);
    Shrinks(w, y, e);
    Shrinks(rest, z, slack);
    assert Times(a, e) + Times(w, e) <= e by {
      Distribute(a, w, e);
      ProductBounds(a + w, e);
      TimesCommutes(a + w, e);
    }
    ProductBounds(rest, slack);
    TimesCommutes(rest, slack);
  }

  lemma Deviations(a: real, w: real, c: real, accepted: real, rejected: real, rest: real)
    ensures Times(a, accepted) + Times(w, rejected) - Times(c, rest)
         == Times(a, accepted - rest) + Times(w, rejected - rest) + Times(rest, a + w - c)
  {
  }

  lemma Shrinks(a: real, x: real, e: real)
    requires a >= 0.0 && Abs(x) <= e
    ensures -Times(a, e) <= Times(a, x) <= Times(a, e)
  {
    assert a * (e - x) >= 0.0;
    assert a * (e + x) >= 0.0;
  }

  /** So a whole generation is off by no more than the doubt that the target had about its first token,
      and that slack for every token after it. */
  lemma RunIsClose(p: Law, d: Drafter, n: nat, prompt: seq<Token>, top: Token, y: seq<Token>)
    requires IsLaw(p, n) && IsDrafter(d, n) && 0 <= top < n && InVocab(y, n) && y != []
    ensures Abs(RunLaw(p, d, n, prompt, top, y) - TargetLaw(p, n, prompt, y))
         <= 1.0 - p(prompt)[top] + (|y| - 1) as real * ((n + 1) as real * 0.00000001)
  {
    hide RunLaw, TargetLaw, Abs;
    RunDrifts(p, d, n, prompt, top, y);
  }

  lemma RunDrifts(p: Law, d: Drafter, n: nat, prompt: seq<Token>, top: Token, y: seq<Token>)
    requires IsLaw(p, n) && IsDrafter(d, n) && 0 <= top < n && InVocab(y, n) && y != []
    ensures Abs(RunLaw(p, d, n, prompt, top, y) - TargetLaw(p, n, prompt, y))
         <= 1.0 - p(prompt)[top] + Drift(|y| - 1, n)
  {
    hide LoopLaw, TargetLaw, Slack, Drift, Times;
    var x, more := y[0], y[1..];
    var longer := prompt + [x];
    assert y == [x] + more;
    Unfolded(p, d, n, prompt, prompt, x, more);
    DriftGrows(|more|, n);
    TargetIsChance(p, n, longer, more);
    EntryAtMostSum(p(prompt), x);
    var c, rest := p(prompt)[x], TargetLaw(p, n, longer, more);
    ProductBounds(c, rest);
    TimesCommutes(rest, c);
    if x == top {
      LoopDrifts(p, d, n, longer, longer, more);
      FirstIsCertain(c, rest);
    } else {
      ProductBounds(rest, c);
      TwoEntriesAtMostSum(p(prompt), top, x);
    }
  }

  lemma FirstIsCertain(c: real, rest: real)
    requires 0.0 <= c <= 1.0 && 0.0 <= rest <= 1.0
    ensures 0.0 <= rest - Times(c, rest) <= 1.0 - c
  {
    NonNegativeTimes(1.0 - c, rest);
    NonNegativeTimes(1.0 - c, 1.0 - rest);
  }

  lemma OthersAreZero(p: Vector, top: nat, x: nat)
    requires Distribution(p) && top < |p| && x < |p| && x != top && p[top] == 1.0
    ensures p[x] == 0.0
  {
    TwoEntriesAtMostSum(p, top, x);
  }

  lemma {:induction false} TwoEntriesAtMostSum(v: Vector, k: nat, l: nat)
    requires k < |v| && l < |v| && k != l && forall i :: 0 <= i < |v| ==> v[i] >= 0.0
    ensures v[k] + v[l] <= Sum(v)
    decreases |v|
  {
    var e := |v| - 1;
    if k < e && l < e {
      TwoEntriesAtMostSum(v[..e], k, l);
    } else {
      EntryAtMostSum(v[..e], if k < e then k else l);
    }
  }
}
