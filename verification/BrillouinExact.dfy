/** Exactly which lattices first_brillouin_zone (python/solver.py:1118-1158) serves: those where every
    integer vector beyond the listed steps has another vector of its class modulo two that is no
    longer than it. */
module BrillouinExact {
  import opened Reals
  import opened Vectors
  import opened Brillouin
  import opened BrillouinGlobal

  /** v + 2h, a vector of the class of v modulo two. */
  function Moved(v: Vector3, h: Vector3): Vector3 { v.Plus(h).Plus(h) }

  /** Another vector of the class, other than v and its opposite, is at most as long as v. */
  ghost predicate CoveredBy(g: Reciprocal, v: Vector3, h: Vector3) {
    Integral(h) && h != Zero3 && v.Plus(h) != Zero3 && Norm2(g, Moved(v, h)) <= Norm2(g, v)
  }

  ghost predicate Covered(g: Reciprocal, v: Vector3) { exists h :: CoveredBy(g, v, h) }

  /** A condition on the lattice alone. */
  ghost predicate StepsSuffice(g: Reciprocal) { forall v :: Integral(v) ==> Small(v) || Covered(g, v) }

  // ----- inner products

  function Inner(g: Reciprocal, u: Vector3, v: Vector3): real { g.G.Apply(u).Dot(g.G.Apply(v)) }

  lemma NormOfSum(g: Reciprocal, u: Vector3, v: Vector3)
    ensures Norm2(g, u.Plus(v)) == Norm2(g, u) + Norm2(g, v) + 2.0 * Inner(g, u, v)
  {
    hide Vector3.Dot, Matrix.Apply;
    GainIsDifference(g, u, v);
  }

  lemma InnerOfSum(g: Reciprocal, w: Vector3, u: Vector3, v: Vector3)
    ensures Inner(g, w, u.Plus(v)) == Inner(g, w, u) + Inner(g, w, v)
  {
    hide Vector3.Dot, Matrix.Apply;
    ApplyPlus(g.G, u, v);
    DotPlus(g.G.Apply(w), g.G.Apply(u), g.G.Apply(v));
  }

  lemma InnerCommutes(g: Reciprocal, u: Vector3, v: Vector3)
    ensures Inner(g, u, v) == Inner(g, v, u)
  {
    hide Vector3.Dot, Matrix.Apply;
    DotCommutes(g.G.Apply(u), g.G.Apply(v));
  }

  lemma InnerScale(g: Reciprocal, v: Vector3, s: real, u: Vector3)
    ensures Inner(g, v.Scale(s), u) == s * Inner(g, v, u)
  {
    hide Vector3.Dot, Matrix.Apply, Vector3.Scale;
    ApplyScale(g.G, v, s);
    DotScale(g.G.Apply(v), g.G.Apply(u), s);
    DotCommutes(g.G.Apply(v).Scale(s), g.G.Apply(u));
    DotCommutes(g.G.Apply(v), g.G.Apply(u));
  }

  lemma InnerOpposite(g: Reciprocal, v: Vector3, u: Vector3)
    ensures Inner(g, v, Opposite(u)) == -Inner(g, v, u)
    ensures Norm2(g, Opposite(u)) == Norm2(g, u)
  {
    hide Vector3.Dot, Matrix.Apply, Vector3.Scale;
    OppositeIsScale(u);
    InnerScale(g, u, -1.0, v);
    InnerCommutes(g, v, u);
    InnerCommutes(g, v, Opposite(u));
    InnerScale(g, u, -1.0, Opposite(u));
    InnerScale(g, u, -1.0, u);
    InnerCommutes(g, u, Opposite(u));
  }

  lemma OppositeIsScale(u: Vector3)
    ensures Opposite(u) == u.Scale(-1.0)
  {
  }

  /** Only the zero vector has length zero. */
  lemma NormSign(g: Reciprocal, v: Vector3)
    requires g.Valid()
    ensures Norm2(g, v) >= 0.0 && (v != Zero3 ==> Norm2(g, v) > 0.0)
  {
    hide Vector3.Dot, Matrix.Apply, Matrix.Mul;
    DotSelfSign(g.G.Apply(v));
    ApplyMul(g.H, g.G, v);
    ApplyIdentity(v);
    ApplyZero(g.H);
  }

  // ----- the condition suffices

  /** A covered vector is a sum of two shorter ones at an angle of at most ninety degrees. */
  lemma Split(g: Reciprocal, v: Vector3, h: Vector3)
    requires g.Valid() && CoveredBy(g, v, h)
    ensures var a, c := v.Plus(h), Opposite(h);
            a.Plus(c) == v && Norm2(g, a) < Norm2(g, v) && Norm2(g, c) < Norm2(g, v) && Inner(g, a, c) >= 0.0
  {
    hide Norm2, Inner, Integral;
    var a, c := v.Plus(h), Opposite(h);
    assert a.Plus(c) == v;
    NormOfSum(g, a, c);
    NormOfSum(g, a, h);
    InnerOpposite(g, a, h);
    NormSign(g, a);
    NormSign(g, h);
  }

  /** Where the condition holds, a point that no listed step improves gains nothing from any integer
      vector. */
  lemma {:induction false} NoGain(g: Reciprocal, k: Vector3, v: Vector3)
    requires g.Valid() && StepsSuffice(g) && Integral(v) && forall s :: s in TRY_LIST ==> LocalMin(g, k, s)
    ensures Norm2(g, v) + 2.0 * Inner(g, k, v) >= 0.0
    decreases Closer(g, v)
  {
    hide Norm2, Inner, Integral, Small, LocalMin, TRY_LIST;
    NormOfSum(g, k, v);
    if Small(v) {
      SmallStep(g, k, v);
    } else {
      var h :| CoveredBy(g, v, h);
      Split(g, v, h);
      var a, c := v.Plus(h), Opposite(h);
      IntegralSum(v, h);
      OppositeIntegral(h);
      IntegralSum(a, v);
      IntegralSum(c, v);
      CloserShrinks(g, v, a);
      CloserShrinks(g, v, c);
      NoGain(g, k, a);
      NoGain(g, k, c);
      NormOfSum(g, a, c);
      InnerOfSum(g, k, a, c);
    }
  }

  lemma SufficientSteps(g: Reciprocal, k: Vector3)
    requires g.Valid() && StepsSuffice(g) && forall s :: s in TRY_LIST ==> LocalMin(g, k, s)
    ensures GlobalMin(g, k)
  {
    hide Norm2, Inner, Integral, LocalMin, TRY_LIST, StepsSuffice;
    forall z: Vector3 | Integral(z) ensures Norm2(g, k.Plus(z)) >= Norm2(g, k) {
      NoGain(g, k, z);
      NormOfSum(g, k, z);
    }
  }

  // ----- and is necessary

  function Factor(e: real): real { -(0.5 + e) }

  /** The point a little more than half-way against v. */
  function Beyond(v: Vector3, e: real): Vector3 { v.Scale(Factor(e)) }

  /** What the step u gains there is no less than zero, for inner product i and squared norm n. */
  predicate NoLoss(n: real, i: real, e: real) { n - (1.0 + 2.0 * e) * i >= 0.0 }

  lemma BeyondGain(g: Reciprocal, v: Vector3, e: real, u: Vector3)
    ensures Norm2(g, Beyond(v, e).Plus(u)) >= Norm2(g, Beyond(v, e)) <==> NoLoss(Norm2(g, u), Inner(g, v, u), e)
  {
    hide Norm2, Inner, Vector3.Scale;
    NormOfSum(g, Beyond(v, e), u);
    InnerScale(g, v, Factor(e), u);
  }

  /** A step u other than zero and v costs something half-way against an uncovered v. */
  lemma UncoveredCost(g: Reciprocal, v: Vector3, u: Vector3)
    requires Integral(u) && !Covered(g, v) && u != Zero3 && u != v
    ensures Norm2(g, u) > Inner(g, v, u)
  {
    hide Norm2, Inner, Integral;
    var h := Opposite(u);
    OppositeIntegral(u);
    assert Opposite(h) == u;
    assert v.Plus(h) == v.Minus(u);
    assert !CoveredBy(g, v, h);
    NormOfSum(g, v, h.Plus(h));
    assert v.Plus(h.Plus(h)) == Moved(v, h);
    NormOfSum(g, h, h);
    NormIsInner(g, h);
    InnerOfSum(g, v, h, h);
    InnerOpposite(g, v, u);
  }

  lemma NormIsInner(g: Reciprocal, v: Vector3)
    ensures Norm2(g, v) == Inner(g, v, v)
  {
  }

  lemma Margin(n: real, i: real) returns (e: real)
    requires n > i && n >= 0.0
    ensures 0.0 < e <= 0.125 && NoLoss(n, i, e)
  {
    e := 0.125;
    if 2.0 * e * i > n - i {
      var q := (n - i) / (2.0 * i);
      assert q * (2.0 * i) == n - i;
      if q <= 0.0 {
        ProductSign(-q, 2.0 * i, (-q) * (2.0 * i));
      } else if q > 0.125 {
        ProductSign(q - 0.125, 2.0 * i, (q - 0.125) * (2.0 * i));
      }
      e := q;
    }
  }

  lemma SmallerMargin(n: real, i: real, e: real, d: real)
    requires 0.0 <= d <= e && NoLoss(n, i, e) && n >= 0.0
    ensures NoLoss(n, i, d)
  {
    if i >= 0.0 {
      ProductSign(e - d, i, (e - d) * i);
    } else {
      ProductSign(1.0 + 2.0 * d, -i, (1.0 + 2.0 * d) * (-i));
    }
  }

  /** One margin serves a finite set of steps. */
  lemma {:induction false} CommonMargin(g: Reciprocal, v: Vector3, steps: set<Vector3>) returns (e: real)
    requires g.Valid() && !Covered(g, v) && forall u :: u in steps ==> Integral(u)
    ensures 0.0 < e <= 0.125
    ensures forall u :: u in steps && u != v ==> NoLoss(Norm2(g, u), Inner(g, v, u), e)
    decreases |steps|
  {
    hide Norm2, Inner, Integral, NoLoss, Covered;
    if steps == {} {
      e := 0.125;
    } else {
      var s :| s in steps;
      var d := CommonMargin(g, v, steps - {s});
      e := d;
      if s != v {
        var c := StepMargin(g, v, s);
        e := if c < d then c else d;
        NormSign(g, s);
        SmallerMargin(Norm2(g, s), Inner(g, v, s), c, e);
      }
      forall u | u in steps && u != v ensures NoLoss(Norm2(g, u), Inner(g, v, u), e) {
        if u != s {
          NormSign(g, u);
          SmallerMargin(Norm2(g, u), Inner(g, v, u), d, e);
        }
      }
    }
  }

  lemma StepMargin(g: Reciprocal, v: Vector3, s: Vector3) returns (e: real)
    requires g.Valid() && !Covered(g, v) && Integral(s) && s != v
    ensures 0.0 < e <= 0.125 && NoLoss(Norm2(g, s), Inner(g, v, s), e)
  {
    hide Norm2, Inner, Integral, Covered, NoLoss;
    if s == Zero3 {
      ZeroCosts(g, v);
      e := Margin(0.0, -1.0);
      ZeroNoLoss(e);
    } else {
      UncoveredCost(g, v, s);
      NormSign(g, s);
      e := Margin(Norm2(g, s), Inner(g, v, s));
    }
  }

  lemma ZeroCosts(g: Reciprocal, v: Vector3)
    ensures Norm2(g, Zero3) == 0.0 && Inner(g, v, Zero3) == 0.0
  {
    ApplyZero(g.G);
    ZeroDots(g.G.Apply(v));
  }

  lemma ZeroDots(w: Vector3)
    ensures w.Dot(Zero3) == 0.0
  {
  }

  lemma ZeroNoLoss(e: real)
    ensures NoLoss(0.0, 0.0, e)
  {
  }

  // ----- the steps that matter: the listed ones and the rounding

  function Grid3(i: int, j: int, l: int): Vector3 { Vector3(i as real, j as real, l as real) }

  ghost function StepsWithin(b: nat): set<Vector3> {
    set i: int, j: int, l: int | -(b as int) <= i <= b && -(b as int) <= j <= b && -(b as int) <= l <= b :: Grid3(i, j, l)
  }

  lemma StepIn(b: nat, u: Vector3)
    requires Integral(u) && -(b as real) <= u.x <= b as real && -(b as real) <= u.y <= b as real && -(b as real) <= u.z <= b as real
    ensures u in StepsWithin(b)
  {
    assert u == Grid3(u.x.Floor, u.y.Floor, u.z.Floor);
  }

  lemma StepsAreIntegral(b: nat)
    ensures forall u :: u in StepsWithin(b) ==> Integral(u)
  {
  }

  function Extent(v: Vector3): nat {
    var s := Abs(v.x) + Abs(v.y) + Abs(v.z);
    s.Floor
  }

  lemma ExtentBounds(v: Vector3)
    requires Integral(v) && !Small(v)
    ensures Extent(v) as real == Abs(v.x) + Abs(v.y) + Abs(v.z) && Extent(v) >= 2
    ensures Abs(v.x) >= 2.0 || Abs(v.y) >= 2.0 || Abs(v.z) >= 2.0
  {
    IntSize(v.x);
    IntSize(v.y);
    IntSize(v.z);
    IntSum(Abs(v.x), Abs(v.y));
    IntSum(Abs(v.x) + Abs(v.y), Abs(v.z));
  }

  lemma IntSize(x: real)
    requires IsInt(x)
    ensures IsInt(Abs(x)) && (Entry(x) || Abs(x) >= 2.0)
  {
    FloorOf(Abs(x), if x < 0.0 then -x.Floor else x.Floor);
  }

  function Against(x: real, e: real): real { x * Factor(e) }

  lemma BeyondParts(v: Vector3, e: real)
    ensures Beyond(v, e) == Vector3(Against(v.x, e), Against(v.y, e), Against(v.z, e))
  {
    hide Factor;
  }

  lemma RoundSize(x: real, e: real)
    requires 0.0 < e <= 0.125
    ensures var r := Round(Against(x, e)) as real;
            Abs(r) <= 0.625 * Abs(x) + 0.5 && (Abs(x) >= 2.0 ==> Abs(r) < Abs(x))
  {
    var p := Against(x, e);
    SizeOfProduct(x, 0.5 + e, p);
  }

  lemma SizeOfProduct(x: real, f: real, p: real)
    requires 0.5 <= f <= 0.625 && p == x * (-f)
    ensures Abs(p) <= 0.625 * Abs(x)
  {
    if x >= 0.0 {
      ProductSign(x, 0.625 - f, x * (0.625 - f));
      ProductSign(x, f, x * f);
    } else {
      ProductSign(-x, 0.625 - f, (-x) * (0.625 - f));
      ProductSign(-x, f, (-x) * f);
    }
  }

  /** The step that rounding takes from there. */
  function RoundingStep(k: Vector3): Vector3 { Vector3(-Round(k.x) as real, -Round(k.y) as real, -Round(k.z) as real) }

  lemma RoundingStepFits(v: Vector3, e: real)
    requires Integral(v) && !Small(v) && 0.0 < e <= 0.125
    ensures var k := Beyond(v, e);
            var z := RoundingStep(k);
            Rounded(k) == k.Plus(z) && z in StepsWithin(Extent(v)) && z != v
  {
    hide Round, StepsWithin, Integral, Small, Extent, Against, Beyond;
    var k := Beyond(v, e);
    var z := RoundingStep(k);
    BeyondParts(v, e);
    ExtentBounds(v);
    RoundSize(v.x, e);
    RoundSize(v.y, e);
    RoundSize(v.z, e);
    StepIntegral(k);
    StepIn(Extent(v), z);
  }

  lemma StepIntegral(k: Vector3)
    ensures Integral(RoundingStep(k))
  {
    FloorOf(-Round(k.x) as real, -Round(k.x));
    FloorOf(-Round(k.y) as real, -Round(k.y));
    FloorOf(-Round(k.z) as real, -Round(k.z));
  }

  lemma SmallSteps(u: Vector3, b: nat)
    requires Small(u) && b >= 2
    ensures u in StepsWithin(b)
  {
    assert IsInt(1.0) && IsInt(0.0) && IsInt(-1.0);
    StepIn(b, u);
  }

  /** An uncovered vector gives a point that the function returns although v brings it closer. */
  lemma Stuck(g: Reciprocal, v: Vector3) returns (k: Vector3)
    requires g.Valid() && Integral(v) && !Small(v) && !Covered(g, v)
    ensures FirstZone(g, k) == k && !GlobalMin(g, k)
  {
    hide Norm2, Inner, Integral, Small, Covered, StepsWithin, NoLoss, Rounded, Extent, FirstZone, TRY_LIST;
    StepsAreIntegral(Extent(v));
    var e := CommonMargin(g, v, StepsWithin(Extent(v)));
    k := Beyond(v, e);
    RoundingStepFits(v, e);
    BeyondGain(g, v, e, RoundingStep(k));
    ExtentBounds(v);
    forall s | s in TRY_LIST ensures LocalMin(g, k, s) {
      ListIsSmall(s);
      SmallSteps(s, Extent(v));
      SmallSteps(Opposite(s), Extent(v));
      BeyondGain(g, v, e, s);
      BeyondGain(g, v, e, Opposite(s));
    }
    StaysThere(g, k);
    BeyondCloser(g, v, e);
  }

  lemma StaysThere(g: Reciprocal, k: Vector3)
    requires g.Valid() && Norm2(g, Rounded(k)) >= Norm2(g, k) && forall s :: s in TRY_LIST ==> LocalMin(g, k, s)
    ensures FirstZone(g, k) == k
  {
    hide Norm2, Rounded, LocalMin, TRY_LIST;
  }

  lemma BeyondCloser(g: Reciprocal, v: Vector3, e: real)
    requires g.Valid() && Integral(v) && !Small(v) && 0.0 < e
    ensures !GlobalMin(g, Beyond(v, e))
  {
    hide Norm2, Inner, Integral;
    assert v != Zero3;
    NormSign(g, v);
    NormIsInner(g, v);
    BeyondGain(g, v, e, v);
    ProductSign(2.0 * e, Norm2(g, v), 2.0 * e * Norm2(g, v));
  }

  /** The result is in the first Brillouin zone for every k-point if and only if the lattice meets
      the condition. */
  lemma FirstZoneIsGlobalIff(g: Reciprocal)
    requires g.Valid()
    ensures (forall k :: GlobalMin(g, FirstZone(g, k))) <==> StepsSuffice(g)
  {
    hide Norm2, Integral, Small, Covered, LocalMin, TRY_LIST, GlobalMin;
    if StepsSuffice(g) {
      forall k ensures GlobalMin(g, FirstZone(g, k)) {
        SufficientSteps(g, FirstZone(g, k));
      }
    } else {
      var v :| Integral(v) && !Small(v) && !Covered(g, v);
      var k := Stuck(g, v);
      assert !GlobalMin(g, FirstZone(g, k));
    }
  }

  /** Reduced lattices meet it. */
  lemma ReducedSuffices(g: Reciprocal, U: Matrix, W: Matrix)
    requires g.Valid() && Reduced(g, U, W)
    ensures StepsSuffice(g)
  {
    hide GlobalMin, Reduced, StepsSuffice, FirstZone;
    forall k ensures GlobalMin(g, FirstZone(g, k)) {
      FirstZoneIsGlobal(g, k, U, W);
    }
    FirstZoneIsGlobalIff(g);
  }

  // ----- the condition is a finite test

  function Residue(x: real): real { (x.Floor % 2) as real }

  /** Minus half of a whole number, rounded. */
  function Halved(x: real): real { -(x.Floor / 2) as real }

  lemma HalvedIs(x: real)
    requires IsInt(x)
    ensures x + Halved(x) + Halved(x) == Residue(x) && IsInt(Halved(x))
    ensures Halved(x) == 0.0 || x + Halved(x) == 0.0 ==> Entry(x)
  {
    var i := x.Floor;
    FloorOf(Halved(x), -(i / 2));
    assert i == 2 * (i / 2) + i % 2;
  }

  /** The representative of v's class modulo two, one of eight vectors of zeros and ones. */
  function Parity(v: Vector3): Vector3 { Vector3(Residue(v.x), Residue(v.y), Residue(v.z)) }

  /** A vector no shorter than the representative of its class is covered by it. */
  lemma ParityCovers(g: Reciprocal, v: Vector3)
    requires Integral(v) && !Small(v) && Norm2(g, Parity(v)) <= Norm2(g, v)
    ensures Covered(g, v)
  {
    hide Norm2, Residue, Halved, Entry;
    var h := Vector3(Halved(v.x), Halved(v.y), Halved(v.z));
    HalvedIs(v.x);
    HalvedIs(v.y);
    HalvedIs(v.z);
    assert Moved(v, h) == Parity(v);
    assert CoveredBy(g, v, h);
  }

  /** Only the finitely many vectors shorter than the representative of their class need a look. */
  lemma FiniteTest(g: Reciprocal)
    requires g.Valid()
    ensures StepsSuffice(g) <==> forall v :: Integral(v) && v in Closer(g, Parity(v)) ==> Small(v) || Covered(g, v)
  {
    hide Norm2, Integral, Small, Covered, Closer, Parity;
    if forall v :: Integral(v) && v in Closer(g, Parity(v)) ==> Small(v) || Covered(g, v) {
      forall v | Integral(v) ensures Small(v) || Covered(g, v) {
        if !Small(v) && Norm2(g, v) < Norm2(g, Parity(v)) {
          ParityIntegral(v);
          IntegralSum(v, Parity(v));
          CloserIff(g, Parity(v), v);
        } else if !Small(v) {
          ParityCovers(g, v);
        }
      }
    }
  }

  lemma ParityIntegral(v: Vector3)
    ensures Integral(Parity(v)) && Small(Parity(v))
  {
    FloorOf(Residue(v.x), v.x.Floor % 2);
    FloorOf(Residue(v.y), v.y.Floor % 2);
    FloorOf(Residue(v.z), v.z.Floor % 2);
  }
}
