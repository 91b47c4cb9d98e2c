/** When the local minimum that first_brillouin_zone stops at is a point of the first Brillouin
    zone, that is, at least as close to the origin as every one of its lattice translates. */
module BrillouinGlobal {
  import opened Reals
  import opened Vectors
  import opened Brillouin

  ghost predicate GlobalMin(g: Reciprocal, k: Vector3) {
    forall z: Vector3 :: Integral(z) ==> Norm2(g, k.Plus(z)) >= Norm2(g, k)
  }

  // ----- the listed steps are all the steps with entries -1, 0, 1

  predicate Entry(x: real) { x == -1.0 || x == 0.0 || x == 1.0 }

  predicate Small(u: Vector3) { Entry(u.x) && Entry(u.y) && Entry(u.z) }

  lemma SmallIsListed(u: Vector3)
    requires Small(u)
    ensures u == Zero3 || u in TRY_LIST || Opposite(u) in TRY_LIST
  {
    ListEntries();
    SmallCases(u);
  }

  predicate Listed(v: Vector3) { v in TRY_LIST }

  predicate HasSteps() {
    && Listed(Vector3(1.0, 0.0, 0.0)) && Listed(Vector3(0.0, 1.0, 0.0)) && Listed(Vector3(0.0, 0.0, 1.0))
    && Listed(Vector3(0.0, 1.0, 1.0)) && Listed(Vector3(1.0, 0.0, 1.0)) && Listed(Vector3(1.0, 1.0, 0.0))
    && Listed(Vector3(0.0, 1.0, -1.0)) && Listed(Vector3(1.0, 0.0, -1.0)) && Listed(Vector3(1.0, -1.0, 0.0))
    && Listed(Vector3(1.0, 1.0, 1.0)) && Listed(Vector3(-1.0, 1.0, 1.0))
    && Listed(Vector3(1.0, -1.0, 1.0)) && Listed(Vector3(1.0, 1.0, -1.0))
  }

  lemma ListEntries()
    ensures HasSteps()
  {
    var t := TRY_LIST;
    assert t[0] in t && t[1] in t && t[2] in t && t[3] in t && t[4] in t && t[5] in t && t[6] in t
        && t[7] in t && t[8] in t && t[9] in t && t[10] in t && t[11] in t && t[12] in t;
  }

  lemma SmallCases(u: Vector3)
    requires Small(u) && HasSteps()
    ensures u == Zero3 || Listed(u) || Listed(Opposite(u))
  {
    hide HasSteps, Listed;
    var v := Opposite(u);
    assert Opposite(v) == u;
    if u.x == 1.0 {
      assert u == Vector3(1.0, u.y, u.z);
      assert v == Vector3(-1.0, -u.y, -u.z);
      FirstIsOne(u.y, u.z);
    } else if u.x == -1.0 {
      assert v == Vector3(1.0, -u.y, -u.z);
      assert u == Vector3(-1.0, u.y, u.z);
      var y, z := -u.y, -u.z;
      FirstIsOne(y, z);
      assert -y == u.y && -z == u.z;
    } else if u.y == 1.0 {
      SecondIsOne(u.z);
      assert u == Vector3(0.0, 1.0, u.z);
    } else if u.y == -1.0 {
      SecondIsOne(-u.z);
      assert v == Vector3(0.0, 1.0, -u.z);
    } else {
      ThirdIsOne();
      if u.z == 1.0 {
        assert u == Vector3(0.0, 0.0, 1.0);
      } else if u.z == -1.0 {
        assert v == Vector3(0.0, 0.0, 1.0);
      } else {
        assert u == Zero3;
      }
    }
  }

  lemma FirstIsOne(y: real, z: real)
    requires Entry(y) && Entry(z) && HasSteps()
    ensures Listed(Vector3(1.0, y, z)) || Listed(Vector3(-1.0, -y, -z))
  {
    hide Listed;
    if y == -1.0 && z == -1.0 {
      assert -y == 1.0 && -z == 1.0;
    }
  }

  lemma SecondIsOne(z: real)
    requires Entry(z) && HasSteps()
    ensures Listed(Vector3(0.0, 1.0, z))
  {
    hide Listed;
  }

  lemma ThirdIsOne()
    requires HasSteps()
    ensures Listed(Vector3(0.0, 0.0, 1.0))
  {
  }

  lemma SmallStep(g: Reciprocal, k: Vector3, u: Vector3)
    requires Small(u) && forall v :: v in TRY_LIST ==> LocalMin(g, k, v)
    ensures Norm2(g, k.Plus(u)) >= Norm2(g, k)
  {
    hide Norm2;
    SmallIsListed(u);
    assert Opposite(Opposite(u)) == u;
    assert k.Plus(Zero3) == k;
  }

  // ----- gain of a step, as a function of the Cartesian step

  /** |w + s|^2 - |w|^2. */
  function Gain(w: Vector3, s: Vector3): real { 2.0 * w.Dot(s) + s.Dot(s) }

  lemma GainIsDifference(g: Reciprocal, k: Vector3, z: Vector3)
    ensures Norm2(g, k.Plus(z)) - Norm2(g, k) == Gain(g.G.Apply(k), g.G.Apply(z))
  {
    hide Vector3.Dot, Matrix.Apply;
    var w, s := g.G.Apply(k), g.G.Apply(z);
    ApplyPlus(g.G, k, z);
    DotPlus(w.Plus(s), w, s);
    DotCommutes(w.Plus(s), w);
    DotCommutes(w.Plus(s), s);
    DotPlus(w, w, s);
    DotPlus(s, w, s);
    DotCommutes(s, w);
  }

  lemma GainOfSum(w: Vector3, s: Vector3, t: Vector3)
    ensures Gain(w, s.Plus(t)) == Gain(w, s) + Gain(w, t) + 2.0 * s.Dot(t)
  {
    hide Vector3.Dot;
    DotPlus(w, s, t);
    DotPlus(s.Plus(t), s, t);
    DotCommutes(s.Plus(t), s);
    DotCommutes(s.Plus(t), t);
    DotPlus(s, s, t);
    DotPlus(t, s, t);
    DotCommutes(s, t);
  }

  // ----- obtuse superbases

  /** The columns of B and minus their sum meet pairwise at angles of at least ninety degrees. */
  predicate Obtuse(B: Matrix) {
    && B.c1.Dot(B.c2) <= 0.0 && B.c1.Dot(B.c3) <= 0.0 && B.c2.Dot(B.c3) <= 0.0
    && B.c1.Dot(B.c1) + B.c1.Dot(B.c2) + B.c1.Dot(B.c3) >= 0.0
    && B.c1.Dot(B.c2) + B.c2.Dot(B.c2) + B.c2.Dot(B.c3) >= 0.0
    && B.c1.Dot(B.c3) + B.c2.Dot(B.c3) + B.c3.Dot(B.c3) >= 0.0
  }

  /** Selling's formula: the inner product of two combinations as a sum over pairs of the superbase. */
  lemma Selling(B: Matrix, u: Vector3, v: Vector3)
    requires Obtuse(B)
    requires Agree(u.x, u.y, v.x, v.y) && Agree(u.x, u.z, v.x, v.z) && Agree(u.y, u.z, v.y, v.z)
    requires Agree(u.x, 0.0, v.x, 0.0) && Agree(u.y, 0.0, v.y, 0.0) && Agree(u.z, 0.0, v.z, 0.0)
    ensures B.Apply(u).Dot(B.Apply(v)) >= 0.0
  {
    hide Vector3.Dot, Matrix.Apply, Together;
    var a, b, c, d, e, f := B.c1.Dot(B.c1), B.c2.Dot(B.c2), B.c3.Dot(B.c3),
                            B.c1.Dot(B.c2), B.c1.Dot(B.c3), B.c2.Dot(B.c3);
    DotWithCombination(B.Apply(u), B, v);
    DotCommutes(B.Apply(u), B.c1);
    DotCommutes(B.Apply(u), B.c2);
    DotCommutes(B.Apply(u), B.c3);
    DotWithCombination(B.c1, B, u);
    DotWithCombination(B.c2, B, u);
    DotWithCombination(B.c3, B, u);
    DotCommutes(B.c1, B.c2);
    DotCommutes(B.c1, B.c3);
    DotCommutes(B.c2, B.c3);
    SellingScalars(a, b, c, d, e, f, u, v);
  }

  /** The product of two differences, and that it is not negative. */
  function Together(p: real, q: real, r: real, s: real): real { (p - q) * (r - s) }

  predicate Agree(p: real, q: real, r: real, s: real) { Together(p, q, r, s) >= 0.0 }

  function SixTerms(a: real, b: real, c: real, d: real, e: real, f: real,
                    u: real, v: real, w: real, x: real, y: real, z: real): real {
    a * u + b * v + c * w + d * x + e * y + f * z
  }

  lemma SixTermsSign(a: real, b: real, c: real, d: real, e: real, f: real,
                     u: real, v: real, w: real, x: real, y: real, z: real)
    requires a >= 0.0 && b >= 0.0 && c >= 0.0 && d >= 0.0 && e >= 0.0 && f >= 0.0
    requires u >= 0.0 && v >= 0.0 && w >= 0.0 && x >= 0.0 && y >= 0.0 && z >= 0.0
    ensures SixTerms(a, b, c, d, e, f, u, v, w, x, y, z) >= 0.0
  {
    ProductSign(a, u, a * u);
    ProductSign(b, v, b * v);
    ProductSign(c, w, c * w);
    ProductSign(d, x, d * x);
    ProductSign(e, y, e * y);
    ProductSign(f, z, f * z);
  }

  lemma SellingScalars(a: real, b: real, c: real, d: real, e: real, f: real, u: Vector3, v: Vector3)
    requires d <= 0.0 && e <= 0.0 && f <= 0.0
    requires a + d + e >= 0.0 && d + b + f >= 0.0 && e + f + c >= 0.0
    requires Agree(u.x, u.y, v.x, v.y) && Agree(u.x, u.z, v.x, v.z) && Agree(u.y, u.z, v.y, v.z)
    requires Agree(u.x, 0.0, v.x, 0.0) && Agree(u.y, 0.0, v.y, 0.0) && Agree(u.z, 0.0, v.z, 0.0)
    ensures (a * u.x + d * u.y + e * u.z) * v.x + (d * u.x + b * u.y + f * u.z) * v.y
            + (e * u.x + f * u.y + c * u.z) * v.z >= 0.0
  {
    hide SixTerms, Together;
    SellingIdentity(a, b, c, d, e, f, u.x, u.y, u.z, v.x, v.y, v.z);
    SixTermsSign(a + d + e, d + b + f, e + f + c, -d, -e, -f,
                 Together(u.x, 0.0, v.x, 0.0), Together(u.y, 0.0, v.y, 0.0), Together(u.z, 0.0, v.z, 0.0),
                 Together(u.x, u.y, v.x, v.y), Together(u.x, u.z, v.x, v.z), Together(u.y, u.z, v.y, v.z));
  }

  lemma SellingIdentity(a: real, b: real, c: real, d: real, e: real, f: real,
                        p: real, q: real, r: real, s: real, t: real, w: real)
    ensures (a * p + d * q + e * r) * s + (d * p + b * q + f * r) * t + (e * p + f * q + c * r) * w
         == SixTerms(a + d + e, d + b + f, e + f + c, -d, -e, -f,
                     Together(p, 0.0, s, 0.0), Together(q, 0.0, t, 0.0), Together(r, 0.0, w, 0.0),
                     Together(p, q, s, t), Together(p, r, s, w), Together(q, r, t, w))
  {
    hide SixTerms, Together;
    ExpandForm(a, b, c, d, e, f, p, q, r, s, t, w, p * s, q * t, r * w, p * t + q * s, p * w + r * s, q * w + r * t);
    CrossTerms(p, q, s, t, p * s, q * t, p * t + q * s);
    CrossTerms(p, r, s, w, p * s, r * w, p * w + r * s);
    CrossTerms(q, r, t, w, q * t, r * w, q * w + r * t);
    TogetherZero(p, s, p * s);
    TogetherZero(q, t, q * t);
    TogetherZero(r, w, r * w);
    Regroup(a, b, c, d, e, f, p * s, q * t, r * w, Together(p, q, s, t), Together(p, r, s, w), Together(q, r, t, w));
  }

  lemma TogetherZero(p: real, r: real, x: real)
    requires x == p * r
    ensures Together(p, 0.0, r, 0.0) == x
  {
  }

  lemma CrossTerms(p: real, q: real, s: real, t: real, x: real, y: real, n: real)
    requires x == p * s && y == q * t && n == p * t + q * s
    ensures n == x + y - Together(p, q, s, t)
  {
  }

  lemma ExpandForm(a: real, b: real, c: real, d: real, e: real, f: real,
                   p: real, q: real, r: real, s: real, t: real, w: real,
                   x: real, y: real, z: real, k: real, l: real, m: real)
    requires x == p * s && y == q * t && z == r * w
    requires k == p * t + q * s && l == p * w + r * s && m == q * w + r * t
    ensures (a * p + d * q + e * r) * s + (d * p + b * q + f * r) * t + (e * p + f * q + c * r) * w
         == SixTerms(a, b, c, d, e, f, x, y, z, k, l, m)
  {
    assert (a * p + d * q + e * r) * s + (d * p + b * q + f * r) * t + (e * p + f * q + c * r) * w
        == a * (p * s) + b * (q * t) + c * (r * w) + d * (p * t + q * s) + e * (p * w + r * s) + f * (q * w + r * t);
  }

  lemma Regroup(a: real, b: real, c: real, d: real, e: real, f: real,
                x: real, y: real, z: real, k: real, l: real, m: real)
    ensures SixTerms(a, b, c, d, e, f, x, y, z, x + y - k, x + z - l, y + z - m)
         == SixTerms(a + d + e, d + b + f, e + f + c, -d, -e, -f, x, y, z, k, l, m)
  {
  }

  // ----- chains of subsets

  /** A combination a0*b0 + a1*b1 + a2*b2 + a3*b3 of the superbase, in the coordinates of b1, b2, b3. */
  function Vec(a0: nat, a1: nat, a2: nat, a3: nat): Vector3 {
    Vector3((a1 - a0) as real, (a2 - a0) as real, (a3 - a0) as real)
  }

  function One(a: nat): nat { if a > 0 then 1 else 0 }

  function Less(a: nat): nat { if a > 0 then a - 1 else 0 }

  /** No sum over a subset of the superbase brings w closer to the origin. */
  ghost predicate NoSubsetGains(B: Matrix, w: Vector3) {
    forall i0: nat, i1: nat, i2: nat, i3: nat :: i0 <= 1 && i1 <= 1 && i2 <= 1 && i3 <= 1 ==>
      Gain(w, B.Apply(Vec(i0, i1, i2, i3))) >= 0.0
  }

  lemma LayersAgree(a: nat, b: nat)
    ensures Agree(One(a) as real, One(b) as real, Less(a) as real, Less(b) as real)
  {
    var p, q := One(a) as real - One(b) as real, Less(a) as real - Less(b) as real;
    ProductSign(p, q, p * q);
    ProductSign(-p, -q, p * q);
  }

  lemma AgreeShift(p: real, q: real, r: real, s: real, p': real, q': real, r': real, s': real)
    requires Agree(p, q, r, s) && p' - q' == p - q && r' - s' == r - s
    ensures Agree(p', q', r', s')
  {
  }

  /** Peeling off the support of a combination: the layers never work against each other. */
  lemma {:induction false} CombinationGains(B: Matrix, w: Vector3, a0: nat, a1: nat, a2: nat, a3: nat)
    requires Obtuse(B) && NoSubsetGains(B, w)
    ensures Gain(w, B.Apply(Vec(a0, a1, a2, a3))) >= 0.0
    decreases a0 + a1 + a2 + a3
  {
    hide Vector3.Dot, Matrix.Apply, Gain, Obtuse, Agree;
    if a0 <= 1 && a1 <= 1 && a2 <= 1 && a3 <= 1 {
    } else {
      var s, t := Vec(One(a0), One(a1), One(a2), One(a3)), Vec(Less(a0), Less(a1), Less(a2), Less(a3));
      assert Vec(a0, a1, a2, a3) == s.Plus(t);
      CombinationGains(B, w, Less(a0), Less(a1), Less(a2), Less(a3));
      assert Gain(w, B.Apply(s)) >= 0.0;
      ApplyPlus(B, s, t);
      GainOfSum(w, B.Apply(s), B.Apply(t));
      LayersMeet(a0, a1, a2, a3);
      Selling(B, s, t);
    }
  }

  lemma LayersMeet(a0: nat, a1: nat, a2: nat, a3: nat)
    ensures var s, t := Vec(One(a0), One(a1), One(a2), One(a3)), Vec(Less(a0), Less(a1), Less(a2), Less(a3));
            && Agree(s.x, s.y, t.x, t.y) && Agree(s.x, s.z, t.x, t.z) && Agree(s.y, s.z, t.y, t.z)
            && Agree(s.x, 0.0, t.x, 0.0) && Agree(s.y, 0.0, t.y, 0.0) && Agree(s.z, 0.0, t.z, 0.0)
  {
    hide Agree;
    var s, t := Vec(One(a0), One(a1), One(a2), One(a3)), Vec(Less(a0), Less(a1), Less(a2), Less(a3));
    LayersAgree(a1, a2);
    LayersAgree(a1, a3);
    LayersAgree(a2, a3);
    LayersAgree(a1, a0);
    LayersAgree(a2, a0);
    LayersAgree(a3, a0);
    AgreeShift(One(a1) as real, One(a2) as real, Less(a1) as real, Less(a2) as real, s.x, s.y, t.x, t.y);
    AgreeShift(One(a1) as real, One(a3) as real, Less(a1) as real, Less(a3) as real, s.x, s.z, t.x, t.z);
    AgreeShift(One(a2) as real, One(a3) as real, Less(a2) as real, Less(a3) as real, s.y, s.z, t.y, t.z);
    AgreeShift(One(a1) as real, One(a0) as real, Less(a1) as real, Less(a0) as real, s.x, 0.0, t.x, 0.0);
    AgreeShift(One(a2) as real, One(a0) as real, Less(a2) as real, Less(a0) as real, s.y, 0.0, t.y, 0.0);
    AgreeShift(One(a3) as real, One(a0) as real, Less(a3) as real, Less(a0) as real, s.z, 0.0, t.z, 0.0);
  }

  // ----- the theorem

  /** U changes to a basis of the same integer lattice whose superbase is obtuse and whose subset
      sums are all among the tried steps. U = Identity covers bases that are obtuse as given. */
  ghost predicate Reduced(g: Reciprocal, U: Matrix, W: Matrix) {
    && U.Mul(W) == Identity
    && Integral(W.c1) && Integral(W.c2) && Integral(W.c3)
    && Obtuse(g.G.Mul(U))
    && forall i0: nat, i1: nat, i2: nat, i3: nat :: i0 <= 1 && i1 <= 1 && i2 <= 1 && i3 <= 1 ==>
         Small(U.Apply(Vec(i0, i1, i2, i3)))
  }

  lemma IntegralApply(W: Matrix, z: Vector3)
    requires Integral(W.c1) && Integral(W.c2) && Integral(W.c3) && Integral(z)
    ensures Integral(W.Apply(z))
  {
    RowIntegral(W.Row0(), z);
    RowIntegral(W.Row1(), z);
    RowIntegral(W.Row2(), z);
  }

  lemma RowIntegral(r: Vector3, z: Vector3)
    requires Integral(r) && Integral(z)
    ensures IsInt(r.Dot(z))
  {
    hide Vector3.Dot;
    DotComponents(r, z, r.x, r.y, r.z, z.x, z.y, z.z);
    var p, q, s := r.x * z.x, r.y * z.y, r.z * z.z;
    IntProduct(r.x, z.x, p);
    IntProduct(r.y, z.y, q);
    IntProduct(r.z, z.z, s);
    IntSum(p, q);
    IntSum(p + q, s);
  }

  lemma IntProduct(x: real, y: real, p: real)
    requires IsInt(x) && IsInt(y) && p == x * y
    ensures IsInt(p)
  {
    var a, b := x.Floor, y.Floor;
    IntCastProduct(a, b, x, y);
    FloorOf(p, a * b);
  }

  lemma IntCastProduct(a: int, b: int, x: real, y: real)
    requires x == a as real && y == b as real
    ensures x * y == (a * b) as real
  {
    assert a as real * b as real == (a * b) as real;
  }

  lemma AsCombination(z: Vector3) returns (a0: nat, a1: nat, a2: nat, a3: nat)
    requires Integral(z)
    ensures z == Vec(a0, a1, a2, a3)
  {
    var i, j, l := z.x.Floor, z.y.Floor, z.z.Floor;
    var m := if i < j then i else j;
    m := if l < m then l else m;
    a0 := if m < 0 then -m else 0;
    a1, a2, a3 := a0 + i, a0 + j, a0 + l;
  }

  /** For reduced lattices a point that no listed step improves is closest to the origin among
      all its lattice translates. */
  lemma LocalIsGlobal(g: Reciprocal, k: Vector3, U: Matrix, W: Matrix)
    requires Reduced(g, U, W)
    requires forall v :: v in TRY_LIST ==> LocalMin(g, k, v)
    ensures GlobalMin(g, k)
  {
    hide Norm2, Vec, Small, Obtuse, Gain, Matrix.Apply, Integral, LocalMin;
    var B, w := g.G.Mul(U), g.G.Apply(k);
    forall i0: nat, i1: nat, i2: nat, i3: nat | i0 <= 1 && i1 <= 1 && i2 <= 1 && i3 <= 1
      ensures Gain(w, B.Apply(Vec(i0, i1, i2, i3))) >= 0.0
    {
      var u := U.Apply(Vec(i0, i1, i2, i3));
      SmallStep(g, k, u);
      GainIsDifference(g, k, u);
      ApplyMul(g.G, U, Vec(i0, i1, i2, i3));
    }
    forall z: Vector3 | Integral(z) ensures Norm2(g, k.Plus(z)) >= Norm2(g, k) {
      IntegralApply(W, z);
      var a0, a1, a2, a3 := AsCombination(W.Apply(z));
      CombinationGains(B, w, a0, a1, a2, a3);
      ApplyMul(U, W, z);
      ApplyIdentity(z);
      ApplyMul(g.G, U, W.Apply(z));
      GainIsDifference(g, k, z);
    }
  }

  /** The documented promise, for reduced lattices: the result is in the first Brillouin zone. */
  lemma FirstZoneIsGlobal(g: Reciprocal, k: Vector3, U: Matrix, W: Matrix)
    requires g.Valid() && Reduced(g, U, W)
    ensures Integral(FirstZone(g, k).Minus(k)) && GlobalMin(g, FirstZone(g, k))
  {
    LocalIsGlobal(g, FirstZone(g, k), U, W);
  }

  /** A basis that is obtuse as given needs no change; orthogonal lattices are of this kind. */
  lemma ObtuseIsReduced(g: Reciprocal)
    requires Obtuse(g.G)
    ensures Reduced(g, Identity, Identity)
  {
    hide Obtuse, Matrix.Mul, Matrix.Apply, Small;
    MulIdentity(Identity);
    MulIdentity(g.G);
    assert IsInt(0.0) && IsInt(1.0);
    forall i0: nat, i1: nat, i2: nat, i3: nat | i0 <= 1 && i1 <= 1 && i2 <= 1 && i3 <= 1
      ensures Small(Identity.Apply(Vec(i0, i1, i2, i3)))
    {
      ApplyIdentity(Vec(i0, i1, i2, i3));
      UnitVec(i0, i1, i2, i3);
    }
  }

  lemma UnitVec(i0: nat, i1: nat, i2: nat, i3: nat)
    requires i0 <= 1 && i1 <= 1 && i2 <= 1 && i3 <= 1
    ensures Small(Vec(i0, i1, i2, i3))
  {
  }

  // ----- the promise fails for skewed bases

  /** Reciprocal vectors (1,0,0), (2.5,1,0), (0,0,1) and the inverse map. */
  const SKEWED := Reciprocal(
    Matrix(Vector3(1.0, 0.0, 0.0), Vector3(2.5, 1.0, 0.0), Vector3(0.0, 0.0, 1.0)),
    Matrix(Vector3(1.0, 0.0, 0.0), Vector3(-2.5, 1.0, 0.0), Vector3(0.0, 0.0, 1.0)))

  const STUCK := Vector3(-1.125, 0.55, 0.0)

  lemma SkewedNorm(x: real, y: real, z: real)
    ensures Norm2(SKEWED, Vector3(x, y, z)) == (x + 2.5 * y) * (x + 2.5 * y) + y * y + z * z
  {
    var k, w := Vector3(x, y, z), Vector3(x + 2.5 * y, y, z);
    assert SKEWED.G.Apply(k) == w;
    DotComponents(w, w, w.x, w.y, w.z, w.x, w.y, w.z);
  }

  lemma SkewedStep(v: Vector3)
    requires Small(v)
    ensures Norm2(SKEWED, STUCK.Plus(v)) >= Norm2(SKEWED, STUCK)
  {
    hide Norm2;
    SkewedNorm(-1.125, 0.55, 0.0);
    SkewedNorm(-1.125 + v.x, 0.55 + v.y, 0.0 + v.z);
    var a, b := 0.25 + v.x + 2.5 * v.y, 0.55 + v.y;
    SquareSign(v.z, v.z * v.z);
    SquareSign(a, a * a);
    assert STUCK.Plus(v) == Vector3(-1.125 + v.x, 0.55 + v.y, 0.0 + v.z);
    SkewedCases(v.x, v.y, a, b, (0.0 + v.z) * (0.0 + v.z));
  }

  lemma SkewedCases(p: real, q: real, a: real, b: real, c: real)
    requires Entry(p) && Entry(q) && a == 0.25 + p + 2.5 * q && b == 0.55 + q && c >= 0.0
    ensures a * a + b * b + c >= 0.365
  {
    if q == 1.0 {
      assert b == 1.55;
    } else if q == 0.0 {
      assert b == 0.55 && (a == -0.75 || a == 0.25 || a == 1.25);
    } else {
      assert a == -3.25 || a == -2.25 || a == -1.25;
    }
  }

  /** Here the function returns its argument although a translate by (2,-1,0) is closer: the
      result is not in the first Brillouin zone. */
  lemma SkewedIsNotGlobal()
    ensures SKEWED.Valid()
    ensures FirstZone(SKEWED, STUCK) == STUCK
    ensures !GlobalMin(SKEWED, STUCK)
  {
    hide Norm2, LocalMin, GlobalMin, TRY_LIST, Rounded, Matrix.Mul, Integral;
    SkewedCloser();
    SkewedLocal();
    SkewedRounding();
    SkewedNorm(-1.125, 0.55, 0.0);
    SkewedNorm(-0.125, -0.45, 0.0);
    SkewedValid();
  }

  lemma SkewedValid()
    ensures SKEWED.Valid()
  {
  }

  lemma SkewedLocal()
    ensures forall v :: v in TRY_LIST ==> LocalMin(SKEWED, STUCK, v)
  {
    hide Norm2;
    forall v | v in TRY_LIST ensures LocalMin(SKEWED, STUCK, v) {
      ListIsSmall(v);
      SkewedStep(v);
      SkewedStep(Opposite(v));
    }
  }

  lemma SkewedCloser()
    ensures !GlobalMin(SKEWED, STUCK)
  {
    hide Norm2;
    var z := Vector3(2.0, -1.0, 0.0);
    assert STUCK.Plus(z) == Vector3(0.875, -0.45, 0.0);
    SkewedNorm(-1.125, 0.55, 0.0);
    SkewedNorm(0.875, -0.45, 0.0);
    assert IsInt(2.0) && IsInt(-1.0) && IsInt(0.0);
  }

  lemma SkewedRounding()
    ensures Rounded(STUCK) == Vector3(-0.125, -0.45, 0.0)
  {
    assert Round(-1.125) == -1 && Round(0.55) == 1 && Round(0.0) == 0;
  }

  lemma ListIsSmall(v: Vector3)
    requires v in TRY_LIST
    ensures Small(v) && Small(Opposite(v))
  {
  }
}
