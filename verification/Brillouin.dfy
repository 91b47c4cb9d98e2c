/** ModeSolver.first_brillouin_zone (python/solver.py:1118-1158). */
module Brillouin {
  import opened Reals
  import opened Options
  import opened Vectors

  /** The map of reciprocal_to_cartesian, G = Rst.inverse(), together with its inverse H = Rst. */
  datatype Reciprocal = Reciprocal(G: Matrix, H: Matrix) {
    predicate Valid() { H.Mul(G) == Identity }
  }

  /** Squared norm of a point with reciprocal-lattice coordinates k. */
  function Norm2(g: Reciprocal, k: Vector3): real { g.G.Apply(k).Dot(g.G.Apply(k)) }

  /** The comparison n(p) < n(q): square roots do not change it. */
  lemma NormComparison(g: Reciprocal, p: Vector3, q: Vector3, np: real, nq: real)
    requires IsNorm(g.G.Apply(p), np) && IsNorm(g.G.Apply(q), nq)
    ensures np < nq <==> Norm2(g, p) < Norm2(g, q)
  {
    hide Vector3.Dot, Matrix.Apply;
    SquareOrder(np, nq, Norm2(g, p), Norm2(g, q));
  }

  // ----- integer translates

  predicate IsInt(x: real) { x == x.Floor as real }

  predicate Integral(v: Vector3) { IsInt(v.x) && IsInt(v.y) && IsInt(v.z) }

  lemma IntegralSum(v: Vector3, w: Vector3)
    requires Integral(v) && Integral(w)
    ensures Integral(v.Plus(w)) && Integral(v.Minus(w))
  {
    IntSum(v.x, w.x);
    IntSum(v.y, w.y);
    IntSum(v.z, w.z);
  }

  lemma FloorOf(x: real, n: int)
    requires x == n as real
    ensures x.Floor == n && IsInt(x)
  {
  }

  lemma IntSum(x: real, y: real)
    requires IsInt(x) && IsInt(y)
    ensures IsInt(x + y) && IsInt(x - y)
  {
    var a, b := x.Floor, y.Floor;
    assert x == a as real && y == b as real;
    FloorOf(x + y, a + b);
    FloorOf(x - y, a - b);
  }

  // ----- termination: finitely many lattice translates are closer to the origin

  lemma CauchySchwarz(u: Vector3, v: Vector3)
    ensures u.Dot(v) * u.Dot(v) <= u.Dot(u) * v.Dot(v)
  {
    hide Vector3.Dot, Vector3.Cross;
    CrossNorm(u, v);
    DotSelfSign(u.Cross(v));
  }

  /** A whole number above sqrt(s * n2). */
  ghost function Above(s: real, n2: real): nat {
    if s * n2 < 0.0 then 0 else (s * n2).Floor + 2
  }

  /** A bound on the components of every point whose squared norm is below n2. */
  ghost function Radius(g: Reciprocal, n2: real): nat
  {
    var H := g.H;
    Above(H.Row0().Dot(H.Row0()) + H.Row1().Dot(H.Row1()) + H.Row2().Dot(H.Row2()), n2)
  }

  predicate Within(x: real, b: nat) { -(b as real) < x < b as real }

  lemma RadiusBounds(g: Reciprocal, n2: real, k: Vector3)
    requires g.Valid()
    requires Norm2(g, k) < n2
    ensures var b := Radius(g, n2); Within(k.x, b) && Within(k.y, b) && Within(k.z, b)
  {
    hide Matrix.Apply, Matrix.Mul, Vector3.Dot, Above, Within;
    var G, H, w := g.G, g.H, g.G.Apply(k);
    ApplyMul(H, G, k);
    ApplyIdentity(k);
    ApplyRows(H, w);
    var r0, r1, r2 := H.Row0(), H.Row1(), H.Row2();
    DotSelfSign(r0);
    DotSelfSign(r1);
    DotSelfSign(r2);
    var s := r0.Dot(r0) + r1.Dot(r1) + r2.Dot(r2);
    RowBound(r0, s, w, n2);
    RowBound(r1, s, w, n2);
    RowBound(r2, s, w, n2);
  }

  lemma RowBound(r: Vector3, s: real, w: Vector3, n2: real)
    requires r.Dot(r) <= s && w.Dot(w) < n2
    ensures Within(r.Dot(w), Above(s, n2))
  {
    hide Vector3.Dot, Above, Within;
    DotSelfSign(r);
    DotSelfSign(w);
    CauchySchwarz(r, w);
    ComponentBound(r.Dot(w), r.Dot(r), s, w.Dot(w), n2);
  }

  lemma ApplyRows(H: Matrix, w: Vector3)
    ensures H.Apply(w) == Vector3(H.Row0().Dot(w), H.Row1().Dot(w), H.Row2().Dot(w))
  {
  }

  lemma ComponentBound(x: real, a: real, s: real, w2: real, n2: real)
    requires x * x <= a * w2 && 0.0 <= a <= s && 0.0 <= w2 < n2
    ensures Within(x, Above(s, n2))
  {
    ProductSign(a, n2 - w2, a * (n2 - w2));
    ProductSign(s - a, n2, (s - a) * n2);
    ProductSign(s, n2, s * n2);
    SquareBound(x, s * n2);
  }

  lemma SquareBound(x: real, c: real)
    requires x * x <= c && c >= 0.0
    ensures Within(x, c.Floor + 2)
  {
    if x > c + 1.0 {
      ProductSign(x - 1.0, x, (x - 1.0) * x);
    } else if x < -(c + 1.0) {
      ProductSign(-x - 1.0, -x, (-x - 1.0) * (-x));
    }
    assert c < (c.Floor + 1) as real;
  }

  function Translate(k: Vector3, i: int, j: int, l: int): Vector3 {
    k.Plus(Vector3(i as real, j as real, l as real))
  }

  /** The points of k's coset that are strictly closer to the origin than k: a finite set. */
  ghost function Closer(g: Reciprocal, k: Vector3): set<Vector3>
  {
    var b := Radius(g, Norm2(g, k));
    set i: int, j: int, l: int |
      Low(k.x, b) <= i <= High(k.x, b) && Low(k.y, b) <= j <= High(k.y, b) && Low(k.z, b) <= l <= High(k.z, b)
      && Norm2(g, Translate(k, i, j, l)) < Norm2(g, k)
      :: Translate(k, i, j, l)
  }

  function Low(x: real, b: nat): int { -(b as int) - 1 - x.Floor }

  function High(x: real, b: nat): int { b as int + 1 - x.Floor }

  predicate InIndexRange(i: int, x: real, b: nat) { Low(x, b) <= i <= High(x, b) }

  lemma CloserIff(g: Reciprocal, k: Vector3, p: Vector3)
    requires g.Valid()
    ensures p in Closer(g, k) <==> Integral(p.Minus(k)) && Norm2(g, p) < Norm2(g, k)
  {
    hide Norm2, Radius, Low, High, Translate, Integral;
    if Integral(p.Minus(k)) && Norm2(g, p) < Norm2(g, k) {
      var i, j, l := TranslateInRange(g, k, p);
      assert p == Translate(k, i, j, l);
    }
    if p in Closer(g, k) {
      var i: int, j: int, l: int :| p == Translate(k, i, j, l) && Norm2(g, Translate(k, i, j, l)) < Norm2(g, k);
      TranslateIsIntegral(k, i, j, l);
    }
  }

  lemma TranslateInRange(g: Reciprocal, k: Vector3, p: Vector3) returns (i: int, j: int, l: int)
    requires g.Valid()
    requires Integral(p.Minus(k)) && Norm2(g, p) < Norm2(g, k)
    ensures p == Translate(k, i, j, l)
    ensures var b := Radius(g, Norm2(g, k));
            InIndexRange(i, k.x, b) && InIndexRange(j, k.y, b) && InIndexRange(l, k.z, b)
  {
    hide Norm2, Radius, Within, InIndexRange;
    RadiusBounds(g, Norm2(g, k), p);
    var b, d := Radius(g, Norm2(g, k)), p.Minus(k);
    i, j, l := d.x.Floor, d.y.Floor, d.z.Floor;
    IndexBound(p.x, k.x, b, i);
    IndexBound(p.y, k.y, b, j);
    IndexBound(p.z, k.z, b, l);
  }

  lemma TranslateIsIntegral(k: Vector3, i: int, j: int, l: int)
    ensures Integral(Translate(k, i, j, l).Minus(k))
  {
    var d := Translate(k, i, j, l).Minus(k);
    FloorOf(d.x, i);
    FloorOf(d.y, j);
    FloorOf(d.z, l);
  }

  lemma IndexBound(x: real, y: real, b: nat, i: int)
    requires Within(x, b) && x == y + i as real
    ensures InIndexRange(i, y, b)
  {
  }

  /** Moving to a closer translate leaves strictly fewer closer ones. */
  lemma CloserShrinks(g: Reciprocal, k: Vector3, p: Vector3)
    requires g.Valid()
    requires Integral(p.Minus(k)) && Norm2(g, p) < Norm2(g, k)
    ensures Closer(g, p) < Closer(g, k)
  {
    hide Norm2, Closer, Integral;
    CloserIff(g, k, p);
    CloserIff(g, p, p);
    forall q | q in Closer(g, p) ensures q in Closer(g, k) {
      CloserIff(g, p, q);
      CloserIff(g, k, q);
      IntegralSum(q.Minus(p), p.Minus(k));
      assert q.Minus(p).Plus(p.Minus(k)) == q.Minus(k);
    }
  }

  // ----- the search

  /** Both signs of these thirteen steps are tried. */
  const TRY_LIST: seq<Vector3> := [
    Vector3(1.0, 0.0, 0.0), Vector3(0.0, 1.0, 0.0), Vector3(0.0, 0.0, 1.0),
    Vector3(0.0, 1.0, 1.0), Vector3(1.0, 0.0, 1.0), Vector3(1.0, 1.0, 0.0),
    Vector3(0.0, 1.0, -1.0), Vector3(1.0, 0.0, -1.0), Vector3(1.0, -1.0, 0.0),
    Vector3(1.0, 1.0, 1.0), Vector3(-1.0, 1.0, 1.0), Vector3(1.0, -1.0, 1.0), Vector3(1.0, 1.0, -1.0)]

  function Opposite(v: Vector3): Vector3 { Zero3.Minus(v) }

  /** r is k or a translate of k that is strictly closer. */
  predicate Improves(g: Reciprocal, k: Vector3, r: Vector3) {
    r == k || (Integral(r.Minus(k)) && Norm2(g, r) < Norm2(g, k))
  }

  lemma ImprovesTransitive(g: Reciprocal, k: Vector3, p: Vector3, r: Vector3)
    requires Improves(g, k, p) && Improves(g, p, r)
    ensures Improves(g, k, r)
    ensures r == k ==> p == k
  {
    hide Norm2, Integral;
    if r != p && p != k {
      IntegralSum(r.Minus(p), p.Minus(k));
      assert r.Minus(p).Plus(p.Minus(k)) == r.Minus(k);
    }
  }

  function TryPlus(g: Reciprocal, k: Vector3, v: Vector3): (r: Vector3)
    requires g.Valid() && Integral(v)
    ensures Improves(g, k, r)
    ensures r == k ==> Norm2(g, k.Plus(v)) >= Norm2(g, k)
    decreases Closer(g, k)
  {
    if Norm2(g, k.Plus(v)) < Norm2(g, k) then
      assert k.Plus(v).Minus(k) == v;
      CloserShrinks(g, k, k.Plus(v));
      ImprovesTransitive(g, k, k.Plus(v), TryPlus(g, k.Plus(v), v));
      TryPlus(g, k.Plus(v), v)
    else k
  }

  predicate LocalMin(g: Reciprocal, k: Vector3, v: Vector3) {
    Norm2(g, k.Plus(v)) >= Norm2(g, k) && Norm2(g, k.Plus(Opposite(v))) >= Norm2(g, k)
  }

  function Try(g: Reciprocal, k: Vector3, v: Vector3): (r: Vector3)
    requires g.Valid() && Integral(v)
    ensures Improves(g, k, r)
    ensures r == k <==> LocalMin(g, k, v)
  {
    OppositeIntegral(v);
    var p := TryPlus(g, k, v);
    var r := TryPlus(g, p, Opposite(v));
    ImprovesTransitive(g, k, p, r);
    r
  }

  lemma OppositeIntegral(v: Vector3)
    requires Integral(v)
    ensures Integral(Opposite(v))
  {
    IntSum(0.0, v.x);
    IntSum(0.0, v.y);
    IntSum(0.0, v.z);
  }

  predicate AllIntegral(vs: seq<Vector3>) { forall v :: v in vs ==> Integral(v) }

  /** functools.reduce(_try, try_list, k). */
  function TryAll(g: Reciprocal, k: Vector3, vs: seq<Vector3>): (r: Vector3)
    requires g.Valid() && AllIntegral(vs)
    ensures Improves(g, k, r)
    ensures r == k <==> forall v :: v in vs ==> LocalMin(g, k, v)
    decreases |vs|
  {
    if |vs| == 0 then k
    else
      var p := Try(g, k, vs[0]);
      var r := TryAll(g, p, vs[1..]);
      ImprovesTransitive(g, k, p, r);
      r
  }

  lemma TryListIntegral()
    ensures AllIntegral(TRY_LIST)
  {
    assert IsInt(0.0) && IsInt(1.0) && IsInt(-1.0);
  }

  function TryAllAndRepeat(g: Reciprocal, k: Vector3): (r: Vector3)
    requires g.Valid()
    ensures Improves(g, k, r)
    ensures forall v :: v in TRY_LIST ==> LocalMin(g, r, v)
    ensures (forall v :: v in TRY_LIST ==> LocalMin(g, k, v)) ==> r == k
    decreases Closer(g, k)
  {
    TryListIntegral();
    var knew := TryAll(g, k, TRY_LIST);
    if Norm2(g, knew) < Norm2(g, k) then
      CloserShrinks(g, k, knew);
      ImprovesTransitive(g, k, knew, TryAllAndRepeat(g, knew));
      TryAllAndRepeat(g, knew)
    else k
  }

  /** Python's round: to the nearest integer, halves to the even one. */
  function Round(x: real): (n: int)
    ensures -0.5 <= x - n as real <= 0.5
    ensures x - n as real == 0.5 || x - n as real == -0.5 ==> n % 2 == 0
  {
    var f := x.Floor;
    var d := x - f as real;
    if d < 0.5 || (d == 0.5 && f % 2 == 0) then f else f + 1
  }

  function Rounded(k: Vector3): Vector3 {
    k.Minus(Vector3(Round(k.x) as real, Round(k.y) as real, Round(k.z) as real))
  }

  lemma RoundedIntegral(k: Vector3)
    ensures Integral(Rounded(k).Minus(k))
  {
    var d := Rounded(k).Minus(k);
    FloorOf(d.x, -Round(k.x));
    FloorOf(d.y, -Round(k.y));
    FloorOf(d.z, -Round(k.z));
  }

  /** The result is k plus an integer vector, no farther from the origin than k and than k minus
      its rounding, and no listed translation in either direction brings it closer. */
  function FirstZone(g: Reciprocal, k: Vector3): (r: Vector3)
    requires g.Valid()
    ensures Integral(r.Minus(k))
    ensures Norm2(g, r) <= Norm2(g, k) && Norm2(g, r) <= Norm2(g, Rounded(k))
    ensures forall v :: v in TRY_LIST ==> LocalMin(g, r, v)
  {
    var k0 := Rounded(k);
    RoundedIntegral(k);
    if Norm2(g, k0) < Norm2(g, k) then
      ImprovesTransitive(g, k, k0, TryAllAndRepeat(g, k0));
      TryAllAndRepeat(g, k0)
    else
      ZeroIntegral(k);
      TryAllAndRepeat(g, k)
  }

  lemma ZeroIntegral(k: Vector3)
    ensures Integral(k.Minus(k))
  {
    FloorOf(k.x - k.x, 0);
    FloorOf(k.y - k.y, 0);
    FloorOf(k.z - k.z, 0);
  }

  // ----- the lattice of a mode solver

  datatype Lattice = Lattice(basis: Matrix, size: Vector3)

  /** Directions of size zero count as size one. */
  function OrOne(x: real): real { if x == 0.0 then 1.0 else x }

  function Rst(lat: Lattice): Matrix {
    lat.basis.Mul(Diagonal(OrOne(lat.size.x), OrOne(lat.size.y), OrOne(lat.size.z))).Transpose()
  }

  lemma RstRegular(lat: Lattice)
    requires lat.basis.Determinant() != 0.0
    ensures Rst(lat).Determinant() != 0.0
  {
    hide Matrix.Determinant, Vector3.Scale, Matrix.Apply, Matrix.Transpose, Matrix.Mul;
    var a, b, c, d := OrOne(lat.size.x), OrOne(lat.size.y), OrOne(lat.size.z), lat.basis.Determinant();
    TimesDiagonal(lat.basis, a, b, c);
    ScaledColumns(lat.basis, a, b, c);
    DeterminantOfTranspose(lat.basis.Mul(Diagonal(a, b, c)));
    NonzeroProduct(d, a, d * a);
    NonzeroProduct(d * a, b, d * a * b);
    NonzeroProduct(d * a * b, c, d * a * b * c);
  }

  /** The lattice point with coordinates n, in Cartesian coordinates. */
  function LatticePoint(lat: Lattice, n: Vector3): Vector3 {
    var x, y, z := if lat.size.x == 0.0 then 1.0 else lat.size.x, if lat.size.y == 0.0 then 1.0 else lat.size.y,
                   if lat.size.z == 0.0 then 1.0 else lat.size.z;
    lat.basis.Apply(Vector3(Part(x, n.x), Part(y, n.y), Part(z, n.z)))
  }

  lemma OrOneIs(x: real)
    ensures OrOne(x) == if x == 0.0 then 1.0 else x
  {
  }

  /** Reciprocal points meet lattice points in the inner product of their coordinates. */
  ghost predicate Dual(g: Reciprocal, lat: Lattice) {
    forall k: Vector3, n: Vector3 :: g.G.Apply(k).Dot(LatticePoint(lat, n)) == k.Dot(n)
  }

  /** None where the lattice refuses dependent basis vectors. */
  function ReciprocalOf(lat: Lattice): (g: Option<Reciprocal>)
    ensures g.Some? <==> lat.basis.Determinant() != 0.0
    ensures g.Some? ==> g.value.Valid() && Dual(g.value, lat)
  {
    hide Matrix.Determinant, Matrix.Apply, Dual, Rst;
    if lat.basis.Determinant() == 0.0 then None
    else
      RstRegular(lat);
      InverseIsInverse(Rst(lat));
      InverseIsDual(lat, Reciprocal(Rst(lat).Inverse(), Rst(lat)));
      Some(Reciprocal(Rst(lat).Inverse(), Rst(lat)))
  }

  lemma InverseIsDual(lat: Lattice, g: Reciprocal)
    requires g.Valid() && g.H == Rst(lat)
    ensures Dual(g, lat)
  {
    hide Matrix.Apply, Matrix.Mul, Matrix.Transpose, Vector3.Dot, LatticePoint;
    var D := Diagonal(OrOne(lat.size.x), OrOne(lat.size.y), OrOne(lat.size.z));
    var B := lat.basis.Mul(D);
    forall k: Vector3, n: Vector3 ensures g.G.Apply(k).Dot(LatticePoint(lat, n)) == k.Dot(n) {
      PointIsApplied(lat, n);
      MovesAcross(B, g.G.Apply(k), n);
      ApplyMul(g.H, g.G, k);
      ApplyIdentity(k);
    }
  }

  lemma PointIsApplied(lat: Lattice, n: Vector3)
    ensures LatticePoint(lat, n) == lat.basis.Mul(Diagonal(OrOne(lat.size.x), OrOne(lat.size.y), OrOne(lat.size.z))).Apply(n)
  {
    hide Matrix.Apply, Matrix.Mul, OrOne, Part;
    var a, b, c := OrOne(lat.size.x), OrOne(lat.size.y), OrOne(lat.size.z);
    OrOneIs(lat.size.x);
    OrOneIs(lat.size.y);
    OrOneIs(lat.size.z);
    DiagonalApplies(a, b, c, n);
    ApplyMul(lat.basis, Diagonal(a, b, c), n);
  }

  lemma DiagonalApplies(a: real, b: real, c: real, n: Vector3)
    ensures Diagonal(a, b, c).Apply(n) == Vector3(Part(a, n.x), Part(b, n.y), Part(c, n.z))
  {
  }

  /** A matrix moves to the other side of an inner product as its transpose. */
  lemma MovesAcross(m: Matrix, u: Vector3, v: Vector3)
    ensures u.Dot(m.Apply(v)) == m.Transpose().Apply(u).Dot(v)
  {
    hide Vector3.Dot;
    DotWithCombination(u, m, v);
    var t := m.Transpose().Apply(u);
    assert t == Vector3(m.c1.Dot(u), m.c2.Dot(u), m.c3.Dot(u));
    DotCommutes(u, m.c1);
    DotCommutes(u, m.c2);
    DotCommutes(u, m.c3);
    DotComponents(t, v, t.x, t.y, t.z, v.x, v.y, v.z);
  }

  function FirstBrillouinZone(lat: Lattice, k: Vector3): (r: Option<Vector3>)
    ensures r.Some? <==> lat.basis.Determinant() != 0.0
    ensures r.Some? ==>
              var g := ReciprocalOf(lat).value;
              && Dual(g, lat)
              && Integral(r.value.Minus(k))
              && Norm2(g, r.value) <= Norm2(g, k) && Norm2(g, r.value) <= Norm2(g, Rounded(k))
              && forall v :: v in TRY_LIST ==> LocalMin(g, r.value, v)
  {
    var g := ReciprocalOf(lat);
    if g.None? then None else Some(FirstZone(g.value, k))
  }
}
