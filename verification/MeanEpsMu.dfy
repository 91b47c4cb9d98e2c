/** mode_solver::mean_epsmu (libpympb/pympb.cpp:288-559) on one pixel: the neighbour scan, the
    interface normal and fill, the frame built in place, and the averaged tensor. */
module MeanEpsMu {
  import opened Reals
  import opened Vectors
  import opened Tensors
  import opened Kottke
  import opened EffectiveMedium
  import opened NeighbourScan
  import opened Options

  // ----- the rotation matrix

  /** The C array Rot[3][3] by columns. */
  function Columns(rot: array2<real>): Matrix
    requires rot.Length0 == 3 && rot.Length1 == 3
    reads rot
  {
    Matrix(Vector3(rot[0, 0], rot[1, 0], rot[2, 0]),
           Vector3(rot[0, 1], rot[1, 1], rot[2, 1]),
           Vector3(rot[0, 2], rot[1, 2], rot[2, 2]))
  }

  /** The vector the code starts the third axis from: z x n, or x x n when n is close to z. */
  function ThirdAxis(u: Vector3): Vector3 {
    if Abs(u.x) > 0.01 || Abs(u.y) > 0.01 then Vector3(u.y, -u.x, 0.0) else Vector3(0.0, -u.z, u.y)
  }

  /** It is orthogonal to the unit normal and never zero. */
  lemma ThirdAxisFits(u: Vector3)
    requires u.Dot(u) == 1.0
    ensures ThirdAxis(u).Dot(u) == 0.0
    ensures ThirdAxis(u).Dot(ThirdAxis(u)) > 0.0
  {
    hide Vector3.Dot;
    var t := ThirdAxis(u);
    DotComponents(u, u, u.x, u.y, u.z, u.x, u.y, u.z);
    DotComponents(t, u, t.x, t.y, t.z, u.x, u.y, u.z);
    ThirdAxisOrthogonal(u.x, u.y, u.z);
    DotSelfSign(t);
    if t == Zero3 {
      assert t.x == t.y == t.z == 0.0;
      assert u.y == 0.0;
      assert -0.01 <= u.x <= 0.01;
      assert u.z == 0.0;
      DotComponents(u, u, u.x, 0.0, 0.0, u.x, 0.0, 0.0);
      SmallSquare(u.x, u.Dot(u));
      assert false;
    }
  }

  lemma ThirdAxisOrthogonal(a: real, b: real, c: real)
    ensures b * a + (-a) * b + 0.0 * c == 0.0
    ensures 0.0 * a + (-c) * b + b * c == 0.0
  {
  }

  lemma SmallSquare(a: real, s: real)
    requires -0.01 <= a <= 0.01 && s == a * a + 0.0 * 0.0 + 0.0 * 0.0
    ensures s < 1.0
  {
    ProductSign(1.0 - a, 1.0 + a, (1.0 - a) * (1.0 + a));
  }

  /** A unit normal u, a unit vector w orthogonal to it, and w x u form a right-handed frame. */
  lemma FrameOf(u: Vector3, w: Vector3, R: Matrix)
    requires u.Dot(u) == 1.0 && w.Dot(w) == 1.0 && w.Dot(u) == 0.0
    requires R == Matrix(u, w.Cross(u), w)
    ensures Frame(R)
  {
    hide Vector3.Cross, Vector3.Dot, Matrix.Determinant;
    CrossNorm(w, u);
    Triple(u, w, u);
    Triple(w, u, R.c2);
    DotCommutes(u, w);
    DotCommutes(u, R.c2);
    DotCommutes(w, R.c2);
    DeterminantIsTriple(R);
    Triple(u, R.c2, w);
  }

  /** Fills the array with the orthonormal frame of the Cartesian normal n; false if n is zero. */
  method BuildFrame(rot: array2<real>, n: Vector3, sqrt: real -> real) returns (ok: bool)
    requires rot.Length0 == 3 && rot.Length1 == 3
    requires IsSqrt(sqrt)
    modifies rot
    ensures ok <==> n != Zero3
    ensures ok ==> Frame(Columns(rot))
    ensures ok ==> exists k :: k > 0.0 && Columns(rot).c1 == n.Scale(k)
  {
    hide Vector3.Dot, Vector3.Cross, Vector3.Scale, Frame, Columns;
    var norm := sqrt(n.Dot(n));
    DotSelfSign(n);
    NormOfZero(n, norm);
    if norm == 0.0 {
      return false;
    }
    UnitLength(n, norm);
    SetColumn(rot, 0, n.Scale(1.0 / norm));
    ghost var u := Columns(rot).c1;
    SetColumn(rot, 2, ThirdAxis(Columns(rot).c1));
    var t := Columns(rot).c3;
    ThirdAxisFits(u);
    var s := sqrt(t.Dot(t));
    NormOfZero(t, s);
    UnitLength(t, s);
    DotScale(t, u, 1.0 / s);
    SetColumn(rot, 2, t.Scale(1.0 / s));
    SetColumn(rot, 1, Columns(rot).c3.Cross(Columns(rot).c1));
    FrameOf(u, Columns(rot).c3, Columns(rot));
    return true;
  }

  /** The three assignments Rot[0][j], Rot[1][j], Rot[2][j]. */
  method SetColumn(rot: array2<real>, j: nat, v: Vector3)
    requires rot.Length0 == 3 && rot.Length1 == 3 && j < 3
    modifies rot
    ensures Columns(rot) == (if j == 0 then old(Columns(rot)).(c1 := v)
                             else if j == 1 then old(Columns(rot)).(c2 := v)
                             else old(Columns(rot)).(c3 := v))
  {
    rot[0, j] := v.x;
    rot[1, j] := v.y;
    rot[2, j] := v.z;
  }

  lemma NormOfZero(n: Vector3, norm: real)
    requires IsNorm(n, norm)
    ensures norm == 0.0 <==> n == Zero3
  {
    hide Vector3.Dot;
    DotSelfSign(n);
    SquareSign(norm, n.Dot(n));
  }

  /** The three SWAPs: transposition in place. */
  method TransposeInPlace(rot: array2<real>)
    requires rot.Length0 == 3 && rot.Length1 == 3
    modifies rot
    ensures Columns(rot) == old(Columns(rot)).Transpose()
  {
    var x := rot[0, 1];
    rot[0, 1] := rot[1, 0];
    rot[1, 0] := x;
    x := rot[0, 2];
    rot[0, 2] := rot[2, 0];
    rot[2, 0] := x;
    x := rot[2, 1];
    rot[2, 1] := rot[1, 2];
    rot[1, 2] := x;
  }

  // ----- the averaged tensor

  /** The divisions of the average are by nonzero values, read along any vector normal to the interface. */
  ghost predicate DivisibleAlong(A1: Sym, A2: Sym, fill: real, n: Vector3) {
    var a, b := A1.Form(n, n), A2.Form(n, n);
    a != 0.0 && b != 0.0 && Mix(fill, Quotient(-1.0, a), Quotient(-1.0, b)) != 0.0
  }

  lemma FormScaled(A: Sym, n: Vector3, k: real)
    ensures A.Form(n.Scale(k), n.Scale(k)) == A.Form(n, n) * k * k
  {
    hide Vector3.Dot, Matrix.Apply, Vector3.Scale;
    ApplyScale(A.Full(), n, k);
    DotScale(n.Scale(k), A.Full().Apply(n), k);
    DotScale(n, A.Full().Apply(n), k);
  }

  lemma DivisibleScaled(A1: Sym, A2: Sym, fill: real, n: Vector3, k: real, R: Matrix)
    requires k > 0.0 && R.c1 == n.Scale(k)
    ensures Divisible(A1, A2, fill, R) <==> DivisibleAlong(A1, A2, fill, n)
  {
    hide Sym.Form, Quotient, Mix;
    FormScaled(A1, n, k);
    FormScaled(A2, n, k);
    var c := k * k;
    ProductSign(k, k, c);
    var a, b, p, q := A1.Form(n, n), A2.Form(n, n), Rotate(A1, R).m00, Rotate(A2, R).m00;
    Associate(a, k, k, c);
    Associate(b, k, k, c);
    NonzeroProduct(a, c, p);
    NonzeroProduct(b, c, q);
    if a != 0.0 && b != 0.0 {
      ScaledRatios(fill, a, b, c, p, q);
      var x := Mix(fill, Quotient(-1.0, p), Quotient(-1.0, q));
      NonzeroProduct(x, c, x * c);
      RatioIsQuotient(p);
      RatioIsQuotient(q);
    }
  }

  lemma RatioIsQuotient(a: real)
    requires a != 0.0
    ensures Quotient(-1.0, a) == -1.0 / a
  {
  }

  lemma ScaledRatios(fill: real, a: real, b: real, c: real, p: real, q: real)
    requires a != 0.0 && b != 0.0 && c != 0.0 && p == a * c && q == b * c
    ensures p != 0.0 && q != 0.0
    ensures Mix(fill, Quotient(-1.0, p), Quotient(-1.0, q)) * c == Mix(fill, Quotient(-1.0, a), Quotient(-1.0, b))
  {
    hide Quotient;
    RatioOfScaled(a, c, p);
    RatioOfScaled(b, c, q);
    var x, y := Quotient(-1.0, p), Quotient(-1.0, q);
    assert (fill * x + (1.0 - fill) * y) * c == fill * (x * c) + (1.0 - fill) * (y * c);
  }

  lemma RatioOfScaled(a: real, c: real, p: real)
    requires a != 0.0 && c != 0.0 && p == a * c
    ensures p != 0.0 && Quotient(-1.0, p) * c == Quotient(-1.0, a)
  {
    var x := -1.0 / p;
    assert x * p == -1.0;
    assert (x * c) * a == -1.0 by { assert x * (a * c) == (x * c) * a; }
    QuotientIs(-1.0, a, x * c);
  }

  lemma EffectiveScaled(M: Sym, A1: Sym, A2: Sym, fill: real, n: Vector3, k: real)
    requires k != 0.0
    requires Effective(M, A1, A2, fill, n.Scale(k))
    ensures Effective(M, A1, A2, fill, n)
  {
    hide Times, MixV, Vector3.Dot, Vector3.Scale;
    var m := n.Scale(k);
    forall E1: Vector3, E2: Vector3 | Continuous(A1, A2, n, E1, E2)
      ensures Times(M, MixV(fill, E1, E2)) == MixV(fill, Times(A1, E1), Times(A2, E2))
    {
      var c :| E1 == E2.Plus(n.Scale(c));
      assert k * (c / k) == c;
      ScaleTwice(n, k, c / k, c);
      assert E1 == E2.Plus(m.Scale(c / k));
      DotScale(n, Times(A1, E1), k);
      DotScale(n, Times(A2, E2), k);
      assert Continuous(A1, A2, m, E1, E2);
    }
  }

  /** From rotating both tensors into the frame to rotating the average back; None for entries that
      are infinite or not numbers because of a division by zero. */
  method AverageInFrame(rot: array2<real>, eps1: Sym, eps2: Sym, fill: real) returns (meps: Option<Sym>)
    requires rot.Length0 == 3 && rot.Length1 == 3
    modifies rot
    ensures var R := old(Columns(rot));
            meps == if Divisible(eps1, eps2, fill, R) then Some(Mean(eps1, eps2, fill, R)) else None
  {
    hide Quotient, Eliminate, Mix, Rotate, Matrix.Transpose, Columns, Divisible;
    ghost var R := Columns(rot);
    var e1, e2 := Rotate(eps1, Columns(rot)), Rotate(eps2, Columns(rot));
    if e1.m00 == 0.0 || e2.m00 == 0.0 {
      NotDivisible(eps1, eps2, fill, R);
      return None;
    }
    DivisibleFrame(eps1, eps2, fill, R);
    var delta := Sym(Mix(fill, Quotient(-1.0, e1.m00), Quotient(-1.0, e2.m00)),
                     Mix(fill, Eliminate(e1.m11, e1.m01, e1.m01, e1.m00), Eliminate(e2.m11, e2.m01, e2.m01, e2.m00)),
                     Mix(fill, Eliminate(e1.m22, e1.m02, e1.m02, e1.m00), Eliminate(e2.m22, e2.m02, e2.m02, e2.m00)),
                     Mix(fill, Quotient(e1.m01, e1.m00), Quotient(e2.m01, e2.m00)),
                     Mix(fill, Quotient(e1.m02, e1.m00), Quotient(e2.m02, e2.m00)),
                     Mix(fill, Eliminate(e1.m12, e1.m02, e1.m01, e1.m00), Eliminate(e2.m12, e2.m02, e2.m01, e2.m00)));
    if delta.m00 == 0.0 {
      return None;
    }
    var m := eps1;
    m := m.(m00 := Quotient(-1.0, delta.m00));
    m := m.(m11 := Eliminate(delta.m11, delta.m01, delta.m01, delta.m00));
    m := m.(m22 := Eliminate(delta.m22, delta.m02, delta.m02, delta.m00));
    m := m.(m01 := Quotient(-delta.m01, delta.m00));
    m := m.(m02 := Quotient(-delta.m02, delta.m00));
    m := m.(m12 := Eliminate(delta.m12, delta.m02, delta.m01, delta.m00));
    TransposeInPlace(rot);
    return Some(Rotate(m, Columns(rot)));
  }

  lemma NotDivisible(A1: Sym, A2: Sym, fill: real, R: Matrix)
    requires Rotate(A1, R).m00 == 0.0 || Rotate(A2, R).m00 == 0.0
    ensures !Divisible(A1, A2, fill, R)
  {
  }

  /** The block that starts with the Cartesian normal; false when the normal vanishes. The result is
      finite exactly when no division is by zero, and then it is the effective tensor. */
  method InterfaceAverage(eps1: Sym, eps2: Sym, fill: real, n: Vector3, sqrt: real -> real)
    returns (ok: bool, meps: Option<Sym>)
    requires IsSqrt(sqrt)
    ensures ok <==> n != Zero3
    ensures !ok ==> meps == Some(eps1)
    ensures ok ==> (meps.Some? <==> DivisibleAlong(eps1, eps2, fill, n))
    ensures ok && meps.Some? ==> Effective(meps.value, eps1, eps2, fill, n)
    ensures ok && 0.0 <= fill <= 1.0 && PositiveDefinite(eps1) && PositiveDefinite(eps2) ==>
              meps.Some? && PositiveDefinite(meps.value)
  {
    hide Frame, Effective, PositiveDefinite, DivisibleAlong, Divisible, Columns, Mean;
    var rot := new real[3, 3];
    ok := BuildFrame(rot, n, sqrt);
    if !ok {
      return false, Some(eps1);
    }
    ghost var R := Columns(rot);
    ghost var k :| k > 0.0 && R.c1 == n.Scale(k);
    DivisibleScaled(eps1, eps2, fill, n, k, R);
    meps := AverageInFrame(rot, eps1, eps2, fill);
    if Divisible(eps1, eps2, fill, R) {
      MeanIsEffective(eps1, eps2, fill, R);
      EffectiveScaled(meps.value, eps1, eps2, fill, n, k);
    }
    if 0.0 <= fill <= 1.0 && PositiveDefinite(eps1) && PositiveDefinite(eps2) {
      MeanPositive(eps1, eps2, fill, R);
    }
  }

  // ----- one pixel

  /** The inputs of one call that come from the solver, libctl and the material tables. */
  datatype Geometry = Geometry(
    dimensions: nat,
    size: Vector3,                                          // geometry_lattice.size
    R: Matrix,                                              // the rows R[0], R[1], R[2] of the C array
    defaultMaterial: Material,
    lookup: Vector3 -> (Option<Object>, Vector3, nat),      // object, image shift and id at a point
    same: Same,                                             // material_type_equal
    epsOf: Material -> Sym,                                 // material_epsmu
    normalTo: (Object, Vector3) -> Vector3,                 // normal_to_fixed_object
    overlap: (Object, Vector3, Vector3, real) -> real)      // box_overlap_with_object

  ghost predicate GeometryContract(g: Geometry) {
    && 1 <= g.dimensions <= 3
    && Equivalence(g.same)
    && (forall q {:trigger g.lookup(q)} :: g.lookup(q).0.Some? <==> g.lookup(q).2 > 0)
    && (forall q, q' {:trigger g.lookup(q), g.lookup(q')} :: g.lookup(q).2 == g.lookup(q').2 ==> g.lookup(q).0 == g.lookup(q').0)
    && (forall o, low, high, tol {:trigger g.overlap(o, low, high, tol)} :: 0.0 <= g.overlap(o, low, high, tol) <= 1.0)
  }

  /** The tables num_neighbors and neighbors. */
  function Neighbours(dimensions: nat): (s: seq<Vector3>)
    requires 1 <= dimensions <= 3
    ensures |s| == [3, 5, 9][dimensions - 1]
  {
    if dimensions == 1 then
      [Zero3, Vector3(-1.0, 0.0, 0.0), Vector3(1.0, 0.0, 0.0)]
    else if dimensions == 2 then
      [Zero3, Vector3(-1.0, -1.0, 0.0), Vector3(1.0, 1.0, 0.0), Vector3(-1.0, 1.0, 0.0), Vector3(1.0, -1.0, 0.0)]
    else
      [Zero3, Vector3(1.0, 1.0, 1.0), Vector3(1.0, 1.0, -1.0), Vector3(1.0, -1.0, 1.0), Vector3(1.0, -1.0, -1.0),
       Vector3(-1.0, 1.0, 1.0), Vector3(-1.0, 1.0, -1.0), Vector3(-1.0, -1.0, 1.0), Vector3(-1.0, -1.0, -1.0)]
  }

  function Componentwise(v: Vector3, w: Vector3): Vector3 { Vector3(v.x * w.x, v.y * w.y, v.z * w.z) }

  /** Background and file materials are replaced by the default material. */
  function MaterialAt(g: Geometry, o: Option<Object>): Material {
    if o.Some? && !o.value.material.isFile then o.value.material else g.defaultMaterial
  }

  function SampleAt(g: Geometry, q: Vector3): Sample {
    var (o, shift, id) := g.lookup(q);
    Sample(o, shift, id, MaterialAt(g, o))
  }

  /** Where sample i of the pixel with centre p and half-size d is taken. */
  function SamplePoint(dimensions: nat, p: Vector3, d: Vector3, i: nat): Vector3
    requires 1 <= dimensions <= 3 && i < |Neighbours(dimensions)|
  {
    p.Plus(Componentwise(Neighbours(dimensions)[i], d))
  }

  function SamplesAround(g: Geometry, p: Vector3, d: Vector3): seq<Sample>
    requires 1 <= g.dimensions <= 3
  {
    seq(|Neighbours(g.dimensions)|, i requires 0 <= i < |Neighbours(g.dimensions)| =>
      SampleAt(g, SamplePoint(g.dimensions, p, d, i)))
  }

  function OneStep(x: real, d: real, s: int): real { if s < 0 then x - d else if s > 0 then x + d else x }

  function PointAt(p: Vector3, d: Vector3, i: int, j: int, k: int): Vector3 {
    Vector3(OneStep(p.x, d.x, i), OneStep(p.y, d.y, j), OneStep(p.z, d.z, k))
  }

  /** The order in which the points of a pixel are visited, on which the scan may depend. */
  lemma SamplesInOrder(g: Geometry, p: Vector3, d: Vector3)
    requires 1 <= g.dimensions <= 3
    ensures g.dimensions == 1 ==>
              SamplesAround(g, p, d) == [SampleAt(g, p), SampleAt(g, PointAt(p, d, -1, 0, 0)), SampleAt(g, PointAt(p, d, 1, 0, 0))]
    ensures g.dimensions == 2 ==>
              SamplesAround(g, p, d) == [SampleAt(g, p), SampleAt(g, PointAt(p, d, -1, -1, 0)), SampleAt(g, PointAt(p, d, 1, 1, 0)),
                                         SampleAt(g, PointAt(p, d, -1, 1, 0)), SampleAt(g, PointAt(p, d, 1, -1, 0))]
    ensures g.dimensions == 3 ==>
              SamplesAround(g, p, d) == [SampleAt(g, p), SampleAt(g, PointAt(p, d, 1, 1, 1)), SampleAt(g, PointAt(p, d, 1, 1, -1)),
                                         SampleAt(g, PointAt(p, d, 1, -1, 1)), SampleAt(g, PointAt(p, d, 1, -1, -1)),
                                         SampleAt(g, PointAt(p, d, -1, 1, 1)), SampleAt(g, PointAt(p, d, -1, 1, -1)),
                                         SampleAt(g, PointAt(p, d, -1, -1, 1)), SampleAt(g, PointAt(p, d, -1, -1, -1))]
  {
    hide SampleAt;
    PointsInOrder(g.dimensions, p, d);
  }

  lemma PointsInOrder(dimensions: nat, p: Vector3, d: Vector3)
    requires 1 <= dimensions <= 3
    ensures SamplePoint(dimensions, p, d, 0) == p
    ensures dimensions == 1 ==> SamplePoint(1, p, d, 1) == PointAt(p, d, -1, 0, 0) && SamplePoint(1, p, d, 2) == PointAt(p, d, 1, 0, 0)
    ensures dimensions == 2 ==>
              && SamplePoint(2, p, d, 1) == PointAt(p, d, -1, -1, 0) && SamplePoint(2, p, d, 2) == PointAt(p, d, 1, 1, 0)
              && SamplePoint(2, p, d, 3) == PointAt(p, d, -1, 1, 0) && SamplePoint(2, p, d, 4) == PointAt(p, d, 1, -1, 0)
    ensures dimensions == 3 ==>
              && SamplePoint(3, p, d, 1) == PointAt(p, d, 1, 1, 1) && SamplePoint(3, p, d, 2) == PointAt(p, d, 1, 1, -1)
              && SamplePoint(3, p, d, 3) == PointAt(p, d, 1, -1, 1) && SamplePoint(3, p, d, 4) == PointAt(p, d, 1, -1, -1)
              && SamplePoint(3, p, d, 5) == PointAt(p, d, -1, 1, 1) && SamplePoint(3, p, d, 6) == PointAt(p, d, -1, 1, -1)
              && SamplePoint(3, p, d, 7) == PointAt(p, d, -1, -1, 1) && SamplePoint(3, p, d, 8) == PointAt(p, d, -1, -1, -1)
  {
  }

  /** At one end or the other of an axis that the dimensions count, at the centre of the others. */
  predicate EndOf(counted: bool, x: real, p: real, d: real) { if counted then x == p - d || x == p + d else x == p }

  predicate Corner(dimensions: nat, p: Vector3, d: Vector3, q: Vector3) {
    EndOf(true, q.x, p.x, d.x) && EndOf(dimensions >= 2, q.y, p.y, d.y) && EndOf(dimensions >= 3, q.z, p.z, d.z)
  }

  predicate UnitCorner(dimensions: nat, u: Vector3) { Corner(dimensions, Zero3, Vector3(1.0, 1.0, 1.0), u) }

  lemma TableEntry(dimensions: nat, i: nat)
    requires 1 <= dimensions <= 3 && i < |Neighbours(dimensions)|
    ensures Neighbours(dimensions)[i] == Zero3 || UnitCorner(dimensions, Neighbours(dimensions)[i])
  {
  }

  lemma FirstEntry(dimensions: nat)
    requires 1 <= dimensions <= 3
    ensures Neighbours(dimensions)[0] == Zero3
  {
  }

  function Bit(x: real): nat { if x < 0.0 then 1 else 0 }

  /** Where a corner stands in the table. */
  lemma CornerEntry(dimensions: nat, u: Vector3) returns (i: nat)
    requires 1 <= dimensions <= 3 && UnitCorner(dimensions, u)
    ensures i < |Neighbours(dimensions)| && Neighbours(dimensions)[i] == u
  {
    if dimensions == 1 {
      i := if u.x < 0.0 then 1 else 2;
    } else if dimensions == 2 {
      i := if u.x < 0.0 then (if u.y < 0.0 then 1 else 3) else (if u.y < 0.0 then 4 else 2);
    } else {
      i := 1 + 4 * Bit(u.x) + 2 * Bit(u.y) + Bit(u.z);
    }
  }

  lemma CornerStep(dimensions: nat, p: Vector3, d: Vector3, u: Vector3)
    requires UnitCorner(dimensions, u)
    ensures Corner(dimensions, p, d, p.Plus(Componentwise(u, d)))
  {
  }

  /** The step from the centre to a corner. */
  function StepTo(counted: bool, x: real, p: real, d: real): real { if !counted then 0.0 else if x == p + d then 1.0 else -1.0 }

  lemma StepOfCorner(dimensions: nat, p: Vector3, d: Vector3, q: Vector3) returns (u: Vector3)
    requires Corner(dimensions, p, d, q)
    ensures UnitCorner(dimensions, u) && q == p.Plus(Componentwise(u, d))
  {
    u := Vector3(StepTo(true, q.x, p.x, d.x), StepTo(dimensions >= 2, q.y, p.y, d.y), StepTo(dimensions >= 3, q.z, p.z, d.z));
  }

  /** The samples are taken at the centre of the pixel and at all of its corners, and nowhere else. */
  lemma SamplesAreCorners(dimensions: nat, p: Vector3, d: Vector3, q: Vector3)
    requires 1 <= dimensions <= 3
    ensures (exists i: nat :: i < |Neighbours(dimensions)| && SamplePoint(dimensions, p, d, i) == q)
            <==> q == p || Corner(dimensions, p, d, q)
  {
    hide Neighbours, Corner, UnitCorner;
    if i: nat :| i < |Neighbours(dimensions)| && SamplePoint(dimensions, p, d, i) == q {
      var u := Neighbours(dimensions)[i];
      TableEntry(dimensions, i);
      if u != Zero3 {
        CornerStep(dimensions, p, d, u);
      }
    }
    if q == p || Corner(dimensions, p, d, q) {
      var i: nat := 0;
      if q == p {
        FirstEntry(dimensions);
      } else {
        var u := StepOfCorner(dimensions, p, d, q);
        i := CornerEntry(dimensions, u);
      }
      assert SamplePoint(dimensions, p, d, i) == q;
    }
  }

  /** No point is sampled twice, unless the pixel is flat along a counted axis. */
  lemma SamplesDistinct(dimensions: nat, p: Vector3, d: Vector3, i: nat, j: nat)
    requires 1 <= dimensions <= 3 && i < j < |Neighbours(dimensions)|
    requires d.x != 0.0 && (dimensions >= 2 ==> d.y != 0.0) && (dimensions >= 3 ==> d.z != 0.0)
    ensures SamplePoint(dimensions, p, d, i) != SamplePoint(dimensions, p, d, j)
  {
    hide Neighbours;
    TableDistinct(dimensions, i, j);
    var u, w := Neighbours(dimensions)[i], Neighbours(dimensions)[j];
    if u.x != w.x {
      StepsDiffer(u.x, w.x, d.x);
    } else if u.y != w.y && dimensions >= 2 {
      StepsDiffer(u.y, w.y, d.y);
    } else {
      StepsDiffer(u.z, w.z, d.z);
    }
  }

  lemma TableDistinct(dimensions: nat, i: nat, j: nat)
    requires 1 <= dimensions <= 3 && i < j < |Neighbours(dimensions)|
    ensures var u, w := Neighbours(dimensions)[i], Neighbours(dimensions)[j];
            u.x != w.x || (dimensions >= 2 && u.y != w.y) || (dimensions >= 3 && u.z != w.z)
  {
  }

  lemma StepsDiffer(u: real, w: real, d: real)
    requires u != w && d != 0.0
    ensures u * d != w * d
  {
    NonzeroProduct(u - w, d, (u - w) * d);
  }

  /** Position and half-size of the pixel in the lattice unit-vector basis. */
  function PixelCentre(g: Geometry, r: Vector3): Vector3 {
    Componentwise(Vector3(r.x - 0.5, r.y - 0.5, r.z - 0.5), g.size)
  }

  function PixelHalf(g: Geometry, d: Vector3): Vector3 { Componentwise(d, g.size.Scale(0.5)) }

  /** Material functions and files among the picked objects stop the analysis. */
  predicate NonAnalyzable(g: Geometry, o1: Option<Object>, o2: Option<Object>) {
    || (o1.Some? && o1.value.material.isVariable)
    || (o2.Some? && o2.value.material.isVariable)
    || ((g.defaultMaterial.isVariable || g.defaultMaterial.isFile)
        && (o1.None? || o2.None? || o1.value.material.isFile || o2.value.material.isFile))
  }

  /** The analysis stops exactly if one of the two materials that would be averaged is a function or a
      file: the material of the object, or the default one in the background and for files. */
  lemma NonAnalyzableIff(g: Geometry, o1: Option<Object>, o2: Option<Object>)
    requires o1.Some? ==> !(o1.value.material.isFile && o1.value.material.isVariable)
    requires o2.Some? ==> !(o2.value.material.isFile && o2.value.material.isVariable)
    ensures var m1, m2 := MaterialAt(g, o1), MaterialAt(g, o2);
            NonAnalyzable(g, o1, o2) <==> m1.isVariable || m1.isFile || m2.isVariable || m2.isFile
  {
  }

  /** The material of a sample is its object's, which no file is, or else the default one. */
  lemma MaterialUsed(g: Geometry, q: Vector3)
    ensures var s := SampleAt(g, q);
            && s.o == g.lookup(q).0 && s.shift == g.lookup(q).1 && s.id == g.lookup(q).2
            && (s.mat == g.defaultMaterial || (s.o.Some? && s.mat == s.o.value.material && !s.mat.isFile))
            && (s.o.Some? && !s.o.value.material.isFile ==> s.mat == s.o.value.material)
  {
  }

  /** The second object defaults to the first. */
  function Second(st: Pair): Sample
    requires st.first.Some?
  {
    if st.second.Some? then st.second.value else st.first.value
  }

  /** Interface normal in lattice coordinates, from the object with the larger id. */
  function NormalOf(g: Geometry, a: Sample, b: Sample, p: Vector3): Vector3
    requires a.id > b.id ==> a.o.Some?
    requires a.id <= b.id ==> b.o.Some?
  {
    var v := if a.id > b.id then g.normalTo(a.o.value, p.Minus(a.shift)) else g.normalTo(b.o.value, p.Minus(b.shift));
    Vector3(v.x / OrTiny(g.size.x), v.y / OrTiny(g.size.y), v.z / OrTiny(g.size.z))
  }

  /** Fraction of the pixel filled by the first material. */
  function FillOf(g: Geometry, a: Sample, b: Sample, p: Vector3, d: Vector3, tol: real): real
    requires a.id > b.id ==> a.o.Some?
    requires a.id <= b.id ==> b.o.Some?
  {
    var low, high, t := p.Minus(d), p.Plus(d), if tol > 0.01 then 0.01 else tol;
    if a.id > b.id then g.overlap(a.o.value, low.Minus(a.shift), high.Minus(a.shift), t)
    else 1.0 - g.overlap(b.o.value, low.Minus(b.shift), high.Minus(b.shift), t)
  }

  lemma SamplesObey(g: Geometry, p: Vector3, d: Vector3)
    requires GeometryContract(g)
    ensures IdsDetermine(SamplesAround(g, p, d))
    ensures forall s :: s in SamplesAround(g, p, d) ==> (s.o.Some? <==> s.id > 0)
  {
  }

  /** The two picked images, the one with the larger id first. */
  predicate Ordered(a: Sample, b: Sample, top: Sample, other: Sample) {
    ((top == a && other == b) || (top == b && other == a)) && top.id > other.id
  }

  /** The interface of two images with different ids. The image on top gives the normal, divided
      by the lattice sizes, and the part of the pixel that it overlaps is filled by its material. */
  ghost predicate AtInterface(g: Geometry, p: Vector3, d: Vector3, tol: real, top: Sample, other: Sample, mat1: Material,
                              code: int, n: Vector3, meps: Option<Sym>)
  {
    && top.o.Some?
    && Componentwise(n, Vector3(OrTiny(g.size.x), OrTiny(g.size.y), OrTiny(g.size.z))) == g.normalTo(top.o.value, p.Minus(top.shift))
    && (code == 0 <==> g.R.Apply(n) == Zero3)
    && (code == 0 ==> meps == Some(g.epsOf(mat1)))
    && var q := p.Minus(top.shift);
    && var part := g.overlap(top.o.value, q.Minus(d), q.Plus(d), if tol > 0.01 then 0.01 else tol);
    && (code == 1 ==> IsAverage(g.epsOf(top.mat), g.epsOf(other.mat), part, g.R.Apply(n), meps))
  }

  /** What a call returns once the scan has picked its objects: 0 with n and meps untouched for
      materials that cannot be analysed; the material itself with n = 0 when there is only one;
      otherwise the interface normal and, unless that vanishes, the effective tensor, which is
      finite exactly when no division is by zero. */
  ghost predicate Averaged(g: Geometry, p: Vector3, d: Vector3, tol: real, st: Pair, n0: Vector3, meps0: Option<Sym>,
                           code: int, n: Vector3, meps: Option<Sym>)
  {
    && st.first.Some?
    && var a, b := st.first.value, Second(st);
    if NonAnalyzable(g, a.o, b.o) then
      code == 0 && n == n0 && meps == meps0
    else if a.id == b.id || g.same(a.mat, b.mat) then
      code == 1 && n == Zero3 && meps == Some(g.epsOf(a.mat))
    else
      exists top, other :: Ordered(a, b, top, other) && AtInterface(g, p, d, tol, top, other, a.mat, code, n, meps)
  }

  /** The average of two materials for the Cartesian normal n. */
  ghost predicate IsAverage(eps1: Sym, eps2: Sym, fill: real, n: Vector3, meps: Option<Sym>) {
    && (meps.Some? <==> DivisibleAlong(eps1, eps2, fill, n))
    && (meps.Some? ==> Effective(meps.value, eps1, eps2, fill, n))
    && (PositiveDefinite(eps1) && PositiveDefinite(eps2) ==> meps.Some? && PositiveDefinite(meps.value))
  }

  /** Writes n and meps as the C function writes through its pointers; n0 and meps0 are their old
      contents. A tensor with entries that are infinite or not numbers is None. */
  method MeanEpsmu(g: Geometry, n0: Vector3, meps0: Option<Sym>, r: Vector3, d0: Vector3, tol: real, sqrt: real -> real)
    returns (code: int, n: Vector3, meps: Option<Sym>)
    requires GeometryContract(g) && IsSqrt(sqrt)
    ensures code == 0 || code == 1
    ensures var samples := SamplesAround(g, PixelCentre(g, r), PixelHalf(g, d0));
            var scan := Scan(g.same, samples);
            && (scan.None? ==> code == 0 && n == n0 && meps == meps0)
            && (scan.Some? ==>
                  && (forall s :: s in samples ==> Explains(g.same, scan.value, s))
                  && Averaged(g, PixelCentre(g, r), PixelHalf(g, d0), tol, scan.value, n0, meps0, code, n, meps))
  {
    hide Effective, PositiveDefinite, DivisibleAlong, Matrix.Apply, Explains;
    n, meps := n0, meps0;
    var p, d := PixelCentre(g, r), PixelHalf(g, d0);
    var samples := SamplesAround(g, p, d);
    SamplesObey(g, p, d);
    var ok, st := ScanNeighbours(g.same, samples);
    if !ok {
      return 0, n, meps;
    }
    ScanExplains(g.same, samples);
    FirstIsPicked(g.same, samples);
    var a := st.first.value;
    var b := if st.second == None then a else st.second.value;
    if NonAnalyzable(g, a.o, b.o) {
      return 0, n, meps;
    }
    meps := Some(g.epsOf(a.mat));
    if a.id == b.id || g.same(a.mat, b.mat) {
      return 1, Zero3, meps;
    }
    n := NormalOf(g, a, b, p);
    var fill := FillOf(g, a, b, p, d, tol);
    ok, meps := InterfaceAverage(g.epsOf(a.mat), g.epsOf(b.mat), fill, g.R.Apply(n), sqrt);
    code := if ok then 1 else 0;
    ghost var top, other := if a.id > b.id then a else b, if a.id > b.id then b else a;
    FillIsOverlap(g, a, b, p, d, tol, g.R.Apply(n), meps, ok);
    NormalTimesSize(g, a, b, p);
    assert Ordered(a, b, top, other) && AtInterface(g, p, d, tol, top, other, a.mat, code, n, meps);
  }

  lemma NormalTimesSize(g: Geometry, a: Sample, b: Sample, p: Vector3)
    requires a.id > b.id ==> a.o.Some?
    requires a.id <= b.id ==> b.o.Some?
    ensures var v := if a.id > b.id then g.normalTo(a.o.value, p.Minus(a.shift)) else g.normalTo(b.o.value, p.Minus(b.shift));
            Componentwise(NormalOf(g, a, b, p), Vector3(OrTiny(g.size.x), OrTiny(g.size.y), OrTiny(g.size.z))) == v
  {
    var v := if a.id > b.id then g.normalTo(a.o.value, p.Minus(a.shift)) else g.normalTo(b.o.value, p.Minus(b.shift));
    DividedBack(v.x, OrTiny(g.size.x));
    DividedBack(v.y, OrTiny(g.size.y));
    DividedBack(v.z, OrTiny(g.size.z));
  }

  lemma DividedBack(x: real, y: real)
    requires y != 0.0
    ensures (x / y) * y == x
  {
  }

  lemma FillIsOverlap(g: Geometry, a: Sample, b: Sample, p: Vector3, d: Vector3, tol: real, n: Vector3, meps: Option<Sym>, ok: bool)
    requires a.id != b.id && (a.id > b.id ==> a.o.Some?) && (a.id < b.id ==> b.o.Some?)
    requires ok ==> IsAverage(g.epsOf(a.mat), g.epsOf(b.mat), FillOf(g, a, b, p, d, tol), n, meps)
    ensures var top, other := if a.id > b.id then a else b, if a.id > b.id then b else a;
            && top.o.Some?
            && var q := p.Minus(top.shift);
            && var part := g.overlap(top.o.value, q.Minus(d), q.Plus(d), if tol > 0.01 then 0.01 else tol);
            && (ok ==> IsAverage(g.epsOf(top.mat), g.epsOf(other.mat), part, n, meps))
  {
    hide IsAverage;
    PixelShifts(p, d, a.shift);
    PixelShifts(p, d, b.shift);
    if ok && a.id < b.id {
      IsAverageSwaps(g.epsOf(a.mat), g.epsOf(b.mat), FillOf(g, a, b, p, d, tol), n, meps);
    }
  }

  lemma PixelShifts(p: Vector3, d: Vector3, s: Vector3)
    ensures p.Minus(d).Minus(s) == p.Minus(s).Minus(d) && p.Plus(d).Minus(s) == p.Minus(s).Plus(d)
  {
  }

  lemma IsAverageSwaps(eps1: Sym, eps2: Sym, fill: real, n: Vector3, meps: Option<Sym>)
    requires IsAverage(eps1, eps2, fill, n, meps)
    ensures IsAverage(eps2, eps1, 1.0 - fill, n, meps)
  {
    hide Effective, PositiveDefinite, Sym.Form, Quotient, Mix;
    if meps.Some? {
      EffectiveSwaps(meps.value, eps1, eps2, fill, n);
    }
    var a, b := eps1.Form(n, n), eps2.Form(n, n);
    if a != 0.0 && b != 0.0 {
      MixSwaps(fill, Quotient(-1.0, a), Quotient(-1.0, b));
    }
  }

  lemma MixSwaps(fill: real, x: real, y: real)
    ensures Mix(1.0 - fill, y, x) == Mix(fill, x, y)
  {
  }

  /** A pixel that the object on top fills, or does not touch, has the tensor of one material. */
  lemma OneMaterialFills(eps1: Sym, eps2: Sym, n: Vector3, meps: Sym, R: Matrix, k: real)
    requires Frame(R) && k > 0.0 && R.c1 == n.Scale(k)
    ensures IsAverage(eps1, eps2, 1.0, n, Some(meps)) ==> meps == eps1
    ensures IsAverage(eps1, eps2, 0.0, n, Some(meps)) ==> meps == eps2
  {
    if IsAverage(eps1, eps2, 1.0, n, Some(meps)) {
      FirstMaterialFills(eps1, eps2, n, meps, R, k);
    }
    if IsAverage(eps1, eps2, 0.0, n, Some(meps)) {
      hide IsAverage;
      IsAverageSwaps(eps1, eps2, 0.0, n, Some(meps));
      FirstMaterialFills(eps2, eps1, n, meps, R, k);
    }
  }

  lemma FirstMaterialFills(eps1: Sym, eps2: Sym, n: Vector3, meps: Sym, R: Matrix, k: real)
    requires Frame(R) && k > 0.0 && R.c1 == n.Scale(k)
    requires IsAverage(eps1, eps2, 1.0, n, Some(meps))
    ensures meps == eps1
  {
    hide Effective, PositiveDefinite, DivisibleAlong, Divisible, Frame, Vector3.Scale;
    DivisibleScaled(eps1, eps2, 1.0, n, k, R);
    assert 1.0 / k != 0.0 && n == R.c1.Scale(1.0 / k) by { ScaledBackTo(n, k, R.c1); }
    EffectiveScaled(meps, eps1, eps2, 1.0, R.c1, 1.0 / k);
    FilledByOne(meps, eps1, eps2, R);
  }

  lemma ScaledBackTo(n: Vector3, k: real, u: Vector3)
    requires k > 0.0 && u == n.Scale(k)
    ensures 1.0 / k != 0.0 && n == u.Scale(1.0 / k)
  {
    var i := 1.0 / k;
    assert k * i == 1.0;
    ScaleTwice(n, k, i, 1.0);
    ScaleByOne(n);
  }

  /** Neighbouring pixels meet, and the cell is centred on the origin. */
  lemma PixelsTile(g: Geometry, r: Vector3, d: Vector3)
    ensures PixelCentre(g, r).Plus(PixelHalf(g, d)) == PixelCentre(g, r.Plus(d)).Minus(PixelHalf(g, d))
    ensures PixelCentre(g, Vector3(1.0, 1.0, 1.0)).Minus(PixelCentre(g, Zero3)) == g.size
    ensures PixelCentre(g, Vector3(1.0, 1.0, 1.0)).Plus(PixelCentre(g, Zero3)) == Zero3
  {
  }

  lemma FirstIsPicked(same: Same, samples: seq<Sample>)
    requires Equivalence(same) && IdsDetermine(samples)
    requires Scan(same, samples).Some? && |samples| > 0
    ensures Scan(same, samples).value.first.Some?
  {
    ScanSound(same, samples);
  }
}
