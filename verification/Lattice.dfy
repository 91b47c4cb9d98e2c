/** The output lattice of MPBData (python/mpb_data.py:229-314): rectification of the
    lattice vectors, the coordinate map handed to the resampler and the Cartesian map
    applied to vector fields. */
module OutputLattice {
  import opened Reals
  import opened Vectors

  // ----- algebra of one rectification

  /** The shear of the second and third vectors by the first keeps the triple product. */
  lemma ShearVolume(p: Vector3, q: Vector3, r: Vector3)
    ensures q.Minus(p).Cross(r.Minus(p)).Dot(p) == p.Cross(q).Dot(r)
  {
    hide Vector3.Cross, Vector3.Dot, Vector3.Minus, Vector3.Scale;
    var a := q.Minus(p);
    ScaleByOne(p);
    CrossMinusScale(a, r, p, 1.0);
    DotMinusScale(p, a.Cross(r), a.Cross(p), 1.0);
    ScaleByOne(a.Cross(p));
    Triple(p, a, p);
    Triple(p, a, r);
    Triple(a, p, p);
    Triple(r, p, a);
    CrossMinusScale(p, q, p, 1.0);
    DotMinusScale(r, p.Cross(q), p.Cross(p), 1.0);
    ScaleByOne(p.Cross(p));
    CrossSelf(p);
    ZeroDot(r);
  }

  lemma ZeroDot(r: Vector3)
    ensures Zero3.Dot(r) == 0.0
    ensures Zero3.Cross(r) == Zero3
  {
  }

  /** Removing from `a` its component along the unit vector `u` leaves a vector orthogonal to `u`. */
  lemma ProjectOut(u: Vector3, a: Vector3)
    requires u.Dot(u) == 1.0
    ensures u.Dot(a.Minus(u.Scale(u.Dot(a)))) == 0.0
    ensures a.Minus(u.Scale(u.Dot(a))).Dot(u) == 0.0
    ensures u.Cross(a.Minus(u.Scale(u.Dot(a)))) == u.Cross(a)
  {
    hide Vector3.Cross, Vector3.Dot, Vector3.Minus, Vector3.Scale;
    DotMinusScale(u, a, u, u.Dot(a));
    DotCommutes(u, a);
    CrossMinusScale(u, a, u, u.Dot(a));
    CrossSelf(u);
    ZeroShift(u.Cross(a), u.Dot(a));
  }

  lemma ZeroShift(v: Vector3, s: real)
    ensures v.Minus(Zero3.Scale(s)) == v
  {
  }

  /** Second vector after projecting along `u`; its square is nonzero whenever a x b . u is. */
  lemma SecondVector(u: Vector3, a: Vector3, b: Vector3)
    requires u.Dot(u) == 1.0
    requires a.Cross(b).Dot(u) != 0.0
    ensures var a' := a.Minus(u.Scale(u.Dot(a))); a'.Dot(a') > 0.0
  {
    hide Vector3.Cross, Vector3.Dot, Vector3.Minus, Vector3.Scale;
    var a' := a.Minus(u.Scale(u.Dot(a)));
    ProjectOut(u, a);
    Triple(u, a, b);
    DotSelfSign(a');
    if a' == Zero3 {
      CrossAnticommutes(u, a');
      CrossWithZero(u);
      ZeroDot(b);
      assert false;
    }
  }

  lemma CrossWithZero(u: Vector3)
    ensures u.Cross(Zero3) == Zero3
  {
  }

  /** One rectification: mutually orthogonal vectors of the same triple product, the first along `u`. */
  lemma Rectified(u: Vector3, a: Vector3, b: Vector3, V: real, out: Matrix)
    requires u.Dot(u) == 1.0
    requires a.Cross(b).Dot(u) != 0.0
    requires out.c1 == u.Scale(V / a.Cross(b).Dot(u))
    requires out.c2 == a.Minus(u.Scale(u.Dot(a)))
    requires out.c2.Dot(out.c2) != 0.0
    requires var b' := b.Minus(u.Scale(u.Dot(b)));
             out.c3 == b'.Minus(out.c2.Scale(out.c2.Dot(b') / out.c2.Dot(out.c2)))
    ensures OrthogonalColumns(out)
    ensures out.c1.Cross(out.c2).Dot(out.c3) == V
  {
    hide Vector3.Cross, Vector3.Dot, Vector3.Minus, Vector3.Scale;
    var D, a', b' := a.Cross(b).Dot(u), out.c2, b.Minus(u.Scale(u.Dot(b)));
    var k, q := V / D, a'.Dot(b') / a'.Dot(a');
    ProjectOut(u, a);
    ProjectOut(u, b);
    DotScale(u, a', k);
    DotMinusScale(u, b', a', q);
    DotScale(u, out.c3, k);
    DotMinusScale(a', b', a', q);
    CrossScale(u, a', k);
    DotScale(u.Cross(a'), out.c3, k);
    // (u x a') . out.c3 == (u x a) . b == D
    DotMinusScale(u.Cross(a'), b', a', q);
    Triple(a', u, a');
    DotMinusScale(u.Cross(a), b, u, u.Dot(b));
    Triple(a, u, a);
    Triple(b, u, a);
    assert u.Cross(a').Dot(out.c3) == D;
    assert D * k == V;
  }

  /** Without a direction of its own the first vector survives rectification unchanged. */
  lemma OwnDirection(p: Vector3, a: Vector3, b: Vector3, n: real)
    requires IsNorm(p, n) && n != 0.0
    requires a.Cross(b).Dot(p) != 0.0
    ensures var u := p.Scale(1.0 / n);
            a.Cross(b).Dot(u) != 0.0 && u.Scale(a.Cross(b).Dot(p) / a.Cross(b).Dot(u)) == p
  {
    hide Vector3.Cross, Vector3.Dot, Vector3.Scale;
    var u, V := p.Scale(1.0 / n), a.Cross(b).Dot(p);
    DotScale(a.Cross(b), p, 1.0 / n);
    var D := a.Cross(b).Dot(u);
    assert D == V * (1.0 / n);
    assert D * n == V;
    assert V / D == n;
    UnitLength(p, n);
  }

  /** The unit vectors along three orthogonal nonzero vectors. */
  lemma UnitFrame(m: Matrix, n1: real, n2: real, n3: real, u: Matrix)
    requires OrthogonalColumns(m)
    requires IsNorm(m.c1, n1) && IsNorm(m.c2, n2) && IsNorm(m.c3, n3)
    requires n1 != 0.0 && n2 != 0.0 && n3 != 0.0
    requires u == Matrix(m.c1.Scale(1.0 / n1), m.c2.Scale(1.0 / n2), m.c3.Scale(1.0 / n3))
    ensures Orthonormal(u)
    ensures u.c1.Scale(n1) == m.c1 && u.c2.Scale(n2) == m.c2 && u.c3.Scale(n3) == m.c3
  {
    hide Vector3.Dot, Vector3.Scale;
    UnitLength(m.c1, n1);
    UnitLength(m.c2, n2);
    UnitLength(m.c3, n3);
    ScaledColumns(m, 1.0 / n1, 1.0 / n2, 1.0 / n3);
  }

  /** Three nonzero triple-product factors are nonzero vectors. */
  lemma NonzeroColumns(m: Matrix)
    requires m.c1.Cross(m.c2).Dot(m.c3) != 0.0
    ensures m.c1.Dot(m.c1) > 0.0 && m.c2.Dot(m.c2) > 0.0 && m.c3.Dot(m.c3) > 0.0
  {
    hide Vector3.Cross, Vector3.Dot;
    DotSelfSign(m.c1);
    DotSelfSign(m.c2);
    DotSelfSign(m.c3);
    Triple(m.c1, m.c2, m.c3);
    DotCommutes(m.c2.Cross(m.c3), m.c1);
    DotCommutes(m.c3.Cross(m.c1), m.c2);
    DotCommutes(m.c1.Cross(m.c2), m.c3);
    ZeroDot(m.c1.Cross(m.c2));
    ZeroDot(m.c2.Cross(m.c3));
    ZeroDot(m.c3.Cross(m.c1));
  }

  /** The inverse of a matrix with orthonormal columns sends its columns to the axes and keeps lengths. */
  lemma InverseOfFrame(u: Matrix, c: Matrix)
    requires Orthonormal(u)
    requires c.Mul(u) == Identity && u.Mul(c) == Identity
    ensures c.Apply(u.c1) == Vector3(1.0, 0.0, 0.0)
    ensures c.Apply(u.c2) == Vector3(0.0, 1.0, 0.0)
    ensures c.Apply(u.c3) == Vector3(0.0, 0.0, 1.0)
    ensures forall v: Vector3 :: c.Apply(v).Dot(c.Apply(v)) == v.Dot(v)
  {
    hide Vector3.Dot, Matrix.Apply;
    forall v: Vector3 ensures c.Apply(v).Dot(c.Apply(v)) == v.Dot(v) {
      OrthonormalKeepsDot(u, c.Apply(v), c.Apply(v));
      ApplyMul(u, c, v);
      ApplyIdentity(v);
    }
  }

  // ----- what the rectified vectors are made of

  /** The second vector comes from c2 - c1 by taking away a part along the first output vector, the
      third from c3 - c1 by taking away parts along the first and the second. */
  ghost predicate Derived(lattice: Matrix, out: Matrix) {
    && (exists p :: lattice.c2.Minus(lattice.c1).Minus(out.c2) == out.c1.Scale(p))
    && (exists q, r :: lattice.c3.Minus(lattice.c1).Minus(out.c3) == out.c1.Scale(q).Plus(out.c2.Scale(r)))
  }

  /** Orthogonal vectors of the volume of the lattice, the first along dir, made in this way. */
  ghost predicate IsRectified(lattice: Matrix, dir: Vector3, out: Matrix) {
    && OrthogonalColumns(out) && out.Determinant() == lattice.Determinant()
    && (exists k :: out.c1 == dir.Scale(k))
    && Derived(lattice, out)
  }

  lemma RectifiedParts(lattice: Matrix, dir: Vector3, out: Matrix)
    requires IsRectified(lattice, dir, out)
    ensures OrthogonalColumns(out) && out.Determinant() == lattice.Determinant() && exists k :: out.c1 == dir.Scale(k)
  {
  }

  function Stretched(m: Matrix, k: Vector3): Matrix { Matrix(m.c1.Scale(k.x), m.c2.Scale(k.y), m.c3.Scale(k.z)) }

  lemma DerivedBy(lattice: Matrix, u: Vector3, k: real, out: Matrix, s: real, t: real, r: real)
    requires k != 0.0 && out.c1 == u.Scale(k)
    requires var a, b := lattice.c2.Minus(lattice.c1), lattice.c3.Minus(lattice.c1);
             out.c2 == a.Minus(u.Scale(s)) && out.c3 == b.Minus(u.Scale(t)).Minus(out.c2.Scale(r))
    ensures Derived(lattice, out)
  {
    hide Vector3.Scale;
    var p, q := s / k, t / k;
    PartAlong(u, k, s, p);
    PartAlong(u, k, t, q);
    var a, b := lattice.c2.Minus(lattice.c1), lattice.c3.Minus(lattice.c1);
    TakenAway(a, u.Scale(s), out.c2);
    TakenTwice(b, u.Scale(t), out.c2.Scale(r), out.c3);
    assert b.Minus(out.c3) == out.c1.Scale(q).Plus(out.c2.Scale(r));
  }

  lemma PartAlong(u: Vector3, k: real, s: real, p: real)
    requires k != 0.0 && p == s / k
    ensures u.Scale(k).Scale(p) == u.Scale(s)
  {
    assert k * p == s;
    ScaleTwice(u, k, p, s);
  }

  lemma TakenAway(a: Vector3, v: Vector3, c: Vector3)
    requires c == a.Minus(v)
    ensures a.Minus(c) == v
  {
  }

  lemma TakenTwice(b: Vector3, v: Vector3, w: Vector3, c: Vector3)
    requires c == b.Minus(v).Minus(w)
    ensures b.Minus(c) == v.Plus(w)
  {
  }

  /** All three vectors are determined by this. */
  lemma RectifiedIsUnique(lattice: Matrix, dir: Vector3, out: Matrix, out': Matrix)
    requires lattice.Determinant() != 0.0 && IsRectified(lattice, dir, out) && IsRectified(lattice, dir, out')
    ensures out == out'
  {
    hide Vector3.Cross, Vector3.Dot, Vector3.Scale, Matrix.Determinant;
    DeterminantIsTriple(out);
    DeterminantIsTriple(out');
    Triple(out.c1, out.c2, out.c3);
    Triple(out'.c1, out'.c2, out'.c3);
    NonzeroColumns(out);
    NonzeroColumns(out');
    var k :| out.c1 == dir.Scale(k);
    var k' :| out'.c1 == dir.Scale(k');
    SameDirection(dir, k, k', out.c1, out'.c1);
    SecondIsUnique(lattice, out, out', dir, k, k');
    ThirdIsUnique(lattice, out, out', dir, k, k');
    FirstIsUnique(dir, k, k', out, out');
  }

  lemma SameDirection(dir: Vector3, k: real, k': real, u: Vector3, v: Vector3)
    requires u == dir.Scale(k) && v == dir.Scale(k') && u.Dot(u) > 0.0 && v.Dot(v) > 0.0
    ensures k != 0.0 && k' != 0.0 && dir.Dot(dir) > 0.0
  {
    hide Vector3.Dot;
    DotSelfSign(dir);
    DotSelfSign(u);
    DotSelfSign(v);
    assert k == 0.0 ==> u == Zero3;
    assert k' == 0.0 ==> v == Zero3;
    assert dir == Zero3 ==> u == Zero3;
  }

  /** A vector along dir that is orthogonal to dir vanishes. */
  lemma AlongAndAcross(dir: Vector3, s: real)
    requires dir.Dot(dir) > 0.0 && dir.Dot(dir.Scale(s)) == 0.0
    ensures s == 0.0
  {
    hide Vector3.Dot, Vector3.Scale;
    DotScale(dir, dir, s);
    NonzeroProduct(dir.Dot(dir), s, dir.Dot(dir) * s);
  }

  lemma OrthogonalTo(dir: Vector3, k: real, c: Vector3, w: Vector3)
    requires k != 0.0 && c == dir.Scale(k) && c.Dot(w) == 0.0
    ensures dir.Dot(w) == 0.0
  {
    hide Vector3.Dot, Vector3.Scale;
    DotScale(dir, w, k);
    NonzeroProduct(dir.Dot(w), k, dir.Dot(w) * k);
  }

  lemma SecondIsUnique(lattice: Matrix, out: Matrix, out': Matrix, dir: Vector3, k: real, k': real)
    requires OrthogonalColumns(out) && OrthogonalColumns(out') && Derived(lattice, out) && Derived(lattice, out')
    requires k != 0.0 && k' != 0.0 && out.c1 == dir.Scale(k) && out'.c1 == dir.Scale(k') && dir.Dot(dir) > 0.0
    ensures out.c2 == out'.c2
  {
    hide Vector3.Dot, Vector3.Scale;
    var a := lattice.c2.Minus(lattice.c1);
    var p :| a.Minus(out.c2) == out.c1.Scale(p);
    var p' :| a.Minus(out'.c2) == out'.c1.Scale(p');
    ScaleTwice(dir, k, p, k * p);
    ScaleTwice(dir, k', p', k' * p');
    var s := k' * p' - k * p;
    DifferenceAlong(a, out.c2, out'.c2, dir, k * p, k' * p', s);
    OrthogonalTo(dir, k, out.c1, out.c2);
    OrthogonalTo(dir, k', out'.c1, out'.c2);
    DotMinus(dir, out.c2, out'.c2);
    AlongAndAcross(dir, s);
    NoDifference(out.c2, out'.c2, dir, s);
  }

  lemma DifferenceAlong(a: Vector3, v: Vector3, w: Vector3, dir: Vector3, s: real, t: real, d: real)
    requires a.Minus(v) == dir.Scale(s) && a.Minus(w) == dir.Scale(t) && d == t - s
    ensures v.Minus(w) == dir.Scale(d)
  {
  }

  lemma DotMinus(u: Vector3, v: Vector3, w: Vector3)
    ensures u.Dot(v.Minus(w)) == u.Dot(v) - u.Dot(w)
  {
    hide Vector3.Dot, Vector3.Minus;
    ScaleByOne(w);
    DotMinusScale(u, v, w, 1.0);
  }

  lemma NoDifference(v: Vector3, w: Vector3, dir: Vector3, s: real)
    requires v.Minus(w) == dir.Scale(s) && s == 0.0
    ensures v == w
  {
  }

  lemma ThirdIsUnique(lattice: Matrix, out: Matrix, out': Matrix, dir: Vector3, k: real, k': real)
    requires OrthogonalColumns(out) && OrthogonalColumns(out') && Derived(lattice, out) && Derived(lattice, out')
    requires k != 0.0 && k' != 0.0 && out.c1 == dir.Scale(k) && out'.c1 == dir.Scale(k') && dir.Dot(dir) > 0.0
    requires out.c2 == out'.c2 && out.c2.Dot(out.c2) > 0.0
    ensures out.c3 == out'.c3
  {
    hide Vector3.Dot, Vector3.Scale;
    var b, c := lattice.c3.Minus(lattice.c1), out.c2;
    var q, r :| b.Minus(out.c3) == out.c1.Scale(q).Plus(out.c2.Scale(r));
    var q', r' :| b.Minus(out'.c3) == out'.c1.Scale(q').Plus(out'.c2.Scale(r'));
    ScaleTwice(dir, k, q, k * q);
    ScaleTwice(dir, k', q', k' * q');
    var s, t := k' * q' - k * q, r' - r;
    DifferenceInPlane(b, out.c3, out'.c3, dir, c, k * q, k' * q', r, r', s, t);
    OrthogonalTo(dir, k, out.c1, c);
    OrthogonalTo(dir, k, out.c1, out.c3);
    OrthogonalTo(dir, k', out'.c1, out'.c3);
    DotMinus(dir, out.c3, out'.c3);
    DotMinus(c, out.c3, out'.c3);
    DotPlus(dir, dir.Scale(s), c.Scale(t));
    DotPlus(c, dir.Scale(s), c.Scale(t));
    DotScale(dir, c, t);
    DotCommutes(dir, c);
    DotScale(c, dir, s);
    AlongAndAcross(dir, s);
    AlongAndAcross(c, t);
    NoDifferenceInPlane(out.c3, out'.c3, dir, c, s, t);
  }

  lemma DifferenceInPlane(b: Vector3, v: Vector3, w: Vector3, dir: Vector3, c: Vector3,
                          s: real, s': real, r: real, r': real, d: real, e: real)
    requires b.Minus(v) == dir.Scale(s).Plus(c.Scale(r)) && b.Minus(w) == dir.Scale(s').Plus(c.Scale(r'))
    requires d == s' - s && e == r' - r
    ensures v.Minus(w) == dir.Scale(d).Plus(c.Scale(e))
  {
  }

  lemma NoDifferenceInPlane(v: Vector3, w: Vector3, dir: Vector3, c: Vector3, s: real, t: real)
    requires v.Minus(w) == dir.Scale(s).Plus(c.Scale(t)) && s == 0.0 && t == 0.0
    ensures v == w
  {
    hide Vector3.Scale;
    TimesZero(dir);
    TimesZero(c);
  }

  lemma FirstIsUnique(dir: Vector3, k: real, k': real, out: Matrix, out': Matrix)
    requires out.c1 == dir.Scale(k) && out'.c1 == dir.Scale(k') && out.c2 == out'.c2 && out.c3 == out'.c3
    requires out.Determinant() == out'.Determinant() != 0.0
    ensures out.c1 == out'.c1
  {
    hide Vector3.Cross, Vector3.Dot, Vector3.Scale, Matrix.Determinant;
    DeterminantIsTriple(out);
    DeterminantIsTriple(out');
    var n := out.c2.Cross(out.c3);
    Triple(out.c1, out.c2, out.c3);
    Triple(out'.c1, out.c2, out.c3);
    DotCommutes(n, out.c1);
    DotCommutes(n, out'.c1);
    DotCommutes(n, dir);
    DotScale(n, dir, k);
    DotScale(n, dir, k');
    CancelFactor(n.Dot(dir), k, k');
  }

  lemma CancelFactor(w: real, x: real, y: real)
    requires w * x == w * y && w * x != 0.0
    ensures x == y
  {
    NonzeroProduct(w, x, w * x);
    NonzeroProduct(w, x - y, w * (x - y));
  }

  class MPBData {
    var lattice: Matrix       // the three input lattice vectors
    var rectify: bool
    var multiplySize: Vector3
    var haveVe: bool
    var ve: Vector3
    var coordMap: Matrix
    var Rout: Matrix
    var cartMap: Matrix

    /** A caller can check this before the call: the lattice vectors are independent and a
        direction asked for is not in the plane of the two differences c2 - c1 and c3 - c1. */
    predicate Admissible()
      reads this
    {
      && lattice.Determinant() != 0.0
      && (rectify && haveVe ==>
            lattice.c2.Minus(lattice.c1).Cross(lattice.c3.Minus(lattice.c1)).Dot(ve) != 0.0)
    }

    /** The direction of the first output vector before it is normalised. */
    function Direction(): Vector3
      reads this
    {
      if haveVe then ve else lattice.c1
    }

    /** The plane test of Admissible, put in terms of the direction used and its length. */
    lemma DirectionTest(n: real)
      requires IsNorm(Direction(), n)
      ensures var c := lattice.c2.Minus(lattice.c1).Cross(lattice.c3.Minus(lattice.c1));
              && (n == 0.0 ==> c.Dot(Direction()) == 0.0)
              && (n != 0.0 ==> (c.Dot(Direction().Scale(1.0 / n)) == 0.0 <==> c.Dot(Direction()) == 0.0))
              && (!haveVe ==> c.Dot(Direction()) == lattice.Determinant())
      ensures lattice.c1.Cross(lattice.c2).Dot(lattice.c3) == lattice.Determinant()
    {
      hide Vector3.Cross, Vector3.Dot, Vector3.Minus, Vector3.Scale, Matrix.Determinant;
      var c := lattice.c2.Minus(lattice.c1).Cross(lattice.c3.Minus(lattice.c1));
      DotSelfSign(Direction());
      ZeroDot(c);
      DotCommutes(Zero3, c);
      ShearVolume(lattice.c1, lattice.c2, lattice.c3);
      DeterminantIsTriple(lattice);
      Triple(lattice.c1, lattice.c2, lattice.c3);
      if n != 0.0 {
        DotScale(c, Direction(), 1.0 / n);
        ScaledZero(c.Dot(Direction()), 1.0 / n);
      }
    }

    /** The block under `if self.rectify`; false where the Python code raises ZeroDivisionError. */
    method Rectify(sqrt: real -> real) returns (ok: bool, out: Matrix, cart: Matrix)
      requires IsSqrt(sqrt)
      requires rectify
      ensures ok <==> Admissible()
      ensures ok ==> IsRectified(lattice, Direction(), out)
      ensures ok && !haveVe ==> out.c1 == lattice.c1
      ensures ok ==> AxisMap(out, cart, Ones)
    {
      hide Vector3.Cross, Vector3.Dot, Vector3.Minus, Vector3.Scale, Matrix.Determinant, Matrix.Apply, AxisMap, Derived;
      cart := Identity;
      out := Matrix(lattice.c1, lattice.c2, lattice.c3);
      var dir := if haveVe then ve else out.c1;
      DotSelfSign(dir);
      var n := sqrt(dir.Dot(dir));
      DirectionTest(n);
      if n == 0.0 {
        return false, out, cart;
      }
      var u := dir.Scale(1.0 / n);
      var V := out.c1.Cross(out.c2).Dot(out.c3);
      out := out.(c2 := out.c2.Minus(out.c1));
      out := out.(c3 := out.c3.Minus(out.c1));
      ghost var a, b := out.c2, out.c3;
      var D := out.c2.Cross(out.c3).Dot(u);
      if D == 0.0 {
        return false, out, cart;
      }
      UnitLength(dir, n);
      SecondVector(u, a, b);
      ghost var s, t := u.Dot(a), u.Dot(b);
      out := out.(c1 := u.Scale(V / D));
      out := out.(c2 := out.c2.Minus(u.Scale(u.Dot(out.c2))));
      out := out.(c3 := out.c3.Minus(u.Scale(u.Dot(out.c3))));
      out := out.(c3 := out.c3.Minus(out.c2.Scale(out.c2.Dot(out.c3) / out.c2.Dot(out.c2))));
      ghost var r := out.c2.Dot(b.Minus(u.Scale(t))) / out.c2.Dot(out.c2);
      Rectified(u, a, b, V, out);
      DeterminantIsTriple(out);
      Triple(out.c1, out.c2, out.c3);
      FirstAlong(dir, n, V / D);
      if !haveVe {
        OwnDirection(dir, a, b, n);
      }
      DotSelfSign(out.c1);
      var n1 := sqrt(out.c1.Dot(out.c1));
      if n1 == 0.0 {
        assert V == 0.0 by { if V != 0.0 { NonzeroColumns(out); } }
        return false, out, cart;
      }
      assert V != 0.0 by { if V == 0.0 { ZeroScale(u, V / D); } }
      NonzeroColumns(out);
      DerivedBy(lattice, u, V / D, out, s, t, r) by { NonzeroRatio(V, D); }
      var n2, n3 := sqrt(out.c2.Dot(out.c2)), sqrt(out.c3.Dot(out.c3));
      cart := Matrix(out.c1.Scale(1.0 / n1), out.c2.Scale(1.0 / n2), out.c3.Scale(1.0 / n3));
      CartesianFrame(out, n1, n2, n3, cart);
      cart := cart.Inverse();
      ok := true;
    }

    /** Returns false where the Python code raises ZeroDivisionError. */
    method InitOutputLattice(sqrt: real -> real) returns (ok: bool)
      requires IsSqrt(sqrt)
      modifies this`coordMap, this`Rout, this`cartMap
      ensures ok <==> old(Admissible())
      ensures !ok ==> coordMap == old(coordMap) && Rout == old(Rout) && cartMap == old(cartMap)
      ensures ok ==> lattice.Mul(coordMap) == Rout
      ensures ok ==> Rout.Determinant()
                     == lattice.Determinant() * multiplySize.x * multiplySize.y * multiplySize.z
      ensures ok && rectify ==> OrthogonalColumns(Rout) && AxisMap(Rout, cartMap, multiplySize)
      ensures ok && rectify ==>
                exists out :: IsRectified(lattice, Direction(), out) && Rout == Stretched(out, multiplySize)
      ensures ok && rectify && haveVe ==> exists k :: Rout.c1 == ve.Scale(k)
      ensures ok && !(rectify && haveVe) ==> Rout.c1 == lattice.c1.Scale(multiplySize.x)
      ensures ok && !rectify ==>
                && Rout.c2 == lattice.c2.Scale(multiplySize.y)
                && Rout.c3 == lattice.c3.Scale(multiplySize.z)
                && coordMap == Diagonal(multiplySize.x, multiplySize.y, multiplySize.z)
                && cartMap == Identity
    {
      hide Vector3.Cross, Vector3.Dot, Vector3.Minus, Vector3.Scale, Matrix.Determinant, Matrix.Apply, AxisMap, IsRectified;
      var cart, Rin, m := Identity, lattice, multiplySize;
      var out := Matrix(Rin.c1, Rin.c2, Rin.c3);
      ghost var ratio := 1.0;
      if rectify {
        ok, out, cart := Rectify(sqrt);
        if !ok {
          return;
        }
        ScaledAxisMap(out, cart, m);
        RectifiedParts(lattice, Direction(), out);
        ghost var k :| out.c1 == Direction().Scale(k);
        ratio := k * m.x;
        ScaleTwice(Direction(), k, m.x, ratio);
      }
      ScaledColumns(out, m.x, m.y, m.z);
      ghost var before := out;
      out := out.(c1 := out.c1.Scale(m.x));
      out := out.(c2 := out.c2.Scale(m.y));
      out := out.(c3 := out.c3.Scale(m.z));
      if Rin.Determinant() == 0.0 {
        return false;
      }
      CoordinateMap(Rin, out);
      ScaledLatticeMap(Rin, m);
      coordMap := Rin.Inverse().Mul(out);
      Rout := out;
      cartMap := cart;
      assert rectify && haveVe ==> Rout.c1 == ve.Scale(ratio);
      assert rectify ==> IsRectified(lattice, Direction(), before) && Rout == Stretched(before, multiplySize);
      return true;
    }
  }

  /** `cart` keeps lengths and turns the columns of `m` onto the Cartesian axes, each to the
      side given by the sign of its multiplier. */
  ghost predicate AxisMap(m: Matrix, cart: Matrix, k: Vector3) {
    && cart.Apply(m.c1).x * k.x >= 0.0 && cart.Apply(m.c2).y * k.y >= 0.0 && cart.Apply(m.c3).z * k.z >= 0.0
    && cart.Apply(m.c1).y == cart.Apply(m.c1).z == 0.0
    && cart.Apply(m.c2).x == cart.Apply(m.c2).z == 0.0
    && cart.Apply(m.c3).x == cart.Apply(m.c3).y == 0.0
    && forall v: Vector3 :: cart.Apply(v).Dot(cart.Apply(v)) == v.Dot(v)
  }

  lemma ScaledAxisMap(m: Matrix, cart: Matrix, k: Vector3)
    requires AxisMap(m, cart, Ones)
    ensures AxisMap(Matrix(m.c1.Scale(k.x), m.c2.Scale(k.y), m.c3.Scale(k.z)), cart, k)
  {
    hide Vector3.Dot, Matrix.Apply;
    ApplyScale(cart, m.c1, k.x);
    ApplyScale(cart, m.c2, k.y);
    ApplyScale(cart, m.c3, k.z);
    SameSide(cart.Apply(m.c1).x, k.x);
    SameSide(cart.Apply(m.c2).y, k.y);
    SameSide(cart.Apply(m.c3).z, k.z);
  }

  const Ones := Vector3(1.0, 1.0, 1.0)

  lemma SameSide(a: real, k: real)
    requires a * 1.0 >= 0.0
    ensures a * k * k >= 0.0
  {
    SquareSign(k, k * k);
    ProductSign(a, k * k, a * (k * k));
  }

  /** The inverse of the unit vectors along three orthogonal ones is their axis map. */
  lemma CartesianFrame(m: Matrix, n1: real, n2: real, n3: real, u: Matrix)
    requires OrthogonalColumns(m) && m.Determinant() != 0.0
    requires IsNorm(m.c1, n1) && IsNorm(m.c2, n2) && IsNorm(m.c3, n3)
    requires n1 != 0.0 && n2 != 0.0 && n3 != 0.0
    requires u == Matrix(m.c1.Scale(1.0 / n1), m.c2.Scale(1.0 / n2), m.c3.Scale(1.0 / n3))
    ensures u.Determinant() != 0.0 && AxisMap(m, u.Inverse(), Ones)
  {
    hide Vector3.Cross, Vector3.Dot, Vector3.Scale, Matrix.Determinant, Matrix.Apply, Matrix.Inverse;
    UnitFrame(m, n1, n2, n3, u);
    ScaledColumns(m, 1.0 / n1, 1.0 / n2, 1.0 / n3);
    ScaledZero(m.Determinant(), 1.0 / n1);
    ScaledZero(m.Determinant() * (1.0 / n1), 1.0 / n2);
    ScaledZero(m.Determinant() * (1.0 / n1) * (1.0 / n2), 1.0 / n3);
    InverseIsInverse(u);
    InverseOfFrame(u, u.Inverse());
    UnitAxisMap(u, u.Inverse());
    ScaledAxisMap(u, u.Inverse(), Vector3(n1, n2, n3));
    PositiveSide(m, u.Inverse(), Vector3(n1, n2, n3));
  }

  lemma PositiveSide(m: Matrix, c: Matrix, k: Vector3)
    requires k.x > 0.0 && k.y > 0.0 && k.z > 0.0
    requires AxisMap(m, c, k)
    ensures AxisMap(m, c, Ones)
  {
    hide Vector3.Dot, Matrix.Apply;
    SignOf(c.Apply(m.c1).x, k.x);
    SignOf(c.Apply(m.c2).y, k.y);
    SignOf(c.Apply(m.c3).z, k.z);
  }

  lemma SignOf(a: real, k: real)
    requires k > 0.0 && a * k >= 0.0
    ensures a * 1.0 >= 0.0
  {
    if a < 0.0 {
      ProductSign(-a, k, (-a) * k);
    }
  }

  lemma UnitAxisMap(u: Matrix, c: Matrix)
    requires c.Apply(u.c1) == Vector3(1.0, 0.0, 0.0)
    requires c.Apply(u.c2) == Vector3(0.0, 1.0, 0.0)
    requires c.Apply(u.c3) == Vector3(0.0, 0.0, 1.0)
    requires forall v: Vector3 :: c.Apply(v).Dot(c.Apply(v)) == v.Dot(v)
    ensures AxisMap(u, c, Ones)
  {
    hide Vector3.Dot, Matrix.Apply;
  }

  lemma CoordinateMap(Rin: Matrix, out: Matrix)
    requires Rin.Determinant() != 0.0
    ensures Rin.Mul(Rin.Inverse().Mul(out)) == out
  {
    hide Matrix.Apply, Matrix.Determinant, Matrix.Inverse;
    InverseIsInverse(Rin);
    MulAssociates(Rin, Rin.Inverse(), out);
    MulIdentity(out);
  }

  /** In lattice coordinates, multiples of the lattice vectors are a diagonal map. */
  lemma ScaledLatticeMap(Rin: Matrix, k: Vector3)
    requires Rin.Determinant() != 0.0
    ensures Rin.Inverse().Mul(Matrix(Rin.c1.Scale(k.x), Rin.c2.Scale(k.y), Rin.c3.Scale(k.z)))
         == Diagonal(k.x, k.y, k.z)
  {
    hide Matrix.Apply, Matrix.Determinant, Matrix.Inverse, Vector3.Scale;
    InverseIsInverse(Rin);
    ApplyScale(Rin.Inverse(), Rin.c1, k.x);
    ApplyScale(Rin.Inverse(), Rin.c2, k.y);
    ApplyScale(Rin.Inverse(), Rin.c3, k.z);
    ScaleComponents(Vector3(1.0, 0.0, 0.0), 1.0, 0.0, 0.0, k.x);
    ScaleComponents(Vector3(0.0, 1.0, 0.0), 0.0, 1.0, 0.0, k.y);
    ScaleComponents(Vector3(0.0, 0.0, 1.0), 0.0, 0.0, 1.0, k.z);
  }

  lemma NonzeroRatio(v: real, d: real)
    requires v != 0.0 && d != 0.0
    ensures v / d != 0.0
  {
    assert (v / d) * d == v;
  }

  lemma ZeroScale(u: Vector3, s: real)
    requires s == 0.0
    ensures u.Scale(s) == Zero3
  {
  }

  lemma ScaledZero(a: real, s: real)
    requires s != 0.0
    ensures a * s == 0.0 <==> a == 0.0
  {
  }

  lemma FirstAlong(dir: Vector3, n: real, k: real)
    requires n != 0.0
    ensures dir.Scale(1.0 / n).Scale(k) == dir.Scale((1.0 / n) * k)
  {
    ScaleTwice(dir, 1.0 / n, k, (1.0 / n) * k);
  }
}
