/** Three-component vectors and 3x3 matrices by columns (python/geom.py).
    Components are exact reals. */
module Vectors {
  import opened Reals

  datatype Vector3 = Vector3(x: real, y: real, z: real) {

    function Plus(v: Vector3): Vector3 { Vector3(x + v.x, y + v.y, z + v.z) }

    function Minus(v: Vector3): Vector3 { Vector3(x - v.x, y - v.y, z - v.z) }

    function Scale(s: real): Vector3 { Vector3(x * s, y * s, z * s) }

    function Dot(v: Vector3): real { x * v.x + y * v.y + z * v.z }

    function Cross(v: Vector3): Vector3 {
      Vector3(Minor(y, z, v.y, v.z), Minor(z, x, v.z, v.x), Minor(x, y, v.x, v.y))
    }
  }

  function Minor(a: real, b: real, c: real, d: real): real { a * d - b * c }

  const Zero3 := Vector3(0.0, 0.0, 0.0)

  datatype Matrix = Matrix(c1: Vector3, c2: Vector3, c3: Vector3) {

    function Row0(): Vector3 { Vector3(c1.x, c2.x, c3.x) }

    function Row1(): Vector3 { Vector3(c1.y, c2.y, c3.y) }

    function Row2(): Vector3 { Vector3(c1.z, c2.z, c3.z) }

    function Transpose(): Matrix { Matrix(Row0(), Row1(), Row2()) }

    function Apply(v: Vector3): Vector3 {
      Vector3(Row0().Dot(v), Row1().Dot(v), Row2().Dot(v))
    }

    function Mul(m: Matrix): Matrix { Matrix(Apply(m.c1), Apply(m.c2), Apply(m.c3)) }

    function Scale(s: real): Matrix { Matrix(c1.Scale(s), c2.Scale(s), c3.Scale(s)) }

    function Determinant(): real {
      (c1.x * c2.y * c3.z + c2.x * c3.y * c1.z + c1.y * c2.z * c3.x)
      - (c3.x * c2.y * c1.z + c2.x * c1.y * c3.z + c3.y * c2.z * c1.x)
    }

    /** The vectors v1, v2, v3 of minors that the inverse divides by the determinant. */
    function Cofactors(): Matrix {
      Matrix(Row1().Cross(Row2()), Row2().Cross(Row0()), Row0().Cross(Row1()))
    }

    function Inverse(): Matrix
      requires Determinant() != 0.0
    {
      Cofactors().Scale(1.0 / Determinant())
    }
  }

  const Identity :=
    Matrix(Vector3(1.0, 0.0, 0.0), Vector3(0.0, 1.0, 0.0), Vector3(0.0, 0.0, 1.0))

  function Diagonal(a: real, b: real, c: real): Matrix {
    Matrix(Vector3(a, 0.0, 0.0), Vector3(0.0, b, 0.0), Vector3(0.0, 0.0, c))
  }

  /** `n` is the value sqrt(abs(v.dot(v))): the defining equation of the norm. */
  predicate IsNorm(v: Vector3, n: real) {
    n >= 0.0 && n * n == v.Dot(v)
  }

  // ----- component lemmas: products spelled out, so that callers can hide the definitions

  lemma DotComponents(u: Vector3, v: Vector3, a: real, b: real, c: real, d: real, e: real, f: real)
    requires u == Vector3(a, b, c) && v == Vector3(d, e, f)
    ensures u.Dot(v) == a * d + b * e + c * f
  {
  }

  lemma CrossComponents(u: Vector3, v: Vector3, a: real, b: real, c: real, d: real, e: real, f: real)
    requires u == Vector3(a, b, c) && v == Vector3(d, e, f)
    ensures u.Cross(v) == Vector3(b * f - c * e, c * d - a * f, a * e - b * d)
  {
  }

  lemma ScaleComponents(v: Vector3, a: real, b: real, c: real, s: real)
    requires v == Vector3(a, b, c)
    ensures v.Scale(s) == Vector3(a * s, b * s, c * s)
  {
  }

  lemma TripleComponents(u: Vector3, v: Vector3, w: Vector3)
    ensures v.Cross(w).Dot(u)
         == (v.y * w.z - v.z * w.y) * u.x + (v.z * w.x - v.x * w.z) * u.y + (v.x * w.y - v.y * w.x) * u.z
  {
  }

  // ----- vector algebra

  lemma DotCommutes(v: Vector3, w: Vector3)
    ensures v.Dot(w) == w.Dot(v)
  {
  }

  lemma DotScale(v: Vector3, w: Vector3, s: real)
    ensures v.Scale(s).Dot(w) == v.Dot(w) * s
    ensures v.Dot(w.Scale(s)) == v.Dot(w) * s
  {
    hide Vector3.Dot, Vector3.Scale;
    var Vector3(a, b, c) := v;
    var Vector3(d, e, f) := w;
    ScaleComponents(v, a, b, c, s);
    ScaleComponents(w, d, e, f, s);
    DotComponents(v, w, a, b, c, d, e, f);
    DotComponents(v.Scale(s), w, a * s, b * s, c * s, d, e, f);
    DotComponents(v, w.Scale(s), a, b, c, d * s, e * s, f * s);
    DistributeThree(a, b, c, d, e, f, s);
  }

  lemma DistributeThree(a: real, b: real, c: real, d: real, e: real, f: real, s: real)
    ensures (a * s) * d + (b * s) * e + (c * s) * f == (a * d + b * e + c * f) * s
    ensures a * (d * s) + b * (e * s) + c * (f * s) == (a * d + b * e + c * f) * s
  {
  }

  /** The triple product is cyclic and vanishes on a repeated vector. */
  lemma Triple(u: Vector3, v: Vector3, w: Vector3)
    ensures v.Cross(w).Dot(u) == w.Cross(u).Dot(v) == u.Cross(v).Dot(w)
    ensures v.Cross(w).Dot(v) == 0.0 == v.Cross(w).Dot(w)
  {
    hide Vector3.Dot, Vector3.Cross;
    TripleComponents(u, v, w);
    TripleComponents(v, w, u);
    TripleComponents(w, u, v);
    TripleComponents(v, v, w);
    TripleComponents(w, v, w);
  }

  // ----- matrix algebra

  lemma ApplyZero(m: Matrix)
    ensures m.Apply(Zero3) == Zero3
  {
  }

  lemma ApplyScale(m: Matrix, v: Vector3, s: real)
    ensures m.Scale(s).Apply(v) == m.Apply(v).Scale(s)
    ensures m.Apply(v.Scale(s)) == m.Apply(v).Scale(s)
  {
    hide Vector3.Dot, Vector3.Scale;
    var r0, r1, r2 := m.Row0(), m.Row1(), m.Row2();
    assert m.Scale(s).Row0() == r0.Scale(s) && m.Scale(s).Row1() == r1.Scale(s) && m.Scale(s).Row2() == r2.Scale(s) by {
      ScaleRows(m, s);
    }
    ScaleComponents(m.Apply(v), r0.Dot(v), r1.Dot(v), r2.Dot(v), s);
    DotScale(r0, v, s);
    DotScale(r1, v, s);
    DotScale(r2, v, s);
  }

  lemma ScaleRows(m: Matrix, s: real)
    ensures m.Scale(s).Row0() == m.Row0().Scale(s)
    ensures m.Scale(s).Row1() == m.Row1().Scale(s)
    ensures m.Scale(s).Row2() == m.Row2().Scale(s)
  {
    hide Vector3.Scale;
    ScaleComponents(m.c1, m.c1.x, m.c1.y, m.c1.z, s);
    ScaleComponents(m.c2, m.c2.x, m.c2.y, m.c2.z, s);
    ScaleComponents(m.c3, m.c3.x, m.c3.y, m.c3.z, s);
    ScaleComponents(m.Row0(), m.c1.x, m.c2.x, m.c3.x, s);
    ScaleComponents(m.Row1(), m.c1.y, m.c2.y, m.c3.y, s);
    ScaleComponents(m.Row2(), m.c1.z, m.c2.z, m.c3.z, s);
  }

  /** The rows of the cofactor matrix are the cross products of the columns. */
  lemma CofactorRows(m: Matrix)
    ensures m.Cofactors().Row0() == m.c2.Cross(m.c3)
    ensures m.Cofactors().Row1() == m.c3.Cross(m.c1)
    ensures m.Cofactors().Row2() == m.c1.Cross(m.c2)
  {
    hide Minor;
    forall a: real, b: real, c: real, d: real ensures Minor(a, b, c, d) == Minor(a, c, b, d) == Minor(d, c, b, a) {
      MinorTransposes(a, b, c, d);
    }
  }

  lemma MinorTransposes(a: real, b: real, c: real, d: real)
    ensures Minor(a, b, c, d) == Minor(a, c, b, d) == Minor(d, c, b, a)
  {
  }

  lemma DeterminantIsTriple(m: Matrix)
    ensures m.Determinant() == m.c2.Cross(m.c3).Dot(m.c1)
    ensures m.Determinant() == m.Row1().Cross(m.Row2()).Dot(m.Row0())
  {
    hide Vector3.Cross, Vector3.Dot;
    TripleComponents(m.c1, m.c2, m.c3);
    var r0, r1, r2, d := m.Row0(), m.Row1(), m.Row2(), m.Row1().Cross(m.Row2());
    var Matrix(p, q, r) := m;
    CrossComponents(r1, r2, p.y, q.y, r.y, p.z, q.z, r.z);
    DotComponents(d, r0, q.y * r.z - r.y * q.z, r.y * p.z - p.y * r.z, p.y * q.z - q.y * p.z, p.x, q.x, r.x);
  }

  lemma CofactorProducts(m: Matrix)
    ensures m.Cofactors().Mul(m) == Diagonal(m.Determinant(), m.Determinant(), m.Determinant())
    ensures m.Mul(m.Cofactors()) == Diagonal(m.Determinant(), m.Determinant(), m.Determinant())
  {
    hide Vector3.Cross, Vector3.Dot, Matrix.Determinant;
    var r0, r1, r2, k := m.Row0(), m.Row1(), m.Row2(), m.Cofactors();
    DeterminantIsTriple(m);
    CofactorRows(m);
    Triple(m.c1, m.c2, m.c3);
    Triple(m.c2, m.c3, m.c1);
    Triple(m.c3, m.c1, m.c2);
    Triple(r0, r1, r2);
    Triple(r1, r2, r0);
    Triple(r2, r0, r1);
    forall v: Vector3, w: Vector3 ensures v.Dot(w) == w.Dot(v) { DotCommutes(v, w); }
  }

  lemma ApplyPlus(m: Matrix, v: Vector3, w: Vector3)
    ensures m.Apply(v.Plus(w)) == m.Apply(v).Plus(m.Apply(w))
    ensures m.Apply(v.Minus(w)) == m.Apply(v).Minus(m.Apply(w))
  {
    hide Vector3.Dot;
    DotPlus(m.Row0(), v, w);
    DotPlus(m.Row1(), v, w);
    DotPlus(m.Row2(), v, w);
  }

  lemma DotPlus(u: Vector3, v: Vector3, w: Vector3)
    ensures u.Dot(v.Plus(w)) == u.Dot(v) + u.Dot(w)
    ensures u.Dot(v.Minus(w)) == u.Dot(v) - u.Dot(w)
  {
    hide Vector3.Dot;
    var Vector3(a, b, c) := u;
    DotComponents(u, v, a, b, c, v.x, v.y, v.z);
    DotComponents(u, w, a, b, c, w.x, w.y, w.z);
    DotComponents(u, v.Plus(w), a, b, c, v.x + w.x, v.y + w.y, v.z + w.z);
    DotComponents(u, v.Minus(w), a, b, c, v.x - w.x, v.y - w.y, v.z - w.z);
  }

  lemma ScaleByOne(v: Vector3)
    ensures v.Scale(1.0) == v
  {
  }

  /** The cofactor formula is a two-sided inverse of every regular matrix. */
  lemma InverseIsInverse(m: Matrix)
    requires m.Determinant() != 0.0
    ensures m.Inverse().Mul(m) == Identity
    ensures m.Mul(m.Inverse()) == Identity
  {
    hide Matrix.Apply, Matrix.Determinant, Matrix.Cofactors, Vector3.Scale, Matrix.Scale;
    var k, d, s := m.Cofactors(), m.Determinant(), 1.0 / m.Determinant();
    assert k.Scale(s).c1 == k.c1.Scale(s) && k.Scale(s).c2 == k.c2.Scale(s) && k.Scale(s).c3 == k.c3.Scale(s) by {
      MatrixScaleColumns(k, s);
    }
    CofactorProducts(m);
    ApplyScale(k, m.c1, s);
    ApplyScale(k, m.c2, s);
    ApplyScale(k, m.c3, s);
    ApplyScale(m, k.c1, s);
    ApplyScale(m, k.c2, s);
    ApplyScale(m, k.c3, s);
    assert d * s == 1.0 && 0.0 * s == 0.0;
    ScaleComponents(Vector3(d, 0.0, 0.0), d, 0.0, 0.0, s);
    ScaleComponents(Vector3(0.0, d, 0.0), 0.0, d, 0.0, s);
    ScaleComponents(Vector3(0.0, 0.0, d), 0.0, 0.0, d, s);
  }

  lemma MatrixScaleColumns(m: Matrix, s: real)
    ensures m.Scale(s) == Matrix(m.c1.Scale(s), m.c2.Scale(s), m.c3.Scale(s))
  {
  }

  // ----- linearity of the two products

  lemma CrossMinusScale(u: Vector3, v: Vector3, w: Vector3, s: real)
    ensures u.Cross(v.Minus(w.Scale(s))) == u.Cross(v).Minus(u.Cross(w).Scale(s))
  {
    hide Minor, Vector3.Scale;
    var p, q := v.Minus(w.Scale(s)), u.Cross(w);
    ScaleComponents(w, w.x, w.y, w.z, s);
    ScaleComponents(q, q.x, q.y, q.z, s);
    MinorMinusScale(u.y, u.z, v.y, v.z, w.y, w.z, s, p.y, p.z);
    MinorMinusScale(u.z, u.x, v.z, v.x, w.z, w.x, s, p.z, p.x);
    MinorMinusScale(u.x, u.y, v.x, v.y, w.x, w.y, s, p.x, p.y);
  }

  lemma MinorMinusScale(a: real, b: real, c: real, d: real, p: real, q: real, s: real, e: real, f: real)
    requires e == c - p * s && f == d - q * s
    ensures Minor(a, b, e, f) == Minor(a, b, c, d) - Minor(a, b, p, q) * s
  {
    assert Minor(a, b, c - p * s, d - q * s) == Minor(a, b, c, d) - Minor(a, b, p, q) * s;
  }

  lemma MinorScale(a: real, b: real, c: real, d: real, s: real, e: real, f: real)
    requires e == a * s && f == b * s
    ensures Minor(e, f, c, d) == Minor(a, b, c, d) * s
  {
    assert Minor(a * s, b * s, c, d) == Minor(a, b, c, d) * s;
  }

  lemma CrossSelf(u: Vector3)
    ensures u.Cross(u) == Zero3
  {
  }

  lemma CrossAnticommutes(u: Vector3, v: Vector3)
    ensures u.Cross(v) == Zero3.Minus(v.Cross(u))
  {
  }

  lemma CrossScale(u: Vector3, v: Vector3, s: real)
    ensures u.Scale(s).Cross(v) == u.Cross(v).Scale(s)
  {
    hide Minor, Vector3.Scale;
    var p, q := u.Scale(s), u.Cross(v);
    ScaleComponents(u, u.x, u.y, u.z, s);
    ScaleComponents(q, q.x, q.y, q.z, s);
    MinorScale(u.y, u.z, v.y, v.z, s, p.y, p.z);
    MinorScale(u.z, u.x, v.z, v.x, s, p.z, p.x);
    MinorScale(u.x, u.y, v.x, v.y, s, p.x, p.y);
  }

  lemma DotMinusScale(u: Vector3, v: Vector3, w: Vector3, s: real)
    ensures u.Dot(v.Minus(w.Scale(s))) == u.Dot(v) - u.Dot(w) * s
    ensures v.Minus(w.Scale(s)).Dot(u) == v.Dot(u) - w.Dot(u) * s
  {
    hide Vector3.Dot, Vector3.Scale, Vector3.Minus;
    DotPlus(u, v, w.Scale(s));
    DotScale(u, w, s);
    DotCommutes(u, v);
    DotCommutes(u, w);
    DotCommutes(u, v.Minus(w.Scale(s)));
  }

  lemma DotSelfSign(v: Vector3)
    ensures v != Zero3 ==> v.Dot(v) > 0.0
    ensures v == Zero3 ==> v.Dot(v) == 0.0
  {
    hide Vector3.Dot;
    DotComponents(v, v, v.x, v.y, v.z, v.x, v.y, v.z);
    SumOfSquares(v.x, v.y, v.z, v.Dot(v));
    if v.x == 0.0 && v.y == 0.0 && v.z == 0.0 {
      assert v == Zero3;
    }
  }

  // ----- orthonormal columns

  predicate Orthonormal(m: Matrix) {
    && m.c1.Dot(m.c1) == 1.0 && m.c2.Dot(m.c2) == 1.0 && m.c3.Dot(m.c3) == 1.0
    && m.c1.Dot(m.c2) == 0.0 && m.c1.Dot(m.c3) == 0.0 && m.c2.Dot(m.c3) == 0.0
  }

  lemma ApplyIsCombination(m: Matrix, v: Vector3)
    ensures m.Apply(v) == m.c1.Scale(v.x).Plus(m.c2.Scale(v.y)).Plus(m.c3.Scale(v.z))
  {
    hide Vector3.Dot, Vector3.Scale;
    ScaleComponents(m.c1, m.c1.x, m.c1.y, m.c1.z, v.x);
    ScaleComponents(m.c2, m.c2.x, m.c2.y, m.c2.z, v.y);
    ScaleComponents(m.c3, m.c3.x, m.c3.y, m.c3.z, v.z);
    DotComponents(m.Row0(), v, m.c1.x, m.c2.x, m.c3.x, v.x, v.y, v.z);
    DotComponents(m.Row1(), v, m.c1.y, m.c2.y, m.c3.y, v.x, v.y, v.z);
    DotComponents(m.Row2(), v, m.c1.z, m.c2.z, m.c3.z, v.x, v.y, v.z);
  }

  lemma ApplyMul(m: Matrix, k: Matrix, v: Vector3)
    ensures m.Mul(k).Apply(v) == m.Apply(k.Apply(v))
  {
    hide Vector3.Scale, Vector3.Plus, Matrix.Apply;
    var p, q, r := k.c1.Scale(v.x), k.c2.Scale(v.y), k.c3.Scale(v.z);
    ApplyIsCombination(k, v);
    ApplyIsCombination(m.Mul(k), v);
    ApplyPlus(m, p, q);
    ApplyPlus(m, p.Plus(q), r);
    ApplyScale(m, k.c1, v.x);
    ApplyScale(m, k.c2, v.y);
    ApplyScale(m, k.c3, v.z);
  }

  lemma MulAssociates(a: Matrix, b: Matrix, c: Matrix)
    ensures a.Mul(b).Mul(c) == a.Mul(b.Mul(c))
  {
    hide Matrix.Apply;
    ApplyMul(a, b, c.c1);
    ApplyMul(a, b, c.c2);
    ApplyMul(a, b, c.c3);
  }

  lemma MulIdentity(m: Matrix)
    ensures Identity.Mul(m) == m && m.Mul(Identity) == m
  {
  }

  lemma ApplyIdentity(v: Vector3)
    ensures Identity.Apply(v) == v
  {
  }

  lemma DotWithCombination(u: Vector3, m: Matrix, v: Vector3)
    ensures u.Dot(m.Apply(v)) == u.Dot(m.c1) * v.x + u.Dot(m.c2) * v.y + u.Dot(m.c3) * v.z
  {
    hide Vector3.Dot, Vector3.Scale, Vector3.Plus, Matrix.Apply;
    ApplyIsCombination(m, v);
    var p, q, r := m.c1.Scale(v.x), m.c2.Scale(v.y), m.c3.Scale(v.z);
    DotPlus(u, p, q);
    DotPlus(u, p.Plus(q), r);
    DotScale(u, m.c1, v.x);
    DotScale(u, m.c2, v.y);
    DotScale(u, m.c3, v.z);
  }

  /** A matrix with orthonormal columns keeps inner products. */
  lemma OrthonormalKeepsDot(m: Matrix, v: Vector3, w: Vector3)
    requires Orthonormal(m)
    ensures m.Apply(v).Dot(m.Apply(w)) == v.Dot(w)
  {
    hide Vector3.Dot, Matrix.Apply;
    DotWithCombination(m.Apply(v), m, w);
    DotCommutes(m.Apply(v), m.c1);
    DotCommutes(m.Apply(v), m.c2);
    DotCommutes(m.Apply(v), m.c3);
    DotWithCombination(m.c1, m, v);
    DotWithCombination(m.c2, m, v);
    DotWithCombination(m.c3, m, v);
    DotCommutes(m.c1, m.c2);
    DotCommutes(m.c1, m.c3);
    DotCommutes(m.c2, m.c3);
    DotComponents(v, w, v.x, v.y, v.z, w.x, w.y, w.z);
    UnitCombination(m.c1.Dot(m.Apply(v)), m.c1.Dot(m.c1), m.c1.Dot(m.c2), m.c1.Dot(m.c3), v, v.x);
    UnitCombination(m.c2.Dot(m.Apply(v)), m.c2.Dot(m.c1), m.c2.Dot(m.c2), m.c2.Dot(m.c3), v, v.y);
    UnitCombination(m.c3.Dot(m.Apply(v)), m.c3.Dot(m.c1), m.c3.Dot(m.c2), m.c3.Dot(m.c3), v, v.z);
  }

  lemma UnitCombination(d: real, a: real, b: real, c: real, v: Vector3, e: real)
    requires d == a * v.x + b * v.y + c * v.z
    requires (a == 1.0 && b == 0.0 && c == 0.0 && e == v.x)
          || (a == 0.0 && b == 1.0 && c == 0.0 && e == v.y)
          || (a == 0.0 && b == 0.0 && c == 1.0 && e == v.z)
    ensures d == e
  {
  }

  // ----- unit vectors

  lemma UnitLength(v: Vector3, n: real)
    requires IsNorm(v, n) && n != 0.0
    ensures v.Scale(1.0 / n).Dot(v.Scale(1.0 / n)) == 1.0
    ensures v.Scale(1.0 / n).Scale(n) == v
  {
    hide Vector3.Dot, Vector3.Scale;
    DotScale(v, v, 1.0 / n);
    DotScale(v.Scale(1.0 / n), v, 1.0 / n);
    Reciprocal(n, v.Dot(v), 1.0 / n);
    ScaleTwice(v, 1.0 / n, n, 1.0);
    ScaleByOne(v);
  }

  lemma Reciprocal(n: real, n2: real, s: real)
    requires n * s == 1.0 && n2 == n * n
    ensures n2 * s * s == 1.0 == s * n
  {
    assert n2 * s * s == (n * s) * (n * s);
  }

  lemma ScaleTwice(v: Vector3, s: real, t: real, r: real)
    requires s * t == r
    ensures v.Scale(s).Scale(t) == v.Scale(r)
  {
    hide Vector3.Scale;
    ScaleComponents(v, v.x, v.y, v.z, s);
    ScaleComponents(v, v.x, v.y, v.z, r);
    Associate(v.x, s, t, r);
    Associate(v.y, s, t, r);
    Associate(v.z, s, t, r);
    ScaleComponents(v.Scale(s), v.x * s, v.y * s, v.z * s, t);
  }

  /** Lagrange's identity. */
  lemma CrossNorm(u: Vector3, v: Vector3)
    ensures u.Cross(v).Dot(u.Cross(v)) == u.Dot(u) * v.Dot(v) - u.Dot(v) * u.Dot(v)
  {
    hide Vector3.Cross, Vector3.Dot;
    var a, b, c, d, e, f := u.x, u.y, u.z, v.x, v.y, v.z;
    CrossComponents(u, v, a, b, c, d, e, f);
    DotComponents(u, u, a, b, c, a, b, c);
    DotComponents(v, v, d, e, f, d, e, f);
    DotComponents(u, v, a, b, c, d, e, f);
    var p, q, r := b * f - c * e, c * d - a * f, a * e - b * d;
    DotComponents(u.Cross(v), u.Cross(v), p, q, r, p, q, r);
    Lagrange(a, b, c, d, e, f);
  }

  lemma Lagrange(a: real, b: real, c: real, d: real, e: real, f: real)
    ensures (b * f - c * e) * (b * f - c * e) + (c * d - a * f) * (c * d - a * f) + (a * e - b * d) * (a * e - b * d)
         == (a * a + b * b + c * c) * (d * d + e * e + f * f) - (a * d + b * e + c * f) * (a * d + b * e + c * f)
  {
  }

  /** Mutually orthogonal columns. */
  predicate OrthogonalColumns(m: Matrix) {
    m.c1.Dot(m.c2) == 0.0 && m.c1.Dot(m.c3) == 0.0 && m.c2.Dot(m.c3) == 0.0
  }

  /** Scaling the columns keeps orthogonality and multiplies the determinant. */
  lemma ScaledColumns(m: Matrix, k1: real, k2: real, k3: real)
    ensures Matrix(m.c1.Scale(k1), m.c2.Scale(k2), m.c3.Scale(k3)).Determinant()
         == m.Determinant() * k1 * k2 * k3
    ensures OrthogonalColumns(m) ==> OrthogonalColumns(Matrix(m.c1.Scale(k1), m.c2.Scale(k2), m.c3.Scale(k3)))
  {
    hide Vector3.Cross, Vector3.Dot, Vector3.Scale, Matrix.Determinant;
    var s := Matrix(m.c1.Scale(k1), m.c2.Scale(k2), m.c3.Scale(k3));
    DeterminantIsTriple(m);
    DeterminantIsTriple(s);
    Triple(m.c1, m.c2, m.c3);
    Triple(s.c1, s.c2, s.c3);
    CrossScale(m.c1, s.c2, k1);
    DotScale(m.c1.Cross(s.c2), s.c3, k1);
    Triple(s.c2, s.c3, m.c1);
    CrossScale(m.c2, s.c3, k2);
    DotScale(m.c2.Cross(s.c3), m.c1, k2);
    Triple(s.c3, m.c1, m.c2);
    DotScale(m.c1.Cross(m.c2), m.c3, k3);
    DotScale(m.c1, s.c2, k1);
    DotScale(m.c1, m.c2, k2);
    DotScale(m.c1, s.c3, k1);
    DotScale(m.c1, m.c3, k3);
    DotScale(m.c2, s.c3, k2);
    DotScale(m.c2, m.c3, k3);
  }

  lemma DeterminantOfTranspose(m: Matrix)
    ensures m.Transpose().Determinant() == m.Determinant()
  {
  }

  lemma TimesDiagonal(m: Matrix, a: real, b: real, c: real)
    ensures m.Mul(Diagonal(a, b, c)) == Matrix(m.c1.Scale(a), m.c2.Scale(b), m.c3.Scale(c))
  {
    hide Vector3.Scale, Matrix.Apply;
    var d := Diagonal(a, b, c);
    ApplyIsCombination(m, d.c1);
    ApplyIsCombination(m, d.c2);
    ApplyIsCombination(m, d.c3);
    forall u: Vector3 ensures u.Scale(0.0) == Zero3 && u.Plus(Zero3) == u && Zero3.Plus(u) == u { TimesZero(u); }
  }

  lemma TimesZero(u: Vector3)
    ensures u.Scale(0.0) == Zero3 && u.Plus(Zero3) == u && Zero3.Plus(u) == u
  {
  }
}
