/** The two-material average of mode_solver::mean_epsmu (libpympb/pympb.cpp:456-557):
    dielectric tensors are turned into a frame normal to the interface, averaged there in the
    variables that are continuous across it, and turned back. Real symmetric tensors. */
module Kottke {
  import opened Reals
  import opened Vectors
  import opened Tensors

  // ----- specification: the averaging transform

  /** m - p*q/a: the entry m after eliminating the direction normal to the interface. */
  function Eliminate(m: real, p: real, q: real, a: real): real
    requires a != 0.0
  {
    m - p * q / a
  }

  /** EXPR of the six AVG lines: the variables that average linearly across the interface. */
  function Tau(A: Sym): Sym
    requires A.m00 != 0.0
  {
    Sym(Quotient(-1.0, A.m00),
        Eliminate(A.m11, A.m01, A.m01, A.m00), Eliminate(A.m22, A.m02, A.m02, A.m00),
        Quotient(A.m01, A.m00), Quotient(A.m02, A.m00), Eliminate(A.m12, A.m02, A.m01, A.m00))
  }

  /** Back from the averaged variables to a tensor. */
  function Untau(d: Sym): Sym
    requires d.m00 != 0.0
  {
    Sym(Quotient(-1.0, d.m00),
        Eliminate(d.m11, d.m01, d.m01, d.m00), Eliminate(d.m22, d.m02, d.m02, d.m00),
        Quotient(-d.m01, d.m00), Quotient(-d.m02, d.m00), Eliminate(d.m12, d.m02, d.m01, d.m00))
  }

  function Average(fill: real, a: Sym, b: Sym): Sym {
    Sym(Mix(fill, a.m00, b.m00), Mix(fill, a.m11, b.m11), Mix(fill, a.m22, b.m22),
        Mix(fill, a.m01, b.m01), Mix(fill, a.m02, b.m02), Mix(fill, a.m12, b.m12))
  }

  /** None of the divisions of the average is by zero. */
  predicate Divisible(A1: Sym, A2: Sym, fill: real, R: Matrix) {
    var a1, a2 := Rotate(A1, R).m00, Rotate(A2, R).m00;
    a1 != 0.0 && a2 != 0.0 && Mix(fill, -1.0 / a1, -1.0 / a2) != 0.0
  }

  function Mean(A1: Sym, A2: Sym, fill: real, R: Matrix): Sym
    requires Divisible(A1, A2, fill, R)
  {
    Rotate(Untau(Average(fill, Tau(Rotate(A1, R)), Tau(Rotate(A2, R)))), R.Transpose())
  }

  /** A right-handed orthonormal frame. */
  predicate Frame(R: Matrix) { Orthonormal(R) && R.Determinant() == 1.0 }

  // ----- the transform and its inverse

  lemma UntauTau(A: Sym)
    requires A.m00 != 0.0
    ensures Tau(A).m00 != 0.0 && Untau(Tau(A)) == A
  {
    hide Quotient, Eliminate;
    NegatedReciprocal(A.m00);
    BackOff(A.m11, A.m01, A.m01, A.m00);
    BackOff(A.m22, A.m02, A.m02, A.m00);
    BackOff(A.m12, A.m02, A.m01, A.m00);
    BackRatio(A.m01, A.m00);
    BackRatio(A.m02, A.m00);
  }

  lemma TauUntau(d: Sym)
    requires d.m00 != 0.0
    ensures Untau(d).m00 != 0.0 && Tau(Untau(d)) == d
  {
    hide Quotient, Eliminate;
    NegatedReciprocal(d.m00);
    BackOffNegated(d.m11, d.m01, d.m01, d.m00);
    BackOffNegated(d.m22, d.m02, d.m02, d.m00);
    BackOffNegated(d.m12, d.m02, d.m01, d.m00);
    BackRatioNegated(d.m01, d.m00);
    BackRatioNegated(d.m02, d.m00);
  }

  lemma NegatedReciprocal(a: real)
    requires a != 0.0
    ensures var i := Quotient(-1.0, a); i != 0.0 && a * i == -1.0 && Quotient(-1.0, i) == a
  {
    var i := -1.0 / a;
    assert a * i == -1.0;
    QuotientIs(-1.0, i, a);
  }

  lemma QuotientIs(x: real, y: real, q: real)
    requires y != 0.0 && q * y == x
    ensures x / y == q
  {
  }

  /** Eliminating in tensor variables is undone by eliminating in averaged ones. */
  lemma BackOff(m: real, p: real, q: real, a: real)
    requires a != 0.0
    ensures Quotient(-1.0, a) != 0.0
    ensures Eliminate(Eliminate(m, p, q, a), Quotient(p, a), Quotient(q, a), Quotient(-1.0, a)) == m
  {
    NegatedReciprocal(a);
    ProductRatio(a, p, q, Quotient(-1.0, a), Quotient(p, a), Quotient(q, a));
  }

  lemma BackOffNegated(m: real, p: real, q: real, a: real)
    requires a != 0.0
    ensures Quotient(-1.0, a) != 0.0
    ensures Eliminate(Eliminate(m, p, q, a), Quotient(-p, a), Quotient(-q, a), Quotient(-1.0, a)) == m
  {
    BackOff(m, -p, -q, a);
    assert (-p) * (-q) / a == p * q / a by { assert (-p) * (-q) == p * q; }
  }

  /** (p/a)(q/a) / (-1/a) == -p*q/a. */
  lemma ProductRatio(a: real, p: real, q: real, i: real, x: real, y: real)
    requires a != 0.0 && i != 0.0 && a * i == -1.0
    requires x == p / a && y == q / a
    ensures x * y / i == -(p * q / a)
  {
    assert x * a == p && y * a == q;
    var r := p * q / a;
    assert r * a == p * q;
    assert r == x * y * a by { assert (x * y * a) * a == (x * a) * (y * a); Cancel(r, x * y * a, a); }
    assert (-r) * i == x * y by { ThreeFactors(x * y, a, i, r); }
    QuotientIs(x * y, i, -r);
  }

  lemma Cancel(r: real, s: real, a: real)
    requires a != 0.0 && r * a == s * a
    ensures r == s
  {
    assert (r - s) * a == 0.0;
  }

  lemma ThreeFactors(w: real, a: real, i: real, r: real)
    requires a * i == -1.0 && r == w * a
    ensures (-r) * i == w
  {
    assert (-(w * a)) * i == -w * (a * i);
  }

  lemma BackRatio(p: real, a: real)
    requires a != 0.0
    ensures Quotient(-1.0, a) != 0.0
    ensures Quotient(-Quotient(p, a), Quotient(-1.0, a)) == p
  {
    NegatedReciprocal(a);
    LinearRatio(a, p, Quotient(-1.0, a), Quotient(p, a));
  }

  lemma BackRatioNegated(p: real, a: real)
    requires a != 0.0
    ensures Quotient(-1.0, a) != 0.0
    ensures Quotient(Quotient(-p, a), Quotient(-1.0, a)) == p
  {
    BackRatio(-p, a);
    NegatedReciprocal(a);
    NegatedQuotient(Quotient(-p, a), Quotient(-1.0, a));
  }

  lemma NegatedQuotient(x: real, y: real)
    requires y != 0.0
    ensures Quotient(-x, y) == -Quotient(x, y)
  {
  }

  lemma LinearRatio(a: real, p: real, i: real, x: real)
    requires a != 0.0 && i != 0.0 && a * i == -1.0 && x == p / a
    ensures -x / i == p
  {
    assert x * a == p;
    assert p * i == -x by { assert x * a * i == x * (a * i); }
    QuotientIs(-x, i, p);
  }

  // ----- positive definiteness in the averaged variables

  function Quad(a: real, b: real, c: real, y: real, z: real): real {
    a * y * y + 2.0 * b * y * z + c * z * z
  }

  /** The tangential block is positive definite. */
  ghost predicate BlockPositive(t: Sym) {
    forall y: real, z: real :: y != 0.0 || z != 0.0 ==> Quad(t.m11, t.m12, t.m22, y, z) > 0.0
  }

  /** Completing the square in the normal component. */
  lemma FormSplit(A: Sym, v: Vector3, x: real, y: real, z: real)
    requires A.m00 != 0.0 && v == Vector3(x, y, z)
    ensures var t := Tau(A);
            var w := x + t.m01 * y + t.m02 * z;
            A.Form(v, v) == A.m00 * (w * w) + Quad(t.m11, t.m12, t.m22, y, z)
  {
    hide Sym.Form, Quad, Quotient, Eliminate;
    var t := Tau(A);
    FormComponents(A, v, v);
    RatioTimes(A.m01, A.m00);
    RatioTimes(A.m02, A.m00);
    EliminateByRatio(A.m11, A.m01, A.m01, A.m00);
    EliminateByRatio(A.m22, A.m02, A.m02, A.m00);
    EliminateByRatio(A.m12, A.m02, A.m01, A.m00);
    CompleteSquare(A, t.m01, t.m02, t.m11, t.m12, t.m22, v.x, v.y, v.z);
    assert v.x == x && v.y == y && v.z == z;
  }

  lemma RatioTimes(p: real, a: real)
    requires a != 0.0
    ensures Quotient(p, a) * a == p
  {
  }

  lemma EliminateByRatio(m: real, p: real, q: real, a: real)
    requires a != 0.0
    ensures Eliminate(m, p, q, a) == m - p * Quotient(q, a)
  {
    var r := q / a;
    assert r * a == q;
    assert (p * r) * a == p * q by { assert p * r * a == p * (r * a); }
    QuotientIs(p * q, a, p * r);
  }

  lemma CompleteSquare(A: Sym, r1: real, r2: real, e11: real, e12: real, e22: real, x: real, y: real, z: real)
    requires A.m01 == r1 * A.m00 && A.m02 == r2 * A.m00
    requires e11 == A.m11 - A.m01 * r1 && e22 == A.m22 - A.m02 * r2 && e12 == A.m12 - A.m02 * r1
    ensures var w := x + r1 * y + r2 * z;
            (A.m00 * x + A.m01 * y + A.m02 * z) * x + (A.m01 * x + A.m11 * y + A.m12 * z) * y
              + (A.m02 * x + A.m12 * y + A.m22 * z) * z
            == A.m00 * (w * w) + Quad(e11, e12, e22, y, z)
  {
    CompleteSquareScalars(A.m00, r1, r2, e11, e12, e22, x, y, z, A.m01, A.m02, A.m11, A.m12, A.m22);
  }

  lemma CompleteSquareScalars(a: real, r: real, s: real, e: real, f: real, g: real, x: real, y: real, z: real,
                              m01: real, m02: real, m11: real, m12: real, m22: real)
    requires m01 == r * a && m02 == s * a
    requires m11 == e + m01 * r && m22 == g + m02 * s && m12 == f + m02 * r
    ensures var w := x + r * y + s * z;
            (a * x + m01 * y + m02 * z) * x + (m01 * x + m11 * y + m12 * z) * y + (m02 * x + m12 * y + m22 * z) * z
            == a * (w * w) + (e * y * y + 2.0 * f * y * z + g * z * z)
  {
    var w := x + r * y + s * z;
    assert (a * x + r * a * y + s * a * z) * x + (r * a * x + (e + r * a * r) * y + (f + s * a * r) * z) * y
           + (s * a * x + (f + s * a * r) * y + (g + s * a * s) * z) * z
        == a * (w * w) + (e * y * y + 2.0 * f * y * z + g * z * z);
  }

  /** Positive definiteness seen in the averaged variables. */
  lemma PositiveIff(A: Sym)
    requires A.m00 != 0.0
    ensures PositiveDefinite(A) <==> A.m00 > 0.0 && BlockPositive(Tau(A))
  {
    hide Sym.Form, Quad, Tau, BlockPositive, PositiveDefinite;
    if PositiveDefinite(A) {
      PositiveParts(A);
    }
    if A.m00 > 0.0 && BlockPositive(Tau(A)) {
      PositiveWhole(A);
    }
  }

  lemma PositiveParts(A: Sym)
    requires A.m00 != 0.0 && PositiveDefinite(A)
    ensures A.m00 > 0.0 && BlockPositive(Tau(A))
  {
    hide Sym.Form, Quad, Quotient, Eliminate;
    var t := Tau(A);
    forall y: real, z: real | y != 0.0 || z != 0.0 ensures Quad(t.m11, t.m12, t.m22, y, z) > 0.0 {
      var x := -(t.m01 * y + t.m02 * z);
      var v := Vector3(x, y, z);
      FormSplit(A, v, x, y, z);
      ZeroSquare(A.m00, x + t.m01 * y + t.m02 * z);
      assert v != Zero3;
      assert A.Form(v, v) > 0.0;
    }
    var e := Vector3(1.0, 0.0, 0.0);
    FormComponents(A, e, e);
  }

  lemma ZeroSquare(a: real, w: real)
    requires w == 0.0
    ensures a * (w * w) == 0.0
  {
  }

  lemma PositiveWhole(A: Sym)
    requires A.m00 > 0.0 && BlockPositive(Tau(A))
    ensures PositiveDefinite(A)
  {
    hide Sym.Form, Quad, Quotient, Eliminate;
    var t := Tau(A);
    forall v: Vector3 | v != Zero3 ensures A.Form(v, v) > 0.0 {
      FormSplit(A, v, v.x, v.y, v.z);
      var w := v.x + t.m01 * v.y + t.m02 * v.z;
      SquareSign(w, w * w);
      ProductSign(A.m00, w * w, A.m00 * (w * w));
      if v.y == 0.0 && v.z == 0.0 {
        assert t.m01 * v.y == 0.0 && t.m02 * v.z == 0.0;
        QuadZero(t.m11, t.m12, t.m22, v.y, v.z);
      }
    }
  }

  lemma QuadZero(a: real, b: real, c: real, y: real, z: real)
    requires y == 0.0 && z == 0.0
    ensures Quad(a, b, c, y, z) == 0.0
  {
  }

  lemma QuadMix(fill: real, a: Sym, b: Sym, y: real, z: real)
    ensures var d := Average(fill, a, b);
            Quad(d.m11, d.m12, d.m22, y, z)
            == Mix(fill, Quad(a.m11, a.m12, a.m22, y, z), Quad(b.m11, b.m12, b.m22, y, z))
  {
    QuadMixScalars(fill, a.m11, a.m12, a.m22, b.m11, b.m12, b.m22, y, z);
  }

  lemma QuadMixScalars(f: real, a: real, b: real, c: real, p: real, q: real, r: real, y: real, z: real)
    ensures Quad(f * a + (1.0 - f) * p, f * b + (1.0 - f) * q, f * c + (1.0 - f) * r, y, z)
         == f * Quad(a, b, c, y, z) + (1.0 - f) * Quad(p, q, r, y, z)
  {
  }

  lemma MixPositive(fill: real, x: real, y: real)
    requires 0.0 <= fill <= 1.0 && x > 0.0 && y > 0.0
    ensures Mix(fill, x, y) > 0.0
  {
    ProductSign(fill, x, fill * x);
    ProductSign(1.0 - fill, y, (1.0 - fill) * y);
  }

  lemma AverageBlock(fill: real, a: Sym, b: Sym)
    requires 0.0 <= fill <= 1.0
    requires BlockPositive(a) && BlockPositive(b)
    ensures BlockPositive(Average(fill, a, b))
  {
    hide Quad, Mix;
    var d := Average(fill, a, b);
    forall y: real, z: real | y != 0.0 || z != 0.0 ensures Quad(d.m11, d.m12, d.m22, y, z) > 0.0 {
      QuadMix(fill, a, b, y, z);
      MixPositive(fill, Quad(a.m11, a.m12, a.m22, y, z), Quad(b.m11, b.m12, b.m22, y, z));
    }
  }

  lemma PositiveNormal(A: Sym)
    requires PositiveDefinite(A)
    ensures A.m00 > 0.0
  {
    hide Sym.Form;
    var e := Vector3(1.0, 0.0, 0.0);
    FormComponents(A, e, e);
  }

  lemma NegativeReciprocal(a: real)
    requires a != 0.0
    ensures a > 0.0 ==> Quotient(-1.0, a) < 0.0
    ensures a < 0.0 ==> Quotient(-1.0, a) > 0.0
  {
  }

  /** For positive definite materials no division is by zero, and the averaged tensor, still in
      the interface frame, is positive definite. */
  lemma FramedMeanPositive(a: Sym, b: Sym, fill: real)
    requires PositiveDefinite(a) && PositiveDefinite(b)
    requires 0.0 <= fill <= 1.0
    ensures a.m00 > 0.0 && b.m00 > 0.0
    ensures var d := Average(fill, Tau(a), Tau(b)); d.m00 != 0.0 && PositiveDefinite(Untau(d))
  {
    hide PositiveDefinite, BlockPositive, Mix, Eliminate, Quotient;
    PositiveNormal(a);
    PositiveNormal(b);
    PositiveIff(a);
    PositiveIff(b);
    var d := Average(fill, Tau(a), Tau(b));
    AverageBlock(fill, Tau(a), Tau(b));
    NegativeReciprocal(a.m00);
    NegativeReciprocal(b.m00);
    MixPositive(fill, -Tau(a).m00, -Tau(b).m00);
    MixNegated(fill, -Tau(a).m00, -Tau(b).m00);
    assert d.m00 < 0.0;
    TauUntau(d);
    NegativeReciprocal(d.m00);
    PositiveIff(Untau(d));
  }

  /** The headline: a positive definite average for every pair of positive definite materials. */
  lemma MeanPositive(A1: Sym, A2: Sym, fill: real, R: Matrix)
    requires PositiveDefinite(A1) && PositiveDefinite(A2)
    requires 0.0 <= fill <= 1.0
    requires Frame(R)
    ensures Divisible(A1, A2, fill, R) && PositiveDefinite(Mean(A1, A2, fill, R))
  {
    hide PositiveDefinite, Mix, Eliminate, Rotate, Tau, Untau, Matrix.Determinant, Orthonormal;
    var T := R.Transpose();
    TransposeInverts(R);
    RotateKeepsPositive(A1, R, T);
    RotateKeepsPositive(A2, R, T);
    var a, b := Rotate(A1, R), Rotate(A2, R);
    FramedMeanPositive(a, b, fill);
    DivisibleFrame(A1, A2, fill, R);
    var d := Average(fill, Tau(a), Tau(b));
    RotateKeepsPositive(Untau(d), T, R);
  }

  lemma DivisibleFrame(A1: Sym, A2: Sym, fill: real, R: Matrix)
    requires Rotate(A1, R).m00 != 0.0 && Rotate(A2, R).m00 != 0.0
    ensures Divisible(A1, A2, fill, R)
        <==> Average(fill, Tau(Rotate(A1, R)), Tau(Rotate(A2, R))).m00 != 0.0
  {
  }

  // ----- trivial averages

  lemma FramedSelf(a: Sym, fill: real)
    requires a.m00 != 0.0
    ensures Average(fill, Tau(a), Tau(a)) == Tau(a)
  {
    hide Quotient, Eliminate;
    var t := Tau(a);
    MixSelf(fill, t.m00);
    MixSelf(fill, t.m11);
    MixSelf(fill, t.m22);
    MixSelf(fill, t.m01);
    MixSelf(fill, t.m02);
    MixSelf(fill, t.m12);
  }

  lemma MixSelf(fill: real, x: real)
    ensures Mix(fill, x, x) == x
  {
  }

  lemma RoundTrip(A: Sym, R: Matrix)
    requires Frame(R)
    ensures Rotate(Rotate(A, R), R.Transpose()) == A
    ensures Rotate(Rotate(A, R.Transpose()), R) == A
  {
    hide Rotate, Orthonormal, Matrix.Determinant;
    TransposeInverts(R);
    RotateTwice(A, R, R.Transpose());
    RotateTwice(A, R.Transpose(), R);
    FormOnAxes(A);
  }

  /** Averaging a material with itself, or with fill 1 or 0, gives the material back. */
  lemma MeanOfOne(A: Sym, B: Sym, fill: real, R: Matrix)
    requires Frame(R)
    requires Rotate(A, R).m00 != 0.0 && Rotate(B, R).m00 != 0.0
    requires A == B || fill == 1.0 || fill == 0.0
    ensures Divisible(A, B, fill, R)
    ensures Mean(A, B, fill, R) == if fill == 0.0 then B else A
  {
    hide Quotient, Eliminate, Rotate, Orthonormal, Matrix.Determinant, Frame;
    var a, b := Rotate(A, R), Rotate(B, R);
    DivisibleFrame(A, B, fill, R);
    FramedSelf(a, fill);
    UntauTau(a);
    UntauTau(b);
    RoundTrip(A, R);
    RoundTrip(B, R);
  }

  /** Exchanging the two materials together with the fill changes nothing. */
  lemma {:induction false} MeanSwaps(A: Sym, B: Sym, fill: real, R: Matrix)
    requires Divisible(A, B, fill, R)
    ensures Divisible(B, A, 1.0 - fill, R) && Mean(B, A, 1.0 - fill, R) == Mean(A, B, fill, R)
  {
    hide Quotient, Eliminate, Rotate;
    var a, b := Tau(Rotate(A, R)), Tau(Rotate(B, R));
    MixSwaps(fill, a.m00, b.m00);
    MixSwaps(fill, a.m11, b.m11);
    MixSwaps(fill, a.m22, b.m22);
    MixSwaps(fill, a.m01, b.m01);
    MixSwaps(fill, a.m02, b.m02);
    MixSwaps(fill, a.m12, b.m12);
    DivisibleFrame(A, B, fill, R);
    DivisibleFrame(B, A, 1.0 - fill, R);
  }

  lemma MixSwaps(fill: real, x: real, y: real)
    ensures Mix(1.0 - fill, y, x) == Mix(fill, x, y)
  {
  }
}
