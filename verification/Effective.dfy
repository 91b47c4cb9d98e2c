/** What the interface average of Kottke.Mean means, without reference to a frame: it is the
    one tensor that relates the averaged E to the averaged D for every pair of fields that
    meets the continuity conditions at the interface. */
module EffectiveMedium {
  import opened Reals
  import opened Vectors
  import opened Tensors
  import opened Kottke

  function Times(A: Sym, E: Vector3): Vector3 { A.Full().Apply(E) }

  function MixV(fill: real, v: Vector3, w: Vector3): Vector3 {
    v.Scale(fill).Plus(w.Scale(1.0 - fill))
  }

  /** Tangential E and normal D are the same on both sides of an interface with normal n. */
  ghost predicate Continuous(A1: Sym, A2: Sym, n: Vector3, E1: Vector3, E2: Vector3) {
    && (exists k :: E1 == E2.Plus(n.Scale(k)))
    && n.Dot(Times(A1, E1)) == n.Dot(Times(A2, E2))
  }

  /** M maps the average of E to the average of D, for all continuous fields. */
  ghost predicate Effective(M: Sym, A1: Sym, A2: Sym, fill: real, n: Vector3) {
    forall E1: Vector3, E2: Vector3 {:trigger Continuous(A1, A2, n, E1, E2)} ::
      Continuous(A1, A2, n, E1, E2) ==>
        Times(M, MixV(fill, E1, E2)) == MixV(fill, Times(A1, E1), Times(A2, E2))
  }

  function Lin(a: real, b: real, c: real, x: real, y: real, z: real): real { a * x + b * y + c * z }

  lemma TimesIsLin(A: Sym, e: Vector3)
    ensures Times(A, e) == Vector3(Lin(A.m00, A.m01, A.m02, e.x, e.y, e.z),
                                   Lin(A.m01, A.m11, A.m12, e.x, e.y, e.z),
                                   Lin(A.m02, A.m12, A.m22, e.x, e.y, e.z))
  {
  }

  // ----- one material in the interface frame

  /** Solving A*e = D for the discontinuous components: x and the tangential components of D
      are linear in D.x, y, z with the entries of Tau as coefficients. */
  lemma Transfer(A: Sym, e: Vector3)
    requires A.m00 != 0.0
    ensures var t, D := Tau(A), Times(A, e);
            && e.x == -Lin(t.m00, t.m01, t.m02, D.x, e.y, e.z)
            && D.y == Lin(t.m01, t.m11, t.m12, D.x, e.y, e.z)
            && D.z == Lin(t.m02, t.m12, t.m22, D.x, e.y, e.z)
  {
    hide Quotient, Eliminate, Times, Lin;
    TimesIsLin(A, e);
    TransferX(A.m00, A.m01, A.m02, e.x, e.y, e.z);
    TransferY(A.m00, A.m01, A.m02, A.m11, A.m12, e.x, e.y, e.z);
    TransferY(A.m00, A.m02, A.m01, A.m22, A.m12, e.x, e.z, e.y);
    EliminateSwaps(A.m12, A.m02, A.m01, A.m00);
    LinSwaps(A.m00, A.m01, A.m02, e.x, e.y, e.z);
    LinSwaps(A.m02, A.m12, A.m22, e.x, e.y, e.z);
    LinSwaps(Tau(A).m02, Tau(A).m12, Tau(A).m22, Times(A, e).x, e.y, e.z);
  }

  lemma LinSwaps(a: real, b: real, c: real, x: real, y: real, z: real)
    ensures Lin(a, b, c, x, y, z) == Lin(a, c, b, x, z, y)
  {
  }

  lemma EliminateSwaps(m: real, p: real, q: real, a: real)
    requires a != 0.0
    ensures Eliminate(m, p, q, a) == Eliminate(m, q, p, a)
  {
    assert p * q == q * p;
  }

  lemma TransferX(a: real, p: real, q: real, x: real, y: real, z: real)
    requires a != 0.0
    ensures x == -Lin(Quotient(-1.0, a), Quotient(p, a), Quotient(q, a), Lin(a, p, q, x, y, z), y, z)
  {
    hide Quotient;
    var i, r, s := Quotient(-1.0, a), Quotient(p, a), Quotient(q, a);
    RatioTimes(-1.0, a);
    RatioTimes(p, a);
    RatioTimes(q, a);
    assert i * (a * x + r * a * y + s * a * z) == (i * a) * (x + r * y + s * z);
  }

  lemma TransferY(a: real, p: real, q: real, m: real, l: real, x: real, y: real, z: real)
    requires a != 0.0
    ensures Lin(p, m, l, x, y, z)
         == Lin(Quotient(p, a), Eliminate(m, p, p, a), Eliminate(l, q, p, a), Lin(a, p, q, x, y, z), y, z)
  {
    hide Quotient, Eliminate;
    var r := Quotient(p, a);
    RatioTimes(p, a);
    EliminateByRatio(m, p, p, a);
    EliminateByRatio(l, q, p, a);
    assert r * (a * x + p * y + q * z) + (m - p * r) * y + (l - q * r) * z == (r * a) * x + m * y + l * z;
  }

  /** Conversely the linear relation for x gives back D.x. */
  lemma TransferBack(A: Sym, e: Vector3, q: real)
    requires A.m00 != 0.0
    requires var t := Tau(A); e.x == -Lin(t.m00, t.m01, t.m02, q, e.y, e.z)
    ensures Times(A, e).x == q
  {
    hide Quotient, Eliminate, Times;
    Transfer(A, e);
    NegatedReciprocal(A.m00);
    SameFirst(Tau(A).m00, Tau(A).m01, Tau(A).m02, q, Times(A, e).x, e.y, e.z);
  }

  lemma SameFirst(a: real, b: real, c: real, q: real, d: real, y: real, z: real)
    requires a != 0.0 && Lin(a, b, c, q, y, z) == Lin(a, b, c, d, y, z)
    ensures q == d
  {
    Cancel(q, d, a);
  }

  /** In the frame: equal tangential E and equal normal D average through Untau. */
  lemma FramedEffective(a: Sym, b: Sym, fill: real, e: Vector3, f: Vector3)
    requires a.m00 != 0.0 && b.m00 != 0.0
    requires Average(fill, Tau(a), Tau(b)).m00 != 0.0
    requires e.y == f.y && e.z == f.z
    requires Times(a, e).x == Times(b, f).x
    ensures Times(Untau(Average(fill, Tau(a), Tau(b))), MixV(fill, e, f))
         == MixV(fill, Times(a, e), Times(b, f))
  {
    hide Quotient, Eliminate, Times, Tau, Untau, MixV, Lin, Mix;
    var t, u := Tau(a), Tau(b);
    var d := Average(fill, t, u);
    var M, g, h := Untau(d), MixV(fill, e, f), MixV(fill, Times(a, e), Times(b, f));
    var q, y, z := Times(a, e).x, e.y, e.z;
    TauUntau(d);
    Transfer(a, e);
    Transfer(b, f);
    MixVComponents(fill, e, f);
    MixVComponents(fill, Times(a, e), Times(b, f));
    MixSelf(fill, y);
    MixSelf(fill, z);
    MixSelf(fill, q);
    MixLin(fill, t.m00, t.m01, t.m02, u.m00, u.m01, u.m02, q, y, z);
    MixNegated(fill, -e.x, -f.x);
    TransferBack(M, g, q);
    Transfer(M, g);
    MixLin(fill, t.m01, t.m11, t.m12, u.m01, u.m11, u.m12, q, y, z);
    MixLin(fill, t.m02, t.m12, t.m22, u.m02, u.m12, u.m22, q, y, z);
  }

  lemma MixVComponents(fill: real, v: Vector3, w: Vector3)
    ensures MixV(fill, v, w) == Vector3(Mix(fill, v.x, w.x), Mix(fill, v.y, w.y), Mix(fill, v.z, w.z))
  {
    hide Vector3.Scale;
    ScaleComponents(v, v.x, v.y, v.z, fill);
    ScaleComponents(w, w.x, w.y, w.z, 1.0 - fill);
  }

  /** Averages of values that are linear in shared quantities are linear with averaged coefficients. */
  lemma MixLin(f: real, a: real, b: real, c: real, p: real, q: real, r: real, u: real, v: real, w: real)
    ensures Mix(f, Lin(a, b, c, u, v, w), Lin(p, q, r, u, v, w))
         == Lin(Mix(f, a, p), Mix(f, b, q), Mix(f, c, r), u, v, w)
  {
  }

  // ----- back in Cartesian coordinates

  lemma RotatedTimes(A: Sym, R: Matrix, e: Vector3)
    ensures Times(Rotate(A, R), e) == R.Transpose().Apply(Times(A, R.Apply(e)))
  {
    hide Vector3.Dot, Matrix.Apply, Sym.Form, Times, Lin;
    TimesIsLin(Rotate(A, R), e);
    FormRow(A, R, R.c1, e);
    FormRow(A, R, R.c2, e);
    FormRow(A, R, R.c3, e);
    FormSymmetric(A, R.c1, R.c2);
    FormSymmetric(A, R.c1, R.c3);
    FormSymmetric(A, R.c2, R.c3);
    TransposeApply(R, Times(A, R.Apply(e)));
  }

  lemma FormRow(A: Sym, R: Matrix, u: Vector3, e: Vector3)
    ensures u.Dot(Times(A, R.Apply(e))) == Lin(A.Form(u, R.c1), A.Form(u, R.c2), A.Form(u, R.c3), e.x, e.y, e.z)
  {
    hide Vector3.Dot, Matrix.Apply;
    FormSecond(A, u, R, e);
  }

  lemma TransposeApply(R: Matrix, v: Vector3)
    ensures R.Transpose().Apply(v) == Vector3(R.c1.Dot(v), R.c2.Dot(v), R.c3.Dot(v))
  {
    hide Vector3.Dot;
    assert R.Transpose().Row0() == R.c1 && R.Transpose().Row1() == R.c2 && R.Transpose().Row2() == R.c3;
  }

  lemma ApplyMixV(m: Matrix, fill: real, v: Vector3, w: Vector3)
    ensures m.Apply(MixV(fill, v, w)) == MixV(fill, m.Apply(v), m.Apply(w))
  {
    hide Matrix.Apply, Vector3.Scale, Vector3.Plus;
    ApplyPlus(m, v.Scale(fill), w.Scale(1.0 - fill));
    ApplyScale(m, v, fill);
    ApplyScale(m, w, 1.0 - fill);
  }

  /** R and its transpose undo each other. */
  lemma ThereAndBack(R: Matrix, v: Vector3)
    requires Frame(R)
    ensures R.Apply(R.Transpose().Apply(v)) == v
    ensures R.Transpose().Apply(R.Apply(v)) == v
  {
    hide Matrix.Apply, Orthonormal, Matrix.Determinant, Matrix.Transpose;
    TransposeInverts(R);
    ApplyMul(R, R.Transpose(), v);
    ApplyMul(R.Transpose(), R, v);
    ApplyIdentity(v);
  }

  /** Continuity at the interface, read in the frame. */
  lemma ContinuityInFrame(A1: Sym, A2: Sym, R: Matrix, E1: Vector3, E2: Vector3)
    requires Frame(R) && Continuous(A1, A2, R.c1, E1, E2)
    ensures var e, f := R.Transpose().Apply(E1), R.Transpose().Apply(E2);
            && e.y == f.y && e.z == f.z
            && Times(Rotate(A1, R), e).x == Times(Rotate(A2, R), f).x
  {
    hide Matrix.Apply, Matrix.Determinant, Matrix.Transpose, Vector3.Dot, Times, Rotate, Vector3.Scale;
    var T := R.Transpose();
    var k :| E1 == E2.Plus(R.c1.Scale(k));
    ApplyPlus(T, E2, R.c1.Scale(k));
    ApplyScale(T, R.c1, k);
    TransposeApply(R, R.c1);
    DotCommutes(R.c1, R.c2);
    DotCommutes(R.c1, R.c3);
    ScaleComponents(Vector3(1.0, 0.0, 0.0), 1.0, 0.0, 0.0, k);
    var e, f := T.Apply(E1), T.Apply(E2);
    ThereAndBack(R, E1);
    ThereAndBack(R, E2);
    RotatedTimes(A1, R, e);
    RotatedTimes(A2, R, f);
    TransposeApply(R, Times(A1, E1));
    TransposeApply(R, Times(A2, E2));
  }

  /** The averaged tensor is effective: it maps the average of E to the average of D. */
  lemma MeanIsEffective(A1: Sym, A2: Sym, fill: real, R: Matrix)
    requires Frame(R) && Divisible(A1, A2, fill, R)
    ensures Effective(Mean(A1, A2, fill, R), A1, A2, fill, R.c1)
  {
    hide Continuous;
    var M := Mean(A1, A2, fill, R);
    forall E1: Vector3, E2: Vector3 | Continuous(A1, A2, R.c1, E1, E2)
      ensures Times(M, MixV(fill, E1, E2)) == MixV(fill, Times(A1, E1), Times(A2, E2))
    {
      MeanOnFields(A1, A2, fill, R, E1, E2);
    }
  }

  lemma MeanOnFields(A1: Sym, A2: Sym, fill: real, R: Matrix, E1: Vector3, E2: Vector3)
    requires Frame(R) && Divisible(A1, A2, fill, R)
    requires Continuous(A1, A2, R.c1, E1, E2)
    ensures Times(Mean(A1, A2, fill, R), MixV(fill, E1, E2)) == MixV(fill, Times(A1, E1), Times(A2, E2))
  {
    hide Matrix.Apply, Times, Rotate, MixV, Tau, Untau, Frame, Continuous, Mix;
    var T, a, b := R.Transpose(), Rotate(A1, R), Rotate(A2, R);
    var e, f := T.Apply(E1), T.Apply(E2);
    DivisibleFrame(A1, A2, fill, R);
    var m := Untau(Average(fill, Tau(a), Tau(b)));
    ContinuityInFrame(A1, A2, R, E1, E2);
    FramedEffective(a, b, fill, e, f);
    ApplyMixV(T, fill, E1, E2);
    RotatedTimes(m, T, MixV(fill, E1, E2));
    RotatedTimes(A1, R, e);
    RotatedTimes(A2, R, f);
    ThereAndBack(R, E1);
    ThereAndBack(R, E2);
    ApplyMixV(R, fill, Times(a, e), Times(b, f));
    ThereAndBack(R, Times(A1, E1));
    ThereAndBack(R, Times(A2, E2));
    assert T.Transpose() == R;
  }

  /** Every vector is the average of some continuous pair of fields. */
  lemma EveryAverage(A1: Sym, A2: Sym, fill: real, R: Matrix, E: Vector3) returns (E1: Vector3, E2: Vector3)
    requires Frame(R) && Divisible(A1, A2, fill, R)
    ensures Continuous(A1, A2, R.c1, E1, E2) && MixV(fill, E1, E2) == E
  {
    hide Matrix.Apply, Times, Rotate, MixV, Tau, Untau, Frame, Lin, Mix, Quotient, Eliminate, Vector3.Scale, Vector3.Dot;
    var a, b, e := Rotate(A1, R), Rotate(A2, R), R.Transpose().Apply(E);
    DivisibleFrame(A1, A2, fill, R);
    var t, u := Tau(a), Tau(b);
    var d := Average(fill, t, u);
    TauUntau(d);
    Transfer(Untau(d), e);
    var q, y, z := Times(Untau(d), e).x, e.y, e.z;
    var e1 := Vector3(-Lin(t.m00, t.m01, t.m02, q, y, z), y, z);
    var e2 := Vector3(-Lin(u.m00, u.m01, u.m02, q, y, z), y, z);
    TransferBack(a, e1, q);
    TransferBack(b, e2, q);
    MixVComponents(fill, e1, e2);
    MixSelf(fill, y);
    MixSelf(fill, z);
    MixLin(fill, t.m00, t.m01, t.m02, u.m00, u.m01, u.m02, q, y, z);
    MixNegated(fill, Lin(t.m00, t.m01, t.m02, q, y, z), Lin(u.m00, u.m01, u.m02, q, y, z));
    assert MixV(fill, e1, e2) == e;
    E1, E2 := R.Apply(e1), R.Apply(e2);
    ApplyMixV(R, fill, e1, e2);
    ThereAndBack(R, E);
    FrameContinuity(A1, A2, R, e1, e2);
  }

  lemma FrameContinuity(A1: Sym, A2: Sym, R: Matrix, e: Vector3, f: Vector3)
    requires e.y == f.y && e.z == f.z
    requires Times(Rotate(A1, R), e).x == Times(Rotate(A2, R), f).x
    ensures Continuous(A1, A2, R.c1, R.Apply(e), R.Apply(f))
  {
    hide Matrix.Apply, Times, Rotate, Vector3.Scale, Vector3.Dot;
    var k := e.x - f.x;
    var x := Vector3(k, 0.0, 0.0);
    ApplyPlus(R, f, x);
    assert e == f.Plus(x);
    ApplyAlongFirst(R, k);
    RotatedTimes(A1, R, e);
    RotatedTimes(A2, R, f);
    TransposeApply(R, Times(A1, R.Apply(e)));
    TransposeApply(R, Times(A2, R.Apply(f)));
  }

  lemma ApplyAlongFirst(R: Matrix, k: real)
    ensures R.Apply(Vector3(k, 0.0, 0.0)) == R.c1.Scale(k)
  {
    hide Matrix.Apply, Vector3.Scale;
    ApplyIsCombination(R, Vector3(k, 0.0, 0.0));
    ZeroFactorScale(R.c2);
    ZeroFactorScale(R.c3);
  }

  lemma ZeroFactorScale(v: Vector3)
    ensures v.Scale(0.0) == Zero3
  {
  }

  /** Only one tensor is effective. */
  lemma EffectiveIsUnique(A1: Sym, A2: Sym, fill: real, R: Matrix, M: Sym, N: Sym)
    requires Frame(R) && Divisible(A1, A2, fill, R)
    requires Effective(M, A1, A2, fill, R.c1) && Effective(N, A1, A2, fill, R.c1)
    ensures M == N
  {
    hide Times, MixV, Frame, Divisible, Continuous;
    forall E: Vector3 ensures Times(M, E) == Times(N, E) {
      var E1, E2 := EveryAverage(A1, A2, fill, R, E);
    }
    TimesOnAxes(M);
    TimesOnAxes(N);
  }

  lemma TimesOnAxes(M: Sym)
    ensures Times(M, Vector3(1.0, 0.0, 0.0)) == Vector3(M.m00, M.m01, M.m02)
    ensures Times(M, Vector3(0.0, 1.0, 0.0)) == Vector3(M.m01, M.m11, M.m12)
    ensures Times(M, Vector3(0.0, 0.0, 1.0)) == Vector3(M.m02, M.m12, M.m22)
  {
  }

  /** The sign of the normal and the choice of tangential axes do not matter. */
  lemma MeanIgnoresFrame(A1: Sym, A2: Sym, fill: real, R: Matrix, S: Matrix)
    requires Frame(R) && Frame(S) && Divisible(A1, A2, fill, R)
    requires S.c1 == R.c1 || S.c1 == R.c1.Scale(-1.0)
    ensures Divisible(A1, A2, fill, S) && Mean(A1, A2, fill, S) == Mean(A1, A2, fill, R)
  {
    hide Times, Frame, Mean, Effective, Sym.Form, Mix;
    FormNegated(A1, R.c1);
    FormNegated(A2, R.c1);
    MeanIsEffective(A1, A2, fill, R);
    MeanIsEffective(A1, A2, fill, S);
    EffectiveNegated(Mean(A1, A2, fill, R), A1, A2, fill, R.c1);
    EffectiveIsUnique(A1, A2, fill, S, Mean(A1, A2, fill, S), Mean(A1, A2, fill, R));
  }

  lemma FormNegated(A: Sym, n: Vector3)
    ensures A.Form(n.Scale(-1.0), n.Scale(-1.0)) == A.Form(n, n)
  {
    hide Vector3.Dot, Matrix.Apply, Vector3.Scale;
    ApplyScale(A.Full(), n, -1.0);
    DotScale(n.Scale(-1.0), A.Full().Apply(n), -1.0);
    DotScale(n, A.Full().Apply(n), -1.0);
  }

  lemma EffectiveNegated(M: Sym, A1: Sym, A2: Sym, fill: real, n: Vector3)
    requires Effective(M, A1, A2, fill, n)
    ensures Effective(M, A1, A2, fill, n.Scale(-1.0))
  {
    hide Times, MixV, Vector3.Dot, Vector3.Scale;
    var m := n.Scale(-1.0);
    forall E1: Vector3, E2: Vector3 | Continuous(A1, A2, m, E1, E2)
      ensures Times(M, MixV(fill, E1, E2)) == MixV(fill, Times(A1, E1), Times(A2, E2))
    {
      var k :| E1 == E2.Plus(m.Scale(k));
      NegatedScale(n, k);
      assert E1 == E2.Plus(n.Scale(-k));
      DotScale(n, Times(A1, E1), -1.0);
      DotScale(n, Times(A2, E2), -1.0);
      assert Continuous(A1, A2, n, E1, E2);
    }
  }

  lemma NegatedScale(n: Vector3, k: real)
    ensures n.Scale(-1.0).Scale(k) == n.Scale(-k)
  {
  }

  /** Exchanging the materials and the fill gives the same effective tensors. */
  lemma EffectiveSwaps(M: Sym, A1: Sym, A2: Sym, fill: real, n: Vector3)
    requires Effective(M, A1, A2, fill, n)
    ensures Effective(M, A2, A1, 1.0 - fill, n)
  {
    hide Times, MixV, Vector3.Dot, Vector3.Scale;
    forall E1: Vector3, E2: Vector3 | Continuous(A2, A1, n, E1, E2)
      ensures Times(M, MixV(1.0 - fill, E1, E2)) == MixV(1.0 - fill, Times(A2, E1), Times(A1, E2))
    {
      var k :| E1 == E2.Plus(n.Scale(k));
      BackAlong(E1, E2, n, k);
      assert Continuous(A1, A2, n, E2, E1);
      MixVSwaps(fill, E2, E1);
      MixVSwaps(fill, Times(A1, E2), Times(A2, E1));
    }
  }

  lemma BackAlong(u: Vector3, v: Vector3, n: Vector3, k: real)
    requires u == v.Plus(n.Scale(k))
    ensures v == u.Plus(n.Scale(-k))
  {
  }

  lemma MixVSwaps(fill: real, v: Vector3, w: Vector3)
    ensures MixV(1.0 - fill, w, v) == MixV(fill, v, w)
  {
    hide Vector3.Scale;
  }

  /** A multiple of the identity, the tensor of a material without preferred directions. */
  function Isotropic(eps: real): Sym { Sym(eps, eps, eps, 0.0, 0.0, 0.0) }

  lemma IsotropicTimes(eps: real, v: Vector3)
    ensures Times(Isotropic(eps), v) == v.Scale(eps)
  {
  }

  /** Layers of two isotropic materials: along the interface the effective tensor is the arithmetic
      mean, across it the harmonic one. */
  lemma LayeredMedium(M: Sym, eps1: real, eps2: real, fill: real, n: Vector3, v: Vector3)
    requires Effective(M, Isotropic(eps1), Isotropic(eps2), fill, n)
    requires eps1 != 0.0 && eps2 != 0.0
    ensures n.Dot(v) == 0.0 ==> Times(M, v) == v.Scale(Mix(fill, eps1, eps2))
    ensures Times(M, n.Scale(Mix(fill, Quotient(1.0, eps1), Quotient(1.0, eps2)))) == n
  {
    hide Times, Mix, Quotient, Vector3.Scale, Vector3.Dot;
    var A1, A2, i1, i2 := Isotropic(eps1), Isotropic(eps2), Quotient(1.0, eps1), Quotient(1.0, eps2);
    IsotropicTimes(eps1, v);
    IsotropicTimes(eps2, v);
    if n.Dot(v) == 0.0 {
      DotScale(n, v, eps1);
      DotScale(n, v, eps2);
      NoStep(v, n);
      assert Continuous(A1, A2, n, v, v);
      MixVSelf(fill, v);
      MixVScales(fill, v, eps1, eps2);
    }
    var E1, E2 := n.Scale(i1), n.Scale(i2);
    IsotropicTimes(eps1, E1);
    IsotropicTimes(eps2, E2);
    BackToUnit(n, eps1, i1);
    BackToUnit(n, eps2, i2);
    StepBetween(n, i1, i2);
    assert Continuous(A1, A2, n, E1, E2);
    MixVScales(fill, n, i1, i2);
    MixVSelf(fill, n);
  }

  lemma NoStep(v: Vector3, n: Vector3)
    ensures v == v.Plus(n.Scale(0.0))
  {
  }

  lemma StepBetween(n: Vector3, a: real, b: real)
    ensures n.Scale(a) == n.Scale(b).Plus(n.Scale(a - b))
  {
  }

  lemma MixVSelf(fill: real, v: Vector3)
    ensures MixV(fill, v, v) == v
  {
  }

  lemma MixVScales(fill: real, v: Vector3, a: real, b: real)
    ensures MixV(fill, v.Scale(a), v.Scale(b)) == v.Scale(Mix(fill, a, b))
  {
    hide Mix, Vector3.Scale;
    var p, q := v.Scale(a).Scale(fill), v.Scale(b).Scale(1.0 - fill);
    ScaleTwice(v, a, fill, a * fill);
    ScaleTwice(v, b, 1.0 - fill, b * (1.0 - fill));
    MixParts(fill, a, b);
    ScaleSum(v, a * fill, b * (1.0 - fill), Mix(fill, a, b));
  }

  lemma MixParts(fill: real, a: real, b: real)
    ensures Mix(fill, a, b) == a * fill + b * (1.0 - fill)
  {
  }

  lemma ScaleSum(v: Vector3, s: real, t: real, r: real)
    requires r == s + t
    ensures v.Scale(s).Plus(v.Scale(t)) == v.Scale(r)
  {
  }

  lemma BackToUnit(n: Vector3, eps: real, i: real)
    requires eps != 0.0 && i == Quotient(1.0, eps)
    ensures n.Scale(i).Scale(eps) == n
  {
    assert i * eps == 1.0;
    hide Quotient;
    ScaleTwice(n, i, eps, 1.0);
    ScaleByOne(n);
  }

  /** A pixel that one material fills has the tensor of that material. */
  lemma FilledByOne(M: Sym, A1: Sym, A2: Sym, R: Matrix)
    requires Frame(R) && Divisible(A1, A2, 1.0, R) && Effective(M, A1, A2, 1.0, R.c1)
    ensures M == A1
  {
    hide Times, Frame, Divisible;
    forall E1: Vector3, E2: Vector3 | Continuous(A1, A2, R.c1, E1, E2)
      ensures Times(A1, MixV(1.0, E1, E2)) == MixV(1.0, Times(A1, E1), Times(A2, E2))
    {
      FirstOnly(E1, E2);
      FirstOnly(Times(A1, E1), Times(A2, E2));
    }
    assert Effective(A1, A1, A2, 1.0, R.c1);
    EffectiveIsUnique(A1, A2, 1.0, R, M, A1);
  }

  lemma FirstOnly(v: Vector3, w: Vector3)
    ensures MixV(1.0, v, w) == v
  {
  }
}
