/** Real symmetric 3x3 tensors, and maxwell_sym_matrix_rotate as the congruence by a matrix. */
module Tensors {
  import opened Vectors

  datatype Sym = Sym(m00: real, m11: real, m22: real, m01: real, m02: real, m12: real) {

    function Full(): Matrix {
      Matrix(Vector3(m00, m01, m02), Vector3(m01, m11, m12), Vector3(m02, m12, m22))
    }

    /** The bilinear form u . (A v). */
    function Form(u: Vector3, v: Vector3): real { u.Dot(Full().Apply(v)) }
  }

  ghost predicate PositiveDefinite(A: Sym) {
    forall v: Vector3 :: v != Zero3 ==> A.Form(v, v) > 0.0
  }

  /** transpose(R) * A * R. */
  function Rotate(A: Sym, R: Matrix): Sym {
    Sym(A.Form(R.c1, R.c1), A.Form(R.c2, R.c2), A.Form(R.c3, R.c3),
        A.Form(R.c1, R.c2), A.Form(R.c1, R.c3), A.Form(R.c2, R.c3))
  }

  lemma FormSymmetric(A: Sym, u: Vector3, v: Vector3)
    ensures A.Form(u, v) == A.Form(v, u)
  {
    hide Vector3.Dot, Matrix.Apply;
    FormComponents(A, u, v);
    FormComponents(A, v, u);
  }

  /** The nine terms of the form. */
  lemma FormComponents(A: Sym, u: Vector3, v: Vector3)
    ensures A.Form(u, v) == (A.m00 * u.x + A.m01 * u.y + A.m02 * u.z) * v.x
                          + (A.m01 * u.x + A.m11 * u.y + A.m12 * u.z) * v.y
                          + (A.m02 * u.x + A.m12 * u.y + A.m22 * u.z) * v.z
  {
    hide Vector3.Dot, Matrix.Apply;
    DotWithCombination(u, A.Full(), v);
    DotComponents(u, A.Full().c1, u.x, u.y, u.z, A.m00, A.m01, A.m02);
    DotComponents(u, A.Full().c2, u.x, u.y, u.z, A.m01, A.m11, A.m12);
    DotComponents(u, A.Full().c3, u.x, u.y, u.z, A.m02, A.m12, A.m22);
  }

  /** Rotating the tensor is rotating both arguments of its form. */
  lemma FormRotate(A: Sym, R: Matrix, u: Vector3, v: Vector3)
    ensures Rotate(A, R).Form(u, v) == A.Form(R.Apply(u), R.Apply(v))
  {
    hide Vector3.Dot, Matrix.Apply, Sym.Form;
    FormComponents(Rotate(A, R), u, v);
    FormSecond(A, R.Apply(u), R, v);
    FormFirst(A, R, u, R.c1);
    FormFirst(A, R, u, R.c2);
    FormFirst(A, R, u, R.c3);
    FormSymmetric(A, R.c1, R.c2);
    FormSymmetric(A, R.c1, R.c3);
    FormSymmetric(A, R.c2, R.c3);
  }

  lemma FormSecond(A: Sym, u: Vector3, R: Matrix, v: Vector3)
    ensures A.Form(u, R.Apply(v)) == A.Form(u, R.c1) * v.x + A.Form(u, R.c2) * v.y + A.Form(u, R.c3) * v.z
  {
    hide Vector3.Dot, Matrix.Apply;
    ApplyMul(A.Full(), R, v);
    DotWithCombination(u, A.Full().Mul(R), v);
  }

  lemma FormFirst(A: Sym, R: Matrix, u: Vector3, w: Vector3)
    ensures A.Form(R.Apply(u), w) == A.Form(R.c1, w) * u.x + A.Form(R.c2, w) * u.y + A.Form(R.c3, w) * u.z
  {
    hide Vector3.Dot, Matrix.Apply, Sym.Form;
    FormSymmetric(A, R.Apply(u), w);
    FormSecond(A, w, R, u);
    FormSymmetric(A, R.c1, w);
    FormSymmetric(A, R.c2, w);
    FormSymmetric(A, R.c3, w);
  }

  /** Entries of a tensor as values of its form on the axes. */
  lemma FormOnAxes(A: Sym)
    ensures Rotate(A, Identity) == A
  {
    hide Sym.Form;
    FormComponents(A, Identity.c1, Identity.c1);
    FormComponents(A, Identity.c2, Identity.c2);
    FormComponents(A, Identity.c3, Identity.c3);
    FormComponents(A, Identity.c1, Identity.c2);
    FormComponents(A, Identity.c1, Identity.c3);
    FormComponents(A, Identity.c2, Identity.c3);
  }

  /** Rotating by R and then by S is rotating by R * S. */
  lemma RotateTwice(A: Sym, R: Matrix, S: Matrix)
    ensures Rotate(Rotate(A, R), S) == Rotate(A, R.Mul(S))
  {
    hide Matrix.Apply, Sym.Form;
    FormRotate(A, R, S.c1, S.c1);
    FormRotate(A, R, S.c2, S.c2);
    FormRotate(A, R, S.c3, S.c3);
    FormRotate(A, R, S.c1, S.c2);
    FormRotate(A, R, S.c1, S.c3);
    FormRotate(A, R, S.c2, S.c3);
  }

  /** Rotation by a regular matrix keeps positive definiteness. */
  lemma RotateKeepsPositive(A: Sym, R: Matrix, S: Matrix)
    requires PositiveDefinite(A)
    requires S.Mul(R) == Identity
    ensures PositiveDefinite(Rotate(A, R))
  {
    hide Matrix.Apply, Sym.Form, Rotate;
    forall v: Vector3 | v != Zero3 ensures Rotate(A, R).Form(v, v) > 0.0 {
      FormRotate(A, R, v, v);
      ApplyMul(S, R, v);
      ApplyIdentity(v);
      ApplyZero(S);
    }
  }

  /** For orthonormal columns and determinant 1 the transpose is the two-sided inverse. */
  lemma TransposeInverts(R: Matrix)
    requires Orthonormal(R) && R.Determinant() != 0.0
    ensures R.Transpose().Mul(R) == Identity
    ensures R.Mul(R.Transpose()) == Identity
  {
    hide Vector3.Dot, Matrix.Apply, Matrix.Determinant, Matrix.Inverse, Matrix.Mul;
    var T := R.Transpose();
    TransposeTimes(R);
    InverseIsInverse(R);
    MulAssociates(T, R, R.Inverse());
    MulIdentity(T);
    MulIdentity(R.Inverse());
  }

  lemma TransposeTimes(R: Matrix)
    requires Orthonormal(R)
    ensures R.Transpose().Mul(R) == Identity
  {
    hide Vector3.Dot;
    DotCommutes(R.c1, R.c2);
    DotCommutes(R.c1, R.c3);
    DotCommutes(R.c2, R.c3);
    assert R.Transpose().Row0() == R.c1 && R.Transpose().Row1() == R.c2 && R.Transpose().Row2() == R.c3;
  }
}
