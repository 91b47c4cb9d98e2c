/** Facts about products of reals. Each product is also named by a parameter, so that a
    caller can keep its own nonlinear terms opaque. */
module Reals {

  function Abs(x: real): real { if x < 0.0 then -x else x }

  /** A quotient and products, named so that proofs can hide the arithmetic. */
  function Quotient(x: real, y: real): real
    requires y != 0.0
  {
    x / y
  }

  function Part(a: real, w: real): real { a * w }

  function Product(a: real, b: real, c: real): real { a * b * c }

  /** The weighted average s*a + (1-s)*b. */
  function Mix(s: real, a: real, b: real): real { s * a + (1.0 - s) * b }

  lemma MixNegated(s: real, a: real, b: real)
    ensures Mix(s, -a, -b) == -Mix(s, a, b)
  {
  }

  /** A cell size to divide by: 1e-20 stands for zero. */
  function OrTiny(x: real): real { if x == 0.0 then 0.00000000000000000001 else x }

  lemma OrTinyIs(x: real)
    ensures OrTiny(0.0) * 10000000000.0 * 10000000000.0 == 1.0 && (x != 0.0 ==> OrTiny(x) == x)
  {
  }

  lemma ProductSign(a: real, b: real, p: real)
    requires p == a * b
    ensures a > 0.0 && b > 0.0 ==> p > 0.0
    ensures a >= 0.0 && b >= 0.0 ==> p >= 0.0
  {
    if a > 0.0 && b > 0.0 {
      PositiveProduct(a, b);
    }
  }

  lemma PositiveProduct(a: real, b: real)
    requires a > 0.0 && b > 0.0
    ensures a * b > 0.0
  {
  }

  lemma NonzeroProduct(a: real, b: real, p: real)
    requires p == a * b
    ensures p != 0.0 <==> a != 0.0 && b != 0.0
  {
    var m, n := Abs(a), Abs(b);
    assert p == m * n || p == -(m * n);
    ProductSign(m, n, m * n);
  }

  lemma SquareSign(a: real, s: real)
    requires s == a * a
    ensures s >= 0.0
    ensures a != 0.0 ==> s > 0.0
    ensures a == 0.0 ==> s == 0.0
  {
    if a > 0.0 {
      ProductSign(a, a, s);
    } else if a < 0.0 {
      assert s == (-a) * (-a);
      ProductSign(-a, -a, s);
    }
  }

  lemma SumOfSquares(a: real, b: real, c: real, r: real)
    requires r == a * a + b * b + c * c
    ensures a != 0.0 || b != 0.0 || c != 0.0 ==> r > 0.0
    ensures a == b == c == 0.0 ==> r == 0.0
  {
    SquareSign(a, a * a);
    SquareSign(b, b * b);
    SquareSign(c, c * c);
  }

  lemma EqualSquares(a: real, b: real)
    requires a * a == b * b
    ensures a == b || a == -b
  {
    assert (a - b) * (a + b) == 0.0;
  }

  lemma SquareOrder(a: real, b: real, a2: real, b2: real)
    requires a >= 0.0 && b >= 0.0 && a2 == a * a && b2 == b * b
    ensures a < b <==> a2 < b2
  {
    assert b2 - a2 == (b - a) * (b + a);
    if a < b {
      ProductSign(b - a, b + a, b2 - a2);
    } else {
      assert a2 - b2 == (a - b) * (a + b);
      ProductSign(a - b, a + b, a2 - b2);
    }
  }

  /** `a * s * t` may be read through any name `r` of `s * t`. */
  lemma Associate(a: real, s: real, t: real, r: real)
    requires s * t == r
    ensures a * s * t == a * r
  {
  }

  ghost predicate IsSqrt(sqrt: real -> real) {
    forall x {:trigger sqrt(x)} :: x >= 0.0 ==> sqrt(x) >= 0.0 && sqrt(x) * sqrt(x) == x
  }
}
