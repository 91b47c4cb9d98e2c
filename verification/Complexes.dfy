/** Complex numbers as pairs of exact reals (scalar_complex in libpympb/pympb.cpp). */
module Complexes {
  import opened Reals

  datatype Complex = Complex(re: real, im: real) {

    function Times(w: Complex): Complex {
      Complex(re * w.re - im * w.im, re * w.im + im * w.re)
    }

    function Plus(w: Complex): Complex { Complex(re + w.re, im + w.im) }

    function Neg(): Complex { Complex(-re, -im) }

    function Conj(): Complex { Complex(re, -im) }

    function NormSqr(): real { re * re + im * im }

    predicate IsUnit() { NormSqr() == 1.0 }
  }

  const CZero := Complex(0.0, 0.0)
  const COne := Complex(1.0, 0.0)

  // ----- component lemmas

  lemma TimesComponents(z: Complex, w: Complex, a: real, b: real, c: real, d: real)
    requires z == Complex(a, b) && w == Complex(c, d)
    ensures z.Times(w) == Complex(a * c - b * d, a * d + b * c)
    ensures z.NormSqr() == a * a + b * b
  {
  }

  // ----- field laws

  lemma TimesCommutes(z: Complex, w: Complex)
    ensures z.Times(w) == w.Times(z)
  {
  }

  lemma TimesAssociates(z: Complex, w: Complex, v: Complex)
    ensures z.Times(w).Times(v) == z.Times(w.Times(v))
  {
    hide Complex.Times;
    var a, b, c, d, e, f := z.re, z.im, w.re, w.im, v.re, v.im;
    TimesComponents(z, w, a, b, c, d);
    TimesComponents(w, v, c, d, e, f);
    TimesComponents(z.Times(w), v, a * c - b * d, a * d + b * c, e, f);
    TimesComponents(z, w.Times(v), a, b, c * e - d * f, c * f + d * e);
    assert (a * c - b * d) * e - (a * d + b * c) * f == a * (c * e - d * f) - b * (c * f + d * e);
    assert (a * c - b * d) * f + (a * d + b * c) * e == a * (c * f + d * e) + b * (c * e - d * f);
  }

  lemma TimesDistributes(z: Complex, w: Complex, v: Complex)
    ensures z.Times(w.Plus(v)) == z.Times(w).Plus(z.Times(v))
  {
    hide Complex.Times;
    var a, b, c, d, e, f := z.re, z.im, w.re, w.im, v.re, v.im;
    TimesComponents(z, w, a, b, c, d);
    TimesComponents(z, v, a, b, e, f);
    TimesComponents(z, w.Plus(v), a, b, c + e, d + f);
  }

  lemma TimesOne(z: Complex)
    ensures z.Times(COne) == z == COne.Times(z)
  {
  }

  lemma TimesNeg(z: Complex, w: Complex)
    ensures z.Times(w.Neg()) == z.Times(w).Neg() == z.Neg().Times(w)
  {
  }

  lemma NormSqrTimes(z: Complex, w: Complex)
    ensures z.Times(w).NormSqr() == z.NormSqr() * w.NormSqr()
  {
    hide Complex.Times, Complex.NormSqr;
    var a, b, c, d := z.re, z.im, w.re, w.im;
    TimesComponents(z, w, a, b, c, d);
    TimesComponents(w, z, c, d, a, b);
    TimesComponents(z.Times(w), z, a * c - b * d, a * d + b * c, a, b);
    assert (a * c - b * d) * (a * c - b * d) + (a * d + b * c) * (a * d + b * c)
        == (a * a + b * b) * (c * c + d * d);
  }

  lemma ConjTimes(z: Complex)
    ensures z.Times(z.Conj()) == Complex(z.NormSqr(), 0.0)
  {
  }

  lemma NormSqrSign(z: Complex)
    ensures z.NormSqr() >= 0.0
    ensures z.NormSqr() == 0.0 <==> z == CZero
  {
    SquareSign(z.re, z.re * z.re);
    SquareSign(z.im, z.im * z.im);
    SumOfSquares(z.re, z.im, 0.0, z.NormSqr());
  }
}
