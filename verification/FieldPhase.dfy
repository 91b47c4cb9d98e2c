/** mode_solver::fix_field_phase (libpympb/pympb.cpp:2016-2126): the phase that makes a
    field, and the eigenvector it came from, independent of the solver's arbitrary phase. */
module FieldPhase {
  import opened Reals
  import opened Complexes
  import opened Integers

  type Field = seq<Complex>

  // ----- specification

  /** Sum of the squared components: real part sum(a*a - b*b), imaginary part sum(2*a*b). */
  function SumSquares(f: Field): Complex {
    if |f| == 0 then CZero
    else SumSquares(f[..|f| - 1]).Plus(f[|f| - 1].Times(f[|f| - 1]))
  }

  /** The phases exp(i*theta) for which the real part of the rotated sum of squares is largest:
      both square roots that halving the angle of atan2 can give. */
  predicate MaximisingPhase(S: Complex, p: Complex) {
    p.IsUnit() && p.Times(p).Times(S).im == 0.0 && p.Times(p).Times(S).re >= 0.0
  }

  function Rotated(f: Field, p: Complex): (r: Field)
    ensures |r| == |f| && forall i :: 0 <= i < |f| ==> r[i] == p.Times(f[i])
  {
    seq(|f|, i requires 0 <= i < |f| => p.Times(f[i]))
  }

  /** Largest |real part|. */
  function MaxAbsRe(g: Field): (m: real)
    ensures m >= 0.0
    ensures forall i :: 0 <= i < |g| ==> Abs(g[i].re) <= m
    ensures m > 0.0 ==> exists i :: 0 <= i < |g| && Abs(g[i].re) == m
  {
    if |g| == 0 then 0.0
    else
      var init := g[..|g| - 1];
      var m, r := MaxAbsRe(init), Abs(g[|g| - 1].re);
      assert forall i :: 0 <= i < |init| ==> init[i] == g[i];
      if r > m then r else m
  }

  predicate IsBig(z: Complex, max: real) { Abs(z.re) >= 0.5 * max }

  /** Index of the last of the first n entries whose |real part| is at least half of `max`, or -1. */
  function LastBig(g: Field, max: real, n: nat): (i: int)
    requires n <= |g|
    ensures -1 <= i < n
    ensures i >= 0 ==> IsBig(g[i], max)
    ensures forall j :: i < j < n ==> !IsBig(g[j], max)
  {
    if n == 0 then -1 else if IsBig(g[n - 1], max) then n - 1 else LastBig(g, max, n - 1)
  }

  function Sign(g: Field): real {
    var i := LastBig(g, MaxAbsRe(g), |g|);
    if i >= 0 && g[i].re < 0.0 then -1.0 else 1.0
  }

  /** The maximising phase with the sign that step (3) of the procedure gives it. */
  function SignedPhase(f: Field, p: Complex): Complex {
    if Sign(Rotated(f, p)) < 0.0 then p.Neg() else p
  }

  function Fixed(f: Field, p: Complex): Field { Rotated(f, SignedPhase(f, p)) }

  // ----- sums of squares under rotation

  lemma RotatedPrefix(f: Field, p: Complex, n: nat)
    requires n <= |f|
    ensures Rotated(f, p)[..n] == Rotated(f[..n], p)
  {
  }

  lemma {:induction false} SumSquaresRotated(f: Field, p: Complex)
    ensures SumSquares(Rotated(f, p)) == p.Times(p).Times(SumSquares(f))
  {
    hide Complex.Times, Complex.Plus;
    if |f| == 0 {
      TimesZero(p.Times(p));
    } else {
      var n, z := |f| - 1, f[|f| - 1];
      SumSquaresRotated(f[..n], p);
      RotatedPrefix(f, p, n);
      SquareOfProduct(p, z);
      TimesDistributes(p.Times(p), SumSquares(f[..n]), z.Times(z));
    }
  }

  lemma TimesZero(z: Complex)
    ensures z.Times(CZero) == CZero
  {
  }

  lemma SquareOfProduct(p: Complex, z: Complex)
    ensures p.Times(z).Times(p.Times(z)) == p.Times(p).Times(z.Times(z))
  {
    hide Complex.Times;
    TimesAssociates(p, z, p.Times(z));
    TimesAssociates(z, p, z);
    TimesCommutes(z, p);
    TimesAssociates(p, z, z);
    TimesAssociates(p, p, z.Times(z));
  }

  lemma RotatedTwice(f: Field, p: Complex, u: Complex)
    ensures Rotated(Rotated(f, u), p) == Rotated(f, p.Times(u))
  {
    hide Complex.Times;
    forall i | 0 <= i < |f| ensures Rotated(Rotated(f, u), p)[i] == Rotated(f, p.Times(u))[i] {
      TimesAssociates(p, u, f[i]);
    }
  }

  // ----- the two roots

  /** Two unit phases that both make S real and non-negative differ by a sign. */
  lemma RootsAgree(S: Complex, p: Complex, w: Complex)
    requires S != CZero
    requires MaximisingPhase(S, p) && MaximisingPhase(S, w)
    ensures w == p || w == p.Neg()
  {
    hide Complex.Times, Complex.NormSqr;
    var r := w.Times(p.Conj());
    // w == r * p
    TimesAssociates(w, p.Conj(), p);
    TimesCommutes(p, p.Conj());
    ConjTimes(p);
    TimesOne(w);
    assert w == r.Times(p);
    // w*w*S == (r*r) * (p*p*S)
    SquareOfProduct(r, p);
    TimesAssociates(r.Times(r), p.Times(p), S);
    var m, m' := p.Times(p).Times(S), w.Times(w).Times(S);
    assert m' == r.Times(r).Times(m);
    PositiveSquare(S, p);
    NormSqrTimes(w, p.Conj());
    ConjNorm(p);
    RealSquare(r, m, m');
    TimesOne(p);
    TimesNeg(COne, p);
  }

  lemma PositiveSquare(S: Complex, p: Complex)
    requires S != CZero && MaximisingPhase(S, p)
    ensures p.Times(p).Times(S).re > 0.0
  {
    hide Complex.Times, Complex.NormSqr;
    NormSqrTimes(p.Times(p), S);
    NormSqrTimes(p, p);
    NormSqrSign(S);
    NormSqrSign(p.Times(p).Times(S));
  }

  lemma ConjNorm(p: Complex)
    ensures p.Conj().NormSqr() == p.NormSqr()
  {
  }

  lemma RealSquare(r: Complex, m: Complex, m': Complex)
    requires r.IsUnit()
    requires m.im == 0.0 && m.re > 0.0
    requires m' == r.Times(r).Times(m)
    requires m'.im == 0.0 && m'.re >= 0.0
    ensures r == COne || r == COne.Neg()
  {
    hide Complex.Times, Complex.NormSqr;
    var a, b, c := r.re, r.im, m.re;
    TimesComponents(r, r, a, b, a, b);
    TimesComponents(r.Times(r), m, a * a - b * b, a * b + b * a, c, 0.0);
    UnitRoots(a, b, c);
  }

  lemma UnitRoots(a: real, b: real, c: real)
    requires a * a + b * b == 1.0 && c > 0.0
    requires (a * b + b * a) * c == 0.0
    requires (a * a - b * b) * c >= 0.0
    ensures b == 0.0 && (a == 1.0 || a == -1.0)
  {
    ZeroFactor(a * b, c);
    SquareSign(b, b * b);
    assert a == 0.0 ==> b * b == 1.0 && (a * a - b * b) * c == -c;
    ZeroFactor(b, a);
    EqualSquares(a, 1.0);
  }

  lemma ZeroFactor(x: real, y: real)
    requires x * y == 0.0 && y != 0.0
    ensures x == 0.0
  {
  }

  // ----- the sign step

  lemma {:induction false} NegatedMax(g: Field, h: Field)
    requires |g| == |h| && forall i :: 0 <= i < |g| ==> h[i] == g[i].Neg()
    ensures MaxAbsRe(g) == MaxAbsRe(h)
  {
    if |g| > 0 {
      NegatedMax(g[..|g| - 1], h[..|g| - 1]);
    }
  }

  lemma {:induction false} NegatedLastBig(g: Field, h: Field, max: real, n: nat)
    requires |g| == |h| && n <= |g| && forall i :: 0 <= i < |g| ==> h[i] == g[i].Neg()
    ensures LastBig(g, max, n) == LastBig(h, max, n)
  {
    if n > 0 {
      NegatedLastBig(g, h, max, n - 1);
    }
  }

  /** A field with no real part has no positive real sum of squares. */
  lemma {:induction false} ImaginaryField(g: Field)
    requires MaxAbsRe(g) == 0.0
    ensures SumSquares(g).re <= 0.0
  {
    if |g| > 0 {
      var z := g[|g| - 1];
      ImaginaryField(g[..|g| - 1]);
      SquareSign(z.im, z.im * z.im);
      assert z.re == 0.0;
    }
  }

  lemma PositiveSumHasRealPart(g: Field)
    requires SumSquares(g).re > 0.0
    ensures MaxAbsRe(g) > 0.0
  {
    if MaxAbsRe(g) == 0.0 {
      ImaginaryField(g);
    }
  }

  /** The entry that decides the sign is the last big one, and it is not zero. */
  lemma DecidingEntry(g: Field)
    requires MaxAbsRe(g) > 0.0
    ensures var i := LastBig(g, MaxAbsRe(g), |g|); i >= 0 && g[i].re != 0.0
  {
    var k :| 0 <= k < |g| && Abs(g[k].re) == MaxAbsRe(g);
    assert IsBig(g[k], MaxAbsRe(g));
  }

  lemma NegatedSign(f: Field, p: Complex)
    requires MaxAbsRe(Rotated(f, p)) > 0.0
    ensures MaxAbsRe(Rotated(f, p.Neg())) == MaxAbsRe(Rotated(f, p))
    ensures Sign(Rotated(f, p.Neg())) == -Sign(Rotated(f, p))
  {
    hide Complex.Times;
    var g, h := Rotated(f, p), Rotated(f, p.Neg());
    forall i | 0 <= i < |g| ensures h[i] == g[i].Neg() {
      TimesNeg(p, f[i]);
    }
    NegatedMax(g, h);
    NegatedLastBig(g, h, MaxAbsRe(g), |g|);
    DecidingEntry(g);
  }

  lemma MaximisedSum(f: Field, p: Complex)
    requires SumSquares(f) != CZero
    requires MaximisingPhase(SumSquares(f), p)
    ensures SumSquares(Rotated(f, p)).re > 0.0 && SumSquares(Rotated(f, p)).im == 0.0
  {
    hide Complex.Times, Complex.NormSqr, SumSquares, Rotated;
    SumSquaresRotated(f, p);
    PositiveSquare(SumSquares(f), p);
  }

  // ----- canonicity

  /** Fields that differ only by a unit phase are fixed to the same field, whichever square
      roots the halved angles select, as long as the sum of squares is not zero. */
  lemma Canonical(f: Field, u: Complex, p: Complex, q: Complex)
    requires u.IsUnit()
    requires SumSquares(f) != CZero
    requires MaximisingPhase(SumSquares(f), p)
    requires MaximisingPhase(SumSquares(Rotated(f, u)), q)
    ensures Fixed(Rotated(f, u), q) == Fixed(f, p)
  {
    hide Complex.Times, Complex.NormSqr;
    var S, w := SumSquares(f), q.Times(u);
    SumSquaresRotated(f, u);
    SquareOfProduct(q, u);
    TimesAssociates(q.Times(q), u.Times(u), S);
    NormSqrTimes(q, u);
    assert MaximisingPhase(S, w);
    RootsAgree(S, p, w);
    RotatedTwice(f, q, u);
    RotatedTwice(f, q.Neg(), u);
    TimesNeg(q, u);
    NegNeg(p);
    MaximisedSum(f, p);
    PositiveSumHasRealPart(Rotated(f, p));
    NegatedSign(f, p);
  }

  lemma NegNeg(p: Complex)
    ensures p.Neg().Neg() == p
  {
  }

  /** Fixing a fixed field changes nothing. */
  lemma Idempotent(f: Field, p: Complex, q: Complex)
    requires SumSquares(f) != CZero
    requires MaximisingPhase(SumSquares(f), p)
    requires MaximisingPhase(SumSquares(Fixed(f, p)), q)
    ensures Fixed(Fixed(f, p), q) == Fixed(f, p)
  {
    SignedPhaseIsUnit(f, p);
    Canonical(f, SignedPhase(f, p), p, q);
  }

  lemma SignedPhaseIsUnit(f: Field, p: Complex)
    requires p.IsUnit()
    ensures SignedPhase(f, p).IsUnit()
  {
  }

  predicate IsNull(f: Field) { forall i :: 0 <= i < |f| ==> f[i] == CZero }

  /** `phaseOf` is the library's (cos, sin) of 0.5*atan2(-S.im, S.re). */
  ghost predicate IsPhaseOf(phaseOf: Complex -> Complex) {
    forall S {:trigger phaseOf(S)} :: MaximisingPhase(S, phaseOf(S))
  }

  /** When the sum of squares vanishes (a circularly polarised field, say) the procedure cannot
      remove the phase: multiplying the field by i always shows. */
  lemma NotCanonicalAtZero(f: Field, phaseOf: Complex -> Complex)
    requires IsPhaseOf(phaseOf)
    requires SumSquares(f) == CZero && !IsNull(f)
    ensures var I := Complex(0.0, 1.0);
            Fixed(Rotated(f, I), phaseOf(SumSquares(Rotated(f, I)))) != Fixed(f, phaseOf(SumSquares(f)))
  {
    hide Complex.Times, Complex.NormSqr, SumSquares, Sign;
    var I, p := Complex(0.0, 1.0), phaseOf(CZero);
    SumSquaresRotated(f, I);
    TimesZero(I.Times(I));
    var k :| 0 <= k < |f| && f[k] != CZero;
    var a, b := Fixed(f, p)[k], Fixed(Rotated(f, I), p)[k];
    var y := p.Times(f[k]);
    TimesNeg(p, f[k]);
    TimesNeg(p, I.Times(f[k]));
    TimesCommutes(p, I.Times(f[k]));
    TimesAssociates(I, f[k], p);
    TimesCommutes(f[k], p);
    assert a == y || a == y.Neg();
    assert b == I.Times(y) || b == I.Times(y).Neg();
    NormSqrTimes(p, f[k]);
    NormSqrSign(f[k]);
    NormSqrSign(y);
    QuarterTurn(y);
  }

  /** Two components of equal size, a quarter of a period apart. */
  const CircularlyPolarised: Field := [COne, Complex(0.0, 1.0), CZero]

  lemma CircularSum()
    ensures SumSquares(CircularlyPolarised) == CZero && !IsNull(CircularlyPolarised)
  {
    hide SumSquares, Complex.Times;
    var f, I, minus := CircularlyPolarised, Complex(0.0, 1.0), Complex(-1.0, 0.0);
    TimesOne(COne);
    SquareOfI();
    SquareOfZero();
    EmptySum();
    LastSquare([], COne, COne);
    LastSquare([COne], I, minus);
    LastSquare([COne, I], CZero, CZero);
    assert [] + [COne] == [COne] && [COne] + [I] == [COne, I] && [COne, I] + [CZero] == f;
    assert f[0] != CZero;
  }

  lemma SquareOfI()
    ensures Complex(0.0, 1.0).Times(Complex(0.0, 1.0)) == Complex(-1.0, 0.0)
  {
  }

  lemma SquareOfZero()
    ensures CZero.Times(CZero) == CZero
  {
  }

  lemma EmptySum()
    ensures SumSquares([]) == CZero
  {
  }

  lemma LastSquare(f: Field, z: Complex, square: Complex)
    requires square == z.Times(z)
    ensures SumSquares(f + [z]) == SumSquares(f).Plus(square)
  {
    assert (f + [z])[..|f|] == f;
  }

  /** A field whose result does depend on the incoming phase. */
  lemma CircularShows(phaseOf: Complex -> Complex)
    requires IsPhaseOf(phaseOf)
    ensures var f := CircularlyPolarised;
            var g := Rotated(f, Complex(0.0, 1.0));
            Fixed(g, phaseOf(SumSquares(g))) != Fixed(f, phaseOf(SumSquares(f)))
  {
    hide *;
    CircularSum();
    NotCanonicalAtZero(CircularlyPolarised, phaseOf);
  }

  lemma QuarterTurn(y: Complex)
    requires y != CZero
    ensures var t := Complex(0.0, 1.0).Times(y);
            y != t && y.Neg() != t && y != t.Neg() && y.Neg() != t.Neg()
  {
  }

  lemma NullField(f: Field, p: Complex)
    requires IsNull(f)
    ensures Rotated(f, p) == f
  {
    hide Complex.Times;
    TimesZero(p);
  }

  /** Exactly when the result does not depend on the solver's phase. */
  lemma CanonicalIff(f: Field, phaseOf: Complex -> Complex)
    requires IsPhaseOf(phaseOf)
    ensures (forall u: Complex :: u.IsUnit() ==>
               Fixed(Rotated(f, u), phaseOf(SumSquares(Rotated(f, u)))) == Fixed(f, phaseOf(SumSquares(f))))
        <==> SumSquares(f) != CZero || IsNull(f)
  {
    hide Fixed, IsPhaseOf, SumSquares, Complex.NormSqr;
    forall u: Complex | u.IsUnit() && (SumSquares(f) != CZero || IsNull(f))
      ensures Fixed(Rotated(f, u), phaseOf(SumSquares(Rotated(f, u)))) == Fixed(f, phaseOf(SumSquares(f)))
    {
      PhaseAt(phaseOf, SumSquares(f));
      PhaseAt(phaseOf, SumSquares(Rotated(f, u)));
      if SumSquares(f) != CZero {
        Canonical(f, u, phaseOf(SumSquares(f)), phaseOf(SumSquares(Rotated(f, u))));
      } else {
        NullField(f, u);
      }
    }
    if SumSquares(f) == CZero && !IsNull(f) {
      NotCanonicalAtZero(f, phaseOf);
      UnitOfI();
    }
  }

  lemma UnitOfI()
    ensures Complex(0.0, 1.0).IsUnit()
  {
  }

  lemma PhaseAt(phaseOf: Complex -> Complex, S: Complex)
    requires IsPhaseOf(phaseOf)
    ensures MaximisingPhase(S, phaseOf(S))
  {
  }

  // ----- what the fixed field looks like

  function SumNormSqr(f: Field): real {
    if |f| == 0 then 0.0 else SumNormSqr(f[..|f| - 1]) + f[|f| - 1].NormSqr()
  }

  function SumReSqr(f: Field): real {
    if |f| == 0 then 0.0 else SumReSqr(f[..|f| - 1]) + f[|f| - 1].re * f[|f| - 1].re
  }

  lemma {:induction false} ReSqrSplit(g: Field)
    ensures 2.0 * SumReSqr(g) == SumNormSqr(g) + SumSquares(g).re
  {
    if |g| > 0 {
      ReSqrSplit(g[..|g| - 1]);
    }
  }

  lemma {:induction false} SumNormSqrRotated(f: Field, p: Complex)
    requires p.IsUnit()
    ensures SumNormSqr(Rotated(f, p)) == SumNormSqr(f)
  {
    hide Complex.Times, Complex.NormSqr;
    if |f| > 0 {
      SumNormSqrRotated(f[..|f| - 1], p);
      RotatedPrefix(f, p, |f| - 1);
      NormSqrTimes(p, f[|f| - 1]);
    }
  }

  /** Every modulus is kept, the sum of squares becomes real and non-negative, and no unit
      phase gives a larger sum of squared real parts. */
  lemma FixedIsMaximal(f: Field, p: Complex, w: Complex)
    requires MaximisingPhase(SumSquares(f), p)
    requires w.IsUnit()
    ensures |Fixed(f, p)| == |f|
    ensures forall i :: 0 <= i < |f| ==> Fixed(f, p)[i].NormSqr() == f[i].NormSqr()
    ensures SumSquares(Fixed(f, p)).im == 0.0 && SumSquares(Fixed(f, p)).re >= 0.0
    ensures SumReSqr(Rotated(f, w)) <= SumReSqr(Fixed(f, p))
  {
    hide Complex.Times, Complex.NormSqr;
    var s, S := SignedPhase(f, p), SumSquares(f);
    assert s.IsUnit() by { SignedPhaseIsUnit(f, p); }
    forall i | 0 <= i < |f| ensures Fixed(f, p)[i].NormSqr() == f[i].NormSqr() {
      NormSqrTimes(s, f[i]);
    }
    SumSquaresRotated(f, s);
    SumSquaresRotated(f, w);
    TimesNeg(p, p);
    TimesNeg(p, p.Neg());
    NegNeg(p.Times(p));
    assert s.Times(s) == p.Times(p);
    ReSqrSplit(Rotated(f, w));
    ReSqrSplit(Fixed(f, p));
    SumNormSqrRotated(f, w);
    SumNormSqrRotated(f, s);
    NormSqrTimes(w.Times(w), S);
    NormSqrTimes(w, w);
    NormSqrTimes(p.Times(p), S);
    NormSqrTimes(p, p);
    LargestReal(SumSquares(Rotated(f, w)), SumSquares(Fixed(f, p)));
  }

  lemma LargestReal(z: Complex, m: Complex)
    requires z.NormSqr() == m.NormSqr()
    requires m.im == 0.0 && m.re >= 0.0
    ensures z.re <= m.re
  {
    SquareSign(z.im, z.im * z.im);
    if z.re >= 0.0 {
      SquareOrder(m.re, z.re, m.re * m.re, z.re * z.re);
    }
  }

  /** In the fixed field the last entry whose |real part| is at least half of the largest is
      positive, unless every real part is zero; with a nonzero sum of squares some are not. */
  lemma FixedSign(f: Field, p: Complex)
    requires MaximisingPhase(SumSquares(f), p)
    ensures SumSquares(f) != CZero ==> MaxAbsRe(Fixed(f, p)) > 0.0
    ensures var g := Fixed(f, p);
            MaxAbsRe(g) > 0.0 ==>
              exists i :: 0 <= i < |g| && g[i].re > 0.0 && 2.0 * g[i].re >= MaxAbsRe(g)
                       && forall j :: i < j < |g| ==> 2.0 * Abs(g[j].re) < MaxAbsRe(g)
  {
    hide Complex.Times, SumSquares, MaximisingPhase, MaxAbsRe, LastBig, Rotated;
    if SumSquares(f) != CZero {
      MaximisedSum(f, p);
      PositiveSumHasRealPart(Rotated(f, p));
    }
    NegNeg(p);
    if MaxAbsRe(Rotated(f, p)) > 0.0 {
      NegatedSign(f, p);
    } else if MaxAbsRe(Rotated(f, p.Neg())) > 0.0 {
      NegatedSign(f, p.Neg());
    }
    if MaxAbsRe(Fixed(f, p)) > 0.0 {
      DecidingEntry(Fixed(f, p));
    }
  }

  // ----- the in-place procedure

  function ColumnOf(k: nat, p: nat): nat
    requires p > 0
  {
    k % p
  }

  lemma RowColumn(i: nat, p: nat, c: nat, k: nat)
    requires c < p && k == i * p + c
    ensures ColumnOf(k, p) == c
  {
    DivisionIsUnique(p, i, c, k);
  }

  function RowStart(i: nat, p: nat): nat { i * p }

  lemma NextRow(i: nat, p: nat)
    ensures RowStart(i + 1, p) == RowStart(i, p) + p
  {
  }

  /** Entry k of a row-major buffer lies in column c of its first `rows` rows of width p. */
  predicate InColumn(k: nat, rows: nat, p: nat, c: nat) {
    p > 0 && k < RowStart(rows, p) && ColumnOf(k, p) == c
  }

  /** Row i adds its entry in column c ... */
  lemma ColumnGrows(i: nat, p: nat, c: nat, base: nat, k: nat)
    requires c < p && base == RowStart(i, p)
    ensures InColumn(k, i, p, c) || k == base + c ==> InColumn(k, i + 1, p, c)
  {
    hide RowStart, ColumnOf;
    NextRow(i, p);
    EntryColumn(i, p, c, base);
  }

  /** ... and nothing else. */
  lemma ColumnGrowsBy(i: nat, p: nat, c: nat, base: nat, k: nat)
    requires c < p && base == RowStart(i, p) && InColumn(k, i + 1, p, c)
    ensures InColumn(k, i, p, c) || k == base + c
  {
    hide RowStart, ColumnOf;
    NextRow(i, p);
    if base <= k {
      EntryColumn(i, p, k - base, base);
    }
  }

  lemma EntryColumn(i: nat, p: nat, c: nat, base: nat)
    requires c < p && base == RowStart(i, p)
    ensures ColumnOf(base + c, p) == c
  {
    RowColumn(i, p, c, base + c);
  }

  lemma ColumnStep(i: nat, p: nat, c: nat, base: nat)
    requires c < p && base == RowStart(i, p)
    ensures forall k: nat :: InColumn(k, i + 1, p, c) <==> InColumn(k, i, p, c) || k == base + c
    ensures !InColumn(base + c, i, p, c)
  {
    assert !InColumn(base + c, i, p, c) by { hide RowStart, ColumnOf; }
    hide InColumn, RowStart;
    forall k: nat ensures InColumn(k, i + 1, p, c) <==> InColumn(k, i, p, c) || k == base + c {
      ColumnGrows(i, p, c, base, k);
      if InColumn(k, i + 1, p, c) {
        ColumnGrowsBy(i, p, c, base, k);
      }
    }
  }

  lemma ColumnInside(i: nat, n: nat, p: nat, c: nat)
    requires c < p && i < n
    ensures i * p + c < n * p
  {
    PositionInRange(i, n, c, p);
  }

  /** The real part of a product as the loops spell it out. */
  function RealPart(z: Complex, p: Complex): real { z.re * p.re - z.im * p.im }

  /** The product as the loops spell it out. */
  lemma SpelledProduct(z: Complex, p: Complex)
    ensures Complex(RealPart(z, p), z.re * p.im + z.im * p.re) == p.Times(z)
  {
    TimesCommutes(z, p);
  }

  class ModeSolver {
    var curfield: array?<Complex>  // fft_output_size * 3 components, null when none is loaded
    var curfieldType: char
    var curfieldBand: nat
    var H: array<Complex>          // eigenvectors: Hn rows, one column of Hp for each band
    var Hn: nat
    var Hp: nat

    /** strchr also finds the terminating NUL of its string. */
    predicate Loaded()
      reads this
    {
      curfield != null && curfieldType in "dhbecv\0"
    }

    ghost predicate Valid()
      reads this
    {
      && Hn * Hp <= H.Length
      && (Loaded() ==> 1 <= curfieldBand <= Hp)
      && curfield != H
    }

    method FixFieldPhase(phaseOf: Complex -> Complex)
      requires Valid()
      modifies curfield, H
      ensures old(Loaded()) ==>
                curfield[..] == Fixed(old(curfield[..]), phaseOf(SumSquares(old(curfield[..]))))
      ensures old(Loaded()) ==>
                var s := SignedPhase(old(curfield[..]), phaseOf(SumSquares(old(curfield[..]))));
                forall k :: 0 <= k < H.Length ==>
                  H[k] == if InColumn(k, Hn, Hp, curfieldBand - 1) then s.Times(old(H[k])) else old(H[k])
      ensures !old(Loaded()) ==> H[..] == old(H[..]) && (curfield != null ==> curfield[..] == old(curfield[..]))
    {
      if !Loaded() {
        return;
      }
      ghost var f := curfield[..];
      var sqSum := SumOfSquares();
      var phase := phaseOf(sqSum);
      ghost var p := phase;
      var maxAbs := LargestRealPart(phase);
      var maxAbsSign := SignOfLastBig(phase, maxAbs);
      phase := Complex(phase.re * maxAbsSign, phase.im * maxAbsSign);
      assert phase == SignedPhase(f, p);
      MultiplyField(phase);
      MultiplyColumn(phase);
      assert curfield[..] == Fixed(f, p);
    }

    method SumOfSquares() returns (sqSum: Complex)
      requires curfield != null
      ensures sqSum == SumSquares(curfield[..])
    {
      sqSum := CZero;
      for i := 0 to curfield.Length
        invariant sqSum == SumSquares(curfield[..i])
      {
        var a, b := curfield[i].re, curfield[i].im;
        assert curfield[..i + 1][..i] == curfield[..i];
        sqSum := Complex(sqSum.re + (a * a - b * b), sqSum.im + 2.0 * a * b);
      }
      assert curfield[..curfield.Length] == curfield[..];
    }

    method LargestRealPart(phase: Complex) returns (maxAbs: real)
      requires curfield != null
      ensures maxAbs == MaxAbsRe(Rotated(curfield[..], phase))
    {
      hide Complex.Times, RealPart;
      ghost var g := Rotated(curfield[..], phase);
      maxAbs := 0.0;
      for i := 0 to curfield.Length
        invariant maxAbs == MaxAbsRe(g[..i])
      {
        var r := Abs(RealPart(curfield[i], phase));
        SpelledProduct(curfield[i], phase);
        assert g[..i + 1][..i] == g[..i];
        if r > maxAbs {
          maxAbs := r;
        }
      }
      assert g[..curfield.Length] == g;
    }

    method SignOfLastBig(phase: Complex, maxAbs: real) returns (maxAbsSign: real)
      requires curfield != null
      requires maxAbs == MaxAbsRe(Rotated(curfield[..], phase))
      ensures maxAbsSign == Sign(Rotated(curfield[..], phase))
    {
      hide Complex.Times, RealPart;
      ghost var g := Rotated(curfield[..], phase);
      maxAbsSign := 1.0;
      var i := curfield.Length - 1;
      while i >= 0
        invariant -1 <= i < curfield.Length
        invariant LastBig(g, maxAbs, |g|) == LastBig(g, maxAbs, i + 1)
        invariant maxAbsSign == 1.0
      {
        var r := RealPart(curfield[i], phase);
        SpelledProduct(curfield[i], phase);
        if Abs(r) >= 0.5 * maxAbs {
          maxAbsSign := if r < 0.0 then -1.0 else 1.0;
          break;
        }
        i := i - 1;
      }
    }

    method MultiplyField(phase: Complex)
      requires curfield != null
      modifies curfield
      ensures curfield[..] == Rotated(old(curfield[..]), phase)
    {
      hide Complex.Times;
      for i := 0 to curfield.Length
        invariant forall k :: 0 <= k < i ==> curfield[k] == phase.Times(old(curfield[k]))
        invariant forall k :: i <= k < curfield.Length ==> curfield[k] == old(curfield[k])
      {
        var a, b := curfield[i].re, curfield[i].im;
        SpelledProduct(curfield[i], phase);
        curfield[i] := Complex(a * phase.re - b * phase.im, a * phase.im + b * phase.re);
      }
    }

    /** The loop over the rows of H.data, column curfield_band - 1. */
    method MultiplyColumn(phase: Complex)
      requires Valid() && 1 <= curfieldBand <= Hp
      modifies H
      ensures forall k :: 0 <= k < H.Length ==>
                H[k] == if InColumn(k, Hn, Hp, curfieldBand - 1) then phase.Times(old(H[k])) else old(H[k])
    {
      hide Complex.Times, InColumn;
      NoRows(Hp, curfieldBand - 1);
      for i := 0 to Hn
        invariant forall k :: 0 <= k < H.Length ==>
                    H[k] == if InColumn(k, i, Hp, curfieldBand - 1) then phase.Times(old(H[k])) else old(H[k])
      {
        var c := i * Hp + curfieldBand - 1;
        ColumnStep(i, Hp, curfieldBand - 1, i * Hp);
        ColumnInside(i, Hn, Hp, curfieldBand - 1);
        var b := H[c];
        SpelledProduct(b, phase);
        H[c] := Complex(b.re * phase.re - b.im * phase.im, b.re * phase.im + b.im * phase.re);
      }
    }
  }

  lemma NoRows(p: nat, c: nat)
    ensures forall k: nat :: !InColumn(k, 0, p, c)
  {
  }
}
