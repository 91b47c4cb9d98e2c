/** multiply_bloch_phase in map_data (libpympb/pympb.cpp:2601-2664): when the output is the Bloch
    wave exp(i k.x) * u(x) of the periodic part u that is given, and when it is not. */
module BlochPhase {
  import opened Reals
  import opened Vectors
  import opened Complexes
  import opened ResampleAxis
  import opened Resample
  import opened MapData
  import opened Tiling
  import opened BlochField

  ghost predicate Unitary(t: Trig) { forall a :: Cis(t, a).IsUnit() }

  ghost predicate Trigonometric(t: Trig) { Homomorphic(t) && Unitary(t) && t.cos(0.0) == 1.0 && t.sin(0.0) == 0.0 }

  // ----- sums of eight

  datatype Eight = Eight(a: Complex, b: Complex, c: Complex, d: Complex, e: Complex, f: Complex, g: Complex, h: Complex) {

    function Total(): Complex { CZero.Plus(a).Plus(b).Plus(c).Plus(d).Plus(e).Plus(f).Plus(g).Plus(h) }

    function EachTimes(z: Complex): Eight {
      Eight(a.Times(z), b.Times(z), c.Times(z), d.Times(z), e.Times(z), f.Times(z), g.Times(z), h.Times(z))
    }
  }

  lemma PlusTimes(u: Complex, v: Complex, z: Complex)
    ensures u.Plus(v).Times(z) == u.Times(z).Plus(v.Times(z))
  {
    TimesCommutes(u.Plus(v), z);
    TimesCommutes(u, z);
    TimesCommutes(v, z);
    TimesDistributes(z, u, v);
  }

  lemma ZeroTimes(z: Complex)
    ensures CZero.Times(z) == CZero
  {
  }

  lemma TotalTimes(x: Eight, z: Complex)
    ensures x.EachTimes(z).Total() == x.Total().Times(z)
  {
    hide Complex.Times, Complex.Plus;
    ZeroTimes(z);
    var s1 := CZero.Plus(x.a);
    var s2 := s1.Plus(x.b);
    var s3 := s2.Plus(x.c);
    var s4 := s3.Plus(x.d);
    var s5 := s4.Plus(x.e);
    var s6 := s5.Plus(x.f);
    var s7 := s6.Plus(x.g);
    PlusTimes(CZero, x.a, z);
    PlusTimes(s1, x.b, z);
    PlusTimes(s2, x.c, z);
    PlusTimes(s3, x.d, z);
    PlusTimes(s4, x.e, z);
    PlusTimes(s5, x.f, z);
    PlusTimes(s6, x.g, z);
    PlusTimes(s7, x.h, z);
  }

  // ----- corners

  /** 1 for an upper neighbour in the next cell, else 0. */
  function Wrap(a: Axis): real { if a.i2 == a.i1 + 1 then 0.0 else 1.0 }

  function WrapOn(a: Axis, upper: bool): real { if upper then Wrap(a) else 0.0 }

  /** With multiply_bloch_phase the cell numbers are the coordinate itself, one more in the next cell. */
  lemma MultipliedAxis(x: real, n: nat, nearest: bool)
    requires n >= 1
    ensures var a, b := AxisOf(x, n, true, nearest), AxisOf(x, n, false, nearest);
            && a.i1 == b.i1 && a.i2 == b.i2 && a.d == b.d && Wrap(a) == Wrap(b)
            && a.xi == x && a.xi2 == x + Wrap(b)
  {
    hide OnGrid, Trunc;
    ModfIsFloor(x);
    AxisInRange(x, n, true, nearest);
    AxisInRange(x, n, false, nearest);
    var f := x - x.Floor as real;
    FractionOnGrid(f, n);
    TruncBelow(OnGrid(f, n), n);
  }

  function Plain(d: Data, p: Point, ux: bool, uy: bool, uz: bool): Complex
    requires d.Valid() && PointFits(d.g, p)
  {
    Scaled(Sample(d, IndexOn(p.x, ux), IndexOn(p.y, uy), IndexOn(p.z, uz)), Weight(p, ux, uy, uz))
  }

  /** The phase by which a neighbour in another cell differs. */
  function Seam(t: Trig, p: Point, s: Vector3, ux: bool, uy: bool, uz: bool): Complex {
    Cis(t, CellPhase(s, WrapOn(p.x, ux), WrapOn(p.y, uy), WrapOn(p.z, uz)))
  }

  lemma TermOfSum(t: Trig, z: Complex, a: real, b: real, w: real)
    requires Homomorphic(t)
    ensures Term(t, z, a + b, w) == Scaled(z, w).Times(Cis(t, b)).Times(Cis(t, a))
  {
    hide Complex.Times, Cis;
    var A, B := Cis(t, a), Cis(t, b);
    TimesCommutes(A, B);
    TimesAssociates(z, B, A);
    assert Cis(t, a + b) == A.Times(B);
    TermIsScaled(t, z, a + b, w);
    ScaledTimes(z, B, w);
    ScaledTimes(z.Times(B), A, w);
  }

  lemma TermIsScaled(t: Trig, z: Complex, phase: real, w: real)
    ensures Term(t, z, phase, w) == Scaled(z.Times(Cis(t, phase)), w)
  {
  }

  lemma ScaledTimes(z: Complex, u: Complex, w: real)
    ensures Scaled(z.Times(u), w) == Scaled(z, w).Times(u)
  {
    var a, b, c, e := z.re, z.im, u.re, u.im;
    assert (a * c - b * e) * w == (a * w) * c - (b * w) * e;
    assert (a * e + b * c) * w == (a * w) * e + (b * w) * c;
  }

  lemma SameWeight(p: Point, q: Point, ux: bool, uy: bool, uz: bool)
    requires p.x.d == q.x.d && p.y.d == q.y.d && p.z.d == q.z.d
    ensures Weight(p, ux, uy, uz) == Weight(q, ux, uy, uz)
  {
  }

  lemma MultipliedCorner(t: Trig, d: Data, v: Vector3, s: Vector3, nearest: bool, ux: bool, uy: bool, uz: bool)
    requires d.Valid() && Homomorphic(t)
    ensures var p, q := PointOf(d.g, v, true, nearest), PointOf(d.g, v, false, nearest);
            CornerTerm(t, d, p, s, ux, uy, uz)
            == Plain(d, q, ux, uy, uz).Times(Seam(t, q, s, ux, uy, uz)).Times(Cis(t, CellPhase(s, v.x, v.y, v.z)))
  {
    hide AxisOf, Sample, CellPhase, Complex.Times, Term, Scaled, Cis, Weight;
    MultipliedAxis(v.x, d.g.n0, nearest);
    MultipliedAxis(v.y, d.g.n1, nearest);
    MultipliedAxis(v.z, d.g.n2, nearest);
    var p, q := PointOf(d.g, v, true, nearest), PointOf(d.g, v, false, nearest);
    SameWeight(p, q, ux, uy, uz);
    var wx, wy, wz := WrapOn(q.x, ux), WrapOn(q.y, uy), WrapOn(q.z, uz);
    CellPhaseSum(s, v.x, v.y, v.z, wx, wy, wz);
    assert CellOn(p.x, ux) == v.x + wx && CellOn(p.y, uy) == v.y + wy && CellOn(p.z, uz) == v.z + wz;
    TermOfSum(t, Sample(d, IndexOn(q.x, ux), IndexOn(q.y, uy), IndexOn(q.z, uz)), CellPhase(s, v.x, v.y, v.z),
              CellPhase(s, wx, wy, wz), Weight(q, ux, uy, uz));
  }

  function PlainTerms(d: Data, p: Point): Eight
    requires d.Valid() && PointFits(d.g, p)
  {
    Eight(Plain(d, p, false, false, false), Plain(d, p, false, false, true),
          Plain(d, p, false, true, false), Plain(d, p, false, true, true),
          Plain(d, p, true, false, false), Plain(d, p, true, false, true),
          Plain(d, p, true, true, false), Plain(d, p, true, true, true))
  }

  function SeamTerm(t: Trig, d: Data, p: Point, s: Vector3, ux: bool, uy: bool, uz: bool): Complex
    requires d.Valid() && PointFits(d.g, p)
  {
    Plain(d, p, ux, uy, uz).Times(Seam(t, p, s, ux, uy, uz))
  }

  function SeamTerms(t: Trig, d: Data, p: Point, s: Vector3): Eight
    requires d.Valid() && PointFits(d.g, p)
  {
    Eight(SeamTerm(t, d, p, s, false, false, false), SeamTerm(t, d, p, s, false, false, true),
          SeamTerm(t, d, p, s, false, true, false), SeamTerm(t, d, p, s, false, true, true),
          SeamTerm(t, d, p, s, true, false, false), SeamTerm(t, d, p, s, true, false, true),
          SeamTerm(t, d, p, s, true, true, false), SeamTerm(t, d, p, s, true, true, true))
  }

  /** exp(i k.x) times the neighbours, those in another cell with one more phase of that cell. */
  lemma MultipliedPoint(t: Trig, d: Data, v: Vector3, s: Vector3, nearest: bool)
    requires d.Valid() && Homomorphic(t)
    ensures ComplexPoint(t, d, PointOf(d.g, v, true, nearest), s)
         == SeamTerms(t, d, PointOf(d.g, v, false, nearest), s).Total().Times(Cis(t, CellPhase(s, v.x, v.y, v.z)))
  {
    hide CornerTerm, Plain, Seam, CellPhase, Complex.Times, PointOf, Cis, Complex.Plus;
    MultipliedCorner(t, d, v, s, nearest, false, false, false);
    MultipliedCorner(t, d, v, s, nearest, false, false, true);
    MultipliedCorner(t, d, v, s, nearest, false, true, false);
    MultipliedCorner(t, d, v, s, nearest, false, true, true);
    MultipliedCorner(t, d, v, s, nearest, true, false, false);
    MultipliedCorner(t, d, v, s, nearest, true, false, true);
    MultipliedCorner(t, d, v, s, nearest, true, true, false);
    MultipliedCorner(t, d, v, s, nearest, true, true, true);
    TotalTimes(SeamTerms(t, d, PointOf(d.g, v, false, nearest), s), Cis(t, CellPhase(s, v.x, v.y, v.z)));
  }

  /** The periodic part u at the point: the plain interpolation of both parts. */
  function PeriodicPart(d: Data, v: Vector3, nearest: bool): Complex
    requires d.Valid()
  {
    Complex(RealPoint(d.re, d.g, v, false, nearest), RealPoint(d.im, d.g, v, false, nearest))
  }

  lemma PeriodicIsPlain(d: Data, v: Vector3, nearest: bool)
    requires d.Valid()
    ensures PeriodicPart(d, v, nearest) == PlainTerms(d, PointOf(d.g, v, false, nearest)).Total()
  {
    hide AxisOf, At, Weight, Octet, Part;
    var p := PointOf(d.g, v, false, nearest);
    AxisFits(v.x, d.g.n0, false, nearest);
    AxisFits(v.y, d.g.n1, false, nearest);
    AxisFits(v.z, d.g.n2, false, nearest);
    WeightedSum(p, CornersOf(d.re, d.g, p.x, p.y, p.z));
    WeightedSum(p, CornersOf(d.im, d.g, p.x, p.y, p.z));
  }

  // ----- when the output is a Bloch wave

  /** exp(i k.x) * u(x). */
  function BlochWave(t: Trig, d: Data, v: Vector3, s: Vector3, nearest: bool): Complex
    requires d.Valid()
  {
    PeriodicPart(d, v, nearest).Times(Cis(t, CellPhase(s, v.x, v.y, v.z)))
  }

  /** No neighbour with weight lies in the next cell, unless the phase of a cell is one. */
  predicate Seamless(t: Trig, a: Axis, sa: real) { a.d == 0.0 || Wrap(a) == 0.0 || Cis(t, sa) == COne }

  lemma SeamFactor(t: Trig, a: Axis, sa: real, upper: bool)
    requires t.cos(0.0) == 1.0 && t.sin(0.0) == 0.0 && Seamless(t, a, sa) && WeightOn(a, upper) != 0.0
    ensures Cis(t, Part(WrapOn(a, upper), sa)) == COne
  {
  }

  lemma SeamIsProduct(t: Trig, s: Vector3, x: real, y: real, z: real)
    requires Homomorphic(t)
    ensures Cis(t, CellPhase(s, x, y, z))
         == Cis(t, Part(x, s.x)).Times(Cis(t, Part(y, s.y))).Times(Cis(t, Part(z, s.z)))
  {
    hide Complex.Times, Cis, Part;
    var a, b, c := Part(x, s.x), Part(y, s.y), Part(z, s.z);
    SpelledPhase(s, x, y, z);
    assert Cis(t, (a + b) + c) == Cis(t, a + b).Times(Cis(t, c));
    assert Cis(t, a + b) == Cis(t, a).Times(Cis(t, b));
  }

  lemma SpelledPhase(s: Vector3, x: real, y: real, z: real)
    ensures CellPhase(s, x, y, z) == Part(x, s.x) + Part(y, s.y) + Part(z, s.z)
  {
  }

  lemma WeightFactor(p: Point, ux: bool, uy: bool, uz: bool)
    ensures Weight(p, ux, uy, uz) != 0.0 <==> WeightOn(p.x, ux) != 0.0 && WeightOn(p.y, uy) != 0.0 && WeightOn(p.z, uz) != 0.0
  {
    hide WeightOn;
    var x, y, z := WeightOn(p.x, ux), WeightOn(p.y, uy), WeightOn(p.z, uz);
    var xy := x * y;
    NonzeroProduct(x, y, xy);
    NonzeroProduct(xy, z, Weight(p, ux, uy, uz));
  }

  lemma ScaledByZero(z: Complex)
    ensures Scaled(z, 0.0) == CZero
  {
  }

  lemma SeamIsOne(t: Trig, p: Point, s: Vector3, ux: bool, uy: bool, uz: bool)
    requires Trigonometric(t)
    requires Seamless(t, p.x, s.x) && Seamless(t, p.y, s.y) && Seamless(t, p.z, s.z)
    requires WeightOn(p.x, ux) != 0.0 && WeightOn(p.y, uy) != 0.0 && WeightOn(p.z, uz) != 0.0
    ensures Seam(t, p, s, ux, uy, uz) == COne
  {
    hide CellPhase, Complex.Times, Cis, Seamless, WeightOn, WrapOn, Part, Homomorphic, Unitary;
    SeamFactor(t, p.x, s.x, ux);
    SeamFactor(t, p.y, s.y, uy);
    SeamFactor(t, p.z, s.z, uz);
    SeamIsProduct(t, s, WrapOn(p.x, ux), WrapOn(p.y, uy), WrapOn(p.z, uz));
    TimesOne(COne);
  }

  lemma SeamlessCorner(t: Trig, d: Data, p: Point, s: Vector3, ux: bool, uy: bool, uz: bool)
    requires d.Valid() && PointFits(d.g, p) && Trigonometric(t)
    requires Seamless(t, p.x, s.x) && Seamless(t, p.y, s.y) && Seamless(t, p.z, s.z)
    ensures SeamTerm(t, d, p, s, ux, uy, uz) == Plain(d, p, ux, uy, uz)
  {
    hide Sample, Weight, Complex.Times, Scaled, Seamless, Seam, WeightOn, Trigonometric;
    if Weight(p, ux, uy, uz) == 0.0 {
      ScaledByZero(Sample(d, IndexOn(p.x, ux), IndexOn(p.y, uy), IndexOn(p.z, uz)));
      ZeroTimes(Seam(t, p, s, ux, uy, uz));
    } else {
      WeightFactor(p, ux, uy, uz);
      SeamIsOne(t, p, s, ux, uy, uz);
      TimesOne(Plain(d, p, ux, uy, uz));
    }
  }

  /** Where no weighted neighbour crosses a cell boundary with a phase, the output is the Bloch wave. */
  lemma SeamlessIsBlochWave(t: Trig, d: Data, v: Vector3, s: Vector3, nearest: bool)
    requires d.Valid() && Trigonometric(t)
    requires var p := PointOf(d.g, v, false, nearest); Seamless(t, p.x, s.x) && Seamless(t, p.y, s.y) && Seamless(t, p.z, s.z)
    ensures ComplexPoint(t, d, PointOf(d.g, v, true, nearest), s) == BlochWave(t, d, v, s, nearest)
  {
    hide SeamTerm, Plain, CellPhase, Complex.Times, PointOf, Cis, Complex.Plus, ComplexPoint, PeriodicPart, Seamless, Eight.Total;
    var p := PointOf(d.g, v, false, nearest);
    MultipliedPoint(t, d, v, s, nearest);
    PeriodicIsPlain(d, v, nearest);
    SeamlessCorner(t, d, p, s, false, false, false);
    SeamlessCorner(t, d, p, s, false, false, true);
    SeamlessCorner(t, d, p, s, false, true, false);
    SeamlessCorner(t, d, p, s, false, true, true);
    SeamlessCorner(t, d, p, s, true, false, false);
    SeamlessCorner(t, d, p, s, true, false, true);
    SeamlessCorner(t, d, p, s, true, true, false);
    SeamlessCorner(t, d, p, s, true, true, true);
  }

  // ----- and only there

  /** 1 at one grid point, 0 elsewhere, as complex data. */
  function Indicator(g: Grid, i: int, j: int, k: int): (d: Data)
    requires g.Valid()
    ensures d.Valid() && d.g == g
  {
    Data(UnitAt(g, i, j, k), seq(g.Size(), q => 0.0), g)
  }

  lemma IndicatorSample(g: Grid, i: int, j: int, k: int, i': int, j': int, k': int)
    requires g.Valid() && g.Has(i, j, k) && g.Has(i', j', k')
    ensures Sample(Indicator(g, i, j, k), i', j', k') == if i == i' && j == j' && k == k' then COne else CZero
  {
    hide Grid.Index, UnitAt;
    IndexInRange(g, i', j', k');
    UnitAtIs(g, i, j, k, i', j', k');
  }

  /** The indicator of one of the eight neighbours. */
  function CornerData(g: Grid, p: Point, cx: bool, cy: bool, cz: bool): (d: Data)
    requires g.Valid() && PointFits(g, p)
    ensures d.Valid() && d.g == g
  {
    Indicator(g, IndexOn(p.x, cx), IndexOn(p.y, cy), IndexOn(p.z, cz))
  }

  /** The output at v is the Bloch wave of the data. */
  predicate IsWave(t: Trig, d: Data, v: Vector3, s: Vector3, nearest: bool)
    requires d.Valid()
  {
    ComplexPoint(t, d, PointOf(d.g, v, true, nearest), s) == BlochWave(t, d, v, s, nearest)
  }

  lemma CancelUnit(z: Complex, w: Complex, u: Complex)
    requires u.IsUnit()
    ensures z.Times(u) == w.Times(u) <==> z == w
  {
    hide Complex.Times, Complex.NormSqr;
    ConjTimes(u);
    TimesAssociates(z, u, u.Conj());
    TimesAssociates(w, u, u.Conj());
    TimesOne(z);
    TimesOne(w);
  }

  /** The common phase does not matter: the sums with and without seams have to agree. */
  lemma WaveIff(t: Trig, d: Data, v: Vector3, s: Vector3, nearest: bool)
    requires d.Valid() && Trigonometric(t)
    ensures var p := PointOf(d.g, v, false, nearest);
            IsWave(t, d, v, s, nearest) <==> SeamTerms(t, d, p, s).Total() == PlainTerms(d, p).Total()
  {
    hide SeamTerms, PlainTerms, Complex.Times, PointOf, CellPhase, Cis, ComplexPoint, PeriodicPart, Eight.Total;
    var p := PointOf(d.g, v, false, nearest);
    MultipliedPoint(t, d, v, s, nearest);
    PeriodicIsPlain(d, v, nearest);
    assert Cis(t, CellPhase(s, v.x, v.y, v.z)).IsUnit();
    CancelUnit(SeamTerms(t, d, p, s).Total(), PlainTerms(d, p).Total(), Cis(t, CellPhase(s, v.x, v.y, v.z)));
  }

  // ----- for the indicator of a neighbour the sum is a product over the axes

  /** The phase and the weight of one neighbour on one axis. */
  function Weighed(t: Trig, a: Axis, sa: real, upper: bool): Complex { Scaled(Cis(t, Part(WrapOn(a, upper), sa)), WeightOn(a, upper)) }

  /** One neighbour on one axis, where the indicator stands at neighbour c. */
  function Piece(t: Trig, a: Axis, sa: real, c: bool, upper: bool): Complex {
    if IndexOn(a, upper) == IndexOn(a, c) then Weighed(t, a, sa, upper) else CZero
  }

  /** Both neighbours on one axis; the same sample twice where the axis has one point. */
  function Pair(t: Trig, a: Axis, sa: real, c: bool): Complex { Piece(t, a, sa, c, false).Plus(Piece(t, a, sa, c, true)) }

  function Triple(x: Complex, y: Complex, z: Complex): Complex { x.Times(y).Times(z) }

  lemma ScaledTriple(x: Complex, y: Complex, z: Complex, a: real, b: real, c: real, ab: real, abc: real)
    requires ab == a * b && abc == ab * c
    ensures Scaled(COne, abc).Times(Triple(x, y, z)) == Triple(Scaled(x, a), Scaled(y, b), Scaled(z, c))
  {
    hide Complex.Times, Scaled;
    ScaledTimes(COne, Triple(x, y, z), abc);
    TimesOne(Triple(x, y, z));
    ScaledBoth(x, y, a, b, ab);
    ScaledBoth(x.Times(y), z, ab, c, abc);
  }

  lemma ScaledBoth(x: Complex, y: Complex, a: real, b: real, ab: real)
    requires ab == a * b
    ensures Scaled(x.Times(y), ab) == Scaled(x, a).Times(Scaled(y, b))
  {
    hide Complex.Times, Scaled;
    ScaledTimes(x, y, a);
    TimesCommutes(Scaled(x, a), y);
    ScaledTimes(y, Scaled(x, a), b);
    TimesCommutes(Scaled(y, b), Scaled(x, a));
    ScaledTwice(x.Times(y), a, b, ab);
  }

  lemma ScaledTwice(z: Complex, a: real, b: real, ab: real)
    requires ab == a * b
    ensures Scaled(Scaled(z, a), b) == Scaled(z, ab)
  {
  }

  lemma ScaledZero(w: real)
    ensures Scaled(CZero, w) == CZero
  {
  }

  lemma TripleZero(x: Complex, y: Complex, z: Complex)
    ensures Triple(CZero, y, z) == Triple(x, CZero, z) == Triple(x, y, CZero) == CZero
  {
  }

  lemma TermIsProduct(t: Trig, g: Grid, p: Point, s: Vector3, cx: bool, cy: bool, cz: bool, ux: bool, uy: bool, uz: bool)
    requires g.Valid() && PointFits(g, p) && Trigonometric(t)
    ensures SeamTerm(t, CornerData(g, p, cx, cy, cz), p, s, ux, uy, uz)
         == Triple(Piece(t, p.x, s.x, cx, ux), Piece(t, p.y, s.y, cy, uy), Piece(t, p.z, s.z, cz, uz))
  {
    hide Scaled, Sample, Indicator, Triple, Complex.Times, Seam, Weight, Cis, Part, WeightOn, WrapOn, Homomorphic, Unitary;
    IndicatorSample(g, IndexOn(p.x, cx), IndexOn(p.y, cy), IndexOn(p.z, cz), IndexOn(p.x, ux), IndexOn(p.y, uy), IndexOn(p.z, uz));
    WeightedSeam(t, p, s, ux, uy, uz);
    ScaledZero(Weight(p, ux, uy, uz));
    ZeroTimes(Seam(t, p, s, ux, uy, uz));
    TripleZero(Piece(t, p.x, s.x, cx, ux), Piece(t, p.y, s.y, cy, uy), Piece(t, p.z, s.z, cz, uz));
  }

  lemma WeightedSeam(t: Trig, p: Point, s: Vector3, ux: bool, uy: bool, uz: bool)
    requires Homomorphic(t)
    ensures Scaled(COne, Weight(p, ux, uy, uz)).Times(Seam(t, p, s, ux, uy, uz))
         == Triple(Weighed(t, p.x, s.x, ux), Weighed(t, p.y, s.y, uy), Weighed(t, p.z, s.z, uz))
  {
    hide Scaled, Triple, Complex.Times, Seam, Cis, Part, WeightOn, WrapOn, Homomorphic;
    SeamIsTriple(t, p, s, ux, uy, uz);
    var a, b, c := WeightOn(p.x, ux), WeightOn(p.y, uy), WeightOn(p.z, uz);
    ScaledTriple(Cis(t, Part(WrapOn(p.x, ux), s.x)), Cis(t, Part(WrapOn(p.y, uy), s.y)), Cis(t, Part(WrapOn(p.z, uz), s.z)),
                 a, b, c, a * b, Weight(p, ux, uy, uz));
  }

  lemma SeamIsTriple(t: Trig, p: Point, s: Vector3, ux: bool, uy: bool, uz: bool)
    requires Homomorphic(t)
    ensures Seam(t, p, s, ux, uy, uz)
         == Triple(Cis(t, Part(WrapOn(p.x, ux), s.x)), Cis(t, Part(WrapOn(p.y, uy), s.y)), Cis(t, Part(WrapOn(p.z, uz), s.z)))
  {
    hide CellPhase, Cis, Part, WrapOn, Complex.Times, Homomorphic;
    SeamIsProduct(t, s, WrapOn(p.x, ux), WrapOn(p.y, uy), WrapOn(p.z, uz));
  }

  function TripleTerms(a: Complex, b: Complex, c: Complex, d: Complex, e: Complex, f: Complex): Eight {
    Eight(Triple(a, c, e), Triple(a, c, f), Triple(a, d, e), Triple(a, d, f),
          Triple(b, c, e), Triple(b, c, f), Triple(b, d, e), Triple(b, d, f))
  }

  lemma TripleSum(a: Complex, b: Complex, c: Complex, d: Complex, e: Complex, f: Complex)
    ensures TripleTerms(a, b, c, d, e, f).Total() == Triple(a.Plus(b), c.Plus(d), e.Plus(f))
  {
    hide Complex.Times, Eight.Total;
    PlusTimes(a, b, c.Plus(d));
    TimesDistributes(a, c, d);
    TimesDistributes(b, c, d);
    var ac, ad, bc, bd := a.Times(c), a.Times(d), b.Times(c), b.Times(d);
    FourTimes(ac, ad, bc, bd, e, f);
    TotalOf(TripleTerms(a, b, c, d, e, f));
  }

  lemma TotalOf(x: Eight)
    ensures x.Total() == x.a.Plus(x.b).Plus(x.c.Plus(x.d)).Plus(x.e.Plus(x.f).Plus(x.g.Plus(x.h)))
  {
  }

  lemma FourTimes(p: Complex, q: Complex, r: Complex, u: Complex, e: Complex, f: Complex)
    ensures p.Plus(q).Plus(r.Plus(u)).Times(e.Plus(f))
         == p.Times(e).Plus(p.Times(f)).Plus(q.Times(e).Plus(q.Times(f)))
             .Plus(r.Times(e).Plus(r.Times(f)).Plus(u.Times(e).Plus(u.Times(f))))
  {
    hide Complex.Times, Complex.Plus;
    var z := e.Plus(f);
    PlusTimes(p.Plus(q), r.Plus(u), z);
    PlusTimes(p, q, z);
    PlusTimes(r, u, z);
    TimesDistributes(p, e, f);
    TimesDistributes(q, e, f);
    TimesDistributes(r, e, f);
    TimesDistributes(u, e, f);
  }

  lemma SeamsAreProduct(t: Trig, g: Grid, p: Point, s: Vector3, cx: bool, cy: bool, cz: bool)
    requires g.Valid() && PointFits(g, p) && Trigonometric(t)
    ensures SeamTerms(t, CornerData(g, p, cx, cy, cz), p, s).Total()
         == Triple(Pair(t, p.x, s.x, cx), Pair(t, p.y, s.y, cy), Pair(t, p.z, s.z, cz))
  {
    hide SeamTerm, CornerData, Triple, Piece, PointFits, Trigonometric, Eight.Total, Complex.Plus;
    TermIsProduct(t, g, p, s, cx, cy, cz, false, false, false);
    TermIsProduct(t, g, p, s, cx, cy, cz, false, false, true);
    TermIsProduct(t, g, p, s, cx, cy, cz, false, true, false);
    TermIsProduct(t, g, p, s, cx, cy, cz, false, true, true);
    TermIsProduct(t, g, p, s, cx, cy, cz, true, false, false);
    TermIsProduct(t, g, p, s, cx, cy, cz, true, false, true);
    TermIsProduct(t, g, p, s, cx, cy, cz, true, true, false);
    TermIsProduct(t, g, p, s, cx, cy, cz, true, true, true);
    TripleSum(Piece(t, p.x, s.x, cx, false), Piece(t, p.x, s.x, cx, true), Piece(t, p.y, s.y, cy, false),
              Piece(t, p.y, s.y, cy, true), Piece(t, p.z, s.z, cz, false), Piece(t, p.z, s.z, cz, true));
  }

  lemma SeamAtZero(t: Trig, d: Data, p: Point, ux: bool, uy: bool, uz: bool)
    requires d.Valid() && PointFits(d.g, p) && Trigonometric(t)
    ensures SeamTerm(t, d, p, Zero3, ux, uy, uz) == Plain(d, p, ux, uy, uz)
  {
    hide Plain, Complex.Times, WrapOn;
    assert CellPhase(Zero3, WrapOn(p.x, ux), WrapOn(p.y, uy), WrapOn(p.z, uz)) == 0.0;
    TimesOne(Plain(d, p, ux, uy, uz));
  }

  /** The periodic part is the sum with the seams of a zero Bloch vector. */
  lemma PlainAreSeams(t: Trig, d: Data, p: Point)
    requires d.Valid() && PointFits(d.g, p) && Trigonometric(t)
    ensures SeamTerms(t, d, p, Zero3).Total() == PlainTerms(d, p).Total()
  {
    hide Plain, SeamTerm, Trigonometric, PointFits, Eight.Total;
    SeamAtZero(t, d, p, false, false, false);
    SeamAtZero(t, d, p, false, false, true);
    SeamAtZero(t, d, p, false, true, false);
    SeamAtZero(t, d, p, false, true, true);
    SeamAtZero(t, d, p, true, false, false);
    SeamAtZero(t, d, p, true, false, true);
    SeamAtZero(t, d, p, true, true, false);
    SeamAtZero(t, d, p, true, true, true);
  }

  /** The seams leave the sum for the indicator of one corner alone. */
  ghost predicate Agrees(t: Trig, p: Point, s: Vector3, cx: bool, cy: bool, cz: bool) {
    Triple(Pair(t, p.x, s.x, cx), Pair(t, p.y, s.y, cy), Pair(t, p.z, s.z, cz))
    == Triple(Pair(t, p.x, 0.0, cx), Pair(t, p.y, 0.0, cy), Pair(t, p.z, 0.0, cz))
  }

  lemma CornerShows(t: Trig, g: Grid, v: Vector3, s: Vector3, nearest: bool, cx: bool, cy: bool, cz: bool)
    requires g.Valid() && Trigonometric(t)
    requires IsWave(t, CornerData(g, PointOf(g, v, false, nearest), cx, cy, cz), v, s, nearest)
    ensures Agrees(t, PointOf(g, v, false, nearest), s, cx, cy, cz)
  {
    hide SeamTerms, PlainTerms, CornerData, Triple, Pair, PointOf, IsWave, Trigonometric, Eight.Total;
    var p := PointOf(g, v, false, nearest);
    var d := CornerData(g, p, cx, cy, cz);
    WaveIff(t, d, v, s, nearest);
    PlainAreSeams(t, d, p);
    SeamsAreProduct(t, g, p, s, cx, cy, cz);
    SeamsAreProduct(t, g, p, Zero3, cx, cy, cz);
  }

  // ----- one axis

  /** An axis of map_data without pick_nearest. */
  predicate Interpolating(a: Axis) { 0.0 <= a.d < 1.0 }

  /** Without seams the pair is the weight of its sample. */
  lemma PlainPair(t: Trig, a: Axis, c: bool)
    requires Trigonometric(t)
    ensures Pair(t, a, 0.0, c) == Complex(if a.i1 == a.i2 then 1.0 else WeightOn(a, c), 0.0)
  {
    hide Homomorphic, Unitary;
    assert Part(WrapOn(a, false), 0.0) == 0.0 && Part(WrapOn(a, true), 0.0) == 0.0;
    assert Cis(t, 0.0) == COne;
  }

  /** On an axis of two samples the pair is the chosen one with its phase. */
  lemma DistinctPair(t: Trig, a: Axis, sa: real, c: bool)
    requires a.i1 != a.i2
    ensures Pair(t, a, sa, c) == Scaled(Cis(t, Part(WrapOn(a, c), sa)), WeightOn(a, c))
  {
    hide Scaled;
  }

  /** On an axis of one sample it is (1-d) + d*u with the phase u of the upper neighbour. */
  lemma SinglePair(t: Trig, a: Axis, sa: real, c: bool)
    requires Trigonometric(t) && a.i1 == a.i2
    ensures Pair(t, a, sa, c) == Mixed(a.d, Cis(t, sa))
  {
    hide Homomorphic, Unitary;
    assert WrapOn(a, false) == 0.0 && WrapOn(a, true) == 1.0;
    assert Part(0.0, sa) == 0.0 && Part(1.0, sa) == sa;
    assert Cis(t, 0.0) == COne;
    assert Scaled(COne, 1.0 - a.d) == Complex(1.0 - a.d, 0.0);
  }

  function Mixed(d: real, u: Complex): Complex { Complex(1.0 - d, 0.0).Plus(Scaled(u, d)) }

  /** Its square is 1 - 2*d*(1-d)*(1-re u). */
  lemma MixedNorm(d: real, u: Complex)
    requires u.IsUnit() && 0.0 <= d < 1.0
    ensures Mixed(d, u).NormSqr() <= 1.0
    ensures Mixed(d, u).NormSqr() == 1.0 ==> d == 0.0 || u == COne
  {
    hide Complex.NormSqr;
    var a, b := u.re, u.im;
    TimesComponents(u, u, a, b, a, b);
    var m := Mixed(d, u);
    TimesComponents(m, m, 1.0 - d + a * d, b * d, 1.0 - d + a * d, b * d);
    SquareSign(b, b * b);
    UnitPart(a, b);
    var e := d * (1.0 - d);
    ProductSign(d, 1.0 - d, e);
    assert m.NormSqr() == 1.0 - 2.0 * (e * (1.0 - a)) by { MixedSquares(d, a, b, e); }
    ProductSign(e, 1.0 - a, e * (1.0 - a));
  }

  lemma UnitPart(a: real, b: real)
    requires a * a + b * b == 1.0
    ensures a <= 1.0 && (a == 1.0 ==> b == 0.0)
  {
    SquareSign(b, b * b);
    if a > 1.0 {
      ProductSign(a - 1.0, a + 1.0, (a - 1.0) * (a + 1.0));
    }
  }

  lemma MixedSquares(d: real, a: real, b: real, e: real)
    requires a * a + b * b == 1.0 && e == d * (1.0 - d)
    ensures (1.0 - d + a * d) * (1.0 - d + a * d) + (b * d) * (b * d) == 1.0 - 2.0 * (e * (1.0 - a))
  {
    var dd := d * d;
    assert (1.0 - d + a * d) * (1.0 - d + a * d) == (1.0 - d) * (1.0 - d) + 2.0 * a * e + a * a * dd;
    assert (b * d) * (b * d) == b * b * dd;
    assert a * a * dd + b * b * dd == (a * a + b * b) * dd;
    assert e == d - dd;
  }

  lemma ScaledNorm(u: Complex, w: real)
    requires u.IsUnit()
    ensures Scaled(u, w).NormSqr() == w * w
  {
    var a, b := u.re, u.im;
    assert (a * w) * (a * w) + (b * w) * (b * w) == (a * a + b * b) * (w * w);
  }

  lemma RealNorm(w: real)
    ensures Complex(w, 0.0).NormSqr() == w * w
  {
  }

  /** Seams never make a pair larger, and one sample keeps its size only without a weighted seam. */
  lemma PairNorm(t: Trig, a: Axis, sa: real, c: bool)
    requires Trigonometric(t) && Interpolating(a)
    ensures Pair(t, a, sa, c).NormSqr() <= Pair(t, a, 0.0, c).NormSqr()
    ensures a.i1 == a.i2 && Pair(t, a, sa, c).NormSqr() == Pair(t, a, 0.0, c).NormSqr() ==> Seamless(t, a, sa)
  {
    hide Complex.NormSqr, Pair, Mixed, Cis, Part, Scaled, Homomorphic;
    PlainPair(t, a, c);
    if a.i1 == a.i2 {
      assert Cis(t, sa).IsUnit();
      SinglePair(t, a, sa, c);
      MixedNorm(a.d, Cis(t, sa));
      RealNorm(1.0);
    } else {
      assert Cis(t, Part(WrapOn(a, c), sa)).IsUnit();
      DistinctPair(t, a, sa, c);
      ScaledNorm(Cis(t, Part(WrapOn(a, c), sa)), WeightOn(a, c));
      RealNorm(WeightOn(a, c));
    }
  }

  /** The pair of the lower neighbour is seamless if it keeps its size. */
  lemma LowerPair(t: Trig, a: Axis, sa: real)
    requires Trigonometric(t) && Interpolating(a)
    requires Pair(t, a, sa, false).NormSqr() == Pair(t, a, 0.0, false).NormSqr()
    ensures Pair(t, a, sa, false) == Pair(t, a, 0.0, false)
  {
    hide Complex.NormSqr, Pair, Scaled, Mixed, Homomorphic, Unitary;
    PlainPair(t, a, false);
    if a.i1 == a.i2 {
      PairNorm(t, a, sa, false);
      SinglePair(t, a, sa, false);
      MixedSeamless(t, a, sa);
    } else {
      DistinctPair(t, a, sa, false);
      assert Part(WrapOn(a, false), sa) == 0.0;
      ScaledOne(WeightOn(a, false));
    }
  }

  lemma MixedSeamless(t: Trig, a: Axis, sa: real)
    requires a.i1 == a.i2 && Seamless(t, a, sa)
    ensures Mixed(a.d, Cis(t, sa)) == COne
  {
    var u := Cis(t, sa);
    assert a.d == 0.0 ==> Scaled(u, a.d) == CZero;
  }

  lemma ScaledOne(w: real)
    ensures Scaled(COne, w) == Complex(w, 0.0)
  {
  }

  /** The pair of the upper neighbour shows the seam. */
  lemma UpperPair(t: Trig, a: Axis, sa: real)
    requires Trigonometric(t) && Interpolating(a) && a.i1 != a.i2
    requires a.d != 0.0 ==> Pair(t, a, sa, true) == Pair(t, a, 0.0, true)
    ensures Seamless(t, a, sa)
  {
    hide Pair, Scaled, Homomorphic, Unitary;
    if a.d != 0.0 {
      PlainPair(t, a, true);
      DistinctPair(t, a, sa, true);
      var z := Cis(t, Part(WrapOn(a, true), sa));
      assert Scaled(z, a.d) == Complex(a.d, 0.0);
      ScaledIsReal(z, a.d);
    }
  }

  lemma ScaledIsReal(z: Complex, w: real)
    requires w != 0.0 && Scaled(z, w) == Complex(w, 0.0)
    ensures z == COne
  {
    CancelFactor(w, z.re, 1.0);
    CancelFactor(w, z.im, 0.0);
  }

  lemma CancelFactor(w: real, x: real, y: real)
    requires w != 0.0 && w * x == w * y
    ensures x == y
  {
    NonzeroProduct(w, x - y, w * (x - y));
  }

  // ----- three axes

  lemma TripleNorm(x: Complex, y: Complex, z: Complex)
    ensures Triple(x, y, z).NormSqr() == x.NormSqr() * y.NormSqr() * z.NormSqr()
  {
    hide Complex.NormSqr, Complex.Times;
    NormSqrTimes(x, y);
    NormSqrTimes(x.Times(y), z);
  }

  /** Factors that are no larger but have the same product are the same. */
  lemma SmallerFactors(a: real, b: real, c: real, p: real, q: real, r: real)
    requires 0.0 <= a <= p && 0.0 <= b <= q && 0.0 <= c <= r && p > 0.0 && q > 0.0 && r > 0.0
    requires a * b * c == p * q * r
    ensures a == p && b == q && c == r
  {
    var ab, pq := a * b, p * q;
    SmallerProduct(a, b, p, q, ab, pq);
    PositiveProduct(p, q);
    SmallerProduct(ab, c, pq, r, ab * c, pq * r);
  }

  lemma SmallerProduct(a: real, b: real, p: real, q: real, ab: real, pq: real)
    requires 0.0 <= a <= p && 0.0 <= b <= q && p > 0.0 && q > 0.0 && ab == a * b && pq == p * q
    ensures 0.0 <= ab <= pq
    ensures ab == pq ==> a == p && b == q
  {
    var u, v := (p - a) * q, a * (q - b);
    assert pq - ab == u + v;
    ProductSign(a, b, ab);
    ProductSign(p - a, q, u);
    ProductSign(a, q - b, v);
  }

  /** Equal products of three with two equal nonzero factors have equal third factors. */
  lemma CancelPair(x: Complex, y: Complex, u: Complex, w: Complex)
    requires u != CZero && w != CZero
    ensures Triple(x, u, w) == Triple(y, u, w) ==> x == y
    ensures Triple(u, x, w) == Triple(u, y, w) ==> x == y
    ensures Triple(u, w, x) == Triple(u, w, y) ==> x == y
  {
    hide Complex.Times;
    TimesAssociates(x, u, w);
    TimesAssociates(y, u, w);
    TimesCommutes(u, x);
    TimesCommutes(u, y);
    TimesCommutes(u.Times(w), x);
    TimesCommutes(u.Times(w), y);
    NonzeroTimes(u, w);
    if x.Times(u.Times(w)) == y.Times(u.Times(w)) {
      CancelNonzero(x, y, u.Times(w));
    }
  }

  lemma NonzeroTimes(u: Complex, w: Complex)
    requires u != CZero && w != CZero
    ensures u.Times(w) != CZero
  {
    hide Complex.Times, Complex.NormSqr;
    NormSqrTimes(u, w);
    NormSqrSign(u);
    NormSqrSign(w);
    NormSqrSign(u.Times(w));
    NonzeroProduct(u.NormSqr(), w.NormSqr(), u.NormSqr() * w.NormSqr());
  }

  lemma CancelNonzero(x: Complex, y: Complex, u: Complex)
    requires u != CZero && x.Times(u) == y.Times(u)
    ensures x == y
  {
    hide Complex.Times, Complex.NormSqr;
    ConjTimes(u);
    TimesAssociates(x, u, u.Conj());
    TimesAssociates(y, u, u.Conj());
    NormSqrSign(u);
    var n := u.NormSqr();
    TimesComponents(x, Complex(n, 0.0), x.re, x.im, n, 0.0);
    TimesComponents(y, Complex(n, 0.0), y.re, y.im, n, 0.0);
    CancelFactor(n, x.re, y.re);
    CancelFactor(n, x.im, y.im);
  }

  lemma AxisInterpolates(x: real, n: nat)
    requires n >= 1
    ensures Interpolating(AxisOf(x, n, false, false))
  {
    AxisInRange(x, n, false, false);
  }

  lemma PairPositive(t: Trig, a: Axis, c: bool)
    requires Trigonometric(t) && Interpolating(a) && (c ==> a.d != 0.0)
    ensures Pair(t, a, 0.0, c) != CZero && Pair(t, a, 0.0, c).NormSqr() > 0.0
  {
    hide Complex.NormSqr, Pair;
    PlainPair(t, a, c);
    NormSqrSign(Pair(t, a, 0.0, c));
  }

  lemma PairNonnegative(t: Trig, a: Axis, sa: real, c: bool)
    ensures Pair(t, a, sa, c).NormSqr() >= 0.0
  {
    NormSqrSign(Pair(t, a, sa, c));
  }

  /** If the lower corner agrees, each axis agrees. */
  lemma LowerCorner(t: Trig, p: Point, s: Vector3)
    requires Trigonometric(t) && Interpolating(p.x) && Interpolating(p.y) && Interpolating(p.z)
    requires Agrees(t, p, s, false, false, false)
    ensures Pair(t, p.x, s.x, false).NormSqr() == Pair(t, p.x, 0.0, false).NormSqr()
    ensures Pair(t, p.y, s.y, false).NormSqr() == Pair(t, p.y, 0.0, false).NormSqr()
    ensures Pair(t, p.z, s.z, false).NormSqr() == Pair(t, p.z, 0.0, false).NormSqr()
  {
    hide Complex.NormSqr, Pair, Triple, Seamless, Trigonometric, Interpolating;
    TripleNorm(Pair(t, p.x, s.x, false), Pair(t, p.y, s.y, false), Pair(t, p.z, s.z, false));
    TripleNorm(Pair(t, p.x, 0.0, false), Pair(t, p.y, 0.0, false), Pair(t, p.z, 0.0, false));
    PairNorm(t, p.x, s.x, false);
    PairNorm(t, p.y, s.y, false);
    PairNorm(t, p.z, s.z, false);
    PairPositive(t, p.x, false);
    PairPositive(t, p.y, false);
    PairPositive(t, p.z, false);
    PairNonnegative(t, p.x, s.x, false);
    PairNonnegative(t, p.y, s.y, false);
    PairNonnegative(t, p.z, s.z, false);
    SmallerFactors(Pair(t, p.x, s.x, false).NormSqr(), Pair(t, p.y, s.y, false).NormSqr(), Pair(t, p.z, s.z, false).NormSqr(),
                   Pair(t, p.x, 0.0, false).NormSqr(), Pair(t, p.y, 0.0, false).NormSqr(), Pair(t, p.z, 0.0, false).NormSqr());
  }

  lemma SeamlessAxis(t: Trig, a: Axis, sa: real)
    requires Trigonometric(t) && Interpolating(a)
    requires Pair(t, a, sa, false).NormSqr() == Pair(t, a, 0.0, false).NormSqr()
    requires a.d != 0.0 ==> Pair(t, a, sa, true) == Pair(t, a, 0.0, true)
    ensures Seamless(t, a, sa)
  {
    hide Complex.NormSqr, Pair, Seamless, Trigonometric;
    if a.i1 == a.i2 {
      PairNorm(t, a, sa, false);
    } else {
      UpperPair(t, a, sa);
    }
  }

  lemma AgreeingIsSeamless(t: Trig, p: Point, s: Vector3)
    requires Trigonometric(t) && Interpolating(p.x) && Interpolating(p.y) && Interpolating(p.z)
    requires Agrees(t, p, s, false, false, false)
    requires Agrees(t, p, s, true, false, false) && Agrees(t, p, s, false, true, false) && Agrees(t, p, s, false, false, true)
    ensures Seamless(t, p.x, s.x) && Seamless(t, p.y, s.y) && Seamless(t, p.z, s.z)
  {
    hide Complex.NormSqr, Pair, Triple, Seamless, Trigonometric, Interpolating;
    LowerCorner(t, p, s);
    LowerPair(t, p.x, s.x);
    LowerPair(t, p.y, s.y);
    LowerPair(t, p.z, s.z);
    PairPositive(t, p.x, false);
    PairPositive(t, p.y, false);
    PairPositive(t, p.z, false);
    CancelPair(Pair(t, p.x, s.x, true), Pair(t, p.x, 0.0, true), Pair(t, p.y, 0.0, false), Pair(t, p.z, 0.0, false));
    CancelPair(Pair(t, p.y, s.y, true), Pair(t, p.y, 0.0, true), Pair(t, p.x, 0.0, false), Pair(t, p.z, 0.0, false));
    CancelPair(Pair(t, p.z, s.z, true), Pair(t, p.z, 0.0, true), Pair(t, p.x, 0.0, false), Pair(t, p.y, 0.0, false));
    SeamlessAxis(t, p.x, s.x);
    SeamlessAxis(t, p.y, s.y);
    SeamlessAxis(t, p.z, s.z);
  }

  ghost predicate AllWaves(t: Trig, g: Grid, v: Vector3, s: Vector3, nearest: bool) {
    forall d: Data :: d.Valid() && d.g == g ==> IsWave(t, d, v, s, nearest)
  }

  /** Exactly when the output is the Bloch wave for all data on the grid: on every axis the neighbour
      in the next cell has no weight, or the phase of a cell is one. An axis of one point, both of
      whose neighbours are the same sample, is no exception. */
  lemma MultiplyIff(t: Trig, g: Grid, v: Vector3, s: Vector3)
    requires g.Valid() && Trigonometric(t)
    ensures AllWaves(t, g, v, s, false)
            <==> var p := PointOf(g, v, false, false); Seamless(t, p.x, s.x) && Seamless(t, p.y, s.y) && Seamless(t, p.z, s.z)
  {
    hide AxisOf, CornerData, ComplexPoint, BlochWave, Pair, Triple, Seamless, Trigonometric, Interpolating;
    var p := PointOf(g, v, false, false);
    if Seamless(t, p.x, s.x) && Seamless(t, p.y, s.y) && Seamless(t, p.z, s.z) {
      forall d: Data | d.Valid() && d.g == g ensures IsWave(t, d, v, s, false) {
        SeamlessIsBlochWave(t, d, v, s, false);
      }
    }
    if AllWaves(t, g, v, s, false) {
      AxisInterpolates(v.x, g.n0);
      AxisInterpolates(v.y, g.n1);
      AxisInterpolates(v.z, g.n2);
      CornerShows(t, g, v, s, false, false, false, false);
      CornerShows(t, g, v, s, false, true, false, false);
      CornerShows(t, g, v, s, false, false, true, false);
      CornerShows(t, g, v, s, false, false, false, true);
      AgreeingIsSeamless(t, p, s);
    }
  }

  /** An input where it fails: four points and x = 7/8, half-way between the last point and the
      first one of the next cell, with any phase of a cell other than one. */
  lemma SeamShows(t: Trig, s: Vector3)
    requires Trigonometric(t) && Cis(t, s.x) != COne
    ensures exists d: Data :: d.Valid() && d.g == Grid(4, 1, 1) && !IsWave(t, d, Vector3(0.875, 0.0, 0.0), s, false)
  {
    hide Trigonometric, IsWave, Cis;
    var g, v := Grid(4, 1, 1), Vector3(0.875, 0.0, 0.0);
    ModfIsFloor(0.875);
    assert AxisOf(0.875, 4, false, false) == Axis(3, 0, 0.0, 1.0, 0.5);
    MultiplyIff(t, g, v, s);
  }

  // ----- pick_nearest

  /** The neighbour that pick_nearest keeps, with weight one. */
  predicate Picked(a: Axis, c: bool) { WeightOn(a, c) == 1.0 && WeightOn(a, !c) == 0.0 }

  lemma AxisPicks(x: real, n: nat)
    requires n >= 1
    ensures var a := AxisOf(x, n, false, true); Picked(a, a.d == 1.0)
  {
    AxisInRange(x, n, false, true);
  }

  lemma PickedPair(t: Trig, a: Axis, sa: real, c: bool)
    requires Trigonometric(t) && Picked(a, c)
    ensures Pair(t, a, sa, c) == Cis(t, Part(WrapOn(a, c), sa)) && Pair(t, a, 0.0, c) == COne
  {
    hide Homomorphic, Unitary, Part, Cis, Scaled;
    var y, z := Cis(t, Part(WrapOn(a, c), sa)), Cis(t, Part(WrapOn(a, !c), sa));
    PlainPair(t, a, c);
    ScaledByZero(z);
    ScaledByOne(y);
    PlusZero(y);
  }

  lemma ScaledByOne(z: Complex)
    ensures Scaled(z, 1.0) == z
  {
  }

  lemma PlusZero(z: Complex)
    ensures CZero.Plus(z) == z && z.Plus(CZero) == z
  {
  }

  lemma PickedCorner(t: Trig, d: Data, p: Point, s: Vector3, cx: bool, cy: bool, cz: bool, ux: bool, uy: bool, uz: bool)
    requires d.Valid() && PointFits(d.g, p) && Picked(p.x, cx) && Picked(p.y, cy) && Picked(p.z, cz)
    requires Seam(t, p, s, cx, cy, cz) == COne
    ensures SeamTerm(t, d, p, s, ux, uy, uz) == Plain(d, p, ux, uy, uz)
  {
    hide Sample, Weight, Complex.Times, Scaled, Seam, WeightOn;
    if ux == cx && uy == cy && uz == cz {
      TimesOne(Plain(d, p, ux, uy, uz));
    } else {
      WeightFactor(p, ux, uy, uz);
      ScaledByZero(Sample(d, IndexOn(p.x, ux), IndexOn(p.y, uy), IndexOn(p.z, uz)));
      ZeroTimes(Seam(t, p, s, ux, uy, uz));
    }
  }

  lemma PickedIsWave(t: Trig, d: Data, v: Vector3, s: Vector3, cx: bool, cy: bool, cz: bool)
    requires d.Valid() && Trigonometric(t)
    requires var p := PointOf(d.g, v, false, true);
             Picked(p.x, cx) && Picked(p.y, cy) && Picked(p.z, cz) && Seam(t, p, s, cx, cy, cz) == COne
    ensures IsWave(t, d, v, s, true)
  {
    hide SeamTerm, Plain, PointOf, Seam, Picked, Trigonometric, IsWave, Eight.Total;
    var p := PointOf(d.g, v, false, true);
    WaveIff(t, d, v, s, true);
    PickedCorner(t, d, p, s, cx, cy, cz, false, false, false);
    PickedCorner(t, d, p, s, cx, cy, cz, false, false, true);
    PickedCorner(t, d, p, s, cx, cy, cz, false, true, false);
    PickedCorner(t, d, p, s, cx, cy, cz, false, true, true);
    PickedCorner(t, d, p, s, cx, cy, cz, true, false, false);
    PickedCorner(t, d, p, s, cx, cy, cz, true, false, true);
    PickedCorner(t, d, p, s, cx, cy, cz, true, true, false);
    PickedCorner(t, d, p, s, cx, cy, cz, true, true, true);
  }

  /** With pick_nearest: exactly when the cells that the picked sample lies beyond have phase one. */
  lemma NearestIff(t: Trig, g: Grid, v: Vector3, s: Vector3)
    requires g.Valid() && Trigonometric(t)
    ensures AllWaves(t, g, v, s, true)
            <==> var p := PointOf(g, v, false, true); Seam(t, p, s, p.x.d == 1.0, p.y.d == 1.0, p.z.d == 1.0) == COne
  {
    hide AxisOf, CornerData, IsWave, Pair, Triple, Seam, Cis, Part, WrapOn, Picked, Trigonometric;
    var p := PointOf(g, v, false, true);
    var cx, cy, cz := p.x.d == 1.0, p.y.d == 1.0, p.z.d == 1.0;
    AxisPicks(v.x, g.n0);
    AxisPicks(v.y, g.n1);
    AxisPicks(v.z, g.n2);
    if Seam(t, p, s, cx, cy, cz) == COne {
      forall d: Data | d.Valid() && d.g == g ensures IsWave(t, d, v, s, true) {
        PickedIsWave(t, d, v, s, cx, cy, cz);
      }
    }
    if AllWaves(t, g, v, s, true) {
      CornerShows(t, g, v, s, true, cx, cy, cz);
      PickedSeam(t, p, s, cx, cy, cz);
    }
  }

  lemma PickedSeam(t: Trig, p: Point, s: Vector3, cx: bool, cy: bool, cz: bool)
    requires Trigonometric(t) && Picked(p.x, cx) && Picked(p.y, cy) && Picked(p.z, cz) && Agrees(t, p, s, cx, cy, cz)
    ensures Seam(t, p, s, cx, cy, cz) == COne
  {
    hide Pair, Complex.Times, Seam, Cis, Part, WrapOn, Picked, Homomorphic, Unitary;
    PickedPair(t, p.x, s.x, cx);
    PickedPair(t, p.y, s.y, cy);
    PickedPair(t, p.z, s.z, cz);
    SeamIsTriple(t, p, s, cx, cy, cz);
    TimesOne(COne);
  }

  /** An input where it fails: four points and x = 15/16, next to the first point of the next cell. */
  lemma NearestShows(t: Trig, s: Vector3)
    requires Trigonometric(t) && Cis(t, s.x) != COne
    ensures exists d: Data :: d.Valid() && d.g == Grid(4, 1, 1) && !IsWave(t, d, Vector3(0.9375, 0.0, 0.0), s, true)
  {
    hide Trigonometric, IsWave, Cis;
    var g, v := Grid(4, 1, 1), Vector3(0.9375, 0.0, 0.0);
    ModfIsFloor(0.9375);
    ModfIsFloor(0.0);
    assert AxisOf(0.9375, 4, false, true) == Axis(3, 0, 0.0, 1.0, 1.0);
    assert AxisOf(0.0, 1, false, true).d == 0.0;
    assert CellPhase(s, 1.0, 0.0, 0.0) == s.x;
    NearestIff(t, g, v, s);
  }
}
