/** What map_data interpolates (libpympb/pympb.cpp:2539-2681): the field of the unit cell continued to
    all cells by Bloch phases, read at the centred image of each output point. */
module BlochField {
  import opened Reals
  import opened Integers
  import opened Vectors
  import opened Complexes
  import opened ResampleAxis
  import opened Resample
  import opened MapData

  // ----- the source point

  /** A value times its weight. */
  function OneOver(n: nat): real
    requires n >= 1
  {
    1.0 / n as real
  }

  /** Position of index i among n, measured from the middle of the cell. */
  function FromMiddle(i: int, n: nat): real
    requires n >= 1
  {
    OneOver(n) * i as real - 0.5
  }

  lemma CentredTerm(a: real, r: real, i: real, n: real)
    requires r * n == 1.0
    ensures a * r * i - a * r * 0.5 * n == a * (r * i - 0.5)
  {
    assert a * r * 0.5 * n == a * 0.5 * (r * n);
    assert a * r * i == a * (r * i);
  }

  function Combination(a: real, b: real, e: real, v: Vector3): real { a * v.x + b * v.y + e * v.z }

  lemma ApplyIs(m: Matrix, v: Vector3)
    ensures m.Apply(v) == Vector3(Combination(m.c1.x, m.c2.x, m.c3.x, v), Combination(m.c1.y, m.c2.y, m.c3.y, v),
                                  Combination(m.c1.z, m.c2.z, m.c3.z, v))
  {
  }

  lemma StepRows(c: Call)
    requires c.out.Valid()
    ensures var m, r0, r1, r2 := c.coordMap, OneOver(c.out.n0), OneOver(c.out.n1), OneOver(c.out.n2);
            && StepMap(c).Row0() == Vector3(Part(m.c1.x, r0), Part(m.c2.x, r1), Part(m.c3.x, r2))
            && StepMap(c).Row1() == Vector3(Part(m.c1.y, r0), Part(m.c2.y, r1), Part(m.c3.y, r2))
            && StepMap(c).Row2() == Vector3(Part(m.c1.z, r0), Part(m.c2.z, r1), Part(m.c3.z, r2))
  {
  }

  lemma CentredCoordinate(a: real, b: real, e: real, row: Vector3, out: Grid, i: int, j: int, k: int)
    requires out.Valid()
    requires row == Vector3(Part(a, OneOver(out.n0)), Part(b, OneOver(out.n1)), Part(e, OneOver(out.n2)))
    ensures Coordinate(row, out, i, j, k)
         == Combination(a, b, e, Vector3(FromMiddle(i, out.n0), FromMiddle(j, out.n1), FromMiddle(k, out.n2))) + 0.5
  {
    CentredTerm(a, OneOver(out.n0), i as real, out.n0 as real);
    CentredTerm(b, OneOver(out.n1), j as real, out.n1 as real);
    CentredTerm(e, OneOver(out.n2), k as real, out.n2 as real);
  }

  /** The output cell is mapped by coord_map about its middle, and its middle to the middle of the
      unit cell. */
  lemma SourceIsCentred(c: Call, i: int, j: int, k: int)
    requires c.out.Valid()
    ensures SourcePoint(c, i, j, k)
         == c.coordMap.Apply(Vector3(FromMiddle(i, c.out.n0), FromMiddle(j, c.out.n1), FromMiddle(k, c.out.n2)))
            .Plus(Vector3(0.5, 0.5, 0.5))
  {
    hide Coordinate, FromMiddle, Combination, Matrix.Apply, StepMap, Part, OneOver;
    ApplyIs(c.coordMap, Vector3(FromMiddle(i, c.out.n0), FromMiddle(j, c.out.n1), FromMiddle(k, c.out.n2)));
    StepRows(c);
    var m, s := c.coordMap, StepMap(c);
    CentredCoordinate(m.c1.x, m.c2.x, m.c3.x, s.Row0(), c.out, i, j, k);
    CentredCoordinate(m.c1.y, m.c2.y, m.c3.y, s.Row1(), c.out, i, j, k);
    CentredCoordinate(m.c1.z, m.c2.z, m.c3.z, s.Row2(), c.out, i, j, k);
  }

  // ----- neighbours counted over all cells

  /** The last grid point at or below the coordinate, counted over all cells. */
  function Below(x: real, n: nat): int { OnGrid(x, n).Floor }

  /** Both neighbours are consecutive grid points of the continued grid, each with its own cell; the
      weight is the fraction of a grid step. */
  lemma NeighboursInCells(x: real, n: nat, nearest: bool)
    requires n >= 1
    ensures var a, q := AxisOf(x, n, false, nearest), Below(x, n);
            && a.i1 == q % n && a.xi == (q / n) as real
            && a.i2 == (q + 1) % n && a.xi2 == ((q + 1) / n) as real
            && (!nearest ==> a.d == OnGrid(x, n) - q as real)
  {
    hide OnGrid, Trunc, ModfPositive, AxisOf;
    AxisInRange(x, n, false, false);
    AxisInRange(x, n, false, nearest);
    var a, b, c := AxisOf(x, n, false, nearest), AxisOf(x, n, false, false), x.Floor;
    SameNeighbours(x, n, nearest);
    OnGridOfInt(c, n, b.xi);
    assert OnGrid(x, n) == (b.i1 + c * n) as real + b.d;
    assert Below(x, n) == b.i1 + c * n;
    DivisionIsUnique(n, c, b.i1, Below(x, n));
    var c2 := UpperCell(x, n);
    OnGridOfInt(c2, n, b.xi2);
    assert (b.i2 + c2 * n) as real == (Below(x, n) + 1) as real;
    DivisionIsUnique(n, c2, b.i2, Below(x, n) + 1);
  }

  /** pick_nearest changes the weight only. */
  lemma SameNeighbours(x: real, n: nat, nearest: bool)
    ensures var a, b := AxisOf(x, n, false, nearest), AxisOf(x, n, false, false);
            a.i1 == b.i1 && a.i2 == b.i2 && a.xi == b.xi && a.xi2 == b.xi2
  {
    hide OnGrid, Trunc, ModfPositive;
  }

  lemma UpperCell(x: real, n: nat) returns (c: int)
    requires n >= 1
    ensures AxisOf(x, n, false, false).xi2 == c as real
  {
    hide OnGrid, Trunc;
    ModfIsFloor(x);
    var xi2 := AxisOf(x, n, false, false).xi2;
    c := if xi2 == x.Floor as real then x.Floor else if xi2 == x.Floor as real + 1.0 then x.Floor + 1 else x.Floor - 1;
  }

  // ----- the continued field

  /** The field at any grid point of any cell: the sample of the unit cell times the cell's phase. */
  function Continued(t: Trig, d: Data, s: Vector3, i: int, j: int, k: int): Complex
    requires d.Valid()
  {
    Sample(d, i % d.g.n0, j % d.g.n1, k % d.g.n2)
      .Times(Cis(t, CellPhase(s, (i / d.g.n0) as real, (j / d.g.n1) as real, (k / d.g.n2) as real)))
  }

  function Scaled(z: Complex, w: real): Complex { Complex(Part(z.re, w), Part(z.im, w)) }

  function Up(upper: bool): int { if upper then 1 else 0 }

  lemma CornerContinues(t: Trig, d: Data, v: Vector3, s: Vector3, nearest: bool, ux: bool, uy: bool, uz: bool)
    requires d.Valid()
    ensures var p := PointOf(d.g, v, false, nearest);
            CornerTerm(t, d, p, s, ux, uy, uz)
            == Scaled(Continued(t, d, s, Below(v.x, d.g.n0) + Up(ux), Below(v.y, d.g.n1) + Up(uy), Below(v.z, d.g.n2) + Up(uz)),
                      Weight(p, ux, uy, uz))
  {
    hide AxisOf, Sample, CellPhase, Complex.Times, Weight, Below;
    NeighboursInCells(v.x, d.g.n0, nearest);
    NeighboursInCells(v.y, d.g.n1, nearest);
    NeighboursInCells(v.z, d.g.n2, nearest);
  }

  /** One corner of the interpolation of the continued field. */
  function Corner(t: Trig, d: Data, s: Vector3, v: Vector3, w: real, ux: bool, uy: bool, uz: bool): Complex
    requires d.Valid()
  {
    Scaled(Continued(t, d, s, Below(v.x, d.g.n0) + Up(ux), Below(v.y, d.g.n1) + Up(uy), Below(v.z, d.g.n2) + Up(uz)), w)
  }

  /** map_data without multiply_bloch_phase is the trilinear interpolation of the continued field. */
  lemma InterpolatesContinued(t: Trig, d: Data, v: Vector3, s: Vector3, nearest: bool)
    requires d.Valid()
    ensures var p := PointOf(d.g, v, false, nearest);
            ComplexPoint(t, d, p, s)
            == CZero.Plus(Corner(t, d, s, v, Weight(p, false, false, false), false, false, false))
                    .Plus(Corner(t, d, s, v, Weight(p, false, false, true), false, false, true))
                    .Plus(Corner(t, d, s, v, Weight(p, false, true, false), false, true, false))
                    .Plus(Corner(t, d, s, v, Weight(p, false, true, true), false, true, true))
                    .Plus(Corner(t, d, s, v, Weight(p, true, false, false), true, false, false))
                    .Plus(Corner(t, d, s, v, Weight(p, true, false, true), true, false, true))
                    .Plus(Corner(t, d, s, v, Weight(p, true, true, false), true, true, false))
                    .Plus(Corner(t, d, s, v, Weight(p, true, true, true), true, true, true))
  {
    hide CornerTerm, Continued, Weight, Complex.Plus, PointOf, Scaled;
    CornerContinues(t, d, v, s, nearest, false, false, false);
    CornerContinues(t, d, v, s, nearest, false, false, true);
    CornerContinues(t, d, v, s, nearest, false, true, false);
    CornerContinues(t, d, v, s, nearest, false, true, true);
    CornerContinues(t, d, v, s, nearest, true, false, false);
    CornerContinues(t, d, v, s, nearest, true, false, true);
    CornerContinues(t, d, v, s, nearest, true, true, false);
    CornerContinues(t, d, v, s, nearest, true, true, true);
  }

  // ----- real and imaginary parts without phases

  lemma PlainCorner(t: Trig, d: Data, p: Point, ux: bool, uy: bool, uz: bool)
    requires d.Valid() && PointFits(d.g, p) && t.cos(0.0) == 1.0 && t.sin(0.0) == 0.0
    ensures CornerTerm(t, d, p, Zero3, ux, uy, uz)
         == Scaled(Sample(d, IndexOn(p.x, ux), IndexOn(p.y, uy), IndexOn(p.z, uz)), Weight(p, ux, uy, uz))
  {
    hide Sample, Weight, Complex.Times;
    assert PhaseOf(p, Zero3, ux, uy, uz) == 0.0;
    TimesOne(Sample(d, IndexOn(p.x, ux), IndexOn(p.y, uy), IndexOn(p.z, uz)));
  }

  function Product4(a: real, x: real, y: real, z: real): real { a * x * y * z }

  lemma WeightFactors(p: Point, ux: bool, uy: bool, uz: bool, a: real)
    ensures Part(a, Weight(p, ux, uy, uz)) == Product4(a, WeightOn(p.x, ux), WeightOn(p.y, uy), WeightOn(p.z, uz))
  {
    var x, y, z := WeightOn(p.x, ux), WeightOn(p.y, uy), WeightOn(p.z, uz);
    assert a * (x * y * z) == a * x * y * z;
  }

  lemma OctetProducts(c: Corners, x: real, y: real, z: real)
    ensures Octet(c, x, y, z)
         == Product4(c.c000, 1.0 - x, 1.0 - y, 1.0 - z) + Product4(c.c001, 1.0 - x, 1.0 - y, z)
          + Product4(c.c010, 1.0 - x, y, 1.0 - z) + Product4(c.c011, 1.0 - x, y, z)
          + Product4(c.c100, x, 1.0 - y, 1.0 - z) + Product4(c.c101, x, 1.0 - y, z)
          + Product4(c.c110, x, y, 1.0 - z) + Product4(c.c111, x, y, z)
  {
  }

  /** Without a Bloch vector the complex sum is the real one for each part. */
  lemma ComplexIsTwoReals(t: Trig, d: Data, v: Vector3, bloch: bool, nearest: bool)
    requires d.Valid() && t.cos(0.0) == 1.0 && t.sin(0.0) == 0.0
    ensures ComplexPoint(t, d, PointOf(d.g, v, bloch, nearest), Zero3)
         == Complex(RealPoint(d.re, d.g, v, bloch, nearest), RealPoint(d.im, d.g, v, bloch, nearest))
  {
    hide AxisOf, CornerTerm, At, Weight, Octet;
    var p := PointOf(d.g, v, bloch, nearest);
    AxisFits(v.x, d.g.n0, bloch, nearest);
    AxisFits(v.y, d.g.n1, bloch, nearest);
    AxisFits(v.z, d.g.n2, bloch, nearest);
    PlainSum(t, d, p);
    WeightedSum(p, CornersOf(d.re, d.g, p.x, p.y, p.z));
    WeightedSum(p, CornersOf(d.im, d.g, p.x, p.y, p.z));
  }

  /** The eight corners with their weights. */
  function Weighted(c: Corners, p: Point): real {
    Part(c.c000, Weight(p, false, false, false)) + Part(c.c001, Weight(p, false, false, true))
    + Part(c.c010, Weight(p, false, true, false)) + Part(c.c011, Weight(p, false, true, true))
    + Part(c.c100, Weight(p, true, false, false)) + Part(c.c101, Weight(p, true, false, true))
    + Part(c.c110, Weight(p, true, true, false)) + Part(c.c111, Weight(p, true, true, true))
  }

  lemma PlainSum(t: Trig, d: Data, p: Point)
    requires d.Valid() && PointFits(d.g, p) && t.cos(0.0) == 1.0 && t.sin(0.0) == 0.0
    ensures ComplexPoint(t, d, p, Zero3)
         == Complex(Weighted(CornersOf(d.re, d.g, p.x, p.y, p.z), p), Weighted(CornersOf(d.im, d.g, p.x, p.y, p.z), p))
  {
    hide CornerTerm, At, Weight, Part;
    PlainCorner(t, d, p, false, false, false);
    PlainCorner(t, d, p, false, false, true);
    PlainCorner(t, d, p, false, true, false);
    PlainCorner(t, d, p, false, true, true);
    PlainCorner(t, d, p, true, false, false);
    PlainCorner(t, d, p, true, false, true);
    PlainCorner(t, d, p, true, true, false);
    PlainCorner(t, d, p, true, true, true);
  }

  lemma WeightedSum(p: Point, c: Corners)
    ensures Weighted(c, p) == Octet(c, p.x.d, p.y.d, p.z.d)
  {
    hide Weight, Part, Product4, Octet;
    OctetProducts(c, p.x.d, p.y.d, p.z.d);
    WeightFactors(p, false, false, false, c.c000);
    WeightFactors(p, false, false, true, c.c001);
    WeightFactors(p, false, true, false, c.c010);
    WeightFactors(p, false, true, true, c.c011);
    WeightFactors(p, true, false, false, c.c100);
    WeightFactors(p, true, false, true, c.c101);
    WeightFactors(p, true, true, false, c.c110);
    WeightFactors(p, true, true, true, c.c111);
  }
}
