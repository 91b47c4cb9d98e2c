/** Resampling over whole periods (python/mpb_data.py:60-131, libpympb/pympb.cpp:2554-2681): with
    resolution 0 and no rectification the output sizes are the input sizes times the period
    counts, and map_data repeats its input. */
module Tiling {
  import opened Integers
  import opened Vectors
  import opened Complexes
  import opened ResampleAxis
  import opened Resample
  import opened MapData

  // ----- output sizes

  /** int(max(v, 1)). */
  function AtLeastOne(v: real): nat { if v > 1.0 then v.Floor else 1 }

  function Component(v: Vector3, i: int): real { if i == 0 then v.x else if i == 1 then v.y else v.z }

  /** Points per length along one output lattice vector. */
  function Sampled(norm: real, resolution: real): real { (norm * resolution + 0.5).Floor as real }

  /** The size that handle_dataset gives to axis i; the norms are those of the output lattice. */
  function OutputSize(dims: seq<nat>, rank: nat, multiply: Vector3, norms: Vector3, resolution: real, i: nat): nat
    requires |dims| == 3 && i < 3
  {
    if i >= rank then 1
    else if resolution > 0.0 then AtLeastOne(Sampled(Component(norms, i), resolution))
    else AtLeastOne(OnGrid(Component(multiply, i), dims[i]))
  }

  /** out_dims, overwritten in three loops. */
  method OutputSizes(dims: seq<nat>, rank: nat, multiply: Vector3, norms: Vector3, resolution: real)
    returns (out: seq<nat>)
    requires |dims| == 3 && rank <= 3
    ensures |out| == 3 && forall i :: 0 <= i < 3 ==> out[i] == OutputSize(dims, rank, multiply, norms, resolution, i)
  {
    hide OnGrid, Sampled, AtLeastOne;
    var sizes: seq<real> := [1.0, 1.0, 1.0];
    if resolution > 0.0 {
      sizes := [Sampled(norms.x, resolution), Sampled(norms.y, resolution), Sampled(norms.z, resolution)];
    } else {
      for i := 0 to 3
        invariant |sizes| == 3
        invariant forall a :: 0 <= a < i ==> sizes[a] == OnGrid(Component(multiply, a), dims[a])
      {
        sizes := sizes[i := OnGrid(Component(multiply, i), dims[i])];
      }
    }
    ghost var before := sizes;
    AtLeastOneOfInt(1);
    for i := rank to 3
      invariant |sizes| == 3
      invariant forall a :: 0 <= a < 3 ==> sizes[a] == if rank <= a < i then 1.0 else before[a]
    {
      sizes := sizes[i := 1.0];
    }
    out := [1, 1, 1];
    for i := 0 to 3
      invariant |out| == 3
      invariant forall a :: 0 <= a < i ==> out[a] == AtLeastOne(sizes[a])
    {
      out := out[i := AtLeastOne(sizes[i])];
    }
  }

  lemma AtLeastOneOfInt(v: int)
    requires v >= 1
    ensures AtLeastOne(v as real) == v
  {
  }

  /** With a resolution an axis gets the nearest number of points, halves upward, but at least one. */
  lemma SizesAreNearest(dims: seq<nat>, rank: nat, multiply: Vector3, norms: Vector3, resolution: real, i: nat)
    requires |dims| == 3 && i < 3 && i < rank && resolution > 0.0
    ensures var exact := (if i == 0 then norms.x else if i == 1 then norms.y else norms.z) * resolution;
            var points := OutputSize(dims, rank, multiply, norms, resolution, i);
            if exact < 1.5 then points == 1 else points as real - 0.5 <= exact < points as real + 0.5
  {
  }

  /** Without one an axis gets the whole part of the period count times its points, but at least one. */
  lemma SizesTruncate(dims: seq<nat>, rank: nat, multiply: Vector3, norms: Vector3, resolution: real, i: nat)
    requires |dims| == 3 && i < 3 && i < rank && resolution <= 0.0
    ensures var exact := (if i == 0 then multiply.x else if i == 1 then multiply.y else multiply.z) * dims[i] as real;
            var points := OutputSize(dims, rank, multiply, norms, resolution, i);
            if exact < 1.0 then points == 1 else points as real <= exact < points as real + 1.0
  {
  }

  /** A whole number m of periods gives n*m points, and 1 on the axes beyond the rank. */
  lemma {:induction false} SizesArePeriods(dims: seq<nat>, rank: nat, multiply: Vector3, norms: Vector3, i: nat, m: int)
    requires |dims| == 3 && i < 3 && dims[i] >= 1 && m >= 1 && Component(multiply, i) == m as real
    requires i >= rank ==> dims[i] == 1
    ensures PeriodAxis(dims[i], m, OutputSize(dims, rank, multiply, norms, 0.0, i))
  {
    if i < rank {
      CastProduct(m, dims[i]);
      assert m * dims[i] >= 1;
      AtLeastOneOfInt(m * dims[i]);
    }
  }

  // ----- the source point of an output index

  /** A call over m1 x m2 x m3 periods. */
  ghost predicate Periods(c: Call, g: Grid, m1: int, m2: int, m3: int) {
    && g.Valid() && c.out.Valid() && c.coordMap == Diagonal(m1 as real, m2 as real, m3 as real)
    && PeriodAxis(g.n0, m1, c.out.n0) && PeriodAxis(g.n1, m2, c.out.n1) && PeriodAxis(g.n2, m3, c.out.n2)
  }

  ghost predicate OddPeriods(c: Call, g: Grid, m1: int, m2: int, m3: int) {
    Periods(c, g, m1, m2, m3) && m1 % 2 == 1 && m2 % 2 == 1 && m3 % 2 == 1
  }

  function StepOf(m: real, n: nat): real
    requires n >= 1
  {
    m * (1.0 / n as real)
  }

  lemma DiagonalStep(c: Call, m1: real, m2: real, m3: real)
    requires c.out.Valid() && c.coordMap == Diagonal(m1, m2, m3)
    ensures StepMap(c).Row0() == Vector3(StepOf(m1, c.out.n0), 0.0, 0.0)
    ensures StepMap(c).Row1() == Vector3(0.0, StepOf(m2, c.out.n1), 0.0)
    ensures StepMap(c).Row2() == Vector3(0.0, 0.0, StepOf(m3, c.out.n2))
  {
    hide Vector3.Scale, StepOf;
    AxisStep0(m1, c.out.n0);
    AxisStep1(m2, c.out.n1);
    AxisStep2(m3, c.out.n2);
  }

  lemma AxisStep0(m: real, n: nat)
    requires n >= 1
    ensures Vector3(m, 0.0, 0.0).Scale(1.0 / n as real) == Vector3(StepOf(m, n), 0.0, 0.0)
  {
  }

  lemma AxisStep1(m: real, n: nat)
    requires n >= 1
    ensures Vector3(0.0, m, 0.0).Scale(1.0 / n as real) == Vector3(0.0, StepOf(m, n), 0.0)
  {
  }

  lemma AxisStep2(m: real, n: nat)
    requires n >= 1
    ensures Vector3(0.0, 0.0, m).Scale(1.0 / n as real) == Vector3(0.0, 0.0, StepOf(m, n))
  {
  }

  lemma OnlyX(m: int, step: real, out: Grid, i: int, j: int, k: int)
    requires out.Valid() && step == StepOf(m as real, out.n0)
    ensures Coordinate(Vector3(step, 0.0, 0.0), out, i, j, k) == PeriodCoordinate(i, m, out.n0)
  {
    assert Coordinate(Vector3(step, 0.0, 0.0), out, i, j, k) == step * i as real + (0.5 - step * 0.5 * out.n0 as real) by {
      hide PeriodCoordinate, StepOf;
    }
  }

  lemma OnlyY(m: int, step: real, out: Grid, i: int, j: int, k: int)
    requires out.Valid() && step == StepOf(m as real, out.n1)
    ensures Coordinate(Vector3(0.0, step, 0.0), out, i, j, k) == PeriodCoordinate(j, m, out.n1)
  {
    assert Coordinate(Vector3(0.0, step, 0.0), out, i, j, k) == step * j as real + (0.5 - step * 0.5 * out.n1 as real) by {
      hide PeriodCoordinate, StepOf;
    }
  }

  lemma OnlyZ(m: int, step: real, out: Grid, i: int, j: int, k: int)
    requires out.Valid() && step == StepOf(m as real, out.n2)
    ensures Coordinate(Vector3(0.0, 0.0, step), out, i, j, k) == PeriodCoordinate(k, m, out.n2)
  {
    assert Coordinate(Vector3(0.0, 0.0, step), out, i, j, k) == step * k as real + (0.5 - step * 0.5 * out.n2 as real) by {
      hide PeriodCoordinate, StepOf;
    }
  }

  lemma PeriodicSource(c: Call, g: Grid, m1: int, m2: int, m3: int, i: int, j: int, k: int)
    requires Periods(c, g, m1, m2, m3)
    ensures SourcePoint(c, i, j, k)
         == Vector3(PeriodCoordinate(i, m1, c.out.n0), PeriodCoordinate(j, m2, c.out.n1), PeriodCoordinate(k, m3, c.out.n2))
  {
    hide Coordinate, StepMap, StepOf, PeriodCoordinate;
    DiagonalStep(c, m1 as real, m2 as real, m3 as real);
    OnlyX(m1, StepOf(m1 as real, c.out.n0), c.out, i, j, k);
    OnlyY(m2, StepOf(m2 as real, c.out.n1), c.out, i, j, k);
    OnlyZ(m3, StepOf(m3 as real, c.out.n2), c.out, i, j, k);
  }

  /** The tile axis of one direction, with or without pick_nearest. */
  lemma TileAxis(i: int, n: nat, m: int, out: nat, nearest: bool)
    requires PeriodAxis(n, m, out) && 0 <= i < out && m % 2 == 1
    ensures var a := AxisOf(PeriodCoordinate(i, m, out), n, false, nearest);
            a.i1 == i % n && a.d == 0.0 && a.xi == Cell(i, n, m) as real
  {
    hide PeriodCoordinate, OnGrid, ModfPositive;
    OddPeriodsTile(i, n, m, out);
  }

  /** The cell that output index i lies in, counted from the middle one. */
  function Cell(i: int, n: nat, m: int): int
    requires n >= 1
  {
    i / n - (m - 1) / 2
  }

  /** The sample that tiling puts at output index [i,j,k]. */
  predicate TileIndex(g: Grid, i: int, j: int, k: int)
    requires g.Valid()
  {
    g.Has(i % g.n0, j % g.n1, k % g.n2)
  }

  lemma TileIndexFits(g: Grid, i: int, j: int, k: int)
    requires g.Valid()
    ensures TileIndex(g, i, j, k)
  {
  }

  lemma OctetOrigin(c: Corners)
    ensures Octet(c, 0.0, 0.0, 0.0) == c.c000
  {
  }

  /** Real data over odd period counts: out[i,j,k] = in[i mod n0, j mod n1, k mod n2]. */
  lemma RealTiles(data: seq<real>, g: Grid, c: Call, m1: int, m2: int, m3: int, i: int, j: int, k: int)
    requires OddPeriods(c, g, m1, m2, m3) && |data| == g.Size() && c.out.Has(i, j, k) && !c.bloch
    ensures TileIndex(g, i, j, k)
    ensures RealAt(data, g, c, i, j, k) == At(data, g, i % g.n0, j % g.n1, k % g.n2)
  {
    hide PeriodCoordinate, AxisOf, Octet, SourcePoint, At;
    TileIndexFits(g, i, j, k);
    PeriodicSource(c, g, m1, m2, m3, i, j, k);
    var p := SourcePoint(c, i, j, k);
    TileAxis(i, g.n0, m1, c.out.n0, c.nearest);
    TileAxis(j, g.n1, m2, c.out.n1, c.nearest);
    TileAxis(k, g.n2, m3, c.out.n2, c.nearest);
    AxisFits(p.x, g.n0, false, c.nearest);
    AxisFits(p.y, g.n1, false, c.nearest);
    AxisFits(p.z, g.n2, false, c.nearest);
    OctetOrigin(CornersOf(data, g, AxisOf(p.x, g.n0, false, c.nearest), AxisOf(p.y, g.n1, false, c.nearest),
                          AxisOf(p.z, g.n2, false, c.nearest)));
  }

  /** Odd whole multipliers, and size one on the axes beyond the rank. */
  ghost predicate OddMultiply(g: Grid, rank: nat, multiply: Vector3, m1: int, m2: int, m3: int) {
    && multiply == Vector3(m1 as real, m2 as real, m3 as real) && m1 >= 1 && m2 >= 1 && m3 >= 1
    && m1 % 2 == 1 && m2 % 2 == 1 && m3 % 2 == 1
    && (rank <= 0 ==> g.n0 == 1) && (rank <= 1 ==> g.n1 == 1) && (rank <= 2 ==> g.n2 == 1)
  }

  /** handle_dataset for real data: sizes, a new output array, map_data. With resolution 0, a
      coordinate map that only multiplies, and odd multipliers, the result is the tiled input. */
  method HandleDataset(inRe: array<real>, g: Grid, rank: nat, coordMap: Matrix, multiply: Vector3, norms: Vector3,
                       resolution: real, nearest: bool)
    returns (outRe: array<real>, out: Grid)
    requires g.Valid() && inRe.Length == g.Size() && rank <= 3
    ensures fresh(outRe) && out.Valid() && outRe.Length == out.Size()
    ensures forall m1, m2, m3 :: OddMultiply(g, rank, multiply, m1, m2, m3)
              && resolution == 0.0 && coordMap == Diagonal(m1 as real, m2 as real, m3 as real)
              ==> Tiled(inRe[..], g, outRe[..], out)
    ensures forall i, j, k :: out.Has(i, j, k) ==>
              At(outRe[..], out, i, j, k) == RealAt(inRe[..], g, Call(out, coordMap, Zero3, nearest, false), i, j, k)
  {
    hide RealAt, At, OutputSize, Grid.Size, Grid.Index;
    var sizes := OutputSizes([g.n0, g.n1, g.n2], rank, multiply, norms, resolution);
    SizesArePositive([g.n0, g.n1, g.n2], rank, multiply, norms, resolution);
    out := Grid(sizes[0], sizes[1], sizes[2]);
    outRe := new real[out.Size()];
    var c := Call(out, coordMap, Zero3, nearest, false);
    MapReal(inRe, g, outRe, c);
    forall m1, m2, m3 | OddMultiply(g, rank, multiply, m1, m2, m3) && resolution == 0.0
                        && coordMap == Diagonal(m1 as real, m2 as real, m3 as real)
      ensures Tiled(inRe[..], g, outRe[..], out)
    {
      SizesArePeriods([g.n0, g.n1, g.n2], rank, multiply, norms, 0, m1);
      SizesArePeriods([g.n0, g.n1, g.n2], rank, multiply, norms, 1, m2);
      SizesArePeriods([g.n0, g.n1, g.n2], rank, multiply, norms, 2, m3);
      AllTiled(inRe[..], g, outRe[..], c, m1, m2, m3);
    }
  }

  lemma SizesArePositive(dims: seq<nat>, rank: nat, multiply: Vector3, norms: Vector3, resolution: real)
    requires |dims| == 3
    ensures forall i :: 0 <= i < 3 ==> OutputSize(dims, rank, multiply, norms, resolution, i) >= 1
  {
  }

  /** Every output is the input sample at the indices modulo the input sizes. */
  ghost predicate Tiled(data: seq<real>, g: Grid, re: seq<real>, out: Grid)
    requires g.Valid() && |data| == g.Size() && |re| == out.Size()
  {
    forall i, j, k :: out.Has(i, j, k) ==>
      TileIndex(g, i, j, k) && At(re, out, i, j, k) == At(data, g, i % g.n0, j % g.n1, k % g.n2)
  }

  lemma AllTiled(data: seq<real>, g: Grid, re: seq<real>, c: Call, m1: int, m2: int, m3: int)
    requires g.Valid() && c.out.Valid() && OddPeriods(c, g, m1, m2, m3) && |data| == g.Size() && |re| == c.out.Size() && !c.bloch
    requires forall i, j, k :: c.out.Has(i, j, k) ==> At(re, c.out, i, j, k) == RealAt(data, g, c, i, j, k)
    ensures Tiled(data, g, re, c.out)
  {
    hide RealAt, At, OddPeriods;
    forall i, j, k | c.out.Has(i, j, k)
      ensures TileIndex(g, i, j, k) && At(re, c.out, i, j, k) == At(data, g, i % g.n0, j % g.n1, k % g.n2)
    {
      RealTiles(data, g, c, m1, m2, m3, i, j, k);
    }
  }

  // ----- complex data

  lemma TermScale(t: Trig, z: Complex, phase: real)
    ensures Term(t, z, phase, 0.0) == CZero
    ensures Term(t, z, phase, 1.0) == z.Times(Cis(t, phase))
  {
  }

  lemma WeightAtOrigin(p: Point, ux: bool, uy: bool, uz: bool)
    requires p.x.d == p.y.d == p.z.d == 0.0
    ensures Weight(p, ux, uy, uz) == if ux || uy || uz then 0.0 else 1.0
  {
  }

  lemma CornerAtOrigin(t: Trig, d: Data, p: Point, s: Vector3, ux: bool, uy: bool, uz: bool)
    requires d.Valid() && PointFits(d.g, p) && p.x.d == p.y.d == p.z.d == 0.0
    ensures CornerTerm(t, d, p, s, ux, uy, uz)
         == if ux || uy || uz then CZero
            else Sample(d, p.x.i1, p.y.i1, p.z.i1).Times(Cis(t, CellPhase(s, p.x.xi, p.y.xi, p.z.xi)))
  {
    hide Term, Weight, Sample, CellPhase, Complex.Times;
    WeightAtOrigin(p, ux, uy, uz);
    TermScale(t, Sample(d, IndexOn(p.x, ux), IndexOn(p.y, uy), IndexOn(p.z, uz)), PhaseOf(p, s, ux, uy, uz));
  }

  /** On a grid point only the lower corner contributes. */
  lemma PointAtOrigin(t: Trig, d: Data, p: Point, s: Vector3)
    requires d.Valid() && PointFits(d.g, p) && p.x.d == p.y.d == p.z.d == 0.0
    ensures ComplexPoint(t, d, p, s)
         == Sample(d, p.x.i1, p.y.i1, p.z.i1).Times(Cis(t, CellPhase(s, p.x.xi, p.y.xi, p.z.xi)))
  {
    hide CornerTerm, Sample, CellPhase, Complex.Times;
    CornerAtOrigin(t, d, p, s, false, false, false);
    CornerAtOrigin(t, d, p, s, false, false, true);
    CornerAtOrigin(t, d, p, s, false, true, false);
    CornerAtOrigin(t, d, p, s, false, true, true);
    CornerAtOrigin(t, d, p, s, true, false, false);
    CornerAtOrigin(t, d, p, s, true, false, true);
    CornerAtOrigin(t, d, p, s, true, true, false);
    CornerAtOrigin(t, d, p, s, true, true, true);
  }

  /** Complex data over odd period counts: the tile times the Bloch phase of its cell. */
  lemma ComplexTiles(t: Trig, d: Data, c: Call, m1: int, m2: int, m3: int, i: int, j: int, k: int)
    requires d.Valid() && OddPeriods(c, d.g, m1, m2, m3) && c.out.Has(i, j, k) && !c.bloch
    ensures TileIndex(d.g, i, j, k)
    ensures ComplexAt(t, d, c, i, j, k)
         == Sample(d, i % d.g.n0, j % d.g.n1, k % d.g.n2)
            .Times(Cis(t, CellPhase(c.s, Cell(i, d.g.n0, m1) as real, Cell(j, d.g.n1, m2) as real, Cell(k, d.g.n2, m3) as real)))
  {
    hide PeriodCoordinate, AxisOf, ComplexPoint, SourcePoint, Sample, CellPhase, Complex.Times, Cell;
    TileIndexFits(d.g, i, j, k);
    PeriodicSource(c, d.g, m1, m2, m3, i, j, k);
    TileAxis(i, d.g.n0, m1, c.out.n0, c.nearest);
    TileAxis(j, d.g.n1, m2, c.out.n1, c.nearest);
    TileAxis(k, d.g.n2, m3, c.out.n2, c.nearest);
    PointAtOrigin(t, d, PointOf(d.g, SourcePoint(c, i, j, k), false, c.nearest), c.s);
  }

  /** One period in every direction is the identity, phases included. */
  lemma OnePeriodIsIdentity(t: Trig, d: Data, c: Call, i: int, j: int, k: int)
    requires d.Valid() && OddPeriods(c, d.g, 1, 1, 1) && c.out.Has(i, j, k) && !c.bloch
    requires t.cos(0.0) == 1.0 && t.sin(0.0) == 0.0
    ensures d.g.Has(i, j, k) && ComplexAt(t, d, c, i, j, k) == Sample(d, i, j, k)
  {
    hide ComplexAt, Sample, Complex.Times;
    ComplexTiles(t, d, c, 1, 1, 1, i, j, k);
    SmallModulo(i, d.g.n0);
    SmallModulo(j, d.g.n1);
    SmallModulo(k, d.g.n2);
    DivisionIsUnique(d.g.n0, 0, i, i);
    DivisionIsUnique(d.g.n1, 0, j, j);
    DivisionIsUnique(d.g.n2, 0, k, k);
    NoPhase(c.s);
    TimesOne(Sample(d, i, j, k));
  }

  lemma NoPhase(s: Vector3)
    ensures CellPhase(s, 0.0, 0.0, 0.0) == 0.0
  {
  }

  /** The addition theorems of cos and sin. */
  ghost predicate Homomorphic(t: Trig) {
    forall a, b :: Cis(t, a + b) == Cis(t, a).Times(Cis(t, b))
  }

  /** a cells further along one axis. */
  lemma CellsFurther(i: int, n: nat, m: int, a: int)
    requires n >= 1
    ensures (i + a * n) % n == i % n && Cell(i + a * n, n, m) == Cell(i, n, m) + a
  {
    assert i + a * n == (i / n + a) * n + i % n;
    DivisionIsUnique(n, i / n + a, i % n, i + a * n);
  }

  /** Bloch's theorem for the output: going a, b, e whole cells along the three axes multiplies by
      exp(2*pi*i*k.(a,b,e)). */
  lemma OutputIsBloch(t: Trig, d: Data, c: Call, kvector: Vector3, twoPi: real, m1: int, m2: int, m3: int,
                      i: int, j: int, k: int, a: int, b: int, e: int)
    requires d.Valid() && OddPeriods(c, d.g, m1, m2, m3) && !c.bloch && Homomorphic(t)
    requires c.s == PhasePerCell(kvector, true, twoPi)
    requires c.out.Has(i, j, k) && c.out.Has(i + a * d.g.n0, j + b * d.g.n1, k + e * d.g.n2)
    ensures ComplexAt(t, d, c, i + a * d.g.n0, j + b * d.g.n1, k + e * d.g.n2)
         == ComplexAt(t, d, c, i, j, k).Times(Cis(t, CellPhase(kvector.Scale(twoPi), a as real, b as real, e as real)))
  {
    hide ComplexAt, Sample, Complex.Times, CellPhase, OddPeriods, Cell, Cis, Vector3.Scale;
    var g := d.g;
    ComplexTiles(t, d, c, m1, m2, m3, i, j, k);
    ComplexTiles(t, d, c, m1, m2, m3, i + a * g.n0, j + b * g.n1, k + e * g.n2);
    CellsFurther(i, g.n0, m1, a);
    CellsFurther(j, g.n1, m2, b);
    CellsFurther(k, g.n2, m3, e);
    var x, y, z := Cell(i, g.n0, m1) as real, Cell(j, g.n1, m2) as real, Cell(k, g.n2, m3) as real;
    CellPhaseSum(c.s, x, y, z, a as real, b as real, e as real);
    var here, step := CellPhase(c.s, x, y, z), CellPhase(c.s, a as real, b as real, e as real);
    assert Cis(t, here + step) == Cis(t, here).Times(Cis(t, step));
    TimesAssociates(Sample(d, i % g.n0, j % g.n1, k % g.n2), Cis(t, here), Cis(t, step));
  }

  lemma CellPhaseSum(s: Vector3, x: real, y: real, z: real, p: real, q: real, r: real)
    ensures CellPhase(s, x + p, y + q, z + r) == CellPhase(s, x, y, z) + CellPhase(s, p, q, r)
  {
  }

  /** Without a Bloch vector complex data is tiled as it is. */
  lemma TilesWithoutK(t: Trig, d: Data, c: Call, kvector: Vector3, twoPi: real, m1: int, m2: int, m3: int, i: int, j: int, k: int)
    requires d.Valid() && OddPeriods(c, d.g, m1, m2, m3) && c.out.Has(i, j, k) && !c.bloch
    requires t.cos(0.0) == 1.0 && t.sin(0.0) == 0.0 && c.s == PhasePerCell(kvector, false, twoPi)
    ensures TileIndex(d.g, i, j, k) && ComplexAt(t, d, c, i, j, k) == Sample(d, i % d.g.n0, j % d.g.n1, k % d.g.n2)
  {
    hide ComplexAt, Sample, Complex.Times, OddPeriods;
    ComplexTiles(t, d, c, m1, m2, m3, i, j, k);
    ZeroPhase(Cell(i, d.g.n0, m1) as real, Cell(j, d.g.n1, m2) as real, Cell(k, d.g.n2, m3) as real);
    TimesOne(Sample(d, i % d.g.n0, j % d.g.n1, k % d.g.n2));
  }

  lemma ZeroPhase(x: real, y: real, z: real)
    ensures CellPhase(Zero3, x, y, z) == 0.0
  {
  }

  // ----- complex datasets

  function TileOf(t: Trig, d: Data, s: Vector3, m1: int, m2: int, m3: int, i: int, j: int, k: int): Complex
    requires d.Valid()
  {
    TileIndexFits(d.g, i, j, k);
    Sample(d, i % d.g.n0, j % d.g.n1, k % d.g.n2)
      .Times(Cis(t, CellPhase(s, Cell(i, d.g.n0, m1) as real, Cell(j, d.g.n1, m2) as real, Cell(k, d.g.n2, m3) as real)))
  }

  /** Every output is the input sample at the indices modulo the input sizes, times the Bloch phase of
      its cell, times the constant factor. */
  ghost predicate BlochTiled(t: Trig, d: Data, s: Vector3, scaleby: Complex, res: seq<Complex>, out: Grid, m1: int, m2: int, m3: int)
    requires d.Valid() && |res| == out.Size()
  {
    forall i, j, k :: out.Has(i, j, k) ==> At(res, out, i, j, k) == TileOf(t, d, s, m1, m2, m3, i, j, k).Times(scaleby)
  }

  ghost predicate Mapped(t: Trig, d: Data, c: Call, scaleby: Complex, res: seq<Complex>)
    requires d.Valid() && c.out.Valid() && |res| == c.out.Size()
  {
    forall i, j, k :: c.out.Has(i, j, k) ==> At(res, c.out, i, j, k) == ComplexAt(t, d, c, i, j, k).Times(scaleby)
  }

  lemma AllBlochTiled(t: Trig, d: Data, c: Call, scaleby: Complex, res: seq<Complex>, m1: int, m2: int, m3: int)
    requires d.Valid() && OddPeriods(c, d.g, m1, m2, m3) && !c.bloch && |res| == c.out.Size() && Mapped(t, d, c, scaleby, res)
    ensures BlochTiled(t, d, c.s, scaleby, res, c.out, m1, m2, m3)
  {
    hide ComplexAt, OddPeriods, Sample, CellPhase, Complex.Times, Cell;
    forall i, j, k | c.out.Has(i, j, k)
      ensures At(res, c.out, i, j, k) == TileOf(t, d, c.s, m1, m2, m3, i, j, k).Times(scaleby)
    {
      ComplexTiles(t, d, c, m1, m2, m3, i, j, k);
    }
  }

  /** complex_out: both parts as one array, then multiplied by scaleby as a whole. */
  method Scaleby(outRe: array<real>, outIm: array<real>, scaleby: Complex) returns (res: array<Complex>)
    requires outRe.Length == outIm.Length
    ensures fresh(res) && res.Length == outRe.Length
    ensures forall q :: 0 <= q < res.Length ==> res[q] == Complex(outRe[q], outIm[q]).Times(scaleby)
  {
    hide Complex.Times;
    res := new Complex[outRe.Length];
    forall q | 0 <= q < res.Length {
      res[q] := Complex(outRe[q], outIm[q]);
    }
    forall q | 0 <= q < res.Length {
      res[q] := res[q].Times(scaleby);
    }
  }

  lemma MappedBy(t: Trig, d: Data, c: Call, scaleby: Complex, re: seq<real>, im: seq<real>, res: seq<Complex>)
    requires d.Valid() && c.out.Valid() && |re| == |im| == |res| == c.out.Size()
    requires forall q :: 0 <= q < |res| ==> res[q] == Complex(re[q], im[q]).Times(scaleby)
    requires forall i, j, k :: c.out.Has(i, j, k) ==>
               Complex(At(re, c.out, i, j, k), At(im, c.out, i, j, k)) == ComplexAt(t, d, c, i, j, k)
    ensures Mapped(t, d, c, scaleby, res)
  {
    hide ComplexAt, Complex.Times, Grid.Index, Grid.Size;
    forall i, j, k | c.out.Has(i, j, k)
      ensures At(res, c.out, i, j, k) == ComplexAt(t, d, c, i, j, k).Times(scaleby)
    {
      IndexInRange(c.out, i, j, k);
      assert Complex(At(re, c.out, i, j, k), At(im, c.out, i, j, k)) == ComplexAt(t, d, c, i, j, k);
    }
  }

  /** handle_dataset for complex data: map_data with the Bloch vector, then the constant factor. Over
      odd periods the result is the Bloch-tiled input. */
  method HandleComplex(cache: PhaseCache, inRe: array<real>, inIm: array<real>, g: Grid, rank: nat, coordMap: Matrix,
                       multiply: Vector3, norms: Vector3, resolution: real, nearest: bool,
                       kvector: Vector3, hasK: bool, twoPi: real, scaleby: Complex)
    returns (res: array<Complex>, out: Grid)
    requires cache.Valid() && g.Valid() && inRe.Length == g.Size() && inIm.Length == g.Size() && rank <= 3
    modifies cache
    ensures cache.Valid() && fresh(res) && out.Valid() && res.Length == out.Size()
    ensures var d, c := Data(inRe[..], inIm[..], g), Call(out, coordMap, PhasePerCell(kvector, hasK, twoPi), nearest, false);
            && Mapped(cache.t, d, c, scaleby, res[..])
            && forall m1, m2, m3 :: OddMultiply(g, rank, multiply, m1, m2, m3)
                 && resolution == 0.0 && coordMap == Diagonal(m1 as real, m2 as real, m3 as real)
                 ==> BlochTiled(cache.t, d, c.s, scaleby, res[..], out, m1, m2, m3)
  {
    hide ComplexAt, At, OutputSize, Grid.Size, Grid.Index, Mapped, BlochTiled, PhasePerCell, Complex.Times;
    var sizes := OutputSizes([g.n0, g.n1, g.n2], rank, multiply, norms, resolution);
    SizesArePositive([g.n0, g.n1, g.n2], rank, multiply, norms, resolution);
    out := Grid(sizes[0], sizes[1], sizes[2]);
    var outRe, outIm := new real[out.Size()], new real[out.Size()];
    var c := Call(out, coordMap, PhasePerCell(kvector, hasK, twoPi), nearest, false);
    ghost var d := Data(inRe[..], inIm[..], g);
    MapComplex(cache, inRe, inIm, g, outRe, outIm, c);
    res := Scaleby(outRe, outIm, scaleby);
    MappedBy(cache.t, d, c, scaleby, outRe[..], outIm[..], res[..]);
    forall m1, m2, m3 | OddMultiply(g, rank, multiply, m1, m2, m3) && resolution == 0.0
                        && coordMap == Diagonal(m1 as real, m2 as real, m3 as real)
      ensures BlochTiled(cache.t, d, c.s, scaleby, res[..], out, m1, m2, m3)
    {
      SizesArePeriods([g.n0, g.n1, g.n2], rank, multiply, norms, 0, m1);
      SizesArePeriods([g.n0, g.n1, g.n2], rank, multiply, norms, 1, m2);
      SizesArePeriods([g.n0, g.n1, g.n2], rank, multiply, norms, 2, m3);
      AllBlochTiled(cache.t, d, c, scaleby, res[..], m1, m2, m3);
    }
  }
}
