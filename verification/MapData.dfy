/** map_data as it runs (libpympb/pympb.cpp:2539-2681): nested loops that overwrite the output
    arrays, with Bloch phases taken from a cache that outlives the call. */
module MapData {
  import opened Vectors
  import opened Complexes
  import opened ResampleAxis
  import opened Resample

  // ----- phases

  /** cos and sin of the C library. */
  datatype Trig = Trig(cos: real -> real, sin: real -> real)

  function Cis(t: Trig, phase: real): Complex { Complex(t.cos(phase), t.sin(phase)) }

  /** One term of the complex sum: the sample times the phase of its cell times its weight. */
  function Term(t: Trig, z: Complex, phase: real, weight: real): Complex {
    var w := z.Times(Cis(t, phase));
    Complex(w.re * weight, w.im * weight)
  }

  lemma TermSpelled(t: Trig, z: Complex, phase: real, weight: real, c: real, s: real, re: real, im: real)
    requires Cis(t, phase) == Complex(c, s)
    requires re == (z.re * c - z.im * s) * weight && im == (z.re * s + z.im * c) * weight
    ensures Term(t, z, phase, weight) == Complex(re, im)
  {
  }

  /** The static variables of add_cmplx_times_phase. */
  class PhaseCache {
    const t: Trig
    var phase: real
    var pRe: real
    var pIm: real

    /** The cached pair always is what recomputing it would give. */
    ghost predicate Valid()
      reads this
    {
      Complex(pRe, pIm) == Cis(t, phase)
    }

    constructor (t: Trig)
      requires t.cos(0.0) == 1.0 && t.sin(0.0) == 0.0
      ensures Valid() && this.t == t
    {
      this.t := t;
      phase, pRe, pIm := 0.0, 1.0, 0.0;
    }

    method AddTimesPhase(outRe: array<real>, outIm: array<real>, q: nat, d: Complex, newPhase: real, weight: real)
      requires Valid() && q < outRe.Length && q < outIm.Length && outRe != outIm
      modifies this, outRe, outIm
      ensures Valid()
      ensures Complex(outRe[q], outIm[q]) == Complex(old(outRe[q]), old(outIm[q])).Plus(Term(t, d, newPhase, weight))
      ensures outRe[q] == old(outRe[q]) + (d.re * t.cos(newPhase) - d.im * t.sin(newPhase)) * weight
      ensures outIm[q] == old(outIm[q]) + (d.re * t.sin(newPhase) + d.im * t.cos(newPhase)) * weight
      ensures forall r :: 0 <= r < outRe.Length && r != q ==> outRe[r] == old(outRe[r])
      ensures forall r :: 0 <= r < outIm.Length && r != q ==> outIm[r] == old(outIm[r])
    {
      hide Term;
      if newPhase != phase {
        phase := newPhase;
        pRe := t.cos(phase);
        pIm := t.sin(phase);
      }
      var re, im := (d.re * pRe - d.im * pIm) * weight, (d.re * pIm + d.im * pRe) * weight;
      TermSpelled(t, d, newPhase, weight, pRe, pIm, re, im);
      outRe[q] := outRe[q] + re;
      outIm[q] := outIm[q] + im;
    }
  }

  // ----- one complex output point

  /** ix*s[0] + iy*s[1] + iz*s[2]. */
  function CellPhase(s: Vector3, ix: real, iy: real, iz: real): real { ix * s.x + iy * s.y + iz * s.z }

  datatype Data = Data(re: seq<real>, im: seq<real>, g: Grid) {
    predicate Valid() { g.Valid() && |re| == g.Size() && |im| == g.Size() }
  }

  function Sample(d: Data, i: int, j: int, k: int): Complex
    requires d.Valid() && d.g.Has(i, j, k)
  {
    Complex(At(d.re, d.g, i, j, k), At(d.im, d.g, i, j, k))
  }

  /** The three axes of one output point. */
  datatype Point = Point(x: Axis, y: Axis, z: Axis)

  predicate PointFits(g: Grid, p: Point) { Fits(p.x, g.n0) && Fits(p.y, g.n1) && Fits(p.z, g.n2) }

  function PointOf(g: Grid, v: Vector3, bloch: bool, nearest: bool): (p: Point)
    requires g.Valid()
    ensures PointFits(g, p)
  {
    AxisFits(v.x, g.n0, bloch, nearest);
    AxisFits(v.y, g.n1, bloch, nearest);
    AxisFits(v.z, g.n2, bloch, nearest);
    Point(AxisOf(v.x, g.n0, bloch, nearest), AxisOf(v.y, g.n1, bloch, nearest), AxisOf(v.z, g.n2, bloch, nearest))
  }

  /** Index, cell number and weight of the lower or the upper neighbour on one axis. */
  function IndexOn(a: Axis, upper: bool): int { if upper then a.i2 else a.i1 }

  function CellOn(a: Axis, upper: bool): real { if upper then a.xi2 else a.xi }

  function WeightOn(a: Axis, upper: bool): real { if upper then a.d else 1.0 - a.d }

  function Weight(p: Point, ux: bool, uy: bool, uz: bool): real {
    WeightOn(p.x, ux) * WeightOn(p.y, uy) * WeightOn(p.z, uz)
  }

  function PhaseOf(p: Point, s: Vector3, ux: bool, uy: bool, uz: bool): real {
    CellPhase(s, CellOn(p.x, ux), CellOn(p.y, uy), CellOn(p.z, uz))
  }

  /** One corner of the complex sum. */
  function CornerTerm(t: Trig, d: Data, p: Point, s: Vector3, ux: bool, uy: bool, uz: bool): Complex
    requires d.Valid() && PointFits(d.g, p)
  {
    Term(t, Sample(d, IndexOn(p.x, ux), IndexOn(p.y, uy), IndexOn(p.z, uz)), PhaseOf(p, s, ux, uy, uz), Weight(p, ux, uy, uz))
  }

  function ComplexPoint(t: Trig, d: Data, p: Point, s: Vector3): Complex
    requires d.Valid() && PointFits(d.g, p)
  {
    CZero.Plus(CornerTerm(t, d, p, s, false, false, false)).Plus(CornerTerm(t, d, p, s, false, false, true))
         .Plus(CornerTerm(t, d, p, s, false, true, false)).Plus(CornerTerm(t, d, p, s, false, true, true))
         .Plus(CornerTerm(t, d, p, s, true, false, false)).Plus(CornerTerm(t, d, p, s, true, false, true))
         .Plus(CornerTerm(t, d, p, s, true, true, false)).Plus(CornerTerm(t, d, p, s, true, true, true))
  }

  method AddCorner(cache: PhaseCache, outRe: array<real>, outIm: array<real>, q: nat, d: Data, p: Point, s: Vector3,
                   ux: bool, uy: bool, uz: bool)
    requires cache.Valid() && q < outRe.Length && q < outIm.Length && outRe != outIm
    requires d.Valid() && PointFits(d.g, p)
    modifies cache, outRe, outIm
    ensures cache.Valid()
    ensures Complex(outRe[q], outIm[q])
         == Complex(old(outRe[q]), old(outIm[q])).Plus(CornerTerm(cache.t, d, p, s, ux, uy, uz))
    ensures forall r :: 0 <= r < outRe.Length && r != q ==> outRe[r] == old(outRe[r])
    ensures forall r :: 0 <= r < outIm.Length && r != q ==> outIm[r] == old(outIm[r])
  {
    hide Term, PhaseOf, Weight, Sample;
    cache.AddTimesPhase(outRe, outIm, q, Sample(d, IndexOn(p.x, ux), IndexOn(p.y, uy), IndexOn(p.z, uz)),
                        PhaseOf(p, s, ux, uy, uz), Weight(p, ux, uy, uz));
  }

  /** The eight additions at one output index. */
  method WritePoint(cache: PhaseCache, outRe: array<real>, outIm: array<real>, q: nat, d: Data, p: Point, s: Vector3)
    requires cache.Valid() && q < outRe.Length && q < outIm.Length && outRe != outIm
    requires d.Valid() && PointFits(d.g, p)
    modifies cache, outRe, outIm
    ensures cache.Valid()
    ensures Complex(outRe[q], outIm[q]) == ComplexPoint(cache.t, d, p, s)
    ensures forall r :: 0 <= r < outRe.Length && r != q ==> outRe[r] == old(outRe[r])
    ensures forall r :: 0 <= r < outIm.Length && r != q ==> outIm[r] == old(outIm[r])
  {
    hide CornerTerm, Complex.Plus;
    outRe[q] := 0.0;
    outIm[q] := 0.0;
    AddCorner(cache, outRe, outIm, q, d, p, s, false, false, false);
    AddCorner(cache, outRe, outIm, q, d, p, s, false, false, true);
    AddCorner(cache, outRe, outIm, q, d, p, s, false, true, false);
    AddCorner(cache, outRe, outIm, q, d, p, s, false, true, true);
    AddCorner(cache, outRe, outIm, q, d, p, s, true, false, false);
    AddCorner(cache, outRe, outIm, q, d, p, s, true, false, true);
    AddCorner(cache, outRe, outIm, q, d, p, s, true, true, false);
    AddCorner(cache, outRe, outIm, q, d, p, s, true, true, true);
  }

  // ----- the whole call

  /** What stays fixed over one call. */
  datatype Call = Call(out: Grid, coordMap: Matrix, s: Vector3, nearest: bool, bloch: bool)

  /** coord_map with its columns divided by the output sizes. */
  function StepMap(c: Call): Matrix
    requires c.out.Valid()
  {
    Matrix(c.coordMap.c1.Scale(1.0 / c.out.n0 as real), c.coordMap.c2.Scale(1.0 / c.out.n1 as real),
           c.coordMap.c3.Scale(1.0 / c.out.n2 as real))
  }

  /** 0.5 - (c0*0.5*n0 + c1*0.5*n1 + c2*0.5*n2) for one row of the map. */
  function Shift(row: Vector3, out: Grid): real {
    0.5 - (row.x * 0.5 * out.n0 as real + row.y * 0.5 * out.n1 as real + row.z * 0.5 * out.n2 as real)
  }

  function Coordinate(row: Vector3, out: Grid, i: int, j: int, k: int): real {
    row.x * i as real + row.y * j as real + row.z * k as real + Shift(row, out)
  }

  /** The point of the unit cell that output [i,j,k] is taken from. */
  function SourcePoint(c: Call, i: int, j: int, k: int): Vector3
    requires c.out.Valid()
  {
    var m := StepMap(c);
    Vector3(Coordinate(m.Row0(), c.out, i, j, k), Coordinate(m.Row1(), c.out, i, j, k), Coordinate(m.Row2(), c.out, i, j, k))
  }

  function ComplexAt(t: Trig, d: Data, c: Call, i: int, j: int, k: int): Complex
    requires d.Valid() && c.out.Valid()
  {
    ComplexPoint(t, d, PointOf(d.g, SourcePoint(c, i, j, k), c.bloch, c.nearest), c.s)
  }

  function RealAt(re: seq<real>, g: Grid, c: Call, i: int, j: int, k: int): real
    requires g.Valid() && |re| == g.Size() && c.out.Valid()
  {
    RealPoint(re, g, SourcePoint(c, i, j, k), c.bloch, c.nearest)
  }

  /** Output indices below q are done. */
  ghost predicate ComplexDone(re: seq<real>, im: seq<real>, t: Trig, d: Data, c: Call, q: int)
    requires d.Valid() && c.out.Valid() && |re| == c.out.Size() && |im| == c.out.Size()
  {
    forall i, j, k :: c.out.Has(i, j, k) && c.out.Index(i, j, k) < q ==>
      Complex(At(re, c.out, i, j, k), At(im, c.out, i, j, k)) == ComplexAt(t, d, c, i, j, k)
  }

  ghost predicate RealDone(re: seq<real>, data: seq<real>, g: Grid, c: Call, q: int)
    requires g.Valid() && |data| == g.Size() && c.out.Valid() && |re| == c.out.Size()
  {
    forall i, j, k :: c.out.Has(i, j, k) && c.out.Index(i, j, k) < q ==>
      At(re, c.out, i, j, k) == RealAt(data, g, c, i, j, k)
  }

  /** kvector times two pi, or zero without a Bloch vector. */
  function PhasePerCell(kvector: Vector3, hasK: bool, twoPi: real): Vector3 {
    if hasK then kvector.Scale(twoPi) else Zero3
  }

  lemma RowEnds(g: Grid, i: int, j: int)
    requires g.Valid()
    ensures g.Index(i, j, g.n2) == g.Index(i, j + 1, 0)
    ensures g.Index(i, g.n1, 0) == g.Index(i + 1, 0, 0)
    ensures g.Index(0, 0, 0) == 0 && g.Index(g.n0, 0, 0) == g.Size()
  {
    assert (i * g.n1 + j + 1) * g.n2 == (i * g.n1 + j) * g.n2 + g.n2;
    assert (i + 1) * g.n1 == i * g.n1 + g.n1;
  }

  lemma ComplexStep(re: seq<real>, im: seq<real>, re': seq<real>, im': seq<real>, t: Trig, d: Data, c: Call, i: int, j: int, k: int)
    requires d.Valid() && c.out.Valid() && c.out.Has(i, j, k)
    requires |re| == |im| == |re'| == |im'| == c.out.Size()
    requires ComplexDone(re, im, t, d, c, c.out.Index(i, j, k))
    requires forall r :: 0 <= r < |re| && r != c.out.Index(i, j, k) ==> re'[r] == re[r] && im'[r] == im[r]
    requires Complex(At(re', c.out, i, j, k), At(im', c.out, i, j, k)) == ComplexAt(t, d, c, i, j, k)
    ensures ComplexDone(re', im', t, d, c, c.out.Index(i, j, k + 1))
  {
    hide ComplexAt, Grid.Index;
    IndexNext(c.out, i, j, k);
    forall a, b, e | c.out.Has(a, b, e) && c.out.Index(a, b, e) < c.out.Index(i, j, k + 1)
      ensures Complex(At(re', c.out, a, b, e), At(im', c.out, a, b, e)) == ComplexAt(t, d, c, a, b, e)
    {
      IndexInRange(c.out, a, b, e);
      if c.out.Index(a, b, e) == c.out.Index(i, j, k) {
        IndexInjective(c.out, a, b, e, i, j, k);
      }
    }
  }

  lemma RealStep(re: seq<real>, re': seq<real>, data: seq<real>, g: Grid, c: Call, i: int, j: int, k: int)
    requires g.Valid() && |data| == g.Size() && c.out.Valid() && c.out.Has(i, j, k)
    requires |re| == |re'| == c.out.Size()
    requires RealDone(re, data, g, c, c.out.Index(i, j, k))
    requires forall r :: 0 <= r < |re| && r != c.out.Index(i, j, k) ==> re'[r] == re[r]
    requires At(re', c.out, i, j, k) == RealAt(data, g, c, i, j, k)
    ensures RealDone(re', data, g, c, c.out.Index(i, j, k + 1))
  {
    hide RealAt, Grid.Index;
    IndexNext(c.out, i, j, k);
    forall a, b, e | c.out.Has(a, b, e) && c.out.Index(a, b, e) < c.out.Index(i, j, k + 1)
      ensures At(re', c.out, a, b, e) == RealAt(data, g, c, a, b, e)
    {
      IndexInRange(c.out, a, b, e);
      if c.out.Index(a, b, e) == c.out.Index(i, j, k) {
        IndexInjective(c.out, a, b, e, i, j, k);
      }
    }
  }

  lemma IndexNext(g: Grid, i: int, j: int, k: int)
    ensures g.Index(i, j, k + 1) == g.Index(i, j, k) + 1
  {
  }

  /** Complex data: size_out_im > 0. */
  method MapComplex(cache: PhaseCache, inRe: array<real>, inIm: array<real>, g: Grid,
                    outRe: array<real>, outIm: array<real>, c: Call)
    requires cache.Valid() && g.Valid() && inRe.Length == g.Size() && inIm.Length == g.Size()
    requires c.out.Valid() && outRe.Length == c.out.Size() && outIm.Length == c.out.Size()
    requires outRe != outIm && outRe != inRe && outRe != inIm && outIm != inRe && outIm != inIm
    modifies cache, outRe, outIm
    ensures cache.Valid()
    ensures var d := Data(old(inRe[..]), old(inIm[..]), g);
            forall i, j, k :: c.out.Has(i, j, k) ==>
              Complex(At(outRe[..], c.out, i, j, k), At(outIm[..], c.out, i, j, k)) == ComplexAt(cache.t, d, c, i, j, k)
  {
    hide ComplexDone, ComplexAt, ComplexPoint, PointOf, SourcePoint, PointFits, Grid.Index;
    var d := Data(inRe[..], inIm[..], g);
    RowEnds(c.out, 0, 0);
    assert ComplexDone(outRe[..], outIm[..], cache.t, d, c, 0) by { NothingDone(outRe[..], outIm[..], cache.t, d, c); }
    for i := 0 to c.out.n0
      invariant cache.Valid()
      invariant ComplexDone(outRe[..], outIm[..], cache.t, d, c, c.out.Index(i, 0, 0))
    {
      for j := 0 to c.out.n1
        invariant cache.Valid()
        invariant ComplexDone(outRe[..], outIm[..], cache.t, d, c, c.out.Index(i, j, 0))
      {
        for k := 0 to c.out.n2
          invariant cache.Valid()
          invariant ComplexDone(outRe[..], outIm[..], cache.t, d, c, c.out.Index(i, j, k))
        {
          var q := c.out.Index(i, j, k);
          IndexInRange(c.out, i, j, k);
          ghost var re, im := outRe[..], outIm[..];
          WritePoint(cache, outRe, outIm, q, d, PointOf(g, SourcePoint(c, i, j, k), c.bloch, c.nearest), c.s);
          WrittenValue(outRe[..], outIm[..], cache.t, d, c, i, j, k);
          ComplexStep(re, im, outRe[..], outIm[..], cache.t, d, c, i, j, k);
        }
        RowEnds(c.out, i, j);
      }
      RowEnds(c.out, i, 0);
    }
    AllDone(outRe[..], outIm[..], cache.t, d, c);
  }

  lemma NothingDone(re: seq<real>, im: seq<real>, t: Trig, d: Data, c: Call)
    requires d.Valid() && c.out.Valid() && |re| == |im| == c.out.Size()
    ensures ComplexDone(re, im, t, d, c, 0)
  {
    forall i, j, k | c.out.Has(i, j, k) ensures c.out.Index(i, j, k) >= 0 {
      IndexInRange(c.out, i, j, k);
    }
  }

  lemma WrittenValue(re: seq<real>, im: seq<real>, t: Trig, d: Data, c: Call, i: int, j: int, k: int)
    requires d.Valid() && c.out.Valid() && |re| == |im| == c.out.Size() && c.out.Has(i, j, k)
    requires 0 <= c.out.Index(i, j, k) < c.out.Size()
    requires Complex(re[c.out.Index(i, j, k)], im[c.out.Index(i, j, k)])
          == ComplexPoint(t, d, PointOf(d.g, SourcePoint(c, i, j, k), c.bloch, c.nearest), c.s)
    ensures Complex(At(re, c.out, i, j, k), At(im, c.out, i, j, k)) == ComplexAt(t, d, c, i, j, k)
  {
    hide ComplexPoint, PointOf, SourcePoint;
  }

  lemma AllDone(re: seq<real>, im: seq<real>, t: Trig, d: Data, c: Call)
    requires d.Valid() && c.out.Valid() && |re| == |im| == c.out.Size()
    requires ComplexDone(re, im, t, d, c, c.out.Index(c.out.n0, 0, 0))
    ensures forall i, j, k :: c.out.Has(i, j, k) ==>
              Complex(At(re, c.out, i, j, k), At(im, c.out, i, j, k)) == ComplexAt(t, d, c, i, j, k)
  {
    hide ComplexAt, At;
    RowEnds(c.out, 0, 0);
    forall i, j, k | c.out.Has(i, j, k) ensures c.out.Index(i, j, k) < c.out.Size() {
      IndexInRange(c.out, i, j, k);
    }
  }

  /** Real data. */
  method MapReal(inRe: array<real>, g: Grid, outRe: array<real>, c: Call)
    requires g.Valid() && inRe.Length == g.Size()
    requires c.out.Valid() && outRe.Length == c.out.Size() && outRe != inRe
    modifies outRe
    ensures forall i, j, k :: c.out.Has(i, j, k) ==>
              At(outRe[..], c.out, i, j, k) == RealAt(old(inRe[..]), g, c, i, j, k)
  {
    hide RealDone, RealAt, SourcePoint, RealPoint, Grid.Index;
    ghost var data := inRe[..];
    RowEnds(c.out, 0, 0);
    assert RealDone(outRe[..], data, g, c, 0) by { NothingRealDone(outRe[..], data, g, c); }
    for i := 0 to c.out.n0
      invariant RealDone(outRe[..], data, g, c, c.out.Index(i, 0, 0))
    {
      for j := 0 to c.out.n1
        invariant RealDone(outRe[..], data, g, c, c.out.Index(i, j, 0))
      {
        for k := 0 to c.out.n2
          invariant RealDone(outRe[..], data, g, c, c.out.Index(i, j, k))
        {
          var q := c.out.Index(i, j, k);
          IndexInRange(c.out, i, j, k);
          ghost var re := outRe[..];
          outRe[q] := RealAt(inRe[..], g, c, i, j, k);
          RealStep(re, outRe[..], data, g, c, i, j, k);
        }
        RowEnds(c.out, i, j);
      }
      RowEnds(c.out, i, 0);
    }
    AllRealDone(outRe[..], data, g, c);
  }

  lemma NothingRealDone(re: seq<real>, data: seq<real>, g: Grid, c: Call)
    requires g.Valid() && |data| == g.Size() && c.out.Valid() && |re| == c.out.Size()
    ensures RealDone(re, data, g, c, 0)
  {
    forall i, j, k | c.out.Has(i, j, k) ensures c.out.Index(i, j, k) >= 0 {
      IndexInRange(c.out, i, j, k);
    }
  }

  lemma AllRealDone(re: seq<real>, data: seq<real>, g: Grid, c: Call)
    requires g.Valid() && |data| == g.Size() && c.out.Valid() && |re| == c.out.Size()
    requires RealDone(re, data, g, c, c.out.Index(c.out.n0, 0, 0))
    ensures forall i, j, k :: c.out.Has(i, j, k) ==> At(re, c.out, i, j, k) == RealAt(data, g, c, i, j, k)
  {
    hide RealAt, At;
    RowEnds(c.out, 0, 0);
    forall i, j, k | c.out.Has(i, j, k) ensures c.out.Index(i, j, k) < c.out.Size() {
      IndexInRange(c.out, i, j, k);
    }
  }
}
