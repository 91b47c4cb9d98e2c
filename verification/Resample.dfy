/** map_data (libpympb/pympb.cpp:2501-2681) and interp_val (libpympb/pympb.cpp:1717-1778): two
    periodic trilinear resamplers of a grid of samples. */
module Resample {
  import opened Reals
  import opened Integers
  import opened Vectors
  import opened ResampleAxis

  // ----- grids

  datatype Grid = Grid(n0: nat, n1: nat, n2: nat) {
    predicate Valid() { n0 >= 1 && n1 >= 1 && n2 >= 1 }

    function Size(): nat { n0 * n1 * n2 }

    predicate Has(i: int, j: int, k: int) { 0 <= i < n0 && 0 <= j < n1 && 0 <= k < n2 }

    /** IN_INDEX, and the flat index ijk of the output. */
    function Index(i: int, j: int, k: int): int { (i * n1 + j) * n2 + k }
  }

  lemma IndexInRange(g: Grid, i: int, j: int, k: int)
    requires g.Has(i, j, k)
    ensures 0 <= g.Index(i, j, k) < g.Size()
  {
    PositionInRange(i, g.n0, j, g.n1);
    PositionInRange(i * g.n1 + j, g.n0 * g.n1, k, g.n2);
  }

  lemma IndexInjective(g: Grid, i: int, j: int, k: int, i': int, j': int, k': int)
    requires g.Has(i, j, k) && g.Has(i', j', k') && g.Index(i, j, k) == g.Index(i', j', k')
    ensures i == i' && j == j' && k == k'
  {
    DivisionIsUnique(g.n2, i * g.n1 + j, k, g.Index(i, j, k));
    DivisionIsUnique(g.n2, i' * g.n1 + j', k', g.Index(i, j, k));
    DivisionIsUnique(g.n1, i, j, i * g.n1 + j);
    DivisionIsUnique(g.n1, i', j', i * g.n1 + j);
  }

  function At<T>(data: seq<T>, g: Grid, i: int, j: int, k: int): T
    requires |data| == g.Size() && g.Has(i, j, k)
  {
    IndexInRange(g, i, j, k);
    data[g.Index(i, j, k)]
  }

  /** 1 at one grid point, 0 elsewhere. */
  function UnitAt(g: Grid, i: int, j: int, k: int): (data: seq<real>)
    ensures |data| == g.Size()
  {
    seq(g.Size(), q => if q == g.Index(i, j, k) then 1.0 else 0.0)
  }

  lemma UnitAtIs(g: Grid, i: int, j: int, k: int, i': int, j': int, k': int)
    requires g.Has(i, j, k) && g.Has(i', j', k')
    ensures At(UnitAt(g, i, j, k), g, i', j', k') == if i == i' && j == j' && k == k' then 1.0 else 0.0
  {
    hide Grid.Index;
    IndexInRange(g, i', j', k');
    if g.Index(i, j, k) == g.Index(i', j', k') {
      IndexInjective(g, i, j, k, i', j', k');
    }
  }

  /** The samples at the eight neighbours; the digits tell lower (0) from upper (1). */
  datatype Corners = Corners(c000: real, c001: real, c010: real, c011: real,
                             c100: real, c101: real, c110: real, c111: real)

  predicate Fits(a: Axis, n: nat) { 0 <= a.i1 < n && 0 <= a.i2 < n && 0.0 <= a.d <= 1.0 }

  function CornersOf(data: seq<real>, g: Grid, x: Axis, y: Axis, z: Axis): Corners
    requires |data| == g.Size() && Fits(x, g.n0) && Fits(y, g.n1) && Fits(z, g.n2)
  {
    Corners(At(data, g, x.i1, y.i1, z.i1), At(data, g, x.i1, y.i1, z.i2),
            At(data, g, x.i1, y.i2, z.i1), At(data, g, x.i1, y.i2, z.i2),
            At(data, g, x.i2, y.i1, z.i1), At(data, g, x.i2, y.i1, z.i2),
            At(data, g, x.i2, y.i2, z.i1), At(data, g, x.i2, y.i2, z.i2))
  }

  // ----- the two interpolation formulas

  /** The sum of eight products in map_data. */
  function Octet(c: Corners, x: real, y: real, z: real): real {
    c.c000 * (1.0 - x) * (1.0 - y) * (1.0 - z) + c.c001 * (1.0 - x) * (1.0 - y) * z
    + c.c010 * (1.0 - x) * y * (1.0 - z) + c.c011 * (1.0 - x) * y * z
    + c.c100 * x * (1.0 - y) * (1.0 - z) + c.c101 * x * (1.0 - y) * z
    + c.c110 * x * y * (1.0 - z) + c.c111 * x * y * z
  }

  function Lerp(a: real, b: real, t: real): real { a * (1.0 - t) + b * t }

  /** The nested interpolations of interp_val: along x, then y, then z. */
  function Nested(c: Corners, x: real, y: real, z: real): real {
    Lerp(Lerp(Lerp(c.c000, c.c100, x), Lerp(c.c010, c.c110, x), y),
         Lerp(Lerp(c.c001, c.c101, x), Lerp(c.c011, c.c111, x), y), z)
  }

  lemma FormulasAgree(c: Corners, x: real, y: real, z: real)
    ensures Octet(c, x, y, z) == Nested(c, x, y, z)
  {
    hide Octet, Nested;
    OctetExpanded(c.c000, c.c001, c.c010, c.c011, c.c100, c.c101, c.c110, c.c111, x, y, z);
    assert c == Corners(c.c000, c.c001, c.c010, c.c011, c.c100, c.c101, c.c110, c.c111);
  }

  lemma OctetExpanded(a: real, b: real, c: real, d: real, e: real, f: real, g: real, h: real, x: real, y: real, z: real)
    ensures Octet(Corners(a, b, c, d, e, f, g, h), x, y, z) == Nested(Corners(a, b, c, d, e, f, g, h), x, y, z)
  {
    NestedExpanded(a, b, c, d, e, f, g, h, x, y, z);
    assert (((a * (1.0 - x) + e * x) * (1.0 - y) + (c * (1.0 - x) + g * x) * y) * (1.0 - z)
           + ((b * (1.0 - x) + f * x) * (1.0 - y) + (d * (1.0 - x) + h * x) * y) * z)
        == a * (1.0 - x) * (1.0 - y) * (1.0 - z) + b * (1.0 - x) * (1.0 - y) * z
         + c * (1.0 - x) * y * (1.0 - z) + d * (1.0 - x) * y * z
         + e * x * (1.0 - y) * (1.0 - z) + f * x * (1.0 - y) * z
         + g * x * y * (1.0 - z) + h * x * y * z;
  }

  lemma NestedExpanded(a: real, b: real, c: real, d: real, e: real, f: real, g: real, h: real, x: real, y: real, z: real)
    ensures Nested(Corners(a, b, c, d, e, f, g, h), x, y, z)
         == ((a * (1.0 - x) + e * x) * (1.0 - y) + (c * (1.0 - x) + g * x) * y) * (1.0 - z)
          + ((b * (1.0 - x) + f * x) * (1.0 - y) + (d * (1.0 - x) + h * x) * y) * z
  {
  }

  lemma LerpBounds(a: real, b: real, t: real, lo: real, hi: real)
    requires 0.0 <= t <= 1.0 && lo <= a <= hi && lo <= b <= hi
    ensures lo <= Lerp(a, b, t) <= hi
  {
    ProductSign(a - lo, 1.0 - t, (a - lo) * (1.0 - t));
    ProductSign(b - lo, t, (b - lo) * t);
    ProductSign(hi - a, 1.0 - t, (hi - a) * (1.0 - t));
    ProductSign(hi - b, t, (hi - b) * t);
    assert Lerp(a, b, t) - lo == (a - lo) * (1.0 - t) + (b - lo) * t;
    assert hi - Lerp(a, b, t) == (hi - a) * (1.0 - t) + (hi - b) * t;
  }

  predicate CornersWithin(c: Corners, lo: real, hi: real) {
    && lo <= c.c000 <= hi && lo <= c.c001 <= hi && lo <= c.c010 <= hi && lo <= c.c011 <= hi
    && lo <= c.c100 <= hi && lo <= c.c101 <= hi && lo <= c.c110 <= hi && lo <= c.c111 <= hi
  }

  /** The weights are non-negative and add up to one: the value stays within the samples. */
  lemma OctetBounds(c: Corners, x: real, y: real, z: real, lo: real, hi: real)
    requires 0.0 <= x <= 1.0 && 0.0 <= y <= 1.0 && 0.0 <= z <= 1.0 && CornersWithin(c, lo, hi)
    ensures lo <= Octet(c, x, y, z) <= hi
  {
    hide Octet, Lerp;
    FormulasAgree(c, x, y, z);
    LerpBounds(c.c000, c.c100, x, lo, hi);
    LerpBounds(c.c010, c.c110, x, lo, hi);
    LerpBounds(c.c001, c.c101, x, lo, hi);
    LerpBounds(c.c011, c.c111, x, lo, hi);
    LerpBounds(Lerp(c.c000, c.c100, x), Lerp(c.c010, c.c110, x), y, lo, hi);
    LerpBounds(Lerp(c.c001, c.c101, x), Lerp(c.c011, c.c111, x), y, lo, hi);
    LerpBounds(Lerp(Lerp(c.c000, c.c100, x), Lerp(c.c010, c.c110, x), y),
               Lerp(Lerp(c.c001, c.c101, x), Lerp(c.c011, c.c111, x), y), z, lo, hi);
  }

  predicate IsCornerWeight(t: real) { t == 0.0 || t == 1.0 }

  /** The corner that weights 0 and 1 select. */
  function Selected(c: Corners, x: real, y: real, z: real): real {
    if x == 0.0 then
      if y == 0.0 then (if z == 0.0 then c.c000 else c.c001) else (if z == 0.0 then c.c010 else c.c011)
    else
      if y == 0.0 then (if z == 0.0 then c.c100 else c.c101) else (if z == 0.0 then c.c110 else c.c111)
  }

  lemma LerpSelects(a: real, b: real, t: real)
    requires IsCornerWeight(t)
    ensures Lerp(a, b, t) == if t == 0.0 then a else b
  {
  }

  lemma OctetSelects(c: Corners, x: real, y: real, z: real)
    requires IsCornerWeight(x) && IsCornerWeight(y) && IsCornerWeight(z)
    ensures Octet(c, x, y, z) == Selected(c, x, y, z)
  {
    hide Octet, Lerp;
    FormulasAgree(c, x, y, z);
    LerpSelects(c.c000, c.c100, x);
    LerpSelects(c.c010, c.c110, x);
    LerpSelects(c.c001, c.c101, x);
    LerpSelects(c.c011, c.c111, x);
    LerpSelects(Lerp(c.c000, c.c100, x), Lerp(c.c010, c.c110, x), y);
    LerpSelects(Lerp(c.c001, c.c101, x), Lerp(c.c011, c.c111, x), y);
    LerpSelects(Lerp(Lerp(c.c000, c.c100, x), Lerp(c.c010, c.c110, x), y),
                Lerp(Lerp(c.c001, c.c101, x), Lerp(c.c011, c.c111, x), y), z);
  }

  // ----- map_data at one point, for real data

  lemma AxisFits(x: real, n: nat, bloch: bool, nearest: bool)
    requires n >= 1
    ensures Fits(AxisOf(x, n, bloch, nearest), n)
  {
    AxisInRange(x, n, bloch, nearest);
  }

  function RealPoint(data: seq<real>, g: Grid, p: Vector3, bloch: bool, nearest: bool): real
    requires g.Valid() && |data| == g.Size()
  {
    AxisFits(p.x, g.n0, bloch, nearest);
    AxisFits(p.y, g.n1, bloch, nearest);
    AxisFits(p.z, g.n2, bloch, nearest);
    var x, y, z := AxisOf(p.x, g.n0, bloch, nearest), AxisOf(p.y, g.n1, bloch, nearest), AxisOf(p.z, g.n2, bloch, nearest);
    Octet(CornersOf(data, g, x, y, z), x.d, y.d, z.d)
  }

  /** Outputs stay between the smallest and the largest input. */
  lemma RealPointBounds(data: seq<real>, g: Grid, p: Vector3, bloch: bool, nearest: bool, lo: real, hi: real)
    requires g.Valid() && |data| == g.Size()
    requires forall q :: 0 <= q < |data| ==> lo <= data[q] <= hi
    ensures lo <= RealPoint(data, g, p, bloch, nearest) <= hi
  {
    hide AxisOf, Octet;
    AxisFits(p.x, g.n0, bloch, nearest);
    AxisFits(p.y, g.n1, bloch, nearest);
    AxisFits(p.z, g.n2, bloch, nearest);
    var x, y, z := AxisOf(p.x, g.n0, bloch, nearest), AxisOf(p.y, g.n1, bloch, nearest), AxisOf(p.z, g.n2, bloch, nearest);
    forall i, j, k | g.Has(i, j, k) ensures lo <= At(data, g, i, j, k) <= hi {
      IndexInRange(g, i, j, k);
    }
    OctetBounds(CornersOf(data, g, x, y, z), x.d, y.d, z.d, lo, hi);
  }

  /** The neighbour that pick_nearest keeps. */
  function Kept(a: Axis): int { if a.d == 0.0 then a.i1 else a.i2 }

  /** With pick_nearest every output is exactly one input sample: the nearest. */
  lemma NearestIsSample(data: seq<real>, g: Grid, p: Vector3, bloch: bool)
    requires g.Valid() && |data| == g.Size()
    ensures var i, j, k := Kept(AxisOf(p.x, g.n0, bloch, true)), Kept(AxisOf(p.y, g.n1, bloch, true)), Kept(AxisOf(p.z, g.n2, bloch, true));
            g.Has(i, j, k) && RealPoint(data, g, p, bloch, true) == At(data, g, i, j, k)
  {
    hide AxisOf, Octet, At;
    AxisInRange(p.x, g.n0, bloch, true);
    AxisInRange(p.y, g.n1, bloch, true);
    AxisInRange(p.z, g.n2, bloch, true);
    var x, y, z := AxisOf(p.x, g.n0, bloch, true), AxisOf(p.y, g.n1, bloch, true), AxisOf(p.z, g.n2, bloch, true);
    OctetSelects(CornersOf(data, g, x, y, z), x.d, y.d, z.d);
  }

  // ----- interp_val

  /** modf followed by `if (r < 0) r += 1`. */
  function Fraction(x: real): real {
    var f := x - Trunc(x) as real;
    if f < 0.0 then f + 1.0 else f
  }

  /** The grid index, the other index and the weight of one coordinate. */
  function InterpAxis(r: real, n: nat): (int, int, real)
    requires n >= 1
  {
    var g := OnGrid(r, n);
    var x := Trunc(g);
    var dx := g - x as real;
    (x, (n + (if dx >= 0.0 then x + 1 else x - 1)) % n, if dx < 0.0 then -dx else dx)
  }

  function GetVal(data: seq<real>, g: Grid, i: int, j: int, k: int, stride: nat): real
    requires g.Has(i, j, k) && |data| == g.Size() * stride && stride >= 1
  {
    StridedIndex(g, i, j, k, stride);
    data[g.Index(i, j, k) * stride]
  }

  lemma StridedIndex(g: Grid, i: int, j: int, k: int, stride: nat)
    requires g.Has(i, j, k) && stride >= 1
    ensures 0 <= g.Index(i, j, k) * stride < g.Size() * stride
  {
    IndexInRange(g, i, j, k);
    var d := g.Size() - g.Index(i, j, k);
    assert d * stride >= 1 by { assert d >= 1; PositiveTimes(d, stride); }
    assert g.Size() * stride - g.Index(i, j, k) * stride == d * stride;
    PositiveTimes(g.Index(i, j, k), stride);
  }

  lemma PositiveTimes(a: int, b: int)
    ensures a >= 1 && b >= 1 ==> a * b >= 1
    ensures a >= 0 && b >= 0 ==> a * b >= 0
  {
  }

  /** InterpAxis finds the same neighbours and the same weight as map_data. */
  lemma InterpAxisAgrees(x: real, n: nat)
    requires n >= 1
    ensures var a := AxisOf(x, n, false, false);
            InterpAxis(Fraction(x), n) == (a.i1, a.i2, a.d)
  {
    hide OnGrid;
    ModfIsFloor(x);
    AxisInRange(x, n, false, false);
    var a := AxisOf(x, n, false, false);
    assert Fraction(x) == ModfPositive(x).0;
    WrapModulo(a.i1, n);
  }

  lemma WrapModulo(i: int, n: nat)
    requires n >= 1
    ensures (n + (i + 1)) % n == (i + 1) % n
  {
    DivisionIsUnique(n, (i + 1) / n + 1, (i + 1) % n, n + (i + 1));
  }

  /** interp_val at the point p in Cartesian lattice coordinates. */
  function InterpVal(p: Vector3, size: Vector3, g: Grid, data: seq<real>): real
    requires g.Valid() && |data| == g.Size()
  {
    var rx, ry, rz := p.x / OrTiny(size.x) + 0.5, p.y / OrTiny(size.y) + 0.5, p.z / OrTiny(size.z) + 0.5;
    InterpAxisAgrees(rx, g.n0);
    InterpAxisAgrees(ry, g.n1);
    InterpAxisAgrees(rz, g.n2);
    AxisFits(rx, g.n0, false, false);
    AxisFits(ry, g.n1, false, false);
    AxisFits(rz, g.n2, false, false);
    assert g.Size() * 1 == g.Size();
    var (x, x2, dx) := InterpAxis(Fraction(rx), g.n0);
    var (y, y2, dy) := InterpAxis(Fraction(ry), g.n1);
    var (z, z2, dz) := InterpAxis(Fraction(rz), g.n2);
    Lerp(Lerp(Lerp(GetVal(data, g, x, y, z, 1), GetVal(data, g, x2, y, z, 1), dx),
              Lerp(GetVal(data, g, x, y2, z, 1), GetVal(data, g, x2, y2, z, 1), dx), dy),
         Lerp(Lerp(GetVal(data, g, x, y, z2, 1), GetVal(data, g, x2, y, z2, 1), dx),
              Lerp(GetVal(data, g, x, y2, z2, 1), GetVal(data, g, x2, y2, z2, 1), dx), dy), dz)
  }

  /** The two resamplers agree: without pick_nearest, map_data at the point x of the unit cell is
      interp_val at the Cartesian point that has these coordinates. */
  lemma ResamplersAgree(p: Vector3, size: Vector3, g: Grid, data: seq<real>)
    requires g.Valid() && |data| == g.Size()
    ensures var x := Vector3(p.x / OrTiny(size.x) + 0.5, p.y / OrTiny(size.y) + 0.5, p.z / OrTiny(size.z) + 0.5);
            InterpVal(p, size, g, data) == RealPoint(data, g, x, false, false)
  {
    hide AxisOf, Lerp, Octet, OnGrid, Fraction, InterpAxis;
    var rx, ry, rz := p.x / OrTiny(size.x) + 0.5, p.y / OrTiny(size.y) + 0.5, p.z / OrTiny(size.z) + 0.5;
    InterpAxisAgrees(rx, g.n0);
    InterpAxisAgrees(ry, g.n1);
    InterpAxisAgrees(rz, g.n2);
    AxisFits(rx, g.n0, false, false);
    AxisFits(ry, g.n1, false, false);
    AxisFits(rz, g.n2, false, false);
    var x, y, z := AxisOf(rx, g.n0, false, false), AxisOf(ry, g.n1, false, false), AxisOf(rz, g.n2, false, false);
    FormulasAgree(CornersOf(data, g, x, y, z), x.d, y.d, z.d);
  }
}
