/** The boundary boxes and the interior fill the cell (python/simulation.py:1874-2035). */
module BoundaryVolumes {
  import opened Reals
  import opened Vectors
  import opened Boundary
  import opened BoundaryPartition

  function SumOfSizes(v: seq<Volume>): real {
    if v == [] then 0.0 else SumOfSizes(v[..|v| - 1]) + v[|v| - 1].Size()
  }

  function SizeOf(c: Cell, z: Zones): real { Product(c.x.Extent(z.x), c.y.Extent(z.y), c.z.Extent(z.z)) }

  function SumOfZones(c: Cell, zs: seq<Zones>): real {
    if zs == [] then 0.0 else SumOfZones(c, zs[..|zs| - 1]) + SizeOf(c, zs[|zs| - 1])
  }

  lemma {:induction false} SizesOfBoxes(c: Cell, zs: seq<Zones>)
    ensures SumOfSizes(Boxes(zs, c)) == SumOfZones(c, zs)
  {
    hide Span.Extent, Span.Center;
    if zs != [] {
      var n := |zs| - 1;
      SizesOfBoxes(c, zs[..n]);
      assert Boxes(zs, c)[..n] == Boxes(zs[..n], c);
    }
  }

  lemma {:induction false} SumConcat(c: Cell, a: seq<Zones>, b: seq<Zones>)
    ensures SumOfZones(c, a + b) == SumOfZones(c, a) + SumOfZones(c, b)
  {
    hide SizeOf;
    if b == [] {
      assert a + b == a;
    } else {
      SumConcat(c, a, b[..|b| - 1]);
      assert (a + b)[..|a + b| - 1] == a + b[..|b| - 1];
    }
  }

  lemma SumNone(c: Cell)
    ensures SumOfZones(c, []) == 0.0
  {
  }

  /** A box that is not listed because a layer is missing has no volume. */
  lemma SumWhen(c: Cell, cond: bool, e: Zones)
    requires !cond ==> SizeOf(c, e) == 0.0
    ensures SumOfZones(c, When(cond, e)) == SizeOf(c, e)
  {
    hide SizeOf;
    assert [e][..0] == [];
  }

  lemma NoSize(c: Cell, z: Zones)
    requires !c.HasZones(z)
    ensures SizeOf(c, z) == 0.0
  {
  }

  /** The volume of faces, edges and corners at one side, present or not. */
  function EdgeSizes(c: Cell, s: Side): real {
    if AxisOf(s) == DirX then 0.0
    else
      SizeOf(c, Meet(Face(s), Face(Left))) + SizeOf(c, Meet(Face(s), Face(Right)))
      + if AxisOf(s) == DirZ then 0.0
        else SizeOf(c, Meet(Face(s), Face(Near))) + SizeOf(c, Meet(Face(s), Face(Far)))
  }

  function CornerSizes(c: Cell, s: Side): real {
    if AxisOf(s) != DirY then 0.0
    else
      SizeOf(c, Meet(Meet(Face(s), Face(Left)), Face(Near))) + SizeOf(c, Meet(Meet(Face(s), Face(Right)), Face(Near)))
      + SizeOf(c, Meet(Meet(Face(s), Face(Left)), Face(Far))) + SizeOf(c, Meet(Meet(Face(s), Face(Right)), Face(Far)))
  }

  lemma Missing(cell: Vector3, t: Thickness, s: Side, z: Zones)
    requires t.Of(s) == 0.0
    requires if AxisOf(s) == DirX then z.x == ZoneFor(s) else if AxisOf(s) == DirY then z.y == ZoneFor(s) else z.z == ZoneFor(s)
    ensures SizeOf(CellOf(cell, t), z) == 0.0
  {
    hide SizeOf;
    NoSize(CellOf(cell, t), z);
  }

  lemma EdgeSize(cell: Vector3, t: Thickness, s: Side, a: Side)
    requires AxisOf(s) != AxisOf(a)
    ensures SumOfZones(CellOf(cell, t), Edge(t, s, a)) == SizeOf(CellOf(cell, t), Meet(Face(s), Face(a)))
    ensures t.Of(s) == 0.0 ==> SizeOf(CellOf(cell, t), Meet(Face(s), Face(a))) == 0.0
  {
    hide SizeOf, CellOf;
    if t.Of(s) == 0.0 {
      Missing(cell, t, s, Meet(Face(s), Face(a)));
    }
    if t.Of(a) == 0.0 {
      Missing(cell, t, a, Meet(Face(s), Face(a)));
    }
    SumWhen(CellOf(cell, t), t.Of(a) != 0.0, Meet(Face(s), Face(a)));
  }

  lemma CornerSize(cell: Vector3, t: Thickness, s: Side, a: Side, b: Side)
    requires AxisOf(s) == DirY && AxisOf(a) == DirX && AxisOf(b) == DirZ
    ensures SumOfZones(CellOf(cell, t), Corner(t, s, a, b)) == SizeOf(CellOf(cell, t), Meet(Meet(Face(s), Face(a)), Face(b)))
    ensures t.Of(s) == 0.0 || t.Of(b) == 0.0 ==> SizeOf(CellOf(cell, t), Meet(Meet(Face(s), Face(a)), Face(b))) == 0.0
  {
    hide SizeOf, CellOf;
    var z := Meet(Meet(Face(s), Face(a)), Face(b));
    if t.Of(s) == 0.0 {
      Missing(cell, t, s, z);
    }
    if t.Of(a) == 0.0 {
      Missing(cell, t, a, z);
    }
    if t.Of(b) == 0.0 {
      Missing(cell, t, b, z);
    }
    SumWhen(CellOf(cell, t), t.Of(a) != 0.0 && t.Of(b) != 0.0, z);
  }

  lemma FaceSize(cell: Vector3, t: Thickness, s: Side)
    ensures SumOfZones(CellOf(cell, t), FacesAt(t, s)) == SizeOf(CellOf(cell, t), Face(s))
  {
    hide SizeOf, CellOf;
    if t.Of(s) == 0.0 {
      Missing(cell, t, s, Face(s));
    }
    SumWhen(CellOf(cell, t), t.Of(s) != 0.0, Face(s));
  }

  lemma EdgesSize(cell: Vector3, t: Thickness, s: Side, dimensions: nat)
    requires Flat(t, dimensions)
    ensures SumOfZones(CellOf(cell, t), EdgesAt(t, s, dimensions)) == EdgeSizes(CellOf(cell, t), s)
  {
    hide SizeOf, CellOf, Edge, Face, Meet, SumOfZones;
    var c := CellOf(cell, t);
    SumNone(c);
    SumConcat(c, EdgesInX(t, s), EdgesInZ(t, s, dimensions));
    if AxisOf(s) != DirX {
      EdgeSize(cell, t, s, Left);
      EdgeSize(cell, t, s, Right);
      SumConcat(c, Edge(t, s, Left), Edge(t, s, Right));
    }
    if AxisOf(s) == DirY {
      EdgeSize(cell, t, s, Near);
      EdgeSize(cell, t, s, Far);
      EdgeSize(cell, t, Near, s);
      EdgeSize(cell, t, Far, s);
      MeetEither(s, Near);
      MeetEither(s, Far);
      SumConcat(c, Edge(t, s, Near), Edge(t, s, Far));
    }
  }

  lemma MeetEither(a: Side, b: Side)
    requires AxisOf(a) != AxisOf(b)
    ensures Meet(Face(a), Face(b)) == Meet(Face(b), Face(a))
  {
  }

  lemma CornersSize(cell: Vector3, t: Thickness, s: Side, dimensions: nat)
    requires Flat(t, dimensions)
    ensures SumOfZones(CellOf(cell, t), CornersAt(t, s, dimensions)) == CornerSizes(CellOf(cell, t), s)
  {
    hide SizeOf, CellOf, Corner, Face, Meet, SumOfZones;
    var c := CellOf(cell, t);
    SumNone(c);
    if AxisOf(s) == DirY {
      var c1, c2, c3, c4 := Corner(t, s, Left, Near), Corner(t, s, Right, Near), Corner(t, s, Left, Far), Corner(t, s, Right, Far);
      CornerSize(cell, t, s, Left, Near);
      CornerSize(cell, t, s, Right, Near);
      CornerSize(cell, t, s, Left, Far);
      CornerSize(cell, t, s, Right, Far);
      SumConcat(c, c1, c2);
      SumConcat(c, c1 + c2, c3);
      SumConcat(c, c1 + c2 + c3, c4);
    }
  }

  /** Volumes of the three lists up to side number k. */
  function SizesBefore(c: Cell, k: nat): real
    requires k <= 6
  {
    if k == 0 then 0.0
    else SizesBefore(c, k - 1) + SizeOf(c, Face(Sides[k - 1])) + EdgeSizes(c, Sides[k - 1]) + CornerSizes(c, Sides[k - 1])
  }

  lemma {:induction false} ListSizes(cell: Vector3, t: Thickness, dimensions: nat, k: nat)
    requires k <= 6 && Flat(t, dimensions)
    ensures var c := CellOf(cell, t);
            SumOfZones(c, FacesBefore(t, k)) + SumOfZones(c, EdgesBefore(t, dimensions, k))
            + SumOfZones(c, CornersBefore(t, dimensions, k)) == SizesBefore(c, k)
  {
    hide SizeOf, CellOf, FacesAt, EdgesAt, CornersAt, EdgeSizes, CornerSizes, SumOfZones;
    var c := CellOf(cell, t);
    SumNone(c);
    if k > 0 {
      var s := Sides[k - 1];
      ListSizes(cell, t, dimensions, k - 1);
      SumConcat(c, FacesBefore(t, k - 1), FacesAt(t, s));
      SumConcat(c, EdgesBefore(t, dimensions, k - 1), EdgesAt(t, s, dimensions));
      SumConcat(c, CornersBefore(t, dimensions, k - 1), CornersAt(t, s, dimensions));
      FaceSize(cell, t, s);
      EdgesSize(cell, t, s, dimensions);
      CornersSize(cell, t, s, dimensions);
    }
  }

  // ----- all 27 zones

  function Column(c: Cell, x: Zone, y: Zone): real {
    SizeOf(c, Zones(x, y, LowZone)) + SizeOf(c, Zones(x, y, Middle)) + SizeOf(c, Zones(x, y, HighZone))
  }

  function Slab(c: Cell, x: Zone): real { Column(c, x, LowZone) + Column(c, x, Middle) + Column(c, x, HighZone) }

  function SideSizes(c: Cell, s: Side): real { SizeOf(c, Face(s)) + EdgeSizes(c, s) + CornerSizes(c, s) }

  /** Top and bottom bring every zone triple with their y zone. */
  lemma YSideSizes(c: Cell, s: Side)
    requires AxisOf(s) == DirY
    ensures SideSizes(c, s) == Column(c, LowZone, ZoneFor(s)) + Column(c, Middle, ZoneFor(s)) + Column(c, HighZone, ZoneFor(s))
  {
    hide SizeOf;
  }

  lemma XSideSizes(c: Cell, s: Side)
    requires AxisOf(s) == DirX
    ensures SideSizes(c, s) == SizeOf(c, Zones(ZoneFor(s), Middle, Middle))
  {
    hide SizeOf;
  }

  lemma ZSideSizes(c: Cell, s: Side)
    requires AxisOf(s) == DirZ
    ensures SideSizes(c, s) == SizeOf(c, Zones(LowZone, Middle, ZoneFor(s))) + SizeOf(c, Zones(Middle, Middle, ZoneFor(s)))
                             + SizeOf(c, Zones(HighZone, Middle, ZoneFor(s)))
  {
    hide SizeOf;
  }

  lemma SizesStep(c: Cell, k: nat)
    requires k < 6
    ensures SizesBefore(c, k + 1) == SizesBefore(c, k) + SideSizes(c, Sides[k])
  {
  }

  /** The other four sides bring the triples with y in the middle, all but the interior. */
  lemma MiddleSizes(c: Cell)
    ensures SideSizes(c, Left) + SideSizes(c, Right) + SideSizes(c, Near) + SideSizes(c, Far)
          + SizeOf(c, Zones(Middle, Middle, Middle))
         == Column(c, LowZone, Middle) + Column(c, Middle, Middle) + Column(c, HighZone, Middle)
  {
    hide SizeOf, SideSizes;
    XSideSizes(c, Left);
    XSideSizes(c, Right);
    ZSideSizes(c, Near);
    ZSideSizes(c, Far);
  }

  lemma SixSides(c: Cell)
    ensures SizesBefore(c, 6) + SizeOf(c, Zones(Middle, Middle, Middle)) == Slab(c, LowZone) + Slab(c, Middle) + Slab(c, HighZone)
  {
    assert SizesBefore(c, 0) == 0.0;
    hide SizeOf, SizesBefore, SideSizes, Column;
    SizesStep(c, 0);
    SizesStep(c, 1);
    SizesStep(c, 2);
    SizesStep(c, 3);
    SizesStep(c, 4);
    SizesStep(c, 5);
    YSideSizes(c, Top);
    YSideSizes(c, Bottom);
    MiddleSizes(c);
  }

  lemma ColumnSize(c: Cell, x: Zone, y: Zone)
    ensures Column(c, x, y) == Product(c.x.Extent(x), c.y.Extent(y), c.z.size)
  {
    var a, b := c.x.Extent(x), c.y.Extent(y);
    ThirdFactor(a, b, c.z.low, c.z.size - (c.z.low + c.z.high), c.z.high);
  }

  lemma ThirdFactor(a: real, b: real, l: real, m: real, h: real)
    ensures Product(a, b, l) + Product(a, b, m) + Product(a, b, h) == Product(a, b, l + m + h)
  {
  }

  lemma SecondFactor(a: real, l: real, m: real, h: real, b: real)
    ensures Product(a, l, b) + Product(a, m, b) + Product(a, h, b) == Product(a, l + m + h, b)
  {
  }

  lemma FirstFactor(l: real, m: real, h: real, a: real, b: real)
    ensures Product(l, a, b) + Product(m, a, b) + Product(h, a, b) == Product(l + m + h, a, b)
  {
  }

  lemma SlabSize(c: Cell, x: Zone)
    ensures Slab(c, x) == Product(c.x.Extent(x), c.y.size, c.z.size)
  {
    hide Column, Product;
    ColumnSize(c, x, LowZone);
    ColumnSize(c, x, Middle);
    ColumnSize(c, x, HighZone);
    SecondFactor(c.x.Extent(x), c.y.low, c.y.size - (c.y.low + c.y.high), c.y.high, c.z.size);
  }

  /** Faces, edges and corners together with the interior have the volume of the cell, whatever the
      thicknesses: boxes left out for a missing layer are empty. */
  lemma VolumesFillCell(cell: Vector3, t: Thickness, dimensions: nat)
    requires Flat(t, dimensions)
    ensures var c := CellOf(cell, t);
            SumOfSizes(Boxes(FacesBefore(t, 6), c)) + SumOfSizes(Boxes(EdgesBefore(t, dimensions, 6), c))
            + SumOfSizes(Boxes(CornersBefore(t, dimensions, 6), c))
            + c.BoxOf(Zones(Middle, Middle, Middle)).Size() == cell.x * cell.y * cell.z
  {
    hide Slab, SizesBefore, SumOfSizes, FacesBefore, EdgesBefore, CornersBefore, SumOfZones, Boxes;
    var c := CellOf(cell, t);
    SizesOfBoxes(c, FacesBefore(t, 6));
    SizesOfBoxes(c, EdgesBefore(t, dimensions, 6));
    SizesOfBoxes(c, CornersBefore(t, dimensions, 6));
    ListSizes(cell, t, dimensions, 6);
    SixSides(c);
    CellSize(c);
  }

  lemma CellSize(c: Cell)
    ensures Slab(c, LowZone) + Slab(c, Middle) + Slab(c, HighZone) == c.x.size * c.y.size * c.z.size
  {
    hide Slab;
    SlabSize(c, LowZone);
    SlabSize(c, Middle);
    SlabSize(c, HighZone);
    FirstFactor(c.x.low, c.x.size - (c.x.low + c.x.high), c.x.high, c.y.size, c.z.size);
  }
}
