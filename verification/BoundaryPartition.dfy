/** The three lists of boundary boxes partition the layers of the cell (python/simulation.py:1874-2035). */
module BoundaryPartition {
  import opened Vectors
  import opened Boundary

  // ----- counting

  function CountIn(v: seq<Volume>, p: Vector3): nat {
    if v == [] then 0 else CountIn(v[..|v| - 1], p) + if Contains(v[|v| - 1], p) then 1 else 0
  }

  function Times(zs: seq<Zones>, z: Zones): nat {
    if zs == [] then 0 else Times(zs[..|zs| - 1], z) + if zs[|zs| - 1] == z then 1 else 0
  }

  lemma {:induction false} TimesConcat(a: seq<Zones>, b: seq<Zones>, z: Zones)
    ensures Times(a + b, z) == Times(a, z) + Times(b, z)
  {
    if b == [] {
      assert a + b == a;
    } else {
      TimesConcat(a, b[..|b| - 1], z);
      assert (a + b)[..|a + b| - 1] == a + b[..|b| - 1];
    }
  }

  lemma TimesWhen(c: bool, e: Zones, z: Zones)
    ensures Times(When(c, e), z) == if c && e == z then 1 else 0
  {
    assert [e][..0] == [];
  }

  predicate AllIn(zs: seq<Zones>, c: Cell) { forall i :: 0 <= i < |zs| ==> c.HasZones(zs[i]) }

  lemma AllInConcat(a: seq<Zones>, b: seq<Zones>, c: Cell)
    requires AllIn(a, c) && AllIn(b, c)
    ensures AllIn(a + b, c)
  {
  }

  lemma BoxContains(c: Cell, z: Zones, p: Vector3)
    requires c.Fits() && c.In(p) && c.OffFaces(p) && c.HasZones(z)
    ensures Contains(c.BoxOf(z), p) <==> z == c.ZonesOf(p)
  {
    hide Span.Center, Span.Extent, Span.ZoneOf, Within;
    ZoneContains(c.x, z.x, p.x);
    ZoneContains(c.y, z.y, p.y);
    ZoneContains(c.z, z.z, p.z);
  }

  lemma {:induction false} CountIsTimes(zs: seq<Zones>, c: Cell, p: Vector3)
    requires c.Fits() && c.In(p) && c.OffFaces(p) && AllIn(zs, c)
    ensures CountIn(Boxes(zs, c), p) == Times(zs, c.ZonesOf(p))
  {
    hide Cell.BoxOf, Cell.ZonesOf, Contains, Cell.HasZones, Cell.Fits, Cell.In, Cell.OffFaces;
    if zs != [] {
      var n := |zs| - 1;
      CountIsTimes(zs[..n], c, p);
      BoxContains(c, zs[n], p);
      assert Boxes(zs, c)[..n] == Boxes(zs[..n], c);
    }
  }

  // ----- each zone triple is listed once, in the list of its rank

  function Outer(z: Zone): nat { if z == Middle then 0 else 1 }

  /** Number of layers that meet in a zone triple. */
  function Rank(z: Zones): nat { Outer(z.x) + Outer(z.y) + Outer(z.z) }

  /** With fewer than three dimensions there are no layers near and far. */
  predicate Flat(t: Thickness, dimensions: nat) { dimensions != 3 ==> t.near == 0.0 && t.far == 0.0 }

  function One(c: bool): nat { if c then 1 else 0 }

  lemma FacesTimes(t: Thickness, z: Zones)
    ensures Times(FacesBefore(t, 6), z)
         == One(t.top != 0.0 && z == Face(Top)) + One(t.bottom != 0.0 && z == Face(Bottom)) + One(t.left != 0.0 && z == Face(Left))
          + One(t.right != 0.0 && z == Face(Right)) + One(t.near != 0.0 && z == Face(Near)) + One(t.far != 0.0 && z == Face(Far))
  {
    hide Times, When, Face;
    assert Times([], z) == 0 by { TimesNone(z); }
    FacesStep(t, z, 0);
    FacesStep(t, z, 1);
    FacesStep(t, z, 2);
    FacesStep(t, z, 3);
    FacesStep(t, z, 4);
    FacesStep(t, z, 5);
  }

  lemma TimesNone(z: Zones)
    ensures Times([], z) == 0
  {
  }

  lemma FacesStep(t: Thickness, z: Zones, k: nat)
    requires k < 6
    ensures Times(FacesBefore(t, k + 1), z) == Times(FacesBefore(t, k), z) + One(t.Of(Sides[k]) != 0.0 && z == Face(Sides[k]))
  {
    hide Times, When, Face;
    TimesConcat(FacesBefore(t, k), FacesAt(t, Sides[k]), z);
    TimesWhen(t.Of(Sides[k]) != 0.0, Face(Sides[k]), z);
  }

  /** How often the edges of side s hold z. */
  function EdgeTimes(t: Thickness, s: Side, z: Zones): nat {
    if t.Of(s) == 0.0 || AxisOf(s) == DirX then 0
    else
      One(t.left != 0.0 && z == Meet(Face(s), Face(Left))) + One(t.right != 0.0 && z == Meet(Face(s), Face(Right)))
      + if AxisOf(s) == DirZ then 0
        else One(t.near != 0.0 && z == Meet(Face(s), Face(Near))) + One(t.far != 0.0 && z == Meet(Face(s), Face(Far)))
  }

  lemma EdgesAtTimes(t: Thickness, s: Side, dimensions: nat, z: Zones)
    requires Flat(t, dimensions)
    ensures Times(EdgesAt(t, s, dimensions), z) == EdgeTimes(t, s, z)
  {
    hide Times, When, Face, Meet;
    TimesNone(z);
    TimesConcat(EdgesInX(t, s), EdgesInZ(t, s, dimensions), z);
    TimesConcat(Edge(t, s, Left), Edge(t, s, Right), z);
    TimesConcat(Edge(t, s, Near), Edge(t, s, Far), z);
    TimesWhen(t.left != 0.0, Meet(Face(s), Face(Left)), z);
    TimesWhen(t.right != 0.0, Meet(Face(s), Face(Right)), z);
    TimesWhen(t.near != 0.0, Meet(Face(s), Face(Near)), z);
    TimesWhen(t.far != 0.0, Meet(Face(s), Face(Far)), z);
  }

  lemma EdgesStep(t: Thickness, dimensions: nat, z: Zones, k: nat)
    requires k < 6 && Flat(t, dimensions)
    ensures Times(EdgesBefore(t, dimensions, k + 1), z) == Times(EdgesBefore(t, dimensions, k), z) + EdgeTimes(t, Sides[k], z)
  {
    hide Times, EdgesAt, EdgeTimes;
    TimesConcat(EdgesBefore(t, dimensions, k), EdgesAt(t, Sides[k], dimensions), z);
    EdgesAtTimes(t, Sides[k], dimensions, z);
  }

  lemma EdgesTimes(t: Thickness, dimensions: nat, z: Zones)
    requires Flat(t, dimensions)
    ensures Times(EdgesBefore(t, dimensions, 6), z)
         == EdgeTimes(t, Top, z) + EdgeTimes(t, Bottom, z) + EdgeTimes(t, Left, z) + EdgeTimes(t, Right, z)
          + EdgeTimes(t, Near, z) + EdgeTimes(t, Far, z)
  {
    hide Times, EdgeTimes, EdgesAt;
    TimesNone(z);
    EdgesStep(t, dimensions, z, 0);
    EdgesStep(t, dimensions, z, 1);
    EdgesStep(t, dimensions, z, 2);
    EdgesStep(t, dimensions, z, 3);
    EdgesStep(t, dimensions, z, 4);
    EdgesStep(t, dimensions, z, 5);
  }

  function CornerTimes(t: Thickness, s: Side, a: Side, b: Side, z: Zones): nat {
    One(t.Of(s) != 0.0 && t.Of(a) != 0.0 && t.Of(b) != 0.0 && z == Meet(Meet(Face(s), Face(a)), Face(b)))
  }

  /** How often the corners of side s hold z. */
  function CornersTimesAt(t: Thickness, s: Side, z: Zones): nat {
    if AxisOf(s) != DirY then 0
    else
      CornerTimes(t, s, Left, Near, z) + CornerTimes(t, s, Right, Near, z)
      + CornerTimes(t, s, Left, Far, z) + CornerTimes(t, s, Right, Far, z)
  }

  lemma CornersAtTimes(t: Thickness, s: Side, dimensions: nat, z: Zones)
    requires Flat(t, dimensions)
    ensures Times(CornersAt(t, s, dimensions), z) == CornersTimesAt(t, s, z)
  {
    hide Times, When, Face, Meet;
    TimesNone(z);
    var c1, c2, c3, c4 := Corner(t, s, Left, Near), Corner(t, s, Right, Near), Corner(t, s, Left, Far), Corner(t, s, Right, Far);
    TimesConcat(c1, c2, z);
    TimesConcat(c1 + c2, c3, z);
    TimesConcat(c1 + c2 + c3, c4, z);
    TimesWhen(t.left != 0.0 && t.near != 0.0, Meet(Meet(Face(s), Face(Left)), Face(Near)), z);
    TimesWhen(t.right != 0.0 && t.near != 0.0, Meet(Meet(Face(s), Face(Right)), Face(Near)), z);
    TimesWhen(t.left != 0.0 && t.far != 0.0, Meet(Meet(Face(s), Face(Left)), Face(Far)), z);
    TimesWhen(t.right != 0.0 && t.far != 0.0, Meet(Meet(Face(s), Face(Right)), Face(Far)), z);
  }

  lemma CornersStep(t: Thickness, dimensions: nat, z: Zones, k: nat)
    requires k < 6 && Flat(t, dimensions)
    ensures Times(CornersBefore(t, dimensions, k + 1), z) == Times(CornersBefore(t, dimensions, k), z) + CornersTimesAt(t, Sides[k], z)
  {
    hide Times, CornersAt, CornersTimesAt;
    TimesConcat(CornersBefore(t, dimensions, k), CornersAt(t, Sides[k], dimensions), z);
    CornersAtTimes(t, Sides[k], dimensions, z);
  }

  lemma CornersTimes(t: Thickness, dimensions: nat, z: Zones)
    requires Flat(t, dimensions)
    ensures Times(CornersBefore(t, dimensions, 6), z) == CornersTimesAt(t, Top, z) + CornersTimesAt(t, Bottom, z)
  {
    hide Times, CornerTimes, CornersAt;
    TimesNone(z);
    CornersStep(t, dimensions, z, 0);
    CornersStep(t, dimensions, z, 1);
    CornersStep(t, dimensions, z, 2);
    CornersStep(t, dimensions, z, 3);
    CornersStep(t, dimensions, z, 4);
    CornersStep(t, dimensions, z, 5);
  }

  lemma EdgeTimesIs(cell: Vector3, t: Thickness, s: Side, z: Zones)
    requires CellOf(cell, t).HasZones(z)
    ensures AxisOf(s) == DirX ==> EdgeTimes(t, s, z) == 0
    ensures AxisOf(s) == DirY ==> EdgeTimes(t, s, z) == One(z.y == ZoneFor(s) && Rank(z) == 2)
    ensures AxisOf(s) == DirZ ==> EdgeTimes(t, s, z) == One(z.y == Middle && z.z == ZoneFor(s) && Rank(z) == 2)
  {
  }

  lemma CornerTimesIs(cell: Vector3, t: Thickness, s: Side, z: Zones)
    requires CellOf(cell, t).HasZones(z) && AxisOf(s) == DirY
    ensures CornersTimesAt(t, s, z) == One(z.y == ZoneFor(s) && Rank(z) == 3)
  {
  }

  lemma FaceTimesIs(cell: Vector3, t: Thickness, s: Side, z: Zones)
    requires CellOf(cell, t).HasZones(z)
    ensures t.Of(s) != 0.0 && z == Face(s) <==> z == Face(s)
  {
  }

  /** A zone triple of the cell is in the list of its rank once, and in no other list. */
  lemma EachZoneOnce(cell: Vector3, t: Thickness, dimensions: nat, z: Zones)
    requires Flat(t, dimensions) && CellOf(cell, t).HasZones(z)
    ensures Times(FacesBefore(t, 6), z) == One(Rank(z) == 1)
    ensures Times(EdgesBefore(t, dimensions, 6), z) == One(Rank(z) == 2)
    ensures Times(CornersBefore(t, dimensions, 6), z) == One(Rank(z) == 3)
  {
    EachFaceOnce(cell, t, z);
    EachEdgeOnce(cell, t, dimensions, z);
    EachCornerOnce(cell, t, dimensions, z);
  }

  lemma EachFaceOnce(cell: Vector3, t: Thickness, z: Zones)
    requires CellOf(cell, t).HasZones(z)
    ensures Times(FacesBefore(t, 6), z) == One(Rank(z) == 1)
  {
    hide Times, FacesBefore, CellOf;
    FacesTimes(t, z);
    FaceTimesIs(cell, t, Top, z);
    FaceTimesIs(cell, t, Bottom, z);
    FaceTimesIs(cell, t, Left, z);
    FaceTimesIs(cell, t, Right, z);
    FaceTimesIs(cell, t, Near, z);
    FaceTimesIs(cell, t, Far, z);
  }

  lemma EachEdgeOnce(cell: Vector3, t: Thickness, dimensions: nat, z: Zones)
    requires Flat(t, dimensions) && CellOf(cell, t).HasZones(z)
    ensures Times(EdgesBefore(t, dimensions, 6), z) == One(Rank(z) == 2)
  {
    hide Times, EdgesBefore, EdgeTimes, CellOf;
    EdgesTimes(t, dimensions, z);
    EdgeTimesIs(cell, t, Top, z);
    EdgeTimesIs(cell, t, Bottom, z);
    EdgeTimesIs(cell, t, Left, z);
    EdgeTimesIs(cell, t, Right, z);
    EdgeTimesIs(cell, t, Near, z);
    EdgeTimesIs(cell, t, Far, z);
  }

  lemma EachCornerOnce(cell: Vector3, t: Thickness, dimensions: nat, z: Zones)
    requires Flat(t, dimensions) && CellOf(cell, t).HasZones(z)
    ensures Times(CornersBefore(t, dimensions, 6), z) == One(Rank(z) == 3)
  {
    hide Times, CornersBefore, CornersTimesAt, CellOf;
    CornersTimes(t, dimensions, z);
    CornerTimesIs(cell, t, Top, z);
    CornerTimesIs(cell, t, Bottom, z);
  }

  // ----- all listed triples are zones of the cell

  lemma FacesAreZones(cell: Vector3, t: Thickness, k: nat)
    requires k <= 6
    ensures AllIn(FacesBefore(t, k), CellOf(cell, t))
  {
    if k > 0 {
      FacesAreZones(cell, t, k - 1);
    }
  }

  lemma {:induction false} EdgesAreZones(cell: Vector3, t: Thickness, dimensions: nat, k: nat)
    requires k <= 6
    ensures AllIn(EdgesBefore(t, dimensions, k), CellOf(cell, t))
  {
    if k > 0 {
      EdgesAreZones(cell, t, dimensions, k - 1);
      EdgesAtAreZones(cell, t, Sides[k - 1], dimensions);
      AllInConcat(EdgesBefore(t, dimensions, k - 1), EdgesAt(t, Sides[k - 1], dimensions), CellOf(cell, t));
    }
  }

  lemma EdgesAtAreZones(cell: Vector3, t: Thickness, s: Side, dimensions: nat)
    ensures AllIn(EdgesAt(t, s, dimensions), CellOf(cell, t))
  {
    hide CellOf, Edge, AllIn;
    var c := CellOf(cell, t);
    assert AllIn([], c) by { NoneIn(c); }
    if t.Of(s) != 0.0 && AxisOf(s) != DirX {
      EdgeIsZone(cell, t, s, Left);
      EdgeIsZone(cell, t, s, Right);
      AllInConcat(Edge(t, s, Left), Edge(t, s, Right), c);
      if AxisOf(s) == DirY {
        EdgeIsZone(cell, t, s, Near);
        EdgeIsZone(cell, t, s, Far);
        AllInConcat(Edge(t, s, Near), Edge(t, s, Far), c);
      }
    }
    AllInConcat(EdgesInX(t, s), EdgesInZ(t, s, dimensions), c);
  }

  lemma NoneIn(c: Cell)
    ensures AllIn([], c)
  {
  }

  lemma EdgeIsZone(cell: Vector3, t: Thickness, s: Side, a: Side)
    requires t.Of(s) != 0.0 && AxisOf(s) != AxisOf(a)
    ensures AllIn(Edge(t, s, a), CellOf(cell, t))
  {
  }

  lemma {:induction false} CornersAreZones(cell: Vector3, t: Thickness, dimensions: nat, k: nat)
    requires k <= 6
    ensures AllIn(CornersBefore(t, dimensions, k), CellOf(cell, t))
  {
    if k > 0 {
      CornersAreZones(cell, t, dimensions, k - 1);
      CornersAtAreZones(cell, t, Sides[k - 1], dimensions);
      AllInConcat(CornersBefore(t, dimensions, k - 1), CornersAt(t, Sides[k - 1], dimensions), CellOf(cell, t));
    }
  }

  lemma CornersAtAreZones(cell: Vector3, t: Thickness, s: Side, dimensions: nat)
    ensures AllIn(CornersAt(t, s, dimensions), CellOf(cell, t))
  {
  }

  // ----- the partition

  /** Point p lies in the layer at side s. */
  predicate InLayer(cell: Vector3, t: Thickness, s: Side, p: Vector3) {
    match s
    case Left => t.left != 0.0 && p.x < -(cell.x / 2.0) + t.left
    case Right => t.right != 0.0 && p.x > cell.x / 2.0 - t.right
    case Bottom => t.bottom != 0.0 && p.y < -(cell.y / 2.0) + t.bottom
    case Top => t.top != 0.0 && p.y > cell.y / 2.0 - t.top
    case Near => t.near != 0.0 && p.z < -(cell.z / 2.0) + t.near
    case Far => t.far != 0.0 && p.z > cell.z / 2.0 - t.far
  }

  /** Number of layers that cover p. */
  function LayerCount(cell: Vector3, t: Thickness, p: Vector3): nat {
    One(InLayer(cell, t, Left, p)) + One(InLayer(cell, t, Right, p)) + One(InLayer(cell, t, Bottom, p))
    + One(InLayer(cell, t, Top, p)) + One(InLayer(cell, t, Near, p)) + One(InLayer(cell, t, Far, p))
  }

  lemma RankIsLayerCount(cell: Vector3, t: Thickness, p: Vector3)
    requires CellOf(cell, t).Fits()
    ensures Rank(CellOf(cell, t).ZonesOf(p)) == LayerCount(cell, t, p)
    ensures CellOf(cell, t).HasZones(CellOf(cell, t).ZonesOf(p))
  {
  }

  /** A cell point off the box faces that is covered by j layers lies in exactly one box of the j-th
      list and in no box of the other lists; in no box at all when j is zero. */
  lemma LayersPartition(cell: Vector3, t: Thickness, dimensions: nat, p: Vector3)
    requires Flat(t, dimensions) && CellOf(cell, t).Fits() && CellOf(cell, t).In(p) && CellOf(cell, t).OffFaces(p)
    ensures var c, j := CellOf(cell, t), LayerCount(cell, t, p);
            && CountIn(Boxes(FacesBefore(t, 6), c), p) == One(j == 1)
            && CountIn(Boxes(EdgesBefore(t, dimensions, 6), c), p) == One(j == 2)
            && CountIn(Boxes(CornersBefore(t, dimensions, 6), c), p) == One(j == 3)
            && j <= 3
  {
    hide Times, CountIn, FacesBefore, EdgesBefore, CornersBefore, CellOf, Cell.Fits, Cell.In, Cell.OffFaces, LayerCount;
    var c := CellOf(cell, t);
    RankIsLayerCount(cell, t, p);
    EachZoneOnce(cell, t, dimensions, c.ZonesOf(p));
    FacesAreZones(cell, t, 6);
    EdgesAreZones(cell, t, dimensions, 6);
    CornersAreZones(cell, t, dimensions, 6);
    CountIsTimes(FacesBefore(t, 6), c, p);
    CountIsTimes(EdgesBefore(t, dimensions, 6), c, p);
    CountIsTimes(CornersBefore(t, dimensions, 6), c, p);
  }

  // ----- and only then

  /** The statement of LayersPartition for one point. */
  ghost predicate PartitionAt(cell: Vector3, t: Thickness, dimensions: nat, p: Vector3) {
    var c, j := CellOf(cell, t), LayerCount(cell, t, p);
    && CountIn(Boxes(FacesBefore(t, 6), c), p) == One(j == 1)
    && CountIn(Boxes(EdgesBefore(t, dimensions, 6), c), p) == One(j == 2)
    && CountIn(Boxes(CornersBefore(t, dimensions, 6), c), p) == One(j == 3)
  }

  /** Two boxes of a list that hold a point count twice. */
  lemma {:induction false} CountAtLeast(zs: seq<Zones>, c: Cell, p: Vector3, a: Zones, b: Zones)
    requires a != b && Contains(c.BoxOf(a), p) && Contains(c.BoxOf(b), p)
    ensures CountIn(Boxes(zs, c), p) >= Times(zs, a) + Times(zs, b)
  {
    hide Cell.BoxOf, Contains;
    if zs != [] {
      var n := |zs| - 1;
      CountAtLeast(zs[..n], c, p, a, b);
      assert Boxes(zs, c)[..n] == Boxes(zs[..n], c);
    }
  }

  lemma TwoBoxes(cell: Vector3, t: Thickness, dimensions: nat, p: Vector3, a: Zones, b: Zones)
    requires Flat(t, dimensions) && a != b && Rank(a) == Rank(b) && 1 <= Rank(a) <= 3
    requires CellOf(cell, t).HasZones(a) && CellOf(cell, t).HasZones(b)
    requires Contains(CellOf(cell, t).BoxOf(a), p) && Contains(CellOf(cell, t).BoxOf(b), p)
    ensures !PartitionAt(cell, t, dimensions, p)
  {
    hide Times, CountIn, FacesBefore, EdgesBefore, CornersBefore, CellOf, LayerCount, Cell.BoxOf, Contains, Boxes, Cell.HasZones;
    var c := CellOf(cell, t);
    EachZoneOnce(cell, t, dimensions, a);
    EachZoneOnce(cell, t, dimensions, b);
    CountAtLeast(FacesBefore(t, 6), c, p, a, b);
    CountAtLeast(EdgesBefore(t, dimensions, 6), c, p, a, b);
    CountAtLeast(CornersBefore(t, dimensions, 6), c, p, a, b);
  }

  /** Sizes and thicknesses that are not negative. */
  predicate NonNegative(s: Span) { s.size >= 0.0 && s.low >= 0.0 && s.high >= 0.0 }

  /** The layer that covers x, or the middle, does hold x. */
  lemma SomeZone(s: Span, x: real)
    requires NonNegative(s) && s.In(x) && s.OffFaces(x)
    ensures s.HasZone(s.ZoneOf(x)) && Within(x, s.Center(s.ZoneOf(x)), s.Extent(s.ZoneOf(x)))
  {
  }

  lemma SomePoint(s: Span) returns (x: real)
    requires NonNegative(s)
    ensures s.In(x) && s.OffFaces(x)
  {
    x := if s.high != s.size then -(s.size / 2.0) else if s.low != s.size then s.size / 2.0 else 0.0;
  }

  /** Two layers that are together thicker than the cell share a point. */
  lemma SharedPoint(s: Span) returns (x: real)
    requires NonNegative(s) && !s.Fits()
    ensures s.In(x) && s.OffFaces(x) && s.HasZone(LowZone) && s.HasZone(HighZone)
    ensures Within(x, s.Center(LowZone), s.Extent(LowZone)) && Within(x, s.Center(HighZone), s.Extent(HighZone))
  {
    var h := s.size / 2.0;
    var l := if s.high > s.size then -h else h - s.high;
    var u := if s.low > s.size then h else -h + s.low;
    x := (l + u) / 2.0;
  }

  lemma NotPartitionedX(cell: Vector3, t: Thickness, dimensions: nat) returns (p: Vector3)
    requires Flat(t, dimensions)
    requires var c := CellOf(cell, t); NonNegative(c.x) && NonNegative(c.y) && NonNegative(c.z) && !c.x.Fits()
    ensures CellOf(cell, t).In(p) && CellOf(cell, t).OffFaces(p) && !PartitionAt(cell, t, dimensions, p)
  {
    hide NonNegative, Span.Fits, Span.In, Span.OffFaces, Span.HasZone, Span.ZoneOf, Span.Center, Span.Extent, Within;
    hide CellOf, Flat, PartitionAt;
    var c := CellOf(cell, t);
    var x := SharedPoint(c.x);
    var y := SomePoint(c.y);
    var z := SomePoint(c.z);
    SomeZone(c.y, y);
    SomeZone(c.z, z);
    p := Vector3(x, y, z);
    TwoBoxes(cell, t, dimensions, p, Zones(LowZone, c.y.ZoneOf(y), c.z.ZoneOf(z)),
             Zones(HighZone, c.y.ZoneOf(y), c.z.ZoneOf(z)));
  }

  lemma NotPartitionedY(cell: Vector3, t: Thickness, dimensions: nat) returns (p: Vector3)
    requires Flat(t, dimensions)
    requires var c := CellOf(cell, t); NonNegative(c.x) && NonNegative(c.y) && NonNegative(c.z) && !c.y.Fits()
    ensures CellOf(cell, t).In(p) && CellOf(cell, t).OffFaces(p) && !PartitionAt(cell, t, dimensions, p)
  {
    hide NonNegative, Span.Fits, Span.In, Span.OffFaces, Span.HasZone, Span.ZoneOf, Span.Center, Span.Extent, Within;
    hide CellOf, Flat, PartitionAt;
    var c := CellOf(cell, t);
    var x := SomePoint(c.x);
    var y := SharedPoint(c.y);
    var z := SomePoint(c.z);
    SomeZone(c.x, x);
    SomeZone(c.z, z);
    p := Vector3(x, y, z);
    TwoBoxes(cell, t, dimensions, p, Zones(c.x.ZoneOf(x), LowZone, c.z.ZoneOf(z)),
             Zones(c.x.ZoneOf(x), HighZone, c.z.ZoneOf(z)));
  }

  lemma NotPartitionedZ(cell: Vector3, t: Thickness, dimensions: nat) returns (p: Vector3)
    requires Flat(t, dimensions)
    requires var c := CellOf(cell, t); NonNegative(c.x) && NonNegative(c.y) && NonNegative(c.z) && !c.z.Fits()
    ensures CellOf(cell, t).In(p) && CellOf(cell, t).OffFaces(p) && !PartitionAt(cell, t, dimensions, p)
  {
    hide NonNegative, Span.Fits, Span.In, Span.OffFaces, Span.HasZone, Span.ZoneOf, Span.Center, Span.Extent, Within;
    hide CellOf, Flat, PartitionAt;
    var c := CellOf(cell, t);
    var x := SomePoint(c.x);
    var y := SomePoint(c.y);
    var z := SharedPoint(c.z);
    SomeZone(c.x, x);
    SomeZone(c.y, y);
    p := Vector3(x, y, z);
    TwoBoxes(cell, t, dimensions, p, Zones(c.x.ZoneOf(x), c.y.ZoneOf(y), LowZone),
             Zones(c.x.ZoneOf(x), c.y.ZoneOf(y), HighZone));
  }

  /** The lists partition the layers exactly if on every axis one of the two layers is missing or both
      together are no thicker than the cell. */
  lemma PartitionsIff(cell: Vector3, t: Thickness, dimensions: nat)
    requires Flat(t, dimensions)
    requires var c := CellOf(cell, t); NonNegative(c.x) && NonNegative(c.y) && NonNegative(c.z)
    ensures (forall p :: CellOf(cell, t).In(p) && CellOf(cell, t).OffFaces(p) ==> PartitionAt(cell, t, dimensions, p))
            <==> CellOf(cell, t).Fits()
  {
    hide PartitionAt, Cell.In, Cell.OffFaces, CellOf, Flat, NonNegative, Span.Fits;
    var c := CellOf(cell, t);
    if c.Fits() {
      forall p | c.In(p) && c.OffFaces(p) ensures PartitionAt(cell, t, dimensions, p) {
        PartitionHolds(cell, t, dimensions, p);
      }
    } else if !c.x.Fits() {
      var p := NotPartitionedX(cell, t, dimensions);
    } else if !c.y.Fits() {
      var p := NotPartitionedY(cell, t, dimensions);
    } else {
      var p := NotPartitionedZ(cell, t, dimensions);
    }
  }

  lemma PartitionHolds(cell: Vector3, t: Thickness, dimensions: nat, p: Vector3)
    requires Flat(t, dimensions) && CellOf(cell, t).Fits() && CellOf(cell, t).In(p) && CellOf(cell, t).OffFaces(p)
    ensures PartitionAt(cell, t, dimensions, p)
  {
    hide CountIn, FacesBefore, EdgesBefore, CornersBefore, CellOf, Cell.Fits, Cell.In, Cell.OffFaces, LayerCount;
    LayersPartition(cell, t, dimensions, p);
  }

  /** The point with coordinate x is within the thickness of an end that the layer names. */
  predicate Reaches(b: Layer, d: Direction, size: real, x: real) {
    && (b.direction == d || b.direction == AllDirections)
    && ((b.end != Low && x > size / 2.0 - b.thickness) || (b.end != High && x < -(size / 2.0) + b.thickness))
  }

  /** One layer object covers the points within its thickness of the ends it names: High is the end of
      large coordinates, Low the other one; in fewer than three dimensions z has no layers. */
  lemma OneLayer(b: Layer, cell: Vector3, t: Thickness, dimensions: nat, p: Vector3)
    requires b.thickness > 0.0 && forall s: Side :: t.Of(s) == LastThickness([b], s, dimensions)
    ensures LayerCount(cell, t, p) > 0
            <==> Reaches(b, DirX, cell.x, p.x) || Reaches(b, DirY, cell.y, p.y) || (dimensions == 3 && Reaches(b, DirZ, cell.z, p.z))
  {
    OnlyLayer(b, Left, dimensions);
    OnlyLayer(b, Right, dimensions);
    OnlyLayer(b, Bottom, dimensions);
    OnlyLayer(b, Top, dimensions);
    OnlyLayer(b, Near, dimensions);
    OnlyLayer(b, Far, dimensions);
    assert t.left == t.Of(Left) && t.right == t.Of(Right) && t.bottom == t.Of(Bottom) && t.top == t.Of(Top);
    assert t.near == t.Of(Near) && t.far == t.Of(Far);
  }

  lemma OnlyLayer(b: Layer, s: Side, dimensions: nat)
    ensures LastThickness([b], s, dimensions) == if Applies(b, s, dimensions) then b.thickness else 0.0
  {
    assert [b][..0] == [];
  }

  /** Layers on near and far exist in three dimensions only. */
  lemma {:induction false} FlatLayers(layers: seq<Layer>, s: Side, dimensions: nat)
    requires dimensions != 3 && AxisOf(s) == DirZ
    ensures LastThickness(layers, s, dimensions) == 0.0
  {
    if layers != [] {
      FlatLayers(layers[..|layers| - 1], s, dimensions);
    }
  }

  /** The whole call: for non-negative thicknesses, layers at both ends of an axis adding up to no more
      than the cell. */
  method PartitionLayers(layers: seq<Layer>, cell: Vector3, dimensions: nat)
    returns (v1: seq<Volume>, v2: seq<Volume>, v3: seq<Volume>, t: Thickness)
    ensures forall s: Side :: t.Of(s) == LastThickness(layers, s, dimensions)
    ensures CellOf(cell, t).Fits() ==>
              forall p :: CellOf(cell, t).In(p) && CellOf(cell, t).OffFaces(p) ==>
                && CountIn(v1, p) == One(LayerCount(cell, t, p) == 1)
                && CountIn(v2, p) == One(LayerCount(cell, t, p) == 2)
                && CountIn(v3, p) == One(LayerCount(cell, t, p) == 3)
  {
    hide LastThickness, CountIn, LayerCount, FacesBefore, EdgesBefore, CornersBefore, CellOf, Boxes, Cell.Fits, Cell.In, Cell.OffFaces;
    v1, v2, v3, t := BoundariesToVols(layers, cell, dimensions);
    if dimensions != 3 {
      FlatLayers(layers, Near, dimensions);
      FlatLayers(layers, Far, dimensions);
      assert t.near == t.Of(Near) && t.far == t.Of(Far);
    }
    if CellOf(cell, t).Fits() {
      forall p | CellOf(cell, t).In(p) && CellOf(cell, t).OffFaces(p)
        ensures CountIn(v1, p) == One(LayerCount(cell, t, p) == 1)
        ensures CountIn(v2, p) == One(LayerCount(cell, t, p) == 2)
        ensures CountIn(v3, p) == One(LayerCount(cell, t, p) == 3)
      {
        LayersPartition(cell, t, dimensions, p);
      }
    }
  }
}
