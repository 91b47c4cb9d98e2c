/** The absorbing layers of a Cartesian cell as boxes (python/simulation.py:1874-2035): faces, edges
    and corners, listed by how many layers overlap in them. */
module Boundary {
  import opened Options
  import opened Vectors

  // ----- layers on the six sides

  datatype Direction = DirX | DirY | DirZ | AllDirections
  datatype End = Low | High | Both

  /** A PML object. */
  datatype Layer = Layer(thickness: real, direction: Direction, end: End)

  datatype Side = Top | Bottom | Left | Right | Near | Far

  /** The keys of side_thickness, in order. */
  const Sides := [Top, Bottom, Left, Right, Near, Far]

  function AxisOf(s: Side): Direction {
    match s
    case Left | Right => DirX
    case Bottom | Top => DirY
    case Near | Far => DirZ
  }

  function EndOf(s: Side): End { if s == Left || s == Bottom || s == Near then Low else High }

  /** The layer applies to side s; in two dimensions no layer applies to near and far. */
  predicate Applies(b: Layer, s: Side, dimensions: nat) {
    && (b.direction == AxisOf(s) || b.direction == AllDirections)
    && (b.end == EndOf(s) || b.end == Both)
    && (AxisOf(s) == DirZ ==> dimensions == 3)
  }

  /** side_thickness. */
  datatype Thickness = Thickness(top: real, bottom: real, left: real, right: real, near: real, far: real) {

    function Of(s: Side): real {
      match s
      case Top => top
      case Bottom => bottom
      case Left => left
      case Right => right
      case Near => near
      case Far => far
    }

    function With(s: Side, v: real): Thickness {
      match s
      case Top => this.(top := v)
      case Bottom => this.(bottom := v)
      case Left => this.(left := v)
      case Right => this.(right := v)
      case Near => this.(near := v)
      case Far => this.(far := v)
    }
  }

  /** The thickness of the last layer that applies, or zero. */
  function LastThickness(layers: seq<Layer>, s: Side, dimensions: nat): real {
    if layers == [] then 0.0
    else if Applies(layers[|layers| - 1], s, dimensions) then layers[|layers| - 1].thickness
    else LastThickness(layers[..|layers| - 1], s, dimensions)
  }

  /** Later layers win. */
  lemma {:induction false} LaterLayersWin(layers: seq<Layer>, more: seq<Layer>, s: Side, dimensions: nat)
    ensures LastThickness(layers + more, s, dimensions)
         == if exists i :: 0 <= i < |more| && Applies(more[i], s, dimensions) then LastThickness(more, s, dimensions)
            else LastThickness(layers, s, dimensions)
  {
    if more == [] {
      assert layers + more == layers;
    } else {
      var init := more[..|more| - 1];
      assert (layers + more)[..|layers + more| - 1] == layers + init;
      LaterLayersWin(layers, init, s, dimensions);
      if i :| 0 <= i < |init| && Applies(init[i], s, dimensions) {
        assert Applies(more[i], s, dimensions);
      }
    }
  }

  /** The two assignments of one direction. */
  method SetEnds(t: Thickness, b: Layer, high: Side, low: Side) returns (r: Thickness)
    requires high != low
    ensures r.Of(high) == if b.end == High || b.end == Both then b.thickness else t.Of(high)
    ensures r.Of(low) == if b.end == Low || b.end == Both then b.thickness else t.Of(low)
    ensures forall s: Side :: s != high && s != low ==> r.Of(s) == t.Of(s)
  {
    r := t;
    if b.end == High || b.end == Both {
      r := r.With(high, b.thickness);
    }
    if b.end == Low || b.end == Both {
      r := r.With(low, b.thickness);
    }
  }

  method ApplyLayer(t: Thickness, b: Layer, dimensions: nat) returns (r: Thickness)
    ensures forall s: Side :: r.Of(s) == if Applies(b, s, dimensions) then b.thickness else t.Of(s)
  {
    r := t;
    if b.direction == DirX || b.direction == AllDirections {
      r := SetEnds(r, b, Right, Left);
    }
    if b.direction == DirY || b.direction == AllDirections {
      r := SetEnds(r, b, Top, Bottom);
    }
    if dimensions == 3 {
      if b.direction == DirZ || b.direction == AllDirections {
        r := SetEnds(r, b, Far, Near);
      }
    }
  }

  /** The first loop: later layers overwrite earlier ones. */
  method SideThickness(layers: seq<Layer>, dimensions: nat) returns (t: Thickness)
    ensures forall s: Side :: t.Of(s) == LastThickness(layers, s, dimensions)
  {
    hide Applies;
    t := Thickness(0.0, 0.0, 0.0, 0.0, 0.0, 0.0);
    for i := 0 to |layers|
      invariant forall s: Side :: t.Of(s) == LastThickness(layers[..i], s, dimensions)
    {
      assert layers[..i + 1][..i] == layers[..i];
      t := ApplyLayer(t, layers[i], dimensions);
    }
    assert layers[..|layers|] == layers;
  }

  // ----- the boxes of the code

  datatype Volume = Volume(center: Vector3, size: Vector3) {
    function Size(): real { size.x * size.y * size.z }
  }

  predicate Within(x: real, center: real, size: real) { center - size / 2.0 <= x <= center + size / 2.0 }

  predicate Contains(v: Volume, p: Vector3) {
    Within(p.x, v.center.x, v.size.x) && Within(p.y, v.center.y, v.size.y) && Within(p.z, v.center.z, v.size.z)
  }

  function Sign(positive: bool): real { if positive then 1.0 else -1.0 }

  /** dir * max + (-dir * 0.5 * d). */
  function LayerCenter(positive: bool, max: real, d: real): real {
    Sign(positive) * max + (-Sign(positive) * 0.5 * d)
  }

  function Overlap0(cell: Vector3, t: Thickness, side: Side, d: real): Volume {
    var xmax, ymax, zmax := cell.x / 2.0, cell.y / 2.0, cell.z / 2.0;
    if side == Top || side == Bottom then
      var xsz, zsz := cell.x - (t.Of(Left) + t.Of(Right)), cell.z - (t.Of(Near) + t.Of(Far));
      Volume(Vector3(xmax - t.Of(Right) - xsz / 2.0, LayerCenter(side == Top, ymax, d), zmax - t.Of(Far) - zsz / 2.0),
             Vector3(xsz, d, zsz))
    else if side == Left || side == Right then
      var ysz, zsz := cell.y - (t.Of(Top) + t.Of(Bottom)), cell.z - (t.Of(Near) + t.Of(Far));
      Volume(Vector3(LayerCenter(side == Right, xmax, d), ymax - t.Of(Top) - ysz / 2.0, zmax - t.Of(Far) - zsz / 2.0),
             Vector3(d, ysz, zsz))
    else
      var xsz, ysz := cell.x - (t.Of(Left) + t.Of(Right)), cell.y - (t.Of(Top) + t.Of(Bottom));
      Volume(Vector3(xmax - t.Of(Right) - xsz / 2.0, ymax - t.Of(Top) - ysz / 2.0, LayerCenter(side == Far, zmax, d)),
             Vector3(xsz, ysz, d))
  }

  function Overlap1(cell: Vector3, t: Thickness, side1: Side, side2: Side, d: real): Option<Volume>
    requires side1 == Top || side1 == Bottom || side1 == Near || side1 == Far
    requires side2 == Left || side2 == Right || ((side2 == Near || side2 == Far) && (side1 == Top || side1 == Bottom))
  {
    var xmax, ymax, zmax := cell.x / 2.0, cell.y / 2.0, cell.z / 2.0;
    if t.Of(side2) == 0.0 then None
    else if side1 == Top || side1 == Bottom then
      var ycen := LayerCenter(side1 == Top, ymax, d);
      if side2 == Left || side2 == Right then
        var zsz := cell.z - (t.Of(Near) + t.Of(Far));
        Some(Volume(Vector3(LayerCenter(side2 == Right, xmax, t.Of(side2)), ycen, zmax - t.Of(Far) - zsz / 2.0),
                    Vector3(t.Of(side2), d, zsz)))
      else
        var xsz := cell.x - (t.Of(Left) + t.Of(Right));
        Some(Volume(Vector3(xmax - t.Of(Right) - xsz / 2.0, ycen, LayerCenter(side2 == Far, zmax, t.Of(side2))),
                    Vector3(xsz, d, t.Of(side2))))
    else
      var ysz := cell.y - (t.Of(Top) + t.Of(Bottom));
      Some(Volume(Vector3(LayerCenter(side2 == Right, xmax, t.Of(side2)), ymax - t.Of(Top) - ysz / 2.0, LayerCenter(side1 == Far, zmax, d)),
                  Vector3(t.Of(side2), ysz, d)))
  }

  function Overlap2(cell: Vector3, t: Thickness, side1: Side, side2: Side, side3: Side, d: real): Option<Volume> {
    var xmax, ymax, zmax := cell.x / 2.0, cell.y / 2.0, cell.z / 2.0;
    if t.Of(side2) == 0.0 || t.Of(side3) == 0.0 then None
    else
      Some(Volume(Vector3(LayerCenter(side2 == Right, xmax, t.Of(side2)), LayerCenter(side1 == Top, ymax, d),
                          LayerCenter(side3 == Far, zmax, t.Of(side3))),
                  Vector3(t.Of(side2), d, t.Of(side3))))
  }

  /** [v for v in s if v]. */
  function Present(s: seq<Option<Volume>>): seq<Volume> {
    if s == [] then [] else Present(s[..|s| - 1]) + if s[|s| - 1].Some? then [s[|s| - 1].value] else []
  }

  lemma {:induction false} PresentConcat(a: seq<Option<Volume>>, b: seq<Option<Volume>>)
    ensures Present(a + b) == Present(a) + Present(b)
  {
    if b == [] {
      assert a + b == a;
    } else {
      PresentConcat(a, b[..|b| - 1]);
      assert (a + b)[..|a + b| - 1] == a + b[..|b| - 1];
    }
  }

  // ----- zones: where a box lies along each axis

  datatype Zone = LowZone | Middle | HighZone

  /** An axis of the cell, and the layers at its two ends. */
  datatype Span = Span(size: real, low: real, high: real) {

    /** Layers at both ends leave room for each other; a single one may be thicker than the cell. */
    predicate Fits() { 0.0 <= low && 0.0 <= high && (low == 0.0 || high == 0.0 || low + high <= size) }

    function Extent(z: Zone): real {
      match z
      case LowZone => low
      case Middle => size - (low + high)
      case HighZone => high
    }

    function Center(z: Zone): real {
      match z
      case LowZone => -(size / 2.0) + low / 2.0
      case Middle => size / 2.0 - high - (size - (low + high)) / 2.0
      case HighZone => size / 2.0 - high / 2.0
    }

    predicate In(x: real) { -(size / 2.0) <= x <= size / 2.0 }

    /** Not on the inner face of a layer. */
    predicate OffFaces(x: real) { (low != 0.0 ==> x != -(size / 2.0) + low) && (high != 0.0 ==> x != size / 2.0 - high) }

    /** The layer, if any, that covers x. */
    function ZoneOf(x: real): Zone {
      if low != 0.0 && x < -(size / 2.0) + low then LowZone
      else if high != 0.0 && x > size / 2.0 - high then HighZone
      else Middle
    }

    predicate HasZone(z: Zone) { (z == LowZone ==> low != 0.0) && (z == HighZone ==> high != 0.0) }
  }

  lemma ZoneContains(s: Span, z: Zone, x: real)
    requires s.Fits() && s.In(x) && s.OffFaces(x) && s.HasZone(z)
    ensures Within(x, s.Center(z), s.Extent(z)) <==> z == s.ZoneOf(x)
  {
  }

  datatype Zones = Zones(x: Zone, y: Zone, z: Zone)

  /** The three axes of the cell. */
  datatype Cell = Cell(x: Span, y: Span, z: Span) {
    predicate Fits() { x.Fits() && y.Fits() && z.Fits() }

    predicate In(p: Vector3) { x.In(p.x) && y.In(p.y) && z.In(p.z) }

    predicate OffFaces(p: Vector3) { x.OffFaces(p.x) && y.OffFaces(p.y) && z.OffFaces(p.z) }

    function ZonesOf(p: Vector3): Zones { Zones(x.ZoneOf(p.x), y.ZoneOf(p.y), z.ZoneOf(p.z)) }

    function BoxOf(c: Zones): Volume {
      Volume(Vector3(x.Center(c.x), y.Center(c.y), z.Center(c.z)), Vector3(x.Extent(c.x), y.Extent(c.y), z.Extent(c.z)))
    }

    predicate HasZones(c: Zones) { x.HasZone(c.x) && y.HasZone(c.y) && z.HasZone(c.z) }
  }

  function CellOf(cell: Vector3, t: Thickness): Cell {
    Cell(Span(cell.x, t.Of(Left), t.Of(Right)), Span(cell.y, t.Of(Bottom), t.Of(Top)), Span(cell.z, t.Of(Near), t.Of(Far)))
  }

  function ZoneFor(s: Side): Zone { if EndOf(s) == Low then LowZone else HighZone }

  /** The zone triple of one, two or three sides. */
  function Face(s: Side): Zones {
    Zones(if AxisOf(s) == DirX then ZoneFor(s) else Middle, if AxisOf(s) == DirY then ZoneFor(s) else Middle,
          if AxisOf(s) == DirZ then ZoneFor(s) else Middle)
  }

  function Meet(a: Zones, b: Zones): Zones {
    Zones(if a.x == Middle then b.x else a.x, if a.y == Middle then b.y else a.y, if a.z == Middle then b.z else a.z)
  }

  lemma LayerCenters(max: real, d: real)
    ensures LayerCenter(true, max, d) == max - d / 2.0 && LayerCenter(false, max, d) == -max + d / 2.0
  {
  }

  lemma Overlap0Is(cell: Vector3, t: Thickness, side: Side)
    ensures Overlap0(cell, t, side, t.Of(side)) == CellOf(cell, t).BoxOf(Face(side))
  {
    hide LayerCenter;
    LayerCenters(cell.x / 2.0, t.Of(side));
    LayerCenters(cell.y / 2.0, t.Of(side));
    LayerCenters(cell.z / 2.0, t.Of(side));
  }

  lemma Overlap1Is(cell: Vector3, t: Thickness, side1: Side, side2: Side)
    requires side1 == Top || side1 == Bottom || side1 == Near || side1 == Far
    requires side2 == Left || side2 == Right || ((side2 == Near || side2 == Far) && (side1 == Top || side1 == Bottom))
    ensures Overlap1(cell, t, side1, side2, t.Of(side1))
         == if t.Of(side2) == 0.0 then None else Some(CellOf(cell, t).BoxOf(Meet(Face(side1), Face(side2))))
  {
    hide LayerCenter;
    LayerCenters(cell.x / 2.0, t.Of(side2));
    LayerCenters(cell.y / 2.0, t.Of(side1));
    LayerCenters(cell.z / 2.0, t.Of(side1));
    LayerCenters(cell.z / 2.0, t.Of(side2));
  }

  lemma Overlap2Is(cell: Vector3, t: Thickness, side1: Side, side2: Side, side3: Side)
    requires (side1 == Top || side1 == Bottom) && (side2 == Left || side2 == Right) && (side3 == Near || side3 == Far)
    ensures Overlap2(cell, t, side1, side2, side3, t.Of(side1))
         == if t.Of(side2) == 0.0 || t.Of(side3) == 0.0 then None
            else Some(CellOf(cell, t).BoxOf(Meet(Meet(Face(side1), Face(side2)), Face(side3))))
  {
    hide LayerCenter;
    LayerCenters(cell.x / 2.0, t.Of(side2));
    LayerCenters(cell.y / 2.0, t.Of(side1));
    LayerCenters(cell.z / 2.0, t.Of(side3));
  }

  // ----- the three lists

  function When(c: bool, z: Zones): seq<Zones> { if c then [z] else [] }

  /** Faces, edges and corners that the loop adds for one side. */
  function FacesAt(t: Thickness, s: Side): seq<Zones> { When(t.Of(s) != 0.0, Face(s)) }

  function Edge(t: Thickness, s: Side, a: Side): seq<Zones> { When(t.Of(a) != 0.0, Meet(Face(s), Face(a))) }

  /** Edges with left and right, for top, bottom, near and far. */
  function EdgesInX(t: Thickness, s: Side): seq<Zones> {
    if t.Of(s) == 0.0 || AxisOf(s) == DirX then [] else Edge(t, s, Left) + Edge(t, s, Right)
  }

  /** Edges with near and far, for top and bottom. */
  function EdgesInZ(t: Thickness, s: Side, dimensions: nat): seq<Zones> {
    if t.Of(s) == 0.0 || AxisOf(s) != DirY || dimensions != 3 then [] else Edge(t, s, Near) + Edge(t, s, Far)
  }

  function EdgesAt(t: Thickness, s: Side, dimensions: nat): seq<Zones> { EdgesInX(t, s) + EdgesInZ(t, s, dimensions) }

  function Corner(t: Thickness, s: Side, a: Side, b: Side): seq<Zones> {
    When(t.Of(a) != 0.0 && t.Of(b) != 0.0, Meet(Meet(Face(s), Face(a)), Face(b)))
  }

  function CornersAt(t: Thickness, s: Side, dimensions: nat): seq<Zones> {
    if t.Of(s) == 0.0 || AxisOf(s) != DirY || dimensions != 3 then []
    else Corner(t, s, Left, Near) + Corner(t, s, Right, Near) + Corner(t, s, Left, Far) + Corner(t, s, Right, Far)
  }

  /** What the sides before number k contribute. */
  function FacesBefore(t: Thickness, k: nat): seq<Zones>
    requires k <= 6
  {
    if k == 0 then [] else FacesBefore(t, k - 1) + FacesAt(t, Sides[k - 1])
  }

  function EdgesBefore(t: Thickness, dimensions: nat, k: nat): seq<Zones>
    requires k <= 6
  {
    if k == 0 then [] else EdgesBefore(t, dimensions, k - 1) + EdgesAt(t, Sides[k - 1], dimensions)
  }

  function CornersBefore(t: Thickness, dimensions: nat, k: nat): seq<Zones>
    requires k <= 6
  {
    if k == 0 then [] else CornersBefore(t, dimensions, k - 1) + CornersAt(t, Sides[k - 1], dimensions)
  }

  /** The order of the three lists, for a cell with layers on all sides. */
  lemma FaceOrder(t: Thickness)
    requires forall s: Side :: t.Of(s) != 0.0
    ensures FacesBefore(t, 6) == [Zones(Middle, HighZone, Middle), Zones(Middle, LowZone, Middle),
                                  Zones(LowZone, Middle, Middle), Zones(HighZone, Middle, Middle),
                                  Zones(Middle, Middle, LowZone), Zones(Middle, Middle, HighZone)]
  {
    FacesUnrolled(t);
  }

  lemma EdgeOrder(t: Thickness)
    requires forall s: Side :: t.Of(s) != 0.0
    ensures EdgesBefore(t, 3, 6) == [Zones(LowZone, HighZone, Middle), Zones(HighZone, HighZone, Middle),
                                     Zones(Middle, HighZone, LowZone), Zones(Middle, HighZone, HighZone),
                                     Zones(LowZone, LowZone, Middle), Zones(HighZone, LowZone, Middle),
                                     Zones(Middle, LowZone, LowZone), Zones(Middle, LowZone, HighZone),
                                     Zones(LowZone, Middle, LowZone), Zones(HighZone, Middle, LowZone),
                                     Zones(LowZone, Middle, HighZone), Zones(HighZone, Middle, HighZone)]
  {
    hide EdgesAt;
    EdgesUnrolled(t);
    EdgesInY(t, Top, HighZone);
    EdgesInY(t, Bottom, LowZone);
    EdgesAcross(t);
  }

  lemma EdgesInY(t: Thickness, s: Side, y: Zone)
    requires (forall s: Side :: t.Of(s) != 0.0) && AxisOf(s) == DirY && y == ZoneFor(s)
    ensures EdgesAt(t, s, 3) == [Zones(LowZone, y, Middle), Zones(HighZone, y, Middle),
                                 Zones(Middle, y, LowZone), Zones(Middle, y, HighZone)]
  {
  }

  lemma EdgesAcross(t: Thickness)
    requires forall s: Side :: t.Of(s) != 0.0
    ensures EdgesAt(t, Left, 3) == EdgesAt(t, Right, 3) == []
    ensures EdgesAt(t, Near, 3) == [Zones(LowZone, Middle, LowZone), Zones(HighZone, Middle, LowZone)]
    ensures EdgesAt(t, Far, 3) == [Zones(LowZone, Middle, HighZone), Zones(HighZone, Middle, HighZone)]
  {
  }

  lemma CornerOrder(t: Thickness)
    requires forall s: Side :: t.Of(s) != 0.0
    ensures CornersBefore(t, 3, 6) == [Zones(LowZone, HighZone, LowZone), Zones(HighZone, HighZone, LowZone),
                                       Zones(LowZone, HighZone, HighZone), Zones(HighZone, HighZone, HighZone),
                                       Zones(LowZone, LowZone, LowZone), Zones(HighZone, LowZone, LowZone),
                                       Zones(LowZone, LowZone, HighZone), Zones(HighZone, LowZone, HighZone)]
  {
    hide CornersAt;
    CornersUnrolled(t);
    CornersInY(t, Top, HighZone);
    CornersInY(t, Bottom, LowZone);
    NoCornersAcross(t);
  }

  lemma CornersInY(t: Thickness, s: Side, y: Zone)
    requires (forall s: Side :: t.Of(s) != 0.0) && AxisOf(s) == DirY && y == ZoneFor(s)
    ensures CornersAt(t, s, 3) == [Zones(LowZone, y, LowZone), Zones(HighZone, y, LowZone),
                                   Zones(LowZone, y, HighZone), Zones(HighZone, y, HighZone)]
  {
  }

  lemma NoCornersAcross(t: Thickness)
    ensures CornersAt(t, Left, 3) == CornersAt(t, Right, 3) == CornersAt(t, Near, 3) == CornersAt(t, Far, 3) == []
  {
  }

  lemma FacesUnrolled(t: Thickness)
    ensures FacesBefore(t, 6) == FacesAt(t, Top) + FacesAt(t, Bottom) + FacesAt(t, Left) + FacesAt(t, Right)
                                 + FacesAt(t, Near) + FacesAt(t, Far)
  {
    hide FacesAt;
    assert FacesBefore(t, 1) == FacesAt(t, Top);
    assert FacesBefore(t, 3) == FacesBefore(t, 2) + FacesAt(t, Left);
    assert FacesBefore(t, 5) == FacesBefore(t, 4) + FacesAt(t, Near);
  }

  lemma EdgesUnrolled(t: Thickness)
    ensures EdgesBefore(t, 3, 6) == EdgesAt(t, Top, 3) + EdgesAt(t, Bottom, 3) + EdgesAt(t, Left, 3) + EdgesAt(t, Right, 3)
                                    + EdgesAt(t, Near, 3) + EdgesAt(t, Far, 3)
  {
    hide EdgesAt;
    assert EdgesBefore(t, 3, 1) == EdgesAt(t, Top, 3);
    assert EdgesBefore(t, 3, 3) == EdgesBefore(t, 3, 2) + EdgesAt(t, Left, 3);
    assert EdgesBefore(t, 3, 5) == EdgesBefore(t, 3, 4) + EdgesAt(t, Near, 3);
  }

  lemma CornersUnrolled(t: Thickness)
    ensures CornersBefore(t, 3, 6) == CornersAt(t, Top, 3) + CornersAt(t, Bottom, 3) + CornersAt(t, Left, 3) + CornersAt(t, Right, 3)
                                      + CornersAt(t, Near, 3) + CornersAt(t, Far, 3)
  {
    hide CornersAt;
    assert CornersBefore(t, 3, 1) == CornersAt(t, Top, 3);
    assert CornersBefore(t, 3, 3) == CornersBefore(t, 3, 2) + CornersAt(t, Left, 3);
    assert CornersBefore(t, 3, 5) == CornersBefore(t, 3, 4) + CornersAt(t, Near, 3);
  }

  function Boxes(zs: seq<Zones>, c: Cell): (v: seq<Volume>)
    ensures |v| == |zs|
  {
    seq(|zs|, i requires 0 <= i < |zs| => c.BoxOf(zs[i]))
  }

  lemma BoxesConcat(a: seq<Zones>, b: seq<Zones>, c: Cell)
    ensures Boxes(a + b, c) == Boxes(a, c) + Boxes(b, c)
  {
  }

  lemma PresentOne(o: Option<Volume>)
    ensures Present([o]) == if o.Some? then [o.value] else []
  {
    assert [o][..0] == [];
  }

  lemma EdgeBox(cell: Vector3, t: Thickness, s: Side, a: Side)
    requires s == Top || s == Bottom || s == Near || s == Far
    requires a == Left || a == Right || ((a == Near || a == Far) && (s == Top || s == Bottom))
    ensures Present([Overlap1(cell, t, s, a, t.Of(s))]) == Boxes(Edge(t, s, a), CellOf(cell, t))
  {
    hide Overlap1, CellOf, Face, Meet;
    Overlap1Is(cell, t, s, a);
    PresentOne(Overlap1(cell, t, s, a, t.Of(s)));
  }

  lemma CornerBox(cell: Vector3, t: Thickness, s: Side, a: Side, b: Side)
    requires (s == Top || s == Bottom) && (a == Left || a == Right) && (b == Near || b == Far)
    ensures Present([Overlap2(cell, t, s, a, b, t.Of(s))]) == Boxes(Corner(t, s, a, b), CellOf(cell, t))
  {
    hide Overlap2, CellOf, Face, Meet;
    Overlap2Is(cell, t, s, a, b);
    PresentOne(Overlap2(cell, t, s, a, b, t.Of(s)));
  }

  /** One more edge box. */
  method AddEdge(v2: seq<Option<Volume>>, cell: Vector3, t: Thickness, s: Side, a: Side, ghost zs: seq<Zones>)
    returns (r: seq<Option<Volume>>)
    requires s == Top || s == Bottom || s == Near || s == Far
    requires a == Left || a == Right || ((a == Near || a == Far) && (s == Top || s == Bottom))
    requires Present(v2) == Boxes(zs, CellOf(cell, t))
    ensures Present(r) == Boxes(zs + Edge(t, s, a), CellOf(cell, t))
  {
    hide Overlap1, CellOf, Present, Boxes, Edge;
    EdgeBox(cell, t, s, a);
    PresentConcat(v2, [Overlap1(cell, t, s, a, t.Of(s))]);
    BoxesConcat(zs, Edge(t, s, a), CellOf(cell, t));
    r := v2 + [Overlap1(cell, t, s, a, t.Of(s))];
  }

  method AddCorner(v3: seq<Option<Volume>>, cell: Vector3, t: Thickness, s: Side, a: Side, b: Side, ghost zs: seq<Zones>)
    returns (r: seq<Option<Volume>>)
    requires (s == Top || s == Bottom) && (a == Left || a == Right) && (b == Near || b == Far)
    requires Present(v3) == Boxes(zs, CellOf(cell, t))
    ensures Present(r) == Boxes(zs + Corner(t, s, a, b), CellOf(cell, t))
  {
    hide Overlap2, CellOf, Present, Boxes, Corner;
    CornerBox(cell, t, s, a, b);
    PresentConcat(v3, [Overlap2(cell, t, s, a, b, t.Of(s))]);
    BoxesConcat(zs, Corner(t, s, a, b), CellOf(cell, t));
    r := v3 + [Overlap2(cell, t, s, a, b, t.Of(s))];
  }

  method AddEdgesInX(v2: seq<Option<Volume>>, cell: Vector3, t: Thickness, s: Side, ghost zs: seq<Zones>)
    returns (r: seq<Option<Volume>>)
    requires t.Of(s) != 0.0 && Present(v2) == Boxes(zs, CellOf(cell, t))
    ensures Present(r) == Boxes(zs + EdgesInX(t, s), CellOf(cell, t))
  {
    hide CellOf, Present, Boxes, Edge;
    r := v2;
    ghost var ys := zs;
    if s == Top || s == Bottom || s == Near || s == Far {
      r := AddEdge(r, cell, t, s, Left, ys);
      ys := ys + Edge(t, s, Left);
      r := AddEdge(r, cell, t, s, Right, ys);
      ys := ys + Edge(t, s, Right);
    }
    assert ys == zs + EdgesInX(t, s);
  }

  method AddEdgesInZ(v2: seq<Option<Volume>>, cell: Vector3, t: Thickness, s: Side, dimensions: nat, ghost zs: seq<Zones>)
    returns (r: seq<Option<Volume>>)
    requires t.Of(s) != 0.0 && Present(v2) == Boxes(zs, CellOf(cell, t))
    ensures Present(r) == Boxes(zs + EdgesInZ(t, s, dimensions), CellOf(cell, t))
  {
    hide CellOf, Present, Boxes, Edge;
    r := v2;
    ghost var ys := zs;
    if (s == Top || s == Bottom) && dimensions == 3 {
      r := AddEdge(r, cell, t, s, Near, ys);
      ys := ys + Edge(t, s, Near);
      r := AddEdge(r, cell, t, s, Far, ys);
      ys := ys + Edge(t, s, Far);
    }
    assert ys == zs + EdgesInZ(t, s, dimensions);
  }

  method AddCorners(v3: seq<Option<Volume>>, cell: Vector3, t: Thickness, s: Side, dimensions: nat, ghost zs: seq<Zones>)
    returns (r: seq<Option<Volume>>)
    requires t.Of(s) != 0.0 && Present(v3) == Boxes(zs, CellOf(cell, t))
    ensures Present(r) == Boxes(zs + CornersAt(t, s, dimensions), CellOf(cell, t))
  {
    hide CellOf, Present, Boxes, Corner;
    r := v3;
    ghost var ys := zs;
    if (s == Top || s == Bottom) && dimensions == 3 {
      r := AddCorner(r, cell, t, s, Left, Near, ys);
      ys := ys + Corner(t, s, Left, Near);
      r := AddCorner(r, cell, t, s, Right, Near, ys);
      ys := ys + Corner(t, s, Right, Near);
      r := AddCorner(r, cell, t, s, Left, Far, ys);
      ys := ys + Corner(t, s, Left, Far);
      r := AddCorner(r, cell, t, s, Right, Far, ys);
      ys := ys + Corner(t, s, Right, Far);
    }
    assert ys == zs + CornersAt(t, s, dimensions);
  }

  /** _boundaries_to_vols_2d_3d without cyl. */
  method BoundariesToVols(layers: seq<Layer>, cell: Vector3, dimensions: nat)
    returns (v1: seq<Volume>, v2: seq<Volume>, v3: seq<Volume>, t: Thickness)
    ensures forall s: Side :: t.Of(s) == LastThickness(layers, s, dimensions)
    ensures v1 == Boxes(FacesBefore(t, 6), CellOf(cell, t))
    ensures v2 == Boxes(EdgesBefore(t, dimensions, 6), CellOf(cell, t))
    ensures v3 == Boxes(CornersBefore(t, dimensions, 6), CellOf(cell, t))
  {
    hide CellOf, Present, Boxes, FacesAt, EdgesInX, EdgesInZ, CornersAt, LastThickness;
    t := SideThickness(layers, dimensions);
    v1 := [];
    var edges: seq<Option<Volume>>, corners: seq<Option<Volume>> := [], [];
    NoBoxes(CellOf(cell, t));
    for k := 0 to 6
      invariant v1 == Boxes(FacesBefore(t, k), CellOf(cell, t))
      invariant Present(edges) == Boxes(EdgesBefore(t, dimensions, k), CellOf(cell, t))
      invariant Present(corners) == Boxes(CornersBefore(t, dimensions, k), CellOf(cell, t))
    {
      var side := Sides[k];
      AddsNothing(t, side, dimensions, FacesBefore(t, k), EdgesBefore(t, dimensions, k), CornersBefore(t, dimensions, k));
      if t.Of(side) != 0.0 {
        FaceBox(cell, t, side, FacesBefore(t, k));
        v1 := v1 + [Overlap0(cell, t, side, t.Of(side))];
        edges := AddEdgesInX(edges, cell, t, side, EdgesBefore(t, dimensions, k));
        edges := AddEdgesInZ(edges, cell, t, side, dimensions, EdgesBefore(t, dimensions, k) + EdgesInX(t, side));
        assert EdgesBefore(t, dimensions, k) + EdgesInX(t, side) + EdgesInZ(t, side, dimensions)
            == EdgesBefore(t, dimensions, k) + EdgesAt(t, side, dimensions);
        corners := AddCorners(corners, cell, t, side, dimensions, CornersBefore(t, dimensions, k));
      }
    }
    v2, v3 := Present(edges), Present(corners);
  }

  lemma NoBoxes(c: Cell)
    ensures Boxes([], c) == [] && Present([]) == []
  {
  }

  lemma AddsNothing(t: Thickness, s: Side, dimensions: nat, a: seq<Zones>, b: seq<Zones>, c: seq<Zones>)
    ensures t.Of(s) == 0.0 ==> a + FacesAt(t, s) == a && b + EdgesAt(t, s, dimensions) == b && c + CornersAt(t, s, dimensions) == c
  {
  }

  lemma FaceBox(cell: Vector3, t: Thickness, s: Side, zs: seq<Zones>)
    requires t.Of(s) != 0.0
    ensures Boxes(zs, CellOf(cell, t)) + [Overlap0(cell, t, s, t.Of(s))] == Boxes(zs + FacesAt(t, s), CellOf(cell, t))
  {
    hide Overlap0, CellOf, Face;
    Overlap0Is(cell, t, s);
  }
}
