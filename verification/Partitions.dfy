/** Binary partitions of a cell and what is measured on them (python/simulation.py:6687-6785,
    python/binary_partition_utils.py). */
module Partitions {
  import opened Integers
  import opened Options

  datatype Axis = X | Y | Z

  /** A partition as a value: what a BinaryPartition object and its descendants hold. */
  datatype Tree = Leaf(id: nat) | Node(axis: Axis, pos: real, left: Tree, right: Tree)

  /** proc_id of the leaves, left to right. */
  function Ids(t: Tree): (ids: seq<nat>)
    ensures |ids| >= 1
  {
    match t
    case Leaf(id) => [id]
    case Node(_, _, l, r) => Ids(l) + Ids(r)
  }

  /** numchunks. */
  function NumChunks(t: Tree): nat {
    match t
    case Leaf(_) => Max(0 + 0, 1)
    case Node(_, _, l, r) => Max(NumChunks(l) + NumChunks(r), 1)
  }

  lemma {:induction false} NumChunksIsLeafCount(t: Tree)
    ensures NumChunks(t) == |Ids(t)|
  {
    if t.Node? {
      NumChunksIsLeafCount(t.left);
      NumChunksIsLeafCount(t.right);
    }
  }

  // ----- duplicate process ids

  function Elements(s: seq<nat>): set<nat> { set x | x in s }

  ghost predicate Distinct(s: seq<nat>) { forall i, j :: 0 <= i < j < |s| ==> s[i] != s[j] }

  /** partition_has_duplicate_proc_ids. */
  predicate HasDuplicates(t: Tree) { |Elements(Ids(t))| != |Ids(t)| }

  lemma {:induction false} ElementCount(s: seq<nat>)
    ensures |Elements(s)| <= |s| && (|Elements(s)| == |s| <==> Distinct(s))
  {
    if s != [] {
      var rest, x := s[..|s| - 1], s[|s| - 1];
      ElementCount(rest);
      assert s == rest + [x];
      assert Elements(s) == Elements(rest) + {x};
      if x in rest {
        assert Elements(s) == Elements(rest);
      } else {
        assert x !in Elements(rest);
        assert Distinct(rest) ==> Distinct(s);
        assert Distinct(s) ==> Distinct(rest);
      }
    }
  }

  lemma DuplicatesIff(t: Tree)
    ensures HasDuplicates(t) <==> !Distinct(Ids(t))
  {
    ElementCount(Ids(t));
  }

  lemma DistinctParts(s: seq<nat>, t: seq<nat>)
    ensures Distinct(s + t) <==> Distinct(s) && Distinct(t) && forall x :: x in s ==> x !in t
  {
    var u := s + t;
    if Distinct(u) {
      forall i, j | 0 <= i < j < |s| ensures s[i] != s[j] {
        assert u[i] != u[j];
      }
      forall i, j | 0 <= i < j < |t| ensures t[i] != t[j] {
        assert u[|s| + i] != u[|s| + j];
      }
      forall x | x in s ensures x !in t {
        var i :| 0 <= i < |s| && s[i] == x;
        forall j | 0 <= j < |t| ensures t[j] != x {
          assert u[i] != u[|s| + j];
        }
      }
    }
    if Distinct(s) && Distinct(t) && forall x :: x in s ==> x !in t {
      forall i, j | 0 <= i < j < |u| ensures u[i] != u[j] {
        if i < |s| <= j {
          assert s[i] in s && t[j - |s|] in t;
        }
      }
    }
  }

  // ----- weights

  predicate InRange(ids: seq<nat>, w: seq<real>) { forall k :: 0 <= k < |ids| ==> ids[k] < |w| }

  function SumAt(ids: seq<nat>, w: seq<real>): real
    requires InRange(ids, w)
  {
    if ids == [] then 0.0 else SumAt(ids[..|ids| - 1], w) + w[ids[|ids| - 1]]
  }

  lemma {:induction false} SumAtConcat(a: seq<nat>, b: seq<nat>, w: seq<real>)
    requires InRange(a, w) && InRange(b, w)
    ensures InRange(a + b, w) && SumAt(a + b, w) == SumAt(a, w) + SumAt(b, w)
  {
    if b == [] {
      assert a + b == a;
    } else {
      var c := b[..|b| - 1];
      SumAtConcat(a, c, w);
      assert (a + b)[..|a + b| - 1] == a + c;
    }
  }

  predicate IdsIn(t: Tree, w: seq<real>) { InRange(Ids(t), w) }

  lemma IdsInParts(t: Tree, w: seq<real>)
    requires t.Node?
    ensures IdsIn(t, w) <==> IdsIn(t.left, w) && IdsIn(t.right, w)
  {
    var a, b := Ids(t.left), Ids(t.right);
    if InRange(a + b, w) {
      forall k | 0 <= k < |a| ensures a[k] < |w| {
        assert (a + b)[k] == a[k];
      }
      forall k | 0 <= k < |b| ensures b[k] < |w| {
        assert (a + b)[|a| + k] == b[k];
      }
    }
  }

  /** get_total_weight; None is the ValueError for duplicate ids. */
  function TotalWeight(t: Tree, w: seq<real>): Option<real>
    requires IdsIn(t, w)
  {
    if HasDuplicates(t) then None
    else
      match t
      case Leaf(id) => Some(w[id])
      case Node(_, _, l, r) =>
        IdsInParts(t, w);
        var (a, b) := (TotalWeight(l, w), TotalWeight(r, w));
        if a.None? || b.None? then None else Some(a.value + b.value)
  }

  /** The weight is that of all leaves, refused exactly for duplicate ids. */
  lemma {:induction false} TotalWeightIs(t: Tree, w: seq<real>)
    requires IdsIn(t, w)
    ensures TotalWeight(t, w) == if Distinct(Ids(t)) then Some(SumAt(Ids(t), w)) else None
  {
    hide HasDuplicates, SumAt, InRange, Distinct;
    DuplicatesIff(t);
    if t.Node? {
      IdsInParts(t, w);
      TotalWeightIs(t.left, w);
      TotalWeightIs(t.right, w);
      DistinctParts(Ids(t.left), Ids(t.right));
      SumAtConcat(Ids(t.left), Ids(t.right), w);
    } else {
      SingleWeight(t.id, w);
    }
  }

  lemma SingleWeight(id: nat, w: seq<real>)
    requires InRange([id], w)
    ensures id < |w| && Distinct([id]) && SumAt([id], w) == w[id]
  {
    assert [id][0] == id && [id][..0] == [];
  }

  // ----- volumes

  datatype Point = Point(x: real, y: real, z: real) {
    function On(a: Axis): real { match a case X => x case Y => y case Z => z }
  }

  datatype GridVolume = GridVolume(nx: nat, ny: nat, nz: nat, low: Point, high: Point) {
    /** pixel_volume. */
    function Pixels(): nat { if nz > 0 then nx * ny * nz else nx * ny }
  }

  function PixelsIn(nx: nat, ny: nat, nz: nat): nat { GridVolume(nx, ny, nz, Point(0.0, 0.0, 0.0), Point(0.0, 0.0, 0.0)).Pixels() }

  /** Cutting a chunk across an axis cuts its pixels; a single pixel counts once, in two dimensions
      as in three; the corners do not matter. */
  lemma PixelsAddUp(nx: nat, ny: nat, nz: nat, a: nat, b: nat, v: GridVolume)
    ensures PixelsIn(a + b, ny, nz) == PixelsIn(a, ny, nz) + PixelsIn(b, ny, nz)
    ensures PixelsIn(nx, a + b, nz) == PixelsIn(nx, a, nz) + PixelsIn(nx, b, nz)
    ensures a > 0 && b > 0 ==> PixelsIn(nx, ny, a + b) == PixelsIn(nx, ny, a) + PixelsIn(nx, ny, b)
    ensures PixelsIn(1, 1, 1) == 1 && PixelsIn(nx, ny, 0) == PixelsIn(nx, ny, 1)
    ensures v.Pixels() == PixelsIn(v.nx, v.ny, v.nz)
  {
    Distribute(a, b, ny, nz);
    Distribute(a, b, nx, nz);
    Distribute(a, b, nx * ny, 1);
  }

  lemma Distribute(a: nat, b: nat, m: nat, k: nat)
    ensures (a + b) * m == a * m + b * m
    ensures (a + b) * m * k == a * m * k + b * m * k
    ensures m * (a + b) == m * a + m * b
    ensures m * (a + b) * k == m * a * k + m * b * k
  {
    assert (a * m + b * m) * k == a * m * k + b * m * k;
  }

  datatype Chunks = Chunks(volumes: seq<GridVolume>, owners: seq<nat>) {
    predicate Valid() { |owners| <= |volumes| }
  }

  /** chunk_volumes[i] for the first n owners that are among ids. */
  function OwnedVolumes(ids: seq<nat>, c: Chunks, n: nat): seq<GridVolume>
    requires c.Valid() && n <= |c.owners|
  {
    if n == 0 then []
    else OwnedVolumes(ids, c, n - 1) + if c.owners[n - 1] in ids then [c.volumes[n - 1]] else []
  }

  function SumPixels(v: seq<GridVolume>): nat {
    if v == [] then 0 else SumPixels(v[..|v| - 1]) + v[|v| - 1].Pixels()
  }

  /** get_total_volume. */
  function TotalVolume(t: Tree, c: Chunks): nat
    requires c.Valid()
  {
    SumPixels(OwnedVolumes(Ids(t), c, |c.owners|))
  }

  /** The pixels of the first n chunks whose owner is among ids. */
  function PixelsOf(ids: seq<nat>, c: Chunks, n: nat): nat
    requires c.Valid() && n <= |c.owners|
  {
    if n == 0 then 0
    else PixelsOf(ids, c, n - 1) + if c.owners[n - 1] in ids then c.volumes[n - 1].Pixels() else 0
  }

  lemma {:induction false} SumOfOwned(ids: seq<nat>, c: Chunks, n: nat)
    requires c.Valid() && n <= |c.owners|
    ensures SumPixels(OwnedVolumes(ids, c, n)) == PixelsOf(ids, c, n)
  {
    hide GridVolume.Pixels;
    if n > 0 {
      SumOfOwned(ids, c, n - 1);
      var v := OwnedVolumes(ids, c, n - 1);
      if c.owners[n - 1] in ids {
        assert (v + [c.volumes[n - 1]])[..|v|] == v;
      } else {
        assert v + [] == v;
      }
    }
  }

  /** The ids that both sequences hold. */
  function Shared(a: seq<nat>, b: seq<nat>): (s: seq<nat>)
    ensures forall x :: x in s <==> x in a && x in b
  {
    if a == [] then []
    else
      assert a == a[..|a| - 1] + [a[|a| - 1]];
      Shared(a[..|a| - 1], b) + if a[|a| - 1] in b then [a[|a| - 1]] else []
  }

  lemma HasElement(s: seq<nat>)
    ensures s != [] ==> exists x :: x in s
  {
    if s != [] {
      assert s[0] in s;
    }
  }

  lemma {:induction false} PixelsOverlap(a: seq<nat>, b: seq<nat>, c: Chunks, n: nat)
    requires c.Valid() && n <= |c.owners|
    ensures PixelsOf(a, c, n) + PixelsOf(b, c, n) == PixelsOf(a + b, c, n) + PixelsOf(Shared(a, b), c, n)
  {
    hide GridVolume.Pixels;
    if n > 0 {
      PixelsOverlap(a, b, c, n - 1);
    }
  }

  lemma {:induction false} NothingOwned(c: Chunks, n: nat, ids: seq<nat>)
    requires c.Valid() && n <= |c.owners| && ids == []
    ensures PixelsOf(ids, c, n) == 0
  {
    if n > 0 {
      NothingOwned(c, n - 1, ids);
    }
  }

  /** Volumes of the two sides add up to that of the node plus what the sides share; with distinct
      ids nothing is counted twice. */
  lemma VolumesAddUp(t: Tree, c: Chunks)
    requires t.Node? && c.Valid()
    ensures TotalVolume(t.left, c) + TotalVolume(t.right, c)
         == TotalVolume(t, c) + PixelsOf(Shared(Ids(t.left), Ids(t.right)), c, |c.owners|)
    ensures Distinct(Ids(t)) ==> TotalVolume(t, c) == TotalVolume(t.left, c) + TotalVolume(t.right, c)
  {
    var n, a, b := |c.owners|, Ids(t.left), Ids(t.right);
    SumOfOwned(Ids(t), c, n);
    SumOfOwned(a, c, n);
    SumOfOwned(b, c, n);
    PixelsOverlap(a, b, c, n);
    if Distinct(Ids(t)) {
      DistinctParts(a, b);
      HasElement(Shared(a, b));
      NothingOwned(c, n, Shared(a, b));
    }
  }

  /** get_total_volume_per_process. */
  method TotalVolumePerProcess(t: Tree, c: Chunks) returns (m: map<nat, nat>)
    requires c.Valid()
    ensures m.Keys == Elements(Ids(t))
    ensures forall id :: id in m ==> m[id] == PixelsOf([id], c, |c.owners|)
  {
    hide PixelsOf, OwnedVolumes, SumPixels, Ids, Elements;
    assert Elements([]) == {} by { ElementsEmpty(); }
    m := map[];
    var ids := Ids(t);
    for k := 0 to |ids|
      invariant m.Keys == Elements(ids[..k])
      invariant forall id :: id in m ==> m[id] == PixelsOf([id], c, |c.owners|)
    {
      SumOfOwned([ids[k]], c, |c.owners|);
      m := m[ids[k] := SumPixels(OwnedVolumes([ids[k]], c, |c.owners|))];
      assert ids[..k + 1] == ids[..k] + [ids[k]];
      ElementsAppend(ids[..k], ids[k]);
    }
    assert ids[..|ids|] == ids;
  }

  lemma ElementsEmpty()
    ensures Elements([]) == {}
  {
  }

  lemma ElementsAppend(s: seq<nat>, x: nat)
    ensures Elements(s + [x]) == Elements(s) + {x}
  {
  }

  function SumVolumes(ids: seq<nat>, c: Chunks): nat
    requires c.Valid()
  {
    if ids == [] then 0 else SumVolumes(ids[..|ids| - 1], c) + PixelsOf([ids[|ids| - 1]], c, |c.owners|)
  }

  /** With distinct ids the volumes per process add up to the volume of the tree. */
  lemma {:induction false} ProcessVolumesAddUp(ids: seq<nat>, c: Chunks)
    requires c.Valid() && Distinct(ids)
    ensures SumVolumes(ids, c) == PixelsOf(ids, c, |c.owners|)
  {
    var n := |c.owners|;
    if ids == [] {
      NothingOwned(c, n, ids);
    } else {
      var rest, x := ids[..|ids| - 1], [ids[|ids| - 1]];
      assert ids == rest + x;
      ProcessVolumesAddUp(rest, c);
      PixelsOverlap(rest, x, c, n);
      DistinctParts(rest, x);
      HasElement(Shared(rest, x));
      NothingOwned(c, n, Shared(rest, x));
    }
  }

  // ----- boxes

  datatype Box = Box(low: Point, high: Point) {

    /** No negative extent. */
    predicate Proper() { low.x <= high.x && low.y <= high.y && low.z <= high.z }

    predicate Contains(p: Point) {
      low.x <= p.x <= high.x && low.y <= p.y <= high.y && low.z <= p.z <= high.z
    }

    function Volume(): real { (high.x - low.x) * (high.y - low.y) * (high.z - low.z) }
  }

  function MinOf(s: seq<real>): (m: real)
    requires s != []
    ensures m in s && forall x :: x in s ==> m <= x
  {
    if |s| == 1 then s[0]
    else
      assert s == s[..|s| - 1] + [s[|s| - 1]];
      var m := MinOf(s[..|s| - 1]); if s[|s| - 1] < m then s[|s| - 1] else m
  }

  function MaxOf(s: seq<real>): (m: real)
    requires s != []
    ensures m in s && forall x :: x in s ==> x <= m
  {
    if |s| == 1 then s[0]
    else
      assert s == s[..|s| - 1] + [s[|s| - 1]];
      var m := MaxOf(s[..|s| - 1]); if s[|s| - 1] > m then s[|s| - 1] else m
  }

  /** One of the six sides of a box. */
  datatype Side = Side(axis: Axis, high: bool)

  function Edge(v: GridVolume, d: Side): real { if d.high then v.high.On(d.axis) else v.low.On(d.axis) }

  /** The chunks that a process owns, among the first n. */
  function ChunksOf(id: nat, c: Chunks, n: nat): (idx: seq<nat>)
    requires c.Valid() && n <= |c.owners|
    ensures Bounded(idx, c) && forall i: nat :: i in idx <==> i < n && c.owners[i] == id
  {
    if n == 0 then [] else ChunksOf(id, c, n - 1) + if c.owners[n - 1] == id then [n - 1] else []
  }

  /** The chunks of all leaves, leaf by leaf. */
  function OwnedIndices(ids: seq<nat>, c: Chunks): (idx: seq<nat>)
    requires c.Valid()
    ensures Bounded(idx, c) && forall i: nat :: i in idx <==> i < |c.owners| && c.owners[i] in ids
  {
    if ids == [] then []
    else
      assert ids == ids[..|ids| - 1] + [ids[|ids| - 1]];
      OwnedIndices(ids[..|ids| - 1], c) + ChunksOf(ids[|ids| - 1], c, |c.owners|)
  }

  predicate Bounded(idx: seq<nat>, c: Chunks) { forall k :: 0 <= k < |idx| ==> idx[k] < |c.volumes| }

  /** One side of each of these chunks: one of the six lists of get_box_ranges. */
  function Edges(idx: seq<nat>, c: Chunks, d: Side): (s: seq<real>)
    requires Bounded(idx, c)
    ensures |s| == |idx| && forall k :: 0 <= k < |idx| ==> s[k] == Edge(c.volumes[idx[k]], d)
  {
    seq(|idx|, k requires 0 <= k < |idx| => Edge(c.volumes[idx[k]], d))
  }

  lemma EdgesAppend(idx: seq<nat>, i: nat, c: Chunks, d: Side)
    requires i < |c.volumes| && Bounded(idx, c)
    ensures Edges(idx + [i], c, d) == Edges(idx, c, d) + [Edge(c.volumes[i], d)]
  {
  }

  /** No owned chunk reaches beyond `m` on that side, and one reaches it. */
  ghost predicate IsExtreme(m: real, d: Side, idx: seq<nat>, c: Chunks)
    requires Bounded(idx, c)
  {
    && (forall k :: 0 <= k < |idx| ==>
          if d.high then Edge(c.volumes[idx[k]], d) <= m else m <= Edge(c.volumes[idx[k]], d))
    && (exists k :: 0 <= k < |idx| && Edge(c.volumes[idx[k]], d) == m)
  }

  lemma ExtremeOfList(idx: seq<nat>, c: Chunks, d: Side)
    requires idx != [] && Bounded(idx, c)
    ensures IsExtreme(if d.high then MaxOf(Edges(idx, c, d)) else MinOf(Edges(idx, c, d)), d, idx, c)
  {
    hide Edge;
    var s := Edges(idx, c, d);
    var m := if d.high then MaxOf(s) else MinOf(s);
    forall k | 0 <= k < |idx| ensures if d.high then Edge(c.volumes[idx[k]], d) <= m else m <= Edge(c.volumes[idx[k]], d) {
      assert s[k] in s;
    }
  }

  /** The six sides of the box are extremes over the chunks of the leaves. */
  ghost predicate IsRange(b: Box, idx: seq<nat>, c: Chunks)
    requires Bounded(idx, c)
  {
    && IsExtreme(b.low.x, Side(X, false), idx, c) && IsExtreme(b.high.x, Side(X, true), idx, c)
    && IsExtreme(b.low.y, Side(Y, false), idx, c) && IsExtreme(b.high.y, Side(Y, true), idx, c)
    && IsExtreme(b.low.z, Side(Z, false), idx, c) && IsExtreme(b.high.z, Side(Z, true), idx, c)
  }

  datatype SixLists = SixLists(xmins: seq<real>, xmaxs: seq<real>, ymins: seq<real>, ymaxs: seq<real>,
                               zmins: seq<real>, zmaxs: seq<real>)

  ghost predicate ListsOf(s: SixLists, idx: seq<nat>, c: Chunks)
    requires Bounded(idx, c)
  {
    && s.xmins == Edges(idx, c, Side(X, false)) && s.xmaxs == Edges(idx, c, Side(X, true))
    && s.ymins == Edges(idx, c, Side(Y, false)) && s.ymaxs == Edges(idx, c, Side(Y, true))
    && s.zmins == Edges(idx, c, Side(Z, false)) && s.zmaxs == Edges(idx, c, Side(Z, true))
  }

  lemma ListsAppend(s: SixLists, idx: seq<nat>, i: nat, c: Chunks)
    requires i < |c.volumes| && Bounded(idx, c) && ListsOf(s, idx, c)
    ensures var v := c.volumes[i];
            ListsOf(SixLists(s.xmins + [v.low.x], s.xmaxs + [v.high.x], s.ymins + [v.low.y], s.ymaxs + [v.high.y],
                             s.zmins + [v.low.z], s.zmaxs + [v.high.z]), idx + [i], c)
  {
    hide Edges;
    EdgesAppend(idx, i, c, Side(X, false));
    EdgesAppend(idx, i, c, Side(X, true));
    EdgesAppend(idx, i, c, Side(Y, false));
    EdgesAppend(idx, i, c, Side(Y, true));
    EdgesAppend(idx, i, c, Side(Z, false));
    EdgesAppend(idx, i, c, Side(Z, true));
  }

  /** The corners of one owner's chunks are added to the lists. */
  method AddCorners(s: SixLists, owned: seq<nat>, c: Chunks, ghost idx: seq<nat>) returns (r: SixLists)
    requires Bounded(owned, c)
    requires Bounded(idx, c) && ListsOf(s, idx, c)
    ensures Bounded(idx + owned, c) && ListsOf(r, idx + owned, c)
  {
    hide ListsOf;
    r := s;
    assert idx + owned[..0] == idx;
    for k := 0 to |owned|
      invariant Bounded(idx + owned[..k], c) && ListsOf(r, idx + owned[..k], c)
    {
      assert owned[k] in owned;
      var v := c.volumes[owned[k]];
      ListsAppend(r, idx + owned[..k], owned[k], c);
      assert idx + owned[..k + 1] == idx + owned[..k] + [owned[k]];
      r := SixLists(r.xmins + [v.low.x], r.xmaxs + [v.high.x], r.ymins + [v.low.y], r.ymaxs + [v.high.y],
                    r.zmins + [v.low.z], r.zmaxs + [v.high.z]);
    }
    assert owned[..|owned|] == owned;
  }

  /** get_box_ranges: the smallest box around the chunks of the tree; None is the ValueError that
      min raises when the leaves own no chunk. */
  method BoxRanges(t: Tree, c: Chunks) returns (r: Option<Box>)
    requires c.Valid()
    ensures r.None? <==> forall i :: 0 <= i < |c.owners| ==> c.owners[i] !in Ids(t)
    ensures r.Some? ==> IsRange(r.value, OwnedIndices(Ids(t), c), c)
  {
    hide ListsOf, IsRange, Ids, OwnedIndices, ChunksOf, Bounded;
    var ids := Ids(t);
    var s := SixLists([], [], [], [], [], []);
    NoLists(s, c);
    for k := 0 to |ids|
      invariant ListsOf(s, OwnedIndices(ids[..k], c), c)
    {
      s := AddCorners(s, ChunksOf(ids[k], c, |c.owners|), c, OwnedIndices(ids[..k], c));
      OwnedNext(ids, k, c);
    }
    assert ids[..|ids|] == ids;
    ListLengths(s, OwnedIndices(ids, c), c);
    HasElement(OwnedIndices(ids, c));
    if s.xmins == [] {
      return None;
    }
    r := Some(Box(Point(MinOf(s.xmins), MinOf(s.ymins), MinOf(s.zmins)), Point(MaxOf(s.xmaxs), MaxOf(s.ymaxs), MaxOf(s.zmaxs))));
    RangeOfLists(s, OwnedIndices(ids, c), c);
  }

  lemma OwnedNext(ids: seq<nat>, k: nat, c: Chunks)
    requires c.Valid() && k < |ids|
    ensures OwnedIndices(ids[..k + 1], c) == OwnedIndices(ids[..k], c) + ChunksOf(ids[k], c, |c.owners|)
  {
    assert ids[..k + 1][..k] == ids[..k];
  }

  lemma NoLists(s: SixLists, c: Chunks)
    requires s == SixLists([], [], [], [], [], [])
    requires c.Valid()
    ensures ListsOf(s, OwnedIndices([], c), c)
  {
  }

  lemma ListLengths(s: SixLists, idx: seq<nat>, c: Chunks)
    requires Bounded(idx, c) && ListsOf(s, idx, c)
    ensures |s.xmins| == |s.xmaxs| == |s.ymins| == |s.ymaxs| == |s.zmins| == |s.zmaxs| == |idx|
  {
  }

  lemma RangeOfLists(s: SixLists, idx: seq<nat>, c: Chunks)
    requires Bounded(idx, c) && ListsOf(s, idx, c) && idx != []
    ensures |s.xmins| == |s.xmaxs| == |s.ymins| == |s.ymaxs| == |s.zmins| == |s.zmaxs| == |idx|
    ensures IsRange(Box(Point(MinOf(s.xmins), MinOf(s.ymins), MinOf(s.zmins)),
                        Point(MaxOf(s.xmaxs), MaxOf(s.ymaxs), MaxOf(s.zmaxs))), idx, c)
  {
    hide IsExtreme, Edges;
    ExtremeOfList(idx, c, Side(X, false));
    ExtremeOfList(idx, c, Side(X, true));
    ExtremeOfList(idx, c, Side(Y, false));
    ExtremeOfList(idx, c, Side(Y, true));
    ExtremeOfList(idx, c, Side(Z, false));
    ExtremeOfList(idx, c, Side(Z, true));
  }

  /** The range of chunks with ordered corners has ordered corners. */
  lemma RangeIsProper(b: Box, idx: seq<nat>, c: Chunks)
    requires Bounded(idx, c) && IsRange(b, idx, c) && idx != []
    requires forall k :: 0 <= k < |idx| ==> Box(c.volumes[idx[k]].low, c.volumes[idx[k]].high).Proper()
    ensures b.Proper()
  {
    var v := c.volumes[idx[0]];
    assert Box(v.low, v.high).Proper();
    assert b.low.x <= Edge(v, Side(X, false)) && Edge(v, Side(X, true)) <= b.high.x;
    assert b.low.y <= Edge(v, Side(Y, false)) && Edge(v, Side(Y, true)) <= b.high.y;
    assert b.low.z <= Edge(v, Side(Z, false)) && Edge(v, Side(Z, true)) <= b.high.z;
  }
}
