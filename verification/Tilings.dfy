/** A partition of a box: where its leaf boxes lie, and when they tile (python/simulation.py:6687-6744,
    python/chunk_balancer.py:236-246). */
module Tilings {
  import opened Partitions

  function Low(b: Box, a: Axis): real { b.low.On(a) }

  function High(b: Box, a: Axis): real { b.high.On(a) }

  function WithHigh(b: Box, a: Axis, v: real): Box {
    match a
    case X => b.(high := b.high.(x := v))
    case Y => b.(high := b.high.(y := v))
    case Z => b.(high := b.high.(z := v))
  }

  function WithLow(b: Box, a: Axis, v: real): Box {
    match a
    case X => b.(low := b.low.(x := v))
    case Y => b.(low := b.low.(y := v))
    case Z => b.(low := b.low.(z := v))
  }

  /** Every split lies within the box of its node. */
  predicate SplitsInside(t: Tree, b: Box) {
    t.Leaf? || (Low(b, t.axis) <= t.pos <= High(b, t.axis)
                && SplitsInside(t.left, WithHigh(b, t.axis, t.pos)) && SplitsInside(t.right, WithLow(b, t.axis, t.pos)))
  }

  /** The boxes of the leaves, left to right. */
  function LeafBoxes(t: Tree, b: Box): (s: seq<Box>)
    ensures |s| == |Ids(t)|
  {
    match t
    case Leaf(_) => [b]
    case Node(a, pos, l, r) => LeafBoxes(l, WithHigh(b, a, pos)) + LeafBoxes(r, WithLow(b, a, pos))
  }

  /** The leaf that the comparisons with the split planes lead to. */
  function LeafAt(t: Tree, p: Point): (i: nat)
    ensures i < |Ids(t)|
  {
    match t
    case Leaf(_) => 0
    case Node(a, pos, l, r) => if p.On(a) < pos then LeafAt(l, p) else |Ids(l)| + LeafAt(r, p)
  }

  ghost predicate OffPlanes(t: Tree, p: Point) {
    t.Leaf? || (p.On(t.axis) != t.pos && OffPlanes(t.left, p) && OffPlanes(t.right, p))
  }

  lemma CutContains(b: Box, a: Axis, v: real, p: Point)
    ensures Low(b, a) <= v <= High(b, a) ==> (WithHigh(b, a, v).Contains(p) <==> b.Contains(p) && p.On(a) <= v)
    ensures Low(b, a) <= v <= High(b, a) ==> (WithLow(b, a, v).Contains(p) <==> b.Contains(p) && v <= p.On(a))
    ensures Low(b, a) <= v <= High(b, a) && b.Proper() ==> WithHigh(b, a, v).Proper() && WithLow(b, a, v).Proper()
  {
  }

  lemma {:induction false} LeafBoxesInside(t: Tree, b: Box, p: Point, i: nat)
    requires SplitsInside(t, b) && i < |Ids(t)| && LeafBoxes(t, b)[i].Contains(p)
    ensures b.Contains(p)
  {
    if t.Node? {
      CutContains(b, t.axis, t.pos, p);
      if i < |Ids(t.left)| {
        LeafBoxesInside(t.left, WithHigh(b, t.axis, t.pos), p, i);
      } else {
        LeafBoxesInside(t.right, WithLow(b, t.axis, t.pos), p, i - |Ids(t.left)|);
      }
    }
  }

  /** The leaf boxes tile: a point of the box that is on no split plane lies in exactly one of them. */
  lemma {:induction false} LeafBoxesTile(t: Tree, b: Box, p: Point, i: nat)
    requires SplitsInside(t, b) && b.Contains(p) && OffPlanes(t, p) && i < |Ids(t)|
    ensures LeafBoxes(t, b)[i].Contains(p) <==> i == LeafAt(t, p)
  {
    hide Box.Contains;
    if t.Node? {
      var n, lo, hi := |Ids(t.left)|, WithHigh(b, t.axis, t.pos), WithLow(b, t.axis, t.pos);
      CutContains(b, t.axis, t.pos, p);
      if i < n {
        if p.On(t.axis) < t.pos {
          LeafBoxesTile(t.left, lo, p, i);
        } else if LeafBoxes(t.left, lo)[i].Contains(p) {
          LeafBoxesInside(t.left, lo, p, i);
        }
      } else {
        if t.pos < p.On(t.axis) {
          LeafBoxesTile(t.right, hi, p, i - n);
        } else if LeafBoxes(t.right, hi)[i - n].Contains(p) {
          LeafBoxesInside(t.right, hi, p, i - n);
        }
      }
    }
  }

  /** Every point of the box, split planes included, lies in a leaf box. */
  lemma {:induction false} LeafBoxesCover(t: Tree, b: Box, p: Point)
    requires SplitsInside(t, b) && b.Contains(p)
    ensures LeafBoxes(t, b)[LeafAt(t, p)].Contains(p)
  {
    hide Box.Contains;
    if t.Node? {
      CutContains(b, t.axis, t.pos, p);
      if p.On(t.axis) < t.pos {
        LeafBoxesCover(t.left, WithHigh(b, t.axis, t.pos), p);
      } else {
        LeafBoxesCover(t.right, WithLow(b, t.axis, t.pos), p);
      }
    }
  }

  function SumOfVolumes(s: seq<Box>): real {
    if s == [] then 0.0 else SumOfVolumes(s[..|s| - 1]) + s[|s| - 1].Volume()
  }

  lemma {:induction false} SumOfConcat(s: seq<Box>, t: seq<Box>)
    ensures SumOfVolumes(s + t) == SumOfVolumes(s) + SumOfVolumes(t)
  {
    hide Box.Volume;
    if t == [] {
      assert s + t == s;
    } else {
      SumOfConcat(s, t[..|t| - 1]);
      assert (s + t)[..|s + t| - 1] == s + t[..|t| - 1];
    }
  }

  lemma CutVolumes(b: Box, a: Axis, v: real)
    ensures WithHigh(b, a, v).Volume() + WithLow(b, a, v).Volume() == b.Volume()
  {
    var dx, dy, dz := b.high.x - b.low.x, b.high.y - b.low.y, b.high.z - b.low.z;
    match a
    case X => SplitProduct(v - b.low.x, b.high.x - v, dy, dz);
    case Y => SplitProduct(v - b.low.y, b.high.y - v, dx, dz);
              Swap(v - b.low.y, dx, dz); Swap(b.high.y - v, dx, dz); Swap(dy, dx, dz);
    case Z => SplitProduct(v - b.low.z, b.high.z - v, dx, dy);
              Rotate(v - b.low.z, dx, dy); Rotate(b.high.z - v, dx, dy); Rotate(dz, dx, dy);
  }

  lemma SplitProduct(a: real, b: real, c: real, d: real)
    ensures a * c * d + b * c * d == (a + b) * c * d
  {
  }

  lemma Swap(a: real, b: real, c: real)
    ensures a * b * c == b * a * c
  {
  }

  lemma Rotate(a: real, b: real, c: real)
    ensures a * b * c == b * c * a
  {
    assert b * c * a == a * (b * c);
  }

  lemma VolumeOfBox(b: Box)
    ensures b.Volume() == (b.high.x - b.low.x) * (b.high.y - b.low.y) * (b.high.z - b.low.z)
  {
  }

  /** The volumes of the leaf boxes add up to that of the box. */
  lemma {:induction false} LeafVolumesAddUp(t: Tree, b: Box)
    ensures SumOfVolumes(LeafBoxes(t, b)) == b.Volume() == (b.high.x - b.low.x) * (b.high.y - b.low.y) * (b.high.z - b.low.z)
  {
    hide Box.Volume;
    VolumeOfBox(b);
    if t.Node? {
      var lo, hi := WithHigh(b, t.axis, t.pos), WithLow(b, t.axis, t.pos);
      LeafVolumesAddUp(t.left, lo);
      LeafVolumesAddUp(t.right, hi);
      SumOfConcat(LeafBoxes(t.left, lo), LeafBoxes(t.right, hi));
      CutVolumes(b, t.axis, t.pos);
    } else {
      assert [b][..0] == [];
    }
  }

  /** No leaf box has a negative extent. */
  lemma {:induction false} LeafBoxesProper(t: Tree, b: Box, i: nat)
    requires SplitsInside(t, b) && b.Proper() && i < |Ids(t)|
    ensures LeafBoxes(t, b)[i].Proper()
  {
    if t.Node? {
      CutContains(b, t.axis, t.pos, b.low);
      if i < |Ids(t.left)| {
        LeafBoxesProper(t.left, WithHigh(b, t.axis, t.pos), i);
      } else {
        LeafBoxesProper(t.right, WithLow(b, t.axis, t.pos), i - |Ids(t.left)|);
      }
    }
  }
}
