/** BinaryPartition objects and the balancer that rewrites a copy of them (python/simulation.py:6687-6744,
    python/chunk_balancer.py:162-290). */
module ChunkLayouts {
  import opened Options
  import opened Partitions
  import opened Tilings
  import opened Balancer

  class BinaryPartition {
    var splitDir: Option<Axis>
    var splitPos: Option<real>
    var procId: Option<nat>
    var left: BinaryPartition?
    var right: BinaryPartition?
    ghost var Repr: set<object>

    /** A tree of nodes that share nothing; a node has a split and two children, a leaf an id. */
    ghost predicate Valid()
      reads this, Repr
      decreases Repr
    {
      && this in Repr
      && (left == null <==> right == null)
      && (left == null ==> procId.Some?)
      && (left != null ==>
            && splitDir.Some? && splitPos.Some? && procId.None?
            && left in Repr && right in Repr && left.Repr <= Repr && right.Repr <= Repr
            && this !in left.Repr && this !in right.Repr && left.Repr !! right.Repr
            && left.Valid() && right.Valid())
    }

    function Value(): (t: Tree)
      requires Valid()
      reads this, Repr
      decreases Repr
      ensures t.Leaf? <==> left == null
    {
      if left == null then Leaf(procId.value)
      else Node(splitDir.value, splitPos.value, left.Value(), right.Value())
    }

    constructor AtLeaf(id: nat)
      ensures Valid() && fresh(Repr) && Value() == Leaf(id)
    {
      splitDir, splitPos, procId, left, right := None, None, Some(id), null, null;
      Repr := {this};
    }

    constructor AtNode(axis: Axis, pos: real, l: BinaryPartition, r: BinaryPartition)
      requires l.Valid() && r.Valid() && l.Repr !! r.Repr
      ensures Valid() && fresh(Repr - l.Repr - r.Repr) && Repr == {this} + l.Repr + r.Repr
      ensures Value() == Node(axis, pos, l.Value(), r.Value())
    {
      splitDir, splitPos, procId, left, right := Some(axis), Some(pos), None, l, r;
      Repr := {this} + l.Repr + r.Repr;
    }
  }

  /** What a valid node is made of. */
  ghost predicate Parts(p: BinaryPartition)
    reads p
  {
    && p in p.Repr && p.left != null && p.right != null
    && p.splitDir.Some? && p.splitPos.Some? && p.procId.None?
    && p.left in p.Repr && p.right in p.Repr
  }

  ghost predicate Apart(p: BinaryPartition)
    requires Parts(p)
    reads p, p.left, p.right
  {
    && p.left.Repr <= p.Repr && p.right.Repr <= p.Repr
    && p !in p.left.Repr && p !in p.right.Repr && p.left.Repr !! p.right.Repr
  }

  lemma Opened(p: BinaryPartition)
    requires p.Valid() && p.left != null
    ensures Parts(p) && Apart(p) && p.left.Valid() && p.right.Valid()
    ensures p.Value() == Node(p.splitDir.value, p.splitPos.value, p.left.Value(), p.right.Value())
  {
  }

  lemma Closed(p: BinaryPartition)
    requires Parts(p) && Apart(p) && p.left.Valid() && p.right.Valid()
    ensures p.Valid() && p.Value() == Node(p.splitDir.value, p.splitPos.value, p.left.Value(), p.right.Value())
  {
  }

  lemma OpenedLeaf(p: BinaryPartition)
    requires p.Valid() && p.left == null
    ensures p.procId.Some? && p.Value() == Leaf(p.procId.value)
  {
  }

  /** copy.deepcopy. */
  method DeepCopy(p: BinaryPartition) returns (q: BinaryPartition)
    requires p.Valid()
    ensures q.Valid() && fresh(q.Repr) && q.Value() == p.Value()
    decreases p.Repr
  {
    hide BinaryPartition.Valid, BinaryPartition.Value;
    if p.left == null {
      OpenedLeaf(p);
      q := new BinaryPartition.AtLeaf(p.procId.value);
    } else {
      Opened(p);
      var l := DeepCopy(p.left);
      var r := DeepCopy(p.right);
      q := new BinaryPartition.AtNode(p.splitDir.value, p.splitPos.value, l, r);
    }
  }

  const TimeSinks := ["time_stepping", "boundaries_copying", "field_output", "fourier_transform", "mpb",
                       "near_to_farfield_transform"]

  ghost predicate Complete(m: map<string, seq<real>>, n: nat) {
    forall k :: 0 <= k < |TimeSinks| ==> TimeSinks[k] in m && |m[TimeSinks[k]]| == n
  }

  /** Time of process p in the first k categories. */
  ghost function SinkTime(m: map<string, seq<real>>, n: nat, p: nat, k: nat): real
    requires Complete(m, n) && p < n && k <= |TimeSinks|
  {
    if k == 0 then 0.0 else SinkTime(m, n, p, k - 1) + m[TimeSinks[k - 1]][p]
  }

  /** Time stepping, copying at boundaries, output, transforms and MPB count as work; waiting does not. */
  ghost predicate IsWork(m: map<string, seq<real>>, n: nat, w: seq<real>) {
    && |w| == n
    && "time_stepping" in m && |m["time_stepping"]| == n && "boundaries_copying" in m && |m["boundaries_copying"]| == n
    && "field_output" in m && |m["field_output"]| == n && "fourier_transform" in m && |m["fourier_transform"]| == n
    && "mpb" in m && |m["mpb"]| == n && "near_to_farfield_transform" in m && |m["near_to_farfield_transform"]| == n
    && forall p :: 0 <= p < n ==>
         w[p] == m["time_stepping"][p] + m["boundaries_copying"][p] + m["field_output"][p] + m["fourier_transform"][p]
               + m["mpb"][p] + m["near_to_farfield_transform"][p]
  }

  lemma SinksAreWork(m: map<string, seq<real>>, n: nat, w: seq<real>)
    requires Complete(m, n) && |w| == n && forall p :: 0 <= p < n ==> w[p] == SinkTime(m, n, p, |TimeSinks|)
    ensures IsWork(m, n, w)
  {
    var t := TimeSinks;
    assert t[0] in m && t[1] in m && t[2] in m && t[3] in m && t[4] in m && t[5] in m;
    forall p | 0 <= p < n
      ensures w[p] == m["time_stepping"][p] + m["boundaries_copying"][p] + m["field_output"][p] + m["fourier_transform"][p]
                    + m["mpb"][p] + m["near_to_farfield_transform"][p]
    {
      assert SinkTime(m, n, p, 0) == 0.0;
      assert SinkTime(m, n, p, 1) == m[t[0]][p];
      assert SinkTime(m, n, p, 2) == m[t[0]][p] + m[t[1]][p];
      assert SinkTime(m, n, p, 3) == m[t[0]][p] + m[t[1]][p] + m[t[2]][p];
      assert SinkTime(m, n, p, 4) == m[t[0]][p] + m[t[1]][p] + m[t[2]][p] + m[t[3]][p];
      assert SinkTime(m, n, p, 5) == m[t[0]][p] + m[t[1]][p] + m[t[2]][p] + m[t[3]][p] + m[t[4]][p];
    }
  }

  /** _compute_working_times_per_process. */
  method WorkingTimes(m: map<string, seq<real>>, n: nat) returns (w: seq<real>)
    requires Complete(m, n)
    ensures |w| == n && forall p :: 0 <= p < n ==> w[p] == SinkTime(m, n, p, |TimeSinks|)
    ensures IsWork(m, n, w)
  {
    w := seq(n, i => 0.0);
    for k := 0 to |TimeSinks|
      invariant |w| == n && forall p :: 0 <= p < n ==> w[p] == SinkTime(m, n, p, k)
    {
      var t := m[TimeSinks[k]];
      w := seq(n, i requires 0 <= i < n => w[i] + t[i]);
    }
    SinksAreWork(m, n, w);
  }

  /** The recursion of compute_new_chunk_layout below the root: it walks the old and the new tree
      together and assigns split_pos in the new one only. The result tells whether every split is a
      number; a division by zero gives NaN or an infinity, which the splits below inherit. */
  method Rebalance(partition: BinaryPartition, newPartition: BinaryPartition, b: Box, ld: Load, sensitivity: real)
    returns (finite: bool)
    requires partition.Valid() && newPartition.Valid() && partition.Repr !! newPartition.Repr
    requires newPartition.Value() == partition.Value() && ld.chunks.Valid() && IdsIn(partition.Value(), ld.times)
    modifies newPartition.Repr
    ensures newPartition.Valid() && newPartition.Repr == old(newPartition.Repr)
    ensures finite <==> Measured(old(partition.Value()), ld)
    ensures finite ==> newPartition.Value() == Rebalanced(old(partition.Value()), b, ld, sensitivity)
    ensures partition.Valid() && partition.Value() == old(partition.Value())
    decreases partition.Repr
  {
    hide NewPos, Divides, BinaryPartition.Valid, BinaryPartition.Value;
    if partition.left == null {
      return true;
    }
    Opened(partition);
    Opened(newPartition);
    var t := partition.Value();
    IdsInParts(t, ld.times);
    if !Divides(t, ld) {
      return false;
    }
    var pos := NewPos(t, b, ld, sensitivity);
    newPartition.splitPos := Some(pos);
    var l := Rebalance(partition.left, newPartition.left, WithHigh(b, t.axis, pos), ld, sensitivity);
    var r := Rebalance(partition.right, newPartition.right, WithLow(b, t.axis, pos), ld, sensitivity);
    Closed(newPartition);
    return l && r;
  }

  datatype Outcome =
    | Layout(partition: BinaryPartition)
    | ValueError
    | IndexError
    | NotANumber               // a layout with a split that is NaN or infinite

  /** The leaves own no chunk. */
  ghost predicate Unowned(t: Tree, c: Chunks) { forall i :: 0 <= i < |c.owners| ==> c.owners[i] !in Ids(t) }

  /** get_total_weight of one side. */
  predicate Weighs(t: Tree, ld: Load) { !HasDuplicates(t) && IdsIn(t, ld.times) }

  /** compute_new_chunk_layout at the root. A leaf is returned itself, not as a copy. The leaves may
      own no chunk, one side may hold an id twice or an id without a time, and a node may divide by
      zero; in this order. */
  method ComputeNewChunkLayout(partition: BinaryPartition, ld: Load, sensitivity: real)
    returns (r: Outcome, ghost b: Box)
    requires partition.Valid() && ld.chunks.Valid()
    ensures partition.Valid() && partition.Value() == old(partition.Value())
    ensures partition.Value().Leaf? ==> r == Layout(partition)
    ensures var t := partition.Value();
            t.Node? ==>
              && (r == ValueError <==> Unowned(t, ld.chunks) || HasDuplicates(t.left)
                                       || (Weighs(t.left, ld) && HasDuplicates(t.right)))
              && (r == IndexError <==> !Unowned(t, ld.chunks) && !HasDuplicates(t.left)
                                       && (!IdsIn(t.left, ld.times) || (!HasDuplicates(t.right) && !IdsIn(t.right, ld.times))))
              && (r == NotANumber <==> !Unowned(t, ld.chunks) && Weighs(t.left, ld) && Weighs(t.right, ld) && !Measured(t, ld))
              && (r.Layout? <==> !Unowned(t, ld.chunks) && Weighs(t.left, ld) && Weighs(t.right, ld) && Measured(t, ld))
              && (r.Layout? ==>
                    && r.partition.Valid() && fresh(r.partition.Repr)
                    && IsRange(b, OwnedIndices(Ids(t), ld.chunks), ld.chunks)
                    && r.partition.Value() == Rebalanced(t, b, ld, sensitivity))
  {
    hide IsRange, Ids, Measured, Rebalanced, HasDuplicates, IdsIn;
    b := Box(Point(0.0, 0.0, 0.0), Point(0.0, 0.0, 0.0));
    var newPartition := DeepCopy(partition);
    if partition.left == null {
      return Layout(partition), b;
    }
    var t := partition.Value();
    var bounds := BoxRanges(t, ld.chunks);
    if bounds.None? {
      return ValueError, b;
    }
    b := bounds.value;
    if HasDuplicates(t.left) {
      return ValueError, b;
    }
    if !IdsIn(t.left, ld.times) {
      return IndexError, b;
    }
    if HasDuplicates(t.right) {
      return ValueError, b;
    }
    if !IdsIn(t.right, ld.times) {
      return IndexError, b;
    }
    IdsInParts(t, ld.times);
    var finite := Rebalance(partition, newPartition, bounds.value, ld, sensitivity);
    r := if finite then Layout(newPartition) else NotANumber;
  }
}
