/** Adaptive chunk layouts (python/chunk_balancer.py:162-290): every split plane moves toward the
    place that equalises the predicted time per chunk on its two sides. */
module Balancer {
  import opened Reals
  import opened Partitions
  import opened Tilings

  /** Working time per process, and the chunks they were measured on. */
  datatype Load = Load(times: seq<real>, chunks: Chunks)

  function TimeOf(t: Tree, ld: Load): real
    requires IdsIn(t, ld.times)
  {
    SumAt(Ids(t), ld.times)
  }

  function VolumeOf(t: Tree, ld: Load): real
    requires ld.chunks.Valid()
  {
    TotalVolume(t, ld.chunks) as real
  }

  /** v_left_new and v_right_new. */
  function LeftShare(t: Tree, ld: Load): real
    requires t.Node? && ld.chunks.Valid() && IdsIn(t.right, ld.times)
  {
    Product(VolumeOf(t.left, ld), TimeOf(t.right, ld), NumChunks(t.left) as real)
  }

  function RightShare(t: Tree, ld: Load): real
    requires t.Node? && ld.chunks.Valid() && IdsIn(t.left, ld.times)
  {
    Product(VolumeOf(t.right, ld), TimeOf(t.left, ld), NumChunks(t.right) as real)
  }

  /** The process ids below a node have times, and its fraction does not divide by zero. */
  predicate Divides(t: Tree, ld: Load)
    requires t.Node?
  {
    && ld.chunks.Valid() && IdsIn(t.left, ld.times) && IdsIn(t.right, ld.times)
    && LeftShare(t, ld) + RightShare(t, ld) != 0.0
  }

  /** Every process id has a time, and no node divides by zero. */
  predicate Measured(t: Tree, ld: Load) {
    && ld.chunks.Valid() && IdsIn(t, ld.times)
    && (t.Node? ==> Divides(t, ld) && Measured(t.left, ld) && Measured(t.right, ld))
  }

  function Ratio(a: real, b: real): real
    requires a + b != 0.0
  {
    a / (a + b)
  }

  /** split_frac. */
  function Fraction(t: Tree, ld: Load): real
    requires t.Node? && Divides(t, ld)
  {
    Ratio(LeftShare(t, ld), RightShare(t, ld))
  }

  /** The place at fraction f between low and high. */
  function Between(low: real, high: real, f: real): real { (high - low) * f + low }

  function Target(t: Tree, b: Box, ld: Load): real
    requires t.Node? && Divides(t, ld)
  {
    Between(Low(b, t.axis), High(b, t.axis), Fraction(t, ld))
  }

  function NewPos(t: Tree, b: Box, ld: Load, sensitivity: real): real
    requires t.Node? && Divides(t, ld)
  {
    Mix(sensitivity, Target(t, b, ld), t.pos)
  }

  /** The new layout as a function of the old one: each subtree is given its half of the box as the
      new split cuts it. */
  function Rebalanced(t: Tree, b: Box, ld: Load, sensitivity: real): Tree
    requires Measured(t, ld)
  {
    match t
    case Leaf(_) => t
    case Node(a, _, l, r) =>
      var p := NewPos(t, b, ld, sensitivity);
      Node(a, p, Rebalanced(l, WithHigh(b, a, p), ld, sensitivity), Rebalanced(r, WithLow(b, a, p), ld, sensitivity))
  }

  // ----- what is kept

  /** Same shape, split axes and process ids. */
  predicate SameShape(t: Tree, u: Tree) {
    match t
    case Leaf(id) => u == t
    case Node(a, _, l, r) => u.Node? && u.axis == a && SameShape(l, u.left) && SameShape(r, u.right)
  }

  lemma {:induction false} ShapeKept(t: Tree, b: Box, ld: Load, sensitivity: real)
    requires Measured(t, ld)
    ensures var u := Rebalanced(t, b, ld, sensitivity);
            SameShape(t, u) && Ids(u) == Ids(t) && NumChunks(u) == NumChunks(t)
  {
    hide NewPos, LeftShare, RightShare;
    if t.Node? {
      var p := NewPos(t, b, ld, sensitivity);
      ShapeKept(t.left, WithHigh(b, t.axis, p), ld, sensitivity);
      ShapeKept(t.right, WithLow(b, t.axis, p), ld, sensitivity);
    }
  }

  // ----- the target stays in the box

  ghost predicate NonNegative(ld: Load) { forall k :: 0 <= k < |ld.times| ==> ld.times[k] >= 0.0 }

  lemma {:induction false} SumAtSign(ids: seq<nat>, w: seq<real>)
    requires InRange(ids, w) && forall k :: 0 <= k < |w| ==> w[k] >= 0.0
    ensures SumAt(ids, w) >= 0.0
  {
    if ids != [] {
      SumAtSign(ids[..|ids| - 1], w);
    }
  }

  lemma ProductOfThree(a: real, b: real, c: real)
    requires a >= 0.0 && b >= 0.0 && c >= 0.0
    ensures Product(a, b, c) >= 0.0
  {
    ProductSign(a, b, a * b);
    ProductSign(a * b, c, a * b * c);
  }

  lemma RatioRange(a: real, b: real)
    requires a >= 0.0 && b >= 0.0 && a + b != 0.0
    ensures 0.0 <= Ratio(a, b) <= 1.0
  {
    var r := Ratio(a, b);
    assert r * (a + b) == a;
    if r < 0.0 {
      ProductSign(-r, a + b, (-r) * (a + b));
    } else if r > 1.0 {
      ProductSign(r - 1.0, a + b, (r - 1.0) * (a + b));
    }
  }

  lemma FractionRange(t: Tree, ld: Load)
    requires t.Node? && Measured(t, ld) && NonNegative(ld)
    ensures 0.0 <= Fraction(t, ld) <= 1.0
  {
    hide Product, Ratio, SumAt, TotalVolume, NumChunks;
    SumAtSign(Ids(t.left), ld.times);
    SumAtSign(Ids(t.right), ld.times);
    ProductOfThree(VolumeOf(t.left, ld), TimeOf(t.right, ld), NumChunks(t.left) as real);
    ProductOfThree(VolumeOf(t.right, ld), TimeOf(t.left, ld), NumChunks(t.right) as real);
    RatioRange(LeftShare(t, ld), RightShare(t, ld));
  }

  lemma BetweenRange(low: real, high: real, f: real)
    requires low <= high && 0.0 <= f <= 1.0
    ensures low <= Between(low, high, f) <= high
  {
    ProductSign(high - low, f, (high - low) * f);
    ProductSign(high - low, 1.0 - f, (high - low) * (1.0 - f));
  }

  lemma MixRange(s: real, a: real, b: real, low: real, high: real)
    requires 0.0 <= s <= 1.0 && low <= a <= high && low <= b <= high
    ensures low <= Mix(s, a, b) <= high
  {
    ProductSign(s, a - low, s * (a - low));
    ProductSign(1.0 - s, b - low, (1.0 - s) * (b - low));
    ProductSign(s, high - a, s * (high - a));
    ProductSign(1.0 - s, high - b, (1.0 - s) * (high - b));
    assert Mix(s, a, b) - low == s * (a - low) + (1.0 - s) * (b - low);
    assert high - Mix(s, a, b) == s * (high - a) + (1.0 - s) * (high - b);
  }

  lemma TargetInside(t: Tree, b: Box, ld: Load)
    requires t.Node? && Measured(t, ld) && NonNegative(ld) && b.Proper()
    ensures Low(b, t.axis) <= Target(t, b, ld) <= High(b, t.axis)
  {
    hide Fraction, Between;
    FractionRange(t, ld);
    BetweenRange(Low(b, t.axis), High(b, t.axis), Fraction(t, ld));
  }

  /** With sensitivity 1 every new split lies in its box, whatever the old splits were. */
  lemma {:induction false} InstantChangeTiles(t: Tree, b: Box, ld: Load)
    requires Measured(t, ld) && NonNegative(ld) && b.Proper()
    ensures SplitsInside(Rebalanced(t, b, ld, 1.0), b)
  {
    hide Target, LeftShare, RightShare;
    if t.Node? {
      TargetInside(t, b, ld);
      var p := NewPos(t, b, ld, 1.0);
      CutContains(b, t.axis, p, b.low);
      InstantChangeTiles(t.left, WithHigh(b, t.axis, p), ld);
      InstantChangeTiles(t.right, WithLow(b, t.axis, p), ld);
    }
  }

  /** No path from the root splits an axis twice, and none splits one of the axes in `used`. */
  predicate AxesOnce(t: Tree, used: set<Axis>) {
    t.Leaf? || (t.axis !in used && AxesOnce(t.left, used + {t.axis}) && AxesOnce(t.right, used + {t.axis}))
  }

  /** Old splits lie within the root box along their axis. */
  predicate OldSplitsIn(t: Tree, root: Box) {
    t.Leaf? || (Low(root, t.axis) <= t.pos <= High(root, t.axis) && OldSplitsIn(t.left, root) && OldSplitsIn(t.right, root))
  }

  /** The box still has the root's extent along the axes that were not split. */
  predicate Uncut(b: Box, root: Box, used: set<Axis>) {
    forall a :: a !in used ==> Low(b, a) == Low(root, a) && High(b, a) == High(root, a)
  }

  lemma StaysUncut(b: Box, root: Box, used: set<Axis>, a: Axis, v: real)
    requires Uncut(b, root, used)
    ensures Uncut(WithHigh(b, a, v), root, used + {a}) && Uncut(WithLow(b, a, v), root, used + {a})
  {
  }

  lemma UncutOn(b: Box, root: Box, used: set<Axis>, a: Axis)
    requires Uncut(b, root, used) && a !in used
    ensures Low(b, a) == Low(root, a) && High(b, a) == High(root, a)
  {
  }

  // ----- fixed points

  /** Every old split is already where it is drawn to. */
  predicate AtTargets(t: Tree, b: Box, ld: Load)
    requires Measured(t, ld)
  {
    t.Leaf? || (t.pos == Target(t, b, ld)
                && AtTargets(t.left, WithHigh(b, t.axis, t.pos), ld) && AtTargets(t.right, WithLow(b, t.axis, t.pos), ld))
  }

  lemma MixFixed(s: real, a: real, b: real)
    ensures s != 0.0 ==> (Mix(s, a, b) == b <==> a == b)
    ensures s == 0.0 ==> Mix(s, a, b) == b
  {
    assert Mix(s, a, b) - b == s * (a - b);
  }

  /** The layout is unchanged exactly if every split is at its target, or the sensitivity is zero. */
  lemma {:induction false} UnchangedIff(t: Tree, b: Box, ld: Load, sensitivity: real)
    requires Measured(t, ld)
    ensures Rebalanced(t, b, ld, sensitivity) == t <==> sensitivity == 0.0 || AtTargets(t, b, ld)
  {
    hide Target, LeftShare, RightShare, Mix;
    if t.Node? {
      MixFixed(sensitivity, Target(t, b, ld), t.pos);
      UnchangedIff(t.left, WithHigh(b, t.axis, t.pos), ld, sensitivity);
      UnchangedIff(t.right, WithLow(b, t.axis, t.pos), ld, sensitivity);
    }
  }

  /** Both sides of the node take the same time per chunk. */
  predicate EvenTimes(t: Tree, ld: Load)
    requires t.Node? && Measured(t, ld)
  {
    TimeOf(t.left, ld) / NumChunks(t.left) as real == TimeOf(t.right, ld) / NumChunks(t.right) as real
  }

  /** The split divides its box as the measured volumes divide. */
  predicate AtVolumeFraction(t: Tree, b: Box, ld: Load)
    requires t.Node? && Measured(t, ld)
  {
    && VolumeOf(t.left, ld) + VolumeOf(t.right, ld) != 0.0
    && t.pos == Between(Low(b, t.axis), High(b, t.axis), Ratio(VolumeOf(t.left, ld), VolumeOf(t.right, ld)))
  }

  /** Where all nodes are balanced and split in proportion to the volumes. */
  predicate Balanced(t: Tree, b: Box, ld: Load)
    requires Measured(t, ld)
  {
    t.Leaf? || (NumChunks(t.left) >= 1 && NumChunks(t.right) >= 1 && EvenTimes(t, ld) && AtVolumeFraction(t, b, ld)
                && Balanced(t.left, WithHigh(b, t.axis, t.pos), ld) && Balanced(t.right, WithLow(b, t.axis, t.pos), ld))
  }

  /** For positive volumes: the target is the volume fraction exactly if the times are even. */
  lemma RatioIsVolumeRatio(vl: real, vr: real, tl: real, tr: real, nl: real, nr: real)
    requires nl >= 1.0 && nr >= 1.0 && vl + vr != 0.0
    requires Product(vl, tr, nl) + Product(vr, tl, nr) != 0.0
    ensures tl / nl == tr / nr ==> Ratio(Product(vl, tr, nl), Product(vr, tl, nr)) == Ratio(vl, vr)
    ensures vl > 0.0 && vr > 0.0 && Ratio(Product(vl, tr, nl), Product(vr, tl, nr)) == Ratio(vl, vr) ==> tl / nl == tr / nr
  {
    hide Product, Ratio;
    var a, b := Product(vl, tr, nl), Product(vr, tl, nr);
    RatiosEqual(a, b, vl, vr);
    CrossTerms(vl, vr, tl, tr, nl, nr, a, b);
    QuotientsEqual(tl, nl, tr, nr);
    ProductZero(vl * vr, tr * nl - tl * nr);
    if vl > 0.0 && vr > 0.0 {
      PositiveProduct(vl, vr);
    }
  }

  lemma ProductZero(x: real, y: real)
    ensures y == 0.0 ==> x * y == 0.0
    ensures x != 0.0 && x * y == 0.0 ==> y == 0.0
  {
  }

  lemma RatiosEqual(a: real, b: real, c: real, d: real)
    requires a + b != 0.0 && c + d != 0.0
    ensures Ratio(a, b) == Ratio(c, d) <==> a * d == b * c
  {
    var x, y := Ratio(a, b), Ratio(c, d);
    assert x * (a + b) == a && y * (c + d) == c;
    assert (x - y) * ((a + b) * (c + d)) == a * (c + d) - c * (a + b) by { Clear(x, y, a + b, c + d); }
    ZeroFactors(x - y, a + b, c + d);
  }

  lemma Clear(x: real, y: real, p: real, q: real)
    ensures (x - y) * (p * q) == (x * p) * q - (y * q) * p
  {
  }

  lemma ZeroFactors(x: real, p: real, q: real)
    requires p != 0.0 && q != 0.0
    ensures x * (p * q) == 0.0 <==> x == 0.0
  {
    assert p * q != 0.0;
  }

  lemma CrossTerms(vl: real, vr: real, tl: real, tr: real, nl: real, nr: real, a: real, b: real)
    requires a == Product(vl, tr, nl) && b == Product(vr, tl, nr)
    ensures a * vr - b * vl == (vl * vr) * (tr * nl - tl * nr)
  {
  }

  lemma QuotientsEqual(a: real, p: real, b: real, q: real)
    requires p >= 1.0 && q >= 1.0
    ensures a / p == b / q <==> a * q == b * p
  {
    var x, y := a / p, b / q;
    assert x * p == a && y * q == b;
    assert (x - y) * (p * q) == a * q - b * p by { Clear(x, y, p, q); }
    ZeroFactors(x - y, p, q);
  }

  /** A balanced layout is left alone, whatever the sensitivity. */
  lemma {:induction false} BalancedIsFixed(t: Tree, b: Box, ld: Load, sensitivity: real)
    requires Measured(t, ld) && Balanced(t, b, ld)
    ensures Rebalanced(t, b, ld, sensitivity) == t
  {
    BalancedAtTargets(t, b, ld);
    UnchangedIff(t, b, ld, sensitivity);
  }

  lemma {:induction false} BalancedAtTargets(t: Tree, b: Box, ld: Load)
    requires Measured(t, ld) && Balanced(t, b, ld)
    ensures AtTargets(t, b, ld)
  {
    hide Ratio, Product, Between, SumAt, TotalVolume, NumChunks;
    if t.Node? {
      RatioIsVolumeRatio(VolumeOf(t.left, ld), VolumeOf(t.right, ld), TimeOf(t.left, ld), TimeOf(t.right, ld),
                         NumChunks(t.left) as real, NumChunks(t.right) as real);
      BalancedAtTargets(t.left, WithHigh(b, t.axis, t.pos), ld);
      BalancedAtTargets(t.right, WithLow(b, t.axis, t.pos), ld);
    }
  }

  // ----- what the target equalises

  /** Time per chunk predicted for one side when it gets the volume v instead of `was`: the time per
      volume stays the same. */
  function Predicted(time: real, v: real, was: real, chunks: real): real
    requires was != 0.0 && chunks != 0.0
  {
    time / was * v / chunks
  }

  /** The part of the volume v that fraction f takes. */
  /** Of all ways to divide the volume of a node, the target fraction is the only one with the same
      predicted time per chunk on both sides. */
  lemma TargetEqualises(t: Tree, ld: Load, f: real)
    requires t.Node? && Measured(t, ld) && VolumeOf(t.left, ld) > 0.0 && VolumeOf(t.right, ld) > 0.0
    requires NumChunks(t.left) >= 1 && NumChunks(t.right) >= 1
    ensures var v := VolumeOf(t.left, ld) + VolumeOf(t.right, ld);
            Predicted(TimeOf(t.left, ld), Part(f, v), VolumeOf(t.left, ld), NumChunks(t.left) as real)
            == Predicted(TimeOf(t.right, ld), Part(1.0 - f, v), VolumeOf(t.right, ld), NumChunks(t.right) as real)
            <==> f == Fraction(t, ld)
  {
    hide Predicted, Part, Ratio, Product, SumAt, TotalVolume, NumChunks;
    Equalises(TimeOf(t.left, ld), TimeOf(t.right, ld), VolumeOf(t.left, ld), VolumeOf(t.right, ld),
              NumChunks(t.left) as real, NumChunks(t.right) as real, f);
  }

  lemma Equalises(tl: real, tr: real, vl: real, vr: real, nl: real, nr: real, f: real)
    requires vl > 0.0 && vr > 0.0 && nl >= 1.0 && nr >= 1.0
    requires Product(vl, tr, nl) + Product(vr, tl, nr) != 0.0
    ensures Predicted(tl, Part(f, vl + vr), vl, nl) == Predicted(tr, Part(1.0 - f, vl + vr), vr, nr)
            <==> f == Ratio(Product(vl, tr, nl), Product(vr, tl, nr))
  {
    hide Ratio, Product, Part, Predicted;
    var a, b, v := Product(vl, tr, nl), Product(vr, tl, nr), vl + vr;
    var x, y := Predicted(tl, Part(f, v), vl, nl), Predicted(tr, Part(1.0 - f, v), vr, nr);
    PredictedCleared(tl, Part(f, v), vl, nl);
    PredictedCleared(tr, Part(1.0 - f, v), vr, nr);
    EqualisesCleared(x, y, tl, tr, vl, vr, nl, nr, f, v, a, b);
    PositiveProduct(vl, vr);
    PositiveProduct(nl, nr);
    PositiveProduct(vl * vr, nl * nr);
    ProductZero((vl * vr) * (nl * nr), x - y);
    ProductZero(v, f * (a + b) - a);
    RatioIs(a, b, f);
  }

  lemma RatioIs(a: real, b: real, f: real)
    requires a + b != 0.0
    ensures f * (a + b) - a == 0.0 <==> f == Ratio(a, b)
  {
    var r := Ratio(a, b);
    assert r * (a + b) == a;
    assert f * (a + b) - a == (f - r) * (a + b);
    ProductZero(a + b, f - r);
  }

  lemma PredictedCleared(time: real, v: real, was: real, chunks: real)
    requires was > 0.0 && chunks >= 1.0
    ensures Predicted(time, v, was, chunks) * was * chunks == time * v
  {
    var q := time / was;
    assert q * was == time;
    var p := q * v / chunks;
    assert p * chunks == q * v;
    assert p * was * chunks == (p * chunks) * was;
    assert (q * v) * was == (q * was) * v;
  }

  lemma EqualisesCleared(x: real, y: real, tl: real, tr: real, vl: real, vr: real, nl: real, nr: real, f: real, v: real,
                         a: real, b: real)
    requires x * vl * nl == tl * Part(f, v) && y * vr * nr == tr * Part(1.0 - f, v)
    requires a == Product(vl, tr, nl) && b == Product(vr, tl, nr)
    ensures ((vl * vr) * (nl * nr)) * (x - y) == v * (f * (a + b) - a)
  {
    assert ((vl * vr) * (nl * nr)) * x == (x * vl * nl) * (vr * nr);
    assert ((vl * vr) * (nl * nr)) * y == (y * vr * nr) * (vl * nl);
    assert (tl * (f * v)) * (vr * nr) == (f * v) * b;
    assert (tr * ((1.0 - f) * v)) * (vl * nl) == ((1.0 - f) * v) * a;
    assert (f * v) * b - ((1.0 - f) * v) * a == v * (f * (a + b) - a);
  }

  // ----- one split

  /** A cell of two chunks, one for each process. */
  const TwoLeaves := Node(X, 0.0, Leaf(0), Leaf(1))

  function TwoLoad(t0: real, t1: real, v0: GridVolume, v1: GridVolume): Load { Load([t0, t1], Chunks([v0, v1], [0, 1])) }

  lemma TwoPixels(t0: real, t1: real, v0: GridVolume, v1: GridVolume, id: nat)
    requires id < 2
    ensures TotalVolume(Leaf(id), TwoLoad(t0, t1, v0, v1).chunks) == if id == 0 then v0.Pixels() else v1.Pixels()
    ensures IdsIn(Leaf(id), [t0, t1]) && TimeOf(Leaf(id), TwoLoad(t0, t1, v0, v1)) == if id == 0 then t0 else t1
  {
    hide GridVolume.Pixels;
    var c := TwoLoad(t0, t1, v0, v1).chunks;
    SumOfOwned([id], c, 2);
    assert PixelsOf([id], c, 0) == 0;
    assert PixelsOf([id], c, 1) == if id == 0 then v0.Pixels() else 0;
    SingleWeight(id, [t0, t1]);
  }

  /** The split moves to the fraction v0*t1 / (v0*t1 + v1*t0): toward the slower process. */
  lemma TwoChunks(t0: real, t1: real, v0: GridVolume, v1: GridVolume)
    requires v0.Pixels() as real * t1 + v1.Pixels() as real * t0 != 0.0
    ensures var ld := TwoLoad(t0, t1, v0, v1);
            && Measured(TwoLeaves, ld)
            && Fraction(TwoLeaves, ld) * (v0.Pixels() as real * t1 + v1.Pixels() as real * t0) == v0.Pixels() as real * t1
  {
    hide GridVolume.Pixels, TimeOf, IdsIn, TotalVolume;
    var ld, p, q := TwoLoad(t0, t1, v0, v1), v0.Pixels() as real, v1.Pixels() as real;
    TwoPixels(t0, t1, v0, v1, 0);
    TwoPixels(t0, t1, v0, v1, 1);
    IdsInParts(TwoLeaves, ld.times);
    TimesOneChunk(p, t1);
    TimesOneChunk(q, t0);
    assert LeftShare(TwoLeaves, ld) == p * t1 && RightShare(TwoLeaves, ld) == q * t0;
    RatioTimes(p * t1, q * t0);
  }

  lemma TimesOneChunk(p: real, t: real)
    ensures Product(p, t, 1.0) == p * t
  {
  }

  lemma RatioTimes(a: real, b: real)
    requires a + b != 0.0
    ensures Ratio(a, b) * (a + b) == a
  {
  }

  /** 10 x 10 x 10 and 10 x 10 x 20 pixels with equal times: the smaller chunk gets a third. */
  lemma OneThird()
    ensures var at := Point(0.0, 0.0, 0.0);
            var ld := TwoLoad(1.0, 1.0, GridVolume(10, 10, 10, at, at), GridVolume(10, 10, 20, at, at));
            Measured(TwoLeaves, ld) && Fraction(TwoLeaves, ld) * 3.0 == 1.0
  {
    hide Measured, Fraction;
    var at := Point(0.0, 0.0, 0.0);
    var v0, v1 := GridVolume(10, 10, 10, at, at), GridVolume(10, 10, 20, at, at);
    assert v0.Pixels() == 1000 && v1.Pixels() == 2000;
    TwoChunks(1.0, 1.0, v0, v1);
  }

  // ----- a repeated axis

  /** X is split at 8, and its lower part at 7; all measured time is spent in process 1, between the
      two planes. */
  const EscapeTree := Node(X, 8.0, Node(X, 7.0, Leaf(0), Leaf(1)), Leaf(2))
  const EscapeBox := Box(Point(0.0, 0.0, 0.0), Point(10.0, 1.0, 1.0))
  const UnitChunk := GridVolume(1, 1, 1, Point(0.0, 0.0, 0.0), Point(1.0, 1.0, 1.0))
  const EscapeLoad := Load([0.0, 1.0, 0.0], Chunks([UnitChunk, UnitChunk, UnitChunk], [0, 1, 2]))

  lemma EscapePixels(ids: seq<nat>, n: nat)
    requires n <= 3
    ensures PixelsOf(ids, EscapeLoad.chunks, n)
         == (if n >= 1 && 0 in ids then 1 else 0) + (if n >= 2 && 1 in ids then 1 else 0) + (if n >= 3 && 2 in ids then 1 else 0)
  {
    if n > 0 {
      EscapePixels(ids, n - 1);
    }
  }

  lemma EscapeLeaf(id: nat)
    requires id < 3
    ensures VolumeOf(Leaf(id), EscapeLoad) == 1.0 && IdsIn(Leaf(id), EscapeLoad.times)
    ensures TimeOf(Leaf(id), EscapeLoad) == if id == 1 then 1.0 else 0.0
  {
    SumOfOwned([id], EscapeLoad.chunks, 3);
    EscapePixels([id], 3);
    SingleWeight(id, EscapeLoad.times);
  }

  lemma EscapePair()
    ensures VolumeOf(EscapeTree.left, EscapeLoad) == 2.0 && IdsIn(EscapeTree.left, EscapeLoad.times)
    ensures TimeOf(EscapeTree.left, EscapeLoad) == 1.0
  {
    var ids := Ids(EscapeTree.left);
    assert ids == [0] + [1] == [0, 1];
    SumOfOwned(ids, EscapeLoad.chunks, 3);
    EscapePixels(ids, 3);
    SingleWeight(0, EscapeLoad.times);
    SingleWeight(1, EscapeLoad.times);
    SumAtConcat([0], [1], EscapeLoad.times);
  }

  lemma EscapeShares()
    ensures var t, l := EscapeTree, EscapeTree.left;
            && IdsIn(t.left, EscapeLoad.times) && IdsIn(t.right, EscapeLoad.times)
            && IdsIn(l.left, EscapeLoad.times) && IdsIn(l.right, EscapeLoad.times)
            && LeftShare(t, EscapeLoad) == 0.0 && RightShare(t, EscapeLoad) == 1.0
            && LeftShare(l, EscapeLoad) == 1.0 && RightShare(l, EscapeLoad) == 0.0
  {
    hide VolumeOf, TimeOf, IdsIn;
    EscapeLeaf(0);
    EscapeLeaf(1);
    EscapeLeaf(2);
    EscapePair();
  }

  lemma EscapeMeasured()
    ensures Measured(EscapeTree, EscapeLoad) && Divides(EscapeTree, EscapeLoad) && Divides(EscapeTree.left, EscapeLoad)
    ensures Fraction(EscapeTree, EscapeLoad) == 0.0 && Fraction(EscapeTree.left, EscapeLoad) == 1.0
  {
    hide LeftShare, RightShare, InRange, Ids;
    EscapeShares();
    EscapeLeaf(0);
    EscapeLeaf(1);
    EscapeLeaf(2);
    IdsInParts(EscapeTree, EscapeLoad.times);
    IdsInParts(EscapeTree.left, EscapeLoad.times);
    assert Measured(Leaf(0), EscapeLoad) && Measured(Leaf(1), EscapeLoad) && Measured(Leaf(2), EscapeLoad);
    assert Measured(EscapeTree.left, EscapeLoad);
  }

  /** Splitting an axis twice on a path, a damped change can move the lower split out of its box. */
  lemma RepeatedAxisEscapes()
    ensures Measured(EscapeTree, EscapeLoad) && NonNegative(EscapeLoad) && EscapeBox.Proper()
    ensures SplitsInside(EscapeTree, EscapeBox) && OldSplitsIn(EscapeTree, EscapeBox) && !AxesOnce(EscapeTree, {})
    ensures !SplitsInside(Rebalanced(EscapeTree, EscapeBox, EscapeLoad, 0.5), EscapeBox)
  {
    hide Measured, Divides, NewPos, NonNegative, SplitsInside, OldSplitsIn, AxesOnce, Rebalanced;
    EscapeMeasured();
    EscapeBefore();
    EscapeAfter();
  }

  lemma EscapeBefore()
    ensures NonNegative(EscapeLoad) && EscapeBox.Proper()
    ensures SplitsInside(EscapeTree, EscapeBox) && OldSplitsIn(EscapeTree, EscapeBox) && !AxesOnce(EscapeTree, {})
  {
  }

  lemma EscapeAfter()
    ensures Measured(EscapeTree, EscapeLoad)
    ensures !SplitsInside(Rebalanced(EscapeTree, EscapeBox, EscapeLoad, 0.5), EscapeBox)
  {
    hide Measured, Divides, NewPos;
    EscapeMeasured();
    EscapePositions();
  }

  lemma EscapePositions()
    ensures Divides(EscapeTree, EscapeLoad) && Divides(EscapeTree.left, EscapeLoad)
    ensures NewPos(EscapeTree, EscapeBox, EscapeLoad, 0.5) == 4.0
    ensures NewPos(EscapeTree.left, WithHigh(EscapeBox, X, 4.0), EscapeLoad, 0.5) == 5.5
  {
    hide Fraction, Measured, Divides;
    EscapeMeasured();
  }
}
