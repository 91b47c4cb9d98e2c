/** Exactly when every rebalanced layout keeps its splits inside their boxes, whatever the measured
    times (python/chunk_balancer.py:202-246): two extreme layouts decide it, the one that draws every
    split to the high end of its box and the one that draws every split to the low end. */
module Containment {
  import opened Reals
  import opened Partitions
  import opened Tilings
  import opened Balancer

  // ----- layouts for given fractions

  /** A target fraction for every node of a tree. */
  datatype Fractions = NoFraction | At(f: real, left: Fractions, right: Fractions)

  predicate Within(x: real, low: real, high: real) { low <= x <= high }

  /** Fractions for exactly the nodes of t, all of them in [0, 1]. */
  predicate Fit(t: Tree, phi: Fractions) {
    match t
    case Leaf(_) => phi.NoFraction?
    case Node(_, _, l, r) => phi.At? && Within(phi.f, 0.0, 1.0) && Fit(l, phi.left) && Fit(r, phi.right)
  }

  function Moved(t: Tree, b: Box, f: real, s: real): real
    requires t.Node?
  {
    Mix(s, Between(Low(b, t.axis), High(b, t.axis), f), t.pos)
  }

  function Layout(t: Tree, b: Box, phi: Fractions, s: real): Tree
    requires Fit(t, phi)
  {
    match t
    case Leaf(_) => t
    case Node(a, _, l, r) =>
      var p := Moved(t, b, phi.f, s);
      Node(a, p, Layout(l, WithHigh(b, a, p), phi.left, s), Layout(r, WithLow(b, a, p), phi.right, s))
  }

  /** The fractions that the measurements give. */
  function Measures(t: Tree, ld: Load): Fractions
    requires Measured(t, ld)
  {
    match t
    case Leaf(_) => NoFraction
    case Node(_, _, l, r) => At(Fraction(t, ld), Measures(l, ld), Measures(r, ld))
  }

  lemma {:induction false} MeasuresFit(t: Tree, ld: Load)
    requires Measured(t, ld) && NonNegative(ld)
    ensures Fit(t, Measures(t, ld))
  {
    hide Fraction, LeftShare, RightShare;
    if t.Node? {
      FractionRange(t, ld);
      MeasuresFit(t.left, ld);
      MeasuresFit(t.right, ld);
    }
  }

  lemma {:induction false} RebalancedIsLayout(t: Tree, b: Box, ld: Load, s: real)
    requires Measured(t, ld) && Fit(t, Measures(t, ld))
    ensures Rebalanced(t, b, ld, s) == Layout(t, b, Measures(t, ld), s)
  {
    hide Fraction, LeftShare, RightShare, Mix, Between;
    if t.Node? {
      var p := NewPos(t, b, ld, s);
      RebalancedIsLayout(t.left, WithHigh(b, t.axis, p), ld, s);
      RebalancedIsLayout(t.right, WithLow(b, t.axis, p), ld, s);
    }
  }

  // ----- the two extreme layouts

  /** No old split lies below its box when every split is drawn to the high end. */
  predicate SafeLow(t: Tree, b: Box, s: real) {
    t.Leaf? ||
    var p := Moved(t, b, 1.0, s);
    Low(b, t.axis) <= t.pos && SafeLow(t.left, WithHigh(b, t.axis, p), s) && SafeLow(t.right, WithLow(b, t.axis, p), s)
  }

  /** No old split lies above its box when every split is drawn to the low end. */
  predicate SafeHigh(t: Tree, b: Box, s: real) {
    t.Leaf? ||
    var p := Moved(t, b, 0.0, s);
    t.pos <= High(b, t.axis) && SafeHigh(t.left, WithHigh(b, t.axis, p), s) && SafeHigh(t.right, WithLow(b, t.axis, p), s)
  }

  /** Bounds of b1 are at or above those of b on every axis. */
  predicate Above(b1: Box, b: Box) {
    && b.low.x <= b1.low.x && b.low.y <= b1.low.y && b.low.z <= b1.low.z
    && b.high.x <= b1.high.x && b.high.y <= b1.high.y && b.high.z <= b1.high.z
  }

  lemma AboveCut(b1: Box, b: Box, a: Axis, v1: real, v: real)
    requires Above(b1, b) && v <= v1
    ensures Above(WithHigh(b1, a, v1), WithHigh(b, a, v)) && Above(WithLow(b1, a, v1), WithLow(b, a, v))
  {
  }

  lemma AboveOn(b1: Box, b: Box, a: Axis)
    requires Above(b1, b)
    ensures Low(b, a) <= Low(b1, a) && High(b, a) <= High(b1, a)
  {
  }

  lemma ProperOn(b: Box, a: Axis)
    requires b.Proper()
    ensures Low(b, a) <= High(b, a)
  {
  }

  lemma MixOrder(s: real, a: real, a': real, b: real)
    requires 0.0 <= s <= 1.0 && a <= a'
    ensures Mix(s, a, b) <= Mix(s, a', b)
  {
    ProductSign(s, a' - a, s * (a' - a));
  }

  lemma BetweenEnds(low: real, high: real)
    ensures Between(low, high, 0.0) == low && Between(low, high, 1.0) == high
  {
  }

  /** A node keeps its split inside if its old split is at or above the low bound of the upper world
      and at or below the high bound of the lower world; and its new split lies between theirs. */
  lemma NodeInside(t: Tree, b: Box, b0: Box, b1: Box, f: real, s: real)
    requires t.Node? && 0.0 <= f <= 1.0 && 0.0 <= s <= 1.0 && b.Proper() && Above(b1, b) && Above(b, b0)
    requires Low(b1, t.axis) <= t.pos <= High(b0, t.axis)
    ensures Low(b, t.axis) <= Moved(t, b, f, s) <= High(b, t.axis)
    ensures Moved(t, b0, 0.0, s) <= Moved(t, b, f, s) <= Moved(t, b1, 1.0, s)
  {
    hide Mix, Between, Above, Low, High;
    var low, high := Low(b, t.axis), High(b, t.axis);
    AboveOn(b1, b, t.axis);
    AboveOn(b, b0, t.axis);
    ProperOn(b, t.axis);
    BetweenRange(low, high, f);
    MixRange(s, Between(low, high, f), t.pos, low, high);
    BetweenEnds(Low(b0, t.axis), High(b0, t.axis));
    BetweenEnds(Low(b1, t.axis), High(b1, t.axis));
    MixOrder(s, Low(b0, t.axis), Between(low, high, f), t.pos);
    MixOrder(s, Between(low, high, f), High(b1, t.axis), t.pos);
  }

  /** Where both extreme layouts are safe, all fractions keep the splits inside. */
  lemma {:induction false} SafeContains(t: Tree, b: Box, b0: Box, b1: Box, phi: Fractions, s: real)
    requires Fit(t, phi) && 0.0 <= s <= 1.0 && b.Proper() && Above(b1, b) && Above(b, b0)
    requires SafeLow(t, b1, s) && SafeHigh(t, b0, s)
    ensures SplitsInside(Layout(t, b, phi, s), b)
  {
    hide Moved, Above, Box.Proper, Low, High;
    if t.Node? {
      var p, p0, p1 := Moved(t, b, phi.f, s), Moved(t, b0, 0.0, s), Moved(t, b1, 1.0, s);
      NodeInside(t, b, b0, b1, phi.f, s);
      CutContains(b, t.axis, p, b.low);
      AboveCut(b1, b, t.axis, p1, p);
      AboveCut(b, b0, t.axis, p, p0);
      SafeContains(t.left, WithHigh(b, t.axis, p), WithHigh(b0, t.axis, p0), WithHigh(b1, t.axis, p1), phi.left, s);
      SafeContains(t.right, WithLow(b, t.axis, p), WithLow(b0, t.axis, p0), WithLow(b1, t.axis, p1), phi.right, s);
    }
  }

  lemma AboveSelf(b: Box)
    ensures Above(b, b)
  {
  }

  // ----- where an extreme layout is not safe, some fractions move a split out

  predicate Strict(phi: Fractions) { phi.NoFraction? || (0.0 < phi.f < 1.0 && Strict(phi.left) && Strict(phi.right)) }

  function Halves(t: Tree): (phi: Fractions)
    ensures Fit(t, phi) && Strict(phi)
  {
    match t
    case Leaf(_) => NoFraction
    case Node(_, _, l, r) => At(0.5, Halves(l), Halves(r))
  }

  /** Some old split lies more than g below its box in the upper world. */
  predicate LowBy(t: Tree, b: Box, s: real, g: real) {
    t.Node? &&
    var p := Moved(t, b, 1.0, s);
    t.pos + g < Low(b, t.axis) || LowBy(t.left, WithHigh(b, t.axis, p), s, g) || LowBy(t.right, WithLow(b, t.axis, p), s, g)
  }

  /** Some old split lies more than g above its box in the lower world. */
  predicate HighBy(t: Tree, b: Box, s: real, g: real) {
    t.Node? &&
    var p := Moved(t, b, 0.0, s);
    t.pos - g > High(b, t.axis) || HighBy(t.left, WithHigh(b, t.axis, p), s, g) || HighBy(t.right, WithLow(b, t.axis, p), s, g)
  }

  lemma {:induction false} LowGap(t: Tree, b: Box, s: real) returns (g: real)
    requires !SafeLow(t, b, s)
    ensures g > 0.0 && LowBy(t, b, s, g)
  {
    hide Moved;
    var p := Moved(t, b, 1.0, s);
    if t.pos < Low(b, t.axis) {
      g := (Low(b, t.axis) - t.pos) / 2.0;
    } else if !SafeLow(t.left, WithHigh(b, t.axis, p), s) {
      g := LowGap(t.left, WithHigh(b, t.axis, p), s);
    } else {
      g := LowGap(t.right, WithLow(b, t.axis, p), s);
    }
  }

  lemma {:induction false} HighGap(t: Tree, b: Box, s: real) returns (g: real)
    requires !SafeHigh(t, b, s)
    ensures g > 0.0 && HighBy(t, b, s, g)
  {
    hide Moved;
    var p := Moved(t, b, 0.0, s);
    if t.pos > High(b, t.axis) {
      g := (t.pos - High(b, t.axis)) / 2.0;
    } else if !SafeHigh(t.left, WithHigh(b, t.axis, p), s) {
      g := HighGap(t.left, WithHigh(b, t.axis, p), s);
    } else {
      g := HighGap(t.right, WithLow(b, t.axis, p), s);
    }
  }

  function Raised(b: Box, e: real): Box {
    Box(Point(b.low.x + e, b.low.y + e, b.low.z + e), Point(b.high.x + e, b.high.y + e, b.high.z + e))
  }

  lemma RaisedOn(b: Box, e: real, a: Axis)
    ensures Low(Raised(b, e), a) == Low(b, a) + e && High(Raised(b, e), a) == High(b, a) + e
  {
  }

  /** Bounds stay within the larger distance when both boxes are cut. */
  lemma RaisedCut(b: Box, c: Box, e: real, e': real, a: Axis, v: real, w: real)
    requires Above(Raised(b, e), c) && e <= e' && w <= v + e'
    ensures Above(Raised(WithHigh(b, a, v), e'), WithHigh(c, a, w)) && Above(Raised(WithLow(b, a, v), e'), WithLow(c, a, w))
  {
  }

  function Smaller(a: real, b: real): real { if a < b then a else b }

  /** A fraction so small that the split stays below its box. */
  lemma SmallStep(low: real, high: real, pos: real, s: real) returns (f: real)
    requires low <= high && pos < low && 0.0 <= s < 1.0
    ensures 0.0 < f < 1.0 && Mix(s, Between(low, high, f), pos) < low
  {
    var w, d := s * (high - low), (1.0 - s) * (low - pos);
    ProductSign(s, high - low, w);
    ProductSign(1.0 - s, low - pos, d);
    f := Smaller(0.5, Share(d, w + 1.0));
    ShareBound(d, w + 1.0);
    var r := Share(d, w + 1.0);
    ProductSign(w + 1.0, r - f, (w + 1.0) * (r - f));
    assert w * f <= (w + 1.0) * f by { ProductSign(1.0, f, 1.0 * f); }
    MoveDifference(low, high, pos, s, f, w, d);
  }

  function Share(d: real, w: real): real
    requires w > 0.0
  {
    d / (2.0 * w)
  }

  lemma ShareBound(d: real, w: real)
    requires w > 0.0
    ensures w * Share(d, w) == d / 2.0
    ensures d > 0.0 ==> Share(d, w) > 0.0
  {
    var r := Share(d, w);
    assert r * (2.0 * w) == d;
    if d > 0.0 && r <= 0.0 {
      ProductSign(-r, 2.0 * w, (-r) * (2.0 * w));
    }
  }

  lemma MoveDifference(low: real, high: real, pos: real, s: real, f: real, w: real, d: real)
    requires w == s * (high - low) && d == (1.0 - s) * (low - pos)
    ensures Mix(s, Between(low, high, f), pos) - low == w * f - d
  {
    assert s * ((high - low) * f) == w * f;
  }

  /** A fraction so close to one that the split is within e of the high end's mix. */
  lemma LargeStep(low: real, high: real, pos: real, s: real, e: real) returns (f: real)
    requires low <= high && 0.0 <= s <= 1.0 && e > 0.0
    ensures 0.0 < f < 1.0 && Mix(s, high, pos) - e <= Mix(s, Between(low, high, f), pos)
  {
    var w := s * (high - low);
    ProductSign(s, high - low, w);
    var n := Smaller(0.5, Share(e, w + 1.0));
    ShareBound(e, w + 1.0);
    var r := Share(e, w + 1.0);
    ProductSign(w + 1.0, r - n, (w + 1.0) * (r - n));
    assert w * n <= (w + 1.0) * n by { ProductSign(1.0, n, 1.0 * n); }
    f := 1.0 - n;
    HighDifference(low, high, pos, s, n, w);
  }

  lemma HighDifference(low: real, high: real, pos: real, s: real, n: real, w: real)
    requires w == s * (high - low)
    ensures Mix(s, high, pos) - Mix(s, Between(low, high, 1.0 - n), pos) == w * n
  {
    assert s * ((high - low) * n) == w * n;
  }

  lemma MixLower(s: real, a: real, e: real, b: real)
    requires 0.0 <= s <= 1.0 && e >= 0.0
    ensures Mix(s, a - e, b) >= Mix(s, a, b) - e
  {
    ProductSign(1.0 - s, e, (1.0 - s) * e);
  }

  /** Drawing the nodes above it far enough to the high end, a split that the upper world leaves
      below its box stays below it. */
  lemma {:induction false} LowEscape(t: Tree, b: Box, b1: Box, s: real, g: real, e: real, d: real) returns (phi: Fractions)
    requires 0.0 <= s < 1.0 && b.Proper() && LowBy(t, b1, s, g) && Above(Raised(b, e), b1)
    requires e >= 0.0 && d > 0.0 && e + d <= g
    ensures Fit(t, phi) && Strict(phi) && !SplitsInside(Layout(t, b, phi, s), b)
    decreases t
  {
    hide Mix, Between, Above, Low, High, Box.Proper;
    var low, high := Low(b, t.axis), High(b, t.axis);
    AboveOn(Raised(b, e), b1, t.axis);
    RaisedOn(b, e, t.axis);
    ProperOn(b, t.axis);
    if t.pos + g < Low(b1, t.axis) {
      var f := SmallStep(low, high, t.pos, s);
      phi := At(f, Halves(t.left), Halves(t.right));
    } else {
      var f := LargeStep(low, high, t.pos, s, d / 2.0);
      var p, p1 := Moved(t, b, f, s), Moved(t, b1, 1.0, s);
      phi := At(f, Halves(t.left), Halves(t.right));
      if low <= p <= high {
        BetweenEnds(Low(b1, t.axis), High(b1, t.axis));
        MixLower(s, High(b1, t.axis), e, t.pos);
        MixOrder(s, High(b1, t.axis) - e, high, t.pos);
        assert p1 <= p + (e + d / 2.0);
        CutContains(b, t.axis, p, b.low);
        RaisedCut(b, b1, e, e + d / 2.0, t.axis, p, p1);
        if LowBy(t.left, WithHigh(b1, t.axis, p1), s, g) {
          var left := LowEscape(t.left, WithHigh(b, t.axis, p), WithHigh(b1, t.axis, p1), s, g, e + d / 2.0, d / 2.0);
          phi := At(f, left, Halves(t.right));
        } else {
          var right := LowEscape(t.right, WithLow(b, t.axis, p), WithLow(b1, t.axis, p1), s, g, e + d / 2.0, d / 2.0);
          phi := At(f, Halves(t.left), right);
        }
      }
    }
  }

  /** Moving a split mirrors: low and high change places. */
  lemma MirrorMove(low: real, high: real, pos: real, s: real, f: real)
    ensures Mix(s, Between(low, high, f), pos) == -Mix(s, Between(-high, -low, 1.0 - f), -pos)
  {
    MirrorBetween(low, high, f);
    MixNegated(s, Between(low, high, f), pos);
  }

  lemma MirrorBetween(low: real, high: real, f: real)
    ensures Between(-high, -low, 1.0 - f) == -Between(low, high, f)
  {
  }

  lemma SmallStepUp(low: real, high: real, pos: real, s: real) returns (f: real)
    requires low <= high && pos > high && 0.0 <= s < 1.0
    ensures 0.0 < f < 1.0 && Mix(s, Between(low, high, f), pos) > high
  {
    hide Mix, Between;
    var n := SmallStep(-high, -low, -pos, s);
    f := 1.0 - n;
    MirrorMove(low, high, pos, s, f);
  }

  lemma LargeStepDown(low: real, high: real, pos: real, s: real, e: real) returns (f: real)
    requires low <= high && 0.0 <= s <= 1.0 && e > 0.0
    ensures 0.0 < f < 1.0 && Mix(s, Between(low, high, f), pos) <= Mix(s, low, pos) + e
  {
    hide Mix, Between;
    var n := LargeStep(-high, -low, -pos, s, e);
    f := 1.0 - n;
    MirrorMove(low, high, pos, s, f);
    MixNegated(s, low, pos);
  }

  lemma MixUpper(s: real, a: real, e: real, b: real)
    requires 0.0 <= s <= 1.0 && e >= 0.0
    ensures Mix(s, a + e, b) <= Mix(s, a, b) + e
  {
    ProductSign(1.0 - s, e, (1.0 - s) * e);
  }

  /** The same at the high end. */
  lemma {:induction false} HighEscape(t: Tree, b: Box, b0: Box, s: real, g: real, e: real, d: real) returns (phi: Fractions)
    requires 0.0 <= s < 1.0 && b.Proper() && HighBy(t, b0, s, g) && Above(Raised(b0, e), b)
    requires e >= 0.0 && d > 0.0 && e + d <= g
    ensures Fit(t, phi) && Strict(phi) && !SplitsInside(Layout(t, b, phi, s), b)
    decreases t
  {
    hide Mix, Between, Above, Low, High, Box.Proper;
    var low, high := Low(b, t.axis), High(b, t.axis);
    AboveOn(Raised(b0, e), b, t.axis);
    RaisedOn(b0, e, t.axis);
    ProperOn(b, t.axis);
    if t.pos - g > High(b0, t.axis) {
      var f := SmallStepUp(low, high, t.pos, s);
      phi := At(f, Halves(t.left), Halves(t.right));
    } else {
      var f := LargeStepDown(low, high, t.pos, s, d / 2.0);
      var p, p0 := Moved(t, b, f, s), Moved(t, b0, 0.0, s);
      phi := At(f, Halves(t.left), Halves(t.right));
      if low <= p <= high {
        BetweenEnds(Low(b0, t.axis), High(b0, t.axis));
        MixUpper(s, Low(b0, t.axis), e, t.pos);
        MixOrder(s, low, Low(b0, t.axis) + e, t.pos);
        assert p <= p0 + (e + d / 2.0);
        CutContains(b, t.axis, p, b.low);
        RaisedCut(b0, b, e, e + d / 2.0, t.axis, p0, p);
        if HighBy(t.left, WithHigh(b0, t.axis, p0), s, g) {
          var left := HighEscape(t.left, WithHigh(b, t.axis, p), WithHigh(b0, t.axis, p0), s, g, e + d / 2.0, d / 2.0);
          phi := At(f, left, Halves(t.right));
        } else {
          var right := HighEscape(t.right, WithLow(b, t.axis, p), WithLow(b0, t.axis, p0), s, g, e + d / 2.0, d / 2.0);
          phi := At(f, Halves(t.left), right);
        }
      }
    }
  }

  lemma RaisedSelf(b: Box)
    ensures Above(Raised(b, 0.0), b)
  {
  }

  /** Fractions that move a split out of its box, where one of the extreme layouts is not safe. */
  lemma SomeEscape(t: Tree, b: Box, s: real) returns (phi: Fractions)
    requires 0.0 <= s < 1.0 && b.Proper() && !(SafeLow(t, b, s) && SafeHigh(t, b, s))
    ensures Fit(t, phi) && Strict(phi) && !SplitsInside(Layout(t, b, phi, s), b)
  {
    hide Box.Proper, SafeLow, SafeHigh, Layout, SplitsInside, Above;
    RaisedSelf(b);
    if !SafeLow(t, b, s) {
      var g := LowGap(t, b, s);
      phi := LowEscape(t, b, b, s, g, 0.0, g);
    } else {
      var g := HighGap(t, b, s);
      phi := HighEscape(t, b, b, s, g, 0.0, g);
    }
  }

  // ----- any fractions can be measured

  /** Both sides of every node own some volume. */
  predicate OwnVolumes(t: Tree, c: Chunks) {
    c.Valid() && (t.Node? ==> TotalVolume(t.left, c) > 0 && TotalVolume(t.right, c) > 0 && OwnVolumes(t.left, c) && OwnVolumes(t.right, c))
  }

  /** The measured fractions are those of phi. */
  predicate Realizes(t: Tree, ld: Load, phi: Fractions) { Measured(t, ld) && Measures(t, ld) == phi }

  lemma {:induction false} SameSums(ids: seq<nat>, w: seq<real>, w': seq<real>)
    requires InRange(ids, w) && |w| == |w'| && forall id :: id in ids ==> id < |w| && w[id] == w'[id]
    ensures InRange(ids, w') && SumAt(ids, w) == SumAt(ids, w')
  {
    if ids != [] {
      assert ids == ids[..|ids| - 1] + [ids[|ids| - 1]];
      SameSums(ids[..|ids| - 1], w, w');
    }
  }

  lemma IdsOfParts(t: Tree)
    requires t.Node?
    ensures forall id :: id in Ids(t) <==> id in Ids(t.left) || id in Ids(t.right)
  {
  }

  /** Times of other processes do not matter. */
  lemma {:induction false} RealizesFrame(t: Tree, w: seq<real>, w': seq<real>, c: Chunks, phi: Fractions)
    requires Realizes(t, Load(w, c), phi) && |w| == |w'| && forall id :: id in Ids(t) ==> id < |w| && w[id] == w'[id]
    ensures Realizes(t, Load(w', c), phi)
  {
    hide TotalVolume, NumChunks, Product, Ratio, SumAt, InRange;
    SameSums(Ids(t), w, w');
    if t.Node? {
      IdsOfParts(t);
      SameSums(Ids(t.left), w, w');
      SameSums(Ids(t.right), w, w');
      RealizesFrame(t.left, w, w', c, phi.left);
      RealizesFrame(t.right, w, w', c, phi.right);
    }
  }

  /** How the time of a node must be divided for the fraction f. */
  lemma Divide(total: real, f: real, vl: real, nl: real, vr: real, nr: real) returns (tl: real, tr: real)
    requires total > 0.0 && 0.0 < f < 1.0 && vl > 0.0 && nl > 0.0 && vr > 0.0 && nr > 0.0
    ensures tl > 0.0 && tr > 0.0 && tl + tr == total
    ensures Product(vl, tr, nl) + Product(vr, tl, nr) != 0.0
    ensures Ratio(Product(vl, tr, nl), Product(vr, tl, nr)) == f
  {
    var x, y := vl * nl, vr * nr;
    PositiveProduct(vl, nl);
    PositiveProduct(vr, nr);
    PositiveProduct(f, y);
    PositiveProduct(1.0 - f, x);
    var p, q := (1.0 - f) * x, f * y;
    var k := total / (p + q);
    assert k * (p + q) == total;
    if k <= 0.0 {
      ProductSign(-k, p + q, (-k) * (p + q));
    }
    tl, tr := k * p, k * q;
    PositiveProduct(k, p);
    PositiveProduct(k, q);
    DivideProducts(vl, nl, vr, nr, x, y, tl, tr);
    PositiveProduct(x, tr);
    PositiveProduct(y, tl);
    DivideRatio(f, x, y, k, p, q, tl, tr);
    RatioIs(x * tr, y * tl, f);
  }

  lemma DivideProducts(vl: real, nl: real, vr: real, nr: real, x: real, y: real, tl: real, tr: real)
    requires x == vl * nl && y == vr * nr
    ensures Product(vl, tr, nl) == x * tr && Product(vr, tl, nr) == y * tl
  {
  }

  lemma DivideRatio(f: real, x: real, y: real, k: real, p: real, q: real, tl: real, tr: real)
    requires p == (1.0 - f) * x && q == f * y && tl == k * p && tr == k * q
    ensures f * (x * tr + y * tl) - x * tr == 0.0
  {
    var m := k * x * y;
    assert x * tr == f * m;
    assert y * tl == (1.0 - f) * m;
    assert f * (f * m + (1.0 - f) * m) == f * m;
  }

  /** Positive times that add up to `total` on the tree and measure the fractions phi; the times of
      other processes stay. */
  lemma {:induction false} Realize(t: Tree, phi: Fractions, c: Chunks, total: real, w: seq<real>) returns (w': seq<real>)
    requires Fit(t, phi) && Strict(phi) && OwnVolumes(t, c) && Distinct(Ids(t)) && InRange(Ids(t), w) && total > 0.0
    ensures |w'| == |w| && InRange(Ids(t), w') && SumAt(Ids(t), w') == total
    ensures forall k :: 0 <= k < |w| && k !in Ids(t) ==> w'[k] == w[k]
    ensures forall k :: 0 <= k < |w| && k in Ids(t) ==> w'[k] > 0.0
    ensures Realizes(t, Load(w', c), phi)
  {
    hide Product, Ratio, SumAt, TotalVolume, NumChunks, InRange, Distinct;
    if t.Leaf? {
      w' := SetTime(t.id, total, w);
    } else {
      DistinctParts(Ids(t.left), Ids(t.right));
      IdsInParts(t, w);
      IdsOfParts(t);
      NumChunksIsLeafCount(t.left);
      NumChunksIsLeafCount(t.right);
      var tl, tr := Divide(total, phi.f, TotalVolume(t.left, c) as real, NumChunks(t.left) as real,
                           TotalVolume(t.right, c) as real, NumChunks(t.right) as real);
      var w1 := Realize(t.left, phi.left, c, tl, w);
      SameRange(Ids(t.right), w, w1);
      w' := Realize(t.right, phi.right, c, tr, w1);
      AllInRange(Ids(t.left), w1);
      SameSums(Ids(t.left), w1, w');
      RealizesFrame(t.left, w1, w', c, phi.left);
      SumAtConcat(Ids(t.left), Ids(t.right), w');
    }
  }

  lemma AllInRange(ids: seq<nat>, w: seq<real>)
    requires InRange(ids, w)
    ensures forall id :: id in ids ==> id < |w|
  {
  }

  lemma SameRange(ids: seq<nat>, w: seq<real>, w': seq<real>)
    requires InRange(ids, w) && |w| == |w'|
    ensures InRange(ids, w')
  {
  }

  lemma SetTime(id: nat, total: real, w: seq<real>) returns (w': seq<real>)
    requires InRange([id], w)
    ensures |w'| == |w| && InRange([id], w') && SumAt([id], w') == total && id < |w| && w'[id] == total
    ensures forall k :: 0 <= k < |w| && k != id ==> w'[k] == w[k]
  {
    SingleWeight(id, w);
    w' := w[id := total];
    SingleWeight(id, w');
  }

  // ----- the exact condition

  /** Times that compute_new_chunk_layout can use. */
  ghost predicate Usable(t: Tree, w: seq<real>, c: Chunks) { Measured(t, Load(w, c)) && NonNegative(Load(w, c)) }

  /** Both extreme layouts are safe, or the sensitivity is one. */
  predicate Safe(t: Tree, b: Box, s: real) { s == 1.0 || (SafeLow(t, b, s) && SafeHigh(t, b, s)) }

  lemma SafeKeepsInside(t: Tree, b: Box, ld: Load, s: real)
    requires Measured(t, ld) && NonNegative(ld) && b.Proper() && 0.0 <= s <= 1.0 && Safe(t, b, s)
    ensures SplitsInside(Rebalanced(t, b, ld, s), b)
  {
    hide Measured, Rebalanced, SafeLow, SafeHigh, Box.Proper, SplitsInside;
    if s == 1.0 {
      InstantChangeTiles(t, b, ld);
    } else {
      MeasuresFit(t, ld);
      RebalancedIsLayout(t, b, ld, s);
      AboveSelf(b);
      SafeContains(t, b, b, b, Measures(t, ld), s);
    }
  }

  /** Then the new layout tiles the box: leaf i holds a point off the split planes exactly if it is the
      leaf that the comparisons lead to, no leaf box has a negative extent, and the volumes add up. */
  lemma NewLayoutTiles(t: Tree, b: Box, ld: Load, s: real, p: Point, i: nat)
    requires Measured(t, ld) && NonNegative(ld) && b.Proper() && 0.0 <= s <= 1.0 && Safe(t, b, s) && i < |Ids(t)|
    ensures var u := Rebalanced(t, b, ld, s);
            && |Ids(u)| == |Ids(t)| && LeafBoxes(u, b)[i].Proper()
            && (b.Contains(p) && OffPlanes(u, p) ==> (LeafBoxes(u, b)[i].Contains(p) <==> i == LeafAt(u, p)))
            && SumOfVolumes(LeafBoxes(u, b)) == b.Volume()
  {
    hide Rebalanced, Measured, SplitsInside, OffPlanes, LeafBoxes, LeafAt, SumOfVolumes, Box.Contains, Box.Volume, Box.Proper, Safe;
    var u := Rebalanced(t, b, ld, s);
    ShapeKept(t, b, ld, s);
    SafeKeepsInside(t, b, ld, s);
    LeafBoxesProper(u, b, i);
    LeafVolumesAddUp(u, b);
    if b.Contains(p) && OffPlanes(u, p) {
      LeafBoxesTile(u, b, p, i);
    }
  }

  lemma BoundOf(ids: seq<nat>) returns (w: seq<real>)
    ensures InRange(ids, w) && forall k :: 0 <= k < |w| ==> w[k] == 0.0
  {
    w := [];
    for i := 0 to |ids|
      invariant forall k :: 0 <= k < i ==> ids[k] < |w|
      invariant forall k :: 0 <= k < |w| ==> w[k] == 0.0
    {
      w := seq(|w| + ids[i] + 1, k => 0.0);
    }
  }

  /** Rebalancing keeps every split inside its box for all measured times if and only if the two
      extreme layouts are safe, or the sensitivity is one. */
  lemma ContainedIff(t: Tree, b: Box, c: Chunks, s: real)
    requires b.Proper() && 0.0 <= s <= 1.0 && Distinct(Ids(t)) && OwnVolumes(t, c)
    ensures (forall w: seq<real> :: Usable(t, w, c) ==> SplitsInside(Rebalanced(t, b, Load(w, c), s), b)) <==> Safe(t, b, s)
  {
    hide Measured, Rebalanced, SafeLow, SafeHigh, Box.Proper, SplitsInside, InRange, Distinct, Layout;
    if Safe(t, b, s) {
      forall w: seq<real> | Usable(t, w, c) ensures SplitsInside(Rebalanced(t, b, Load(w, c), s), b) {
        SafeKeepsInside(t, b, Load(w, c), s);
      }
    } else {
      var phi := SomeEscape(t, b, s);
      var zero := BoundOf(Ids(t));
      var w := Realize(t, phi, c, 1.0, zero);
      assert NonNegative(Load(w, c));
      RebalancedIsLayout(t, b, Load(w, c), s);
      assert Usable(t, w, c) && !SplitsInside(Rebalanced(t, b, Load(w, c), s), b);
    }
  }

  /** Trees that split no axis twice on a path are safe as soon as their splits lie in the root box. */
  lemma AxesOnceIsSafe(t: Tree, b: Box, s: real)
    requires AxesOnce(t, {}) && OldSplitsIn(t, b)
    ensures Safe(t, b, s)
  {
    AxesOncePart(t, b, b, b, {}, s);
  }

  lemma {:induction false} AxesOncePart(t: Tree, b0: Box, b1: Box, root: Box, used: set<Axis>, s: real)
    requires AxesOnce(t, used) && OldSplitsIn(t, root) && Uncut(b0, root, used) && Uncut(b1, root, used)
    ensures SafeLow(t, b1, s) && SafeHigh(t, b0, s)
  {
    hide Moved, Uncut, Low, High;
    if t.Node? {
      UncutOn(b0, root, used, t.axis);
      UncutOn(b1, root, used, t.axis);
      var p0, p1 := Moved(t, b0, 0.0, s), Moved(t, b1, 1.0, s);
      StaysUncut(b0, root, used, t.axis, p0);
      StaysUncut(b1, root, used, t.axis, p1);
      AxesOncePart(t.left, WithHigh(b0, t.axis, p0), WithHigh(b1, t.axis, p1), root, used + {t.axis}, s);
      AxesOncePart(t.right, WithLow(b0, t.axis, p0), WithLow(b1, t.axis, p1), root, used + {t.axis}, s);
    }
  }
}
