/** Exactly when resampling over whole periods tiles (python/mpb_data.py:60-131,
    libpympb/pympb.cpp:2554-2681). */
module TilingExact {
  import opened Reals
  import opened Vectors
  import opened ResampleAxis
  import opened Resample
  import opened MapData
  import opened Tiling

  // ----- one output

  /** The part of a value that the axis takes from sample s. */
  function ShareOf(a: Axis, s: int): real { Lerp(if a.i1 == s then 1.0 else 0.0, if a.i2 == s then 1.0 else 0.0, a.d) }

  lemma LerpTimes(a: real, b: real, t: real, k: real, p: real, q: real)
    requires p == a * k && q == b * k
    ensures Lerp(p, q, t) == Lerp(a, b, t) * k
  {
    var s := 1.0 - t;
    assert a * k * s == a * s * k;
    assert b * k * t == b * t * k;
  }

  /** For the unit data of sample (i, j, k) the sum is the product of the shares. */
  lemma UnitPoint(g: Grid, x: Axis, y: Axis, z: Axis, i: int, j: int, k: int)
    requires Fits(x, g.n0) && Fits(y, g.n1) && Fits(z, g.n2) && g.Has(i, j, k)
    ensures Octet(CornersOf(UnitAt(g, i, j, k), g, x, y, z), x.d, y.d, z.d) == Product(ShareOf(x, i), ShareOf(y, j), ShareOf(z, k))
  {
    hide Octet, Lerp, Product, UnitAt, At;
    var c := CornersOf(UnitAt(g, i, j, k), g, x, y, z);
    FormulasAgree(c, x.d, y.d, z.d);
    UnitAtIs(g, i, j, k, x.i1, y.i1, z.i1);
    UnitAtIs(g, i, j, k, x.i1, y.i1, z.i2);
    UnitAtIs(g, i, j, k, x.i1, y.i2, z.i1);
    UnitAtIs(g, i, j, k, x.i1, y.i2, z.i2);
    UnitAtIs(g, i, j, k, x.i2, y.i1, z.i1);
    UnitAtIs(g, i, j, k, x.i2, y.i1, z.i2);
    UnitAtIs(g, i, j, k, x.i2, y.i2, z.i1);
    UnitAtIs(g, i, j, k, x.i2, y.i2, z.i2);
    UnitLine(x, y.i1 == j && z.i1 == k, i, c.c000, c.c100);
    UnitLine(x, y.i1 == j && z.i2 == k, i, c.c001, c.c101);
    UnitLine(x, y.i2 == j && z.i1 == k, i, c.c010, c.c110);
    UnitLine(x, y.i2 == j && z.i2 == k, i, c.c011, c.c111);
    UnitPlane(y, z.i1 == k, j, ShareOf(x, i));
    UnitPlane(y, z.i2 == k, j, ShareOf(x, i));
    UnitSpace(z, k, ShareOf(x, i), ShareOf(y, j));
  }

  function If(c: bool, v: real): real { if c then v else 0.0 }

  lemma UnitLine(x: Axis, on: bool, i: int, lower: real, upper: real)
    requires lower == If(on && x.i1 == i, 1.0) && upper == If(on && x.i2 == i, 1.0)
    ensures Lerp(lower, upper, x.d) == If(on, ShareOf(x, i))
  {
  }

  lemma UnitPlane(y: Axis, on: bool, j: int, p: real)
    ensures Lerp(If(y.i1 == j && on, p), If(y.i2 == j && on, p), y.d) == If(on, Part(p, ShareOf(y, j)))
  {
    if on {
      LerpTimes(If(y.i1 == j, 1.0), If(y.i2 == j, 1.0), y.d, p, If(y.i1 == j, p), If(y.i2 == j, p));
    }
  }

  lemma UnitSpace(z: Axis, k: int, p: real, q: real)
    ensures Lerp(If(z.i1 == k, Part(p, q)), If(z.i2 == k, Part(p, q)), z.d) == Product(p, q, ShareOf(z, k))
  {
    var r := Part(p, q);
    LerpTimes(If(z.i1 == k, 1.0), If(z.i2 == k, 1.0), z.d, r, If(z.i1 == k, r), If(z.i2 == k, r));
  }

  lemma ShareIs(a: Axis, s: int)
    requires 0.0 <= a.d < 1.0
    ensures 0.0 <= ShareOf(a, s) <= 1.0
    ensures ShareOf(a, s) == 1.0 <==> ReadsOnly(a, s)
  {
  }

  lemma UnitFactors(a: real, b: real, c: real)
    requires 0.0 <= a <= 1.0 && 0.0 <= b <= 1.0 && 0.0 <= c <= 1.0 && Product(a, b, c) == 1.0
    ensures a == 1.0 && b == 1.0 && c == 1.0
  {
    var ab := a * b;
    TwoFactors(a, b, ab);
    TwoFactors(ab, c, 1.0);
  }

  lemma TwoFactors(a: real, b: real, ab: real)
    requires 0.0 <= a <= 1.0 && 0.0 <= b <= 1.0 && ab == a * b
    ensures 0.0 <= ab <= a && ab <= b
  {
    ProductSign(a, b, ab);
    ProductSign(1.0 - a, b, (1.0 - a) * b);
    ProductSign(a, 1.0 - b, a * (1.0 - b));
  }

  lemma LerpOne(a: real, b: real, t: real)
    requires t == 0.0 || a == b
    ensures Lerp(a, b, t) == a
  {
  }

  /** Axes that read one sample each give that sample. */
  lemma ReadsSample(data: seq<real>, g: Grid, x: Axis, y: Axis, z: Axis, i: int, j: int, k: int)
    requires |data| == g.Size() && Fits(x, g.n0) && Fits(y, g.n1) && Fits(z, g.n2)
    requires ReadsOnly(x, i) && ReadsOnly(y, j) && ReadsOnly(z, k)
    ensures Octet(CornersOf(data, g, x, y, z), x.d, y.d, z.d) == At(data, g, i, j, k)
  {
    hide Octet, Lerp, At;
    var c := CornersOf(data, g, x, y, z);
    FormulasAgree(c, x.d, y.d, z.d);
    LerpOne(c.c000, c.c100, x.d);
    LerpOne(c.c010, c.c110, x.d);
    LerpOne(c.c001, c.c101, x.d);
    LerpOne(c.c011, c.c111, x.d);
    LerpOne(c.c000, c.c010, y.d);
    LerpOne(c.c001, c.c011, y.d);
    LerpOne(c.c000, c.c001, z.d);
  }

  // ----- the whole output

  /** Every output is the input sample at the indices modulo the input sizes. */
  ghost predicate TiledOutput(data: seq<real>, g: Grid, c: Call)
    requires g.Valid() && |data| == g.Size() && c.out.Valid()
  {
    forall i, j, k :: c.out.Has(i, j, k) ==> TilesAt(data, g, c, i, j, k)
  }

  ghost predicate TilesAt(data: seq<real>, g: Grid, c: Call, i: int, j: int, k: int)
    requires g.Valid() && |data| == g.Size() && c.out.Valid()
  {
    TileIndex(g, i, j, k) && RealAt(data, g, c, i, j, k) == At(data, g, i % g.n0, j % g.n1, k % g.n2)
  }

  /** An odd number of periods, or a single point. */
  predicate Repeats(n: nat, m: int) { m % 2 == 1 || n == 1 }

  /** The axes of one output. */
  function AxesAt(c: Call, g: Grid, m1: int, m2: int, m3: int, i: int, j: int, k: int): (Axis, Axis, Axis)
    requires c.out.Valid()
  {
    (AxisOf(PeriodCoordinate(i, m1, c.out.n0), g.n0, false, c.nearest), AxisOf(PeriodCoordinate(j, m2, c.out.n1), g.n1, false, c.nearest),
     AxisOf(PeriodCoordinate(k, m3, c.out.n2), g.n2, false, c.nearest))
  }

  lemma RealAtIs(data: seq<real>, g: Grid, c: Call, m1: int, m2: int, m3: int, i: int, j: int, k: int)
    requires Periods(c, g, m1, m2, m3) && |data| == g.Size() && !c.bloch
    ensures var (x, y, z) := AxesAt(c, g, m1, m2, m3, i, j, k);
            && Fits(x, g.n0) && Fits(y, g.n1) && Fits(z, g.n2)
            && RealAt(data, g, c, i, j, k) == Octet(CornersOf(data, g, x, y, z), x.d, y.d, z.d)
  {
    hide PeriodCoordinate, AxisOf, Octet, SourcePoint, At;
    PeriodicSource(c, g, m1, m2, m3, i, j, k);
    AxisFits(PeriodCoordinate(i, m1, c.out.n0), g.n0, false, c.nearest);
    AxisFits(PeriodCoordinate(j, m2, c.out.n1), g.n1, false, c.nearest);
    AxisFits(PeriodCoordinate(k, m3, c.out.n2), g.n2, false, c.nearest);
  }

  lemma RepeatsTile(data: seq<real>, g: Grid, c: Call, m1: int, m2: int, m3: int, i: int, j: int, k: int)
    requires Periods(c, g, m1, m2, m3) && |data| == g.Size() && !c.bloch && c.out.Has(i, j, k)
    requires Repeats(g.n0, m1) && Repeats(g.n1, m2) && Repeats(g.n2, m3)
    ensures TilesAt(data, g, c, i, j, k)
  {
    hide PeriodCoordinate, AxisOf, Octet, RealAt, At;
    var (x, y, z) := AxesAt(c, g, m1, m2, m3, i, j, k);
    RealAtIs(data, g, c, m1, m2, m3, i, j, k);
    TileIndexFits(g, i, j, k);
    TilesIff(i, g.n0, m1, c.out.n0, c.nearest);
    TilesIff(j, g.n1, m2, c.out.n1, c.nearest);
    TilesIff(k, g.n2, m3, c.out.n2, c.nearest);
    ReadsSample(data, g, x, y, z, i % g.n0, j % g.n1, k % g.n2);
  }

  /** If the unit data of the first sample tiles at the first output, every axis repeats. */
  lemma UnitShows(g: Grid, c: Call, m1: int, m2: int, m3: int)
    requires Periods(c, g, m1, m2, m3) && !c.bloch
    requires TilesAt(UnitAt(g, 0, 0, 0), g, c, 0, 0, 0)
    ensures Repeats(g.n0, m1) && Repeats(g.n1, m2) && Repeats(g.n2, m3)
  {
    hide PeriodCoordinate, AxisOf, Octet, RealAt, At, UnitAt, ShareOf;
    var (x, y, z) := AxesAt(c, g, m1, m2, m3, 0, 0, 0);
    RealAtIs(UnitAt(g, 0, 0, 0), g, c, m1, m2, m3, 0, 0, 0);
    UnitAtIs(g, 0, 0, 0, 0, 0, 0);
    UnitPoint(g, x, y, z, 0, 0, 0);
    TilesIff(0, g.n0, m1, c.out.n0, c.nearest);
    TilesIff(0, g.n1, m2, c.out.n1, c.nearest);
    TilesIff(0, g.n2, m3, c.out.n2, c.nearest);
    ShareIs(x, 0);
    ShareIs(y, 0);
    ShareIs(z, 0);
    UnitFactors(ShareOf(x, 0), ShareOf(y, 0), ShareOf(z, 0));
  }

  /** The output is the tiled input for all data exactly if every axis has an odd number of periods or
      a single point, with or without pick_nearest. */
  lemma TiledOutputIff(g: Grid, c: Call, m1: int, m2: int, m3: int)
    requires Periods(c, g, m1, m2, m3) && !c.bloch
    ensures (forall data: seq<real> :: |data| == g.Size() ==> TiledOutput(data, g, c))
            <==> Repeats(g.n0, m1) && Repeats(g.n1, m2) && Repeats(g.n2, m3)
  {
    hide TilesAt, Repeats, Grid.Size, UnitAt;
    if Repeats(g.n0, m1) && Repeats(g.n1, m2) && Repeats(g.n2, m3) {
      forall data: seq<real> | |data| == g.Size() ensures TiledOutput(data, g, c) {
        forall i, j, k | c.out.Has(i, j, k) ensures TilesAt(data, g, c, i, j, k) {
          RepeatsTile(data, g, c, m1, m2, m3, i, j, k);
        }
      }
    }
    if forall data: seq<real> :: |data| == g.Size() ==> TiledOutput(data, g, c) {
      assert TiledOutput(UnitAt(g, 0, 0, 0), g, c);
      assert TilesAt(UnitAt(g, 0, 0, 0), g, c, 0, 0, 0);
      UnitShows(g, c, m1, m2, m3);
    }
  }
}
