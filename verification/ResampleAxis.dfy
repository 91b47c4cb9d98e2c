/** One axis of the periodic resampling in map_data (libpympb/pympb.cpp:2501-2537, 2583-2638): the
    grid neighbours, cell numbers and weight of a coordinate. */
module ResampleAxis {
  import opened Reals
  import opened Integers

  /** A coordinate in units of grid steps. */
  function OnGrid(x: real, n: nat): real { x * n as real }

  /** C truncates toward zero. */
  function Trunc(x: real): int { if x >= 0.0 then x.Floor else -((-x).Floor) }

  /** MODF_POSITIVE: fractional part in [0, 1) and integer part. */
  function ModfPositive(x: real): (real, real) {
    var xi := Trunc(x) as real;
    var f := x - xi;
    if f < 0.0 then
      if f + 1.0 >= 1.0 then (0.0, xi) else (f + 1.0, xi - 1.0)
    else (f, xi)
  }

  lemma ModfIsFloor(x: real)
    ensures ModfPositive(x) == (x - x.Floor as real, x.Floor as real)
  {
    FloorOfNegation(x);
  }

  lemma FloorOfNegation(x: real)
    ensures (-x).Floor == if x == x.Floor as real then -x.Floor else -x.Floor - 1
  {
  }

  /** ADJ_POINT: the neighbour in the direction of dx, with wrap-around and its cell number. */
  function AdjPoint(i1: int, n: int, dx: real, xi: real): (int, real, real) {
    if dx >= 0.0 then
      var i2 := i1 + 1;
      if i2 >= n then (i2 - n, xi + 1.0, dx) else (i2, xi, dx)
    else
      var i2 := i1 - 1;
      if i2 < 0 then (i2 + n, xi - 1.0, -dx) else (i2, xi, -dx)
  }

  /** Wrapping takes the cell along: on the continued grid the neighbour is one step away from i1, on the
      side that dx points to, and its weight is the length of dx. */
  lemma AdjPointMoves(i1: int, n: int, dx: real, xi: real)
    requires 0 <= i1 < n
    ensures var (i2, xi2, d) := AdjPoint(i1, n, dx, xi);
            && 0 <= i2 < n && (d == dx || d == -dx) && d >= 0.0
            && i2 as real + OnGrid(xi2, n) == i1 as real + OnGrid(xi, n) + (if dx >= 0.0 then 1.0 else -1.0)
  {
    hide OnGrid;
    OnGridSum(xi, 0.0, n);
    OnGridSum(xi - 1.0, 0.0, n);
    assert xi - 1.0 + 1.0 == xi;
  }

  /** Lower and upper neighbour, the cell number of each, and the weight of the upper one. */
  datatype Axis = Axis(i1: int, i2: int, xi: real, xi2: real, d: real)

  function AxisOf(x: real, n: nat, bloch: bool, nearest: bool): Axis {
    var (f, cell) := ModfPositive(x);
    var xi := if bloch then cell + f else cell;
    var g := OnGrid(f, n);
    var i1 := Trunc(g);
    var (i2, xi2, d) := AdjPoint(i1, n, g - i1 as real, xi);
    Axis(i1, i2, xi, xi2, if !nearest then d else if d <= 0.5 then 0.0 else 1.0)
  }

  lemma FractionOnGrid(f: real, n: nat)
    requires 0.0 <= f < 1.0 && n >= 1
    ensures 0.0 <= OnGrid(f, n) < n as real
  {
    ProductSign(f, n as real, f * n as real);
    ProductSign(1.0 - f, n as real, (1.0 - f) * n as real);
  }

  lemma TruncBelow(g: real, n: nat)
    requires 0.0 <= g < n as real
    ensures 0 <= Trunc(g) < n && 0.0 <= g - Trunc(g) as real < 1.0
  {
  }

  lemma OnGridSum(x: real, y: real, n: nat)
    ensures OnGrid(x + y, n) == OnGrid(x, n) + OnGrid(y, n)
    ensures OnGrid(x + 1.0, n) == OnGrid(x, n) + n as real
  {
  }

  /** All indices are in range for every n >= 1, n = 1 included, and wrapping keeps the position:
      the upper neighbour is one grid step above the lower one. Position x*n lies between them. */
  lemma AxisInRange(x: real, n: nat, bloch: bool, nearest: bool)
    requires n >= 1
    ensures var a := AxisOf(x, n, bloch, nearest);
            && 0 <= a.i1 < n && 0 <= a.i2 < n && a.i2 == (a.i1 + 1) % n
            && a.i2 as real + OnGrid(a.xi2, n) == a.i1 as real + OnGrid(a.xi, n) + 1.0
            && 0.0 <= a.d <= 1.0
            && (nearest ==> a.d == 0.0 || a.d == 1.0) && (!nearest ==> a.d < 1.0)
            && (!bloch && !nearest ==> OnGrid(x, n) == a.i1 as real + a.d + OnGrid(a.xi, n))
            && (!bloch ==> a.xi == x.Floor as real)
            && (bloch ==> a.xi == x)
  {
    hide OnGrid, Trunc;
    ModfIsFloor(x);
    var f := x - x.Floor as real;
    FractionOnGrid(f, n);
    TruncBelow(OnGrid(f, n), n);
    OnGridSum(x.Floor as real, f, n);
    assert x.Floor as real + f == x;
    var a := AxisOf(x, n, bloch, nearest);
    OnGridSum(a.xi, 0.0, n);
    NextModulo(a.i1, n);
  }

  /** With pick_nearest the chosen neighbour is the nearest one, the lower one on ties. */
  lemma {:induction false} NearestIsNearest(x: real, n: nat)
    requires n >= 1
    ensures var a := AxisOf(x, n, false, true);
            var position := if a.d == 0.0 then a.i1 as real + OnGrid(a.xi, n) else a.i2 as real + OnGrid(a.xi2, n);
            -0.5 <= position - OnGrid(x, n) < 0.5
  {
    hide OnGrid, Trunc, ModfPositive;
    AxisInRange(x, n, false, false);
    AxisInRange(x, n, false, true);
  }

  // ----- whole periods

  /** The coordinate of output index i when m periods of n points are sampled at `out` points. */
  function PeriodCoordinate(i: int, m: int, out: nat): real
    requires out >= 1
  {
    var step := m as real * (1.0 / out as real);
    step * i as real + (0.5 - step * 0.5 * out as real)
  }

  /** Either the axis has n*m output points, or it is one of the axes beyond the rank of the data. */
  predicate PeriodAxis(n: nat, m: int, out: nat) {
    n >= 1 && m >= 1 && out >= 1 && (out == n * m || (n == 1 && out == 1))
  }

  lemma PeriodPosition(i: int, n: nat, m: int, out: nat)
    requires PeriodAxis(n, m, out) && 0 <= i < out
    ensures OnGrid(PeriodCoordinate(i, m, out), n) == i as real - (n * (m - 1)) as real / 2.0
  {
    var no, nr, mr := out as real, n as real, m as real;
    var r := 1.0 / no;
    assert r * no == 1.0;
    assert mr * r * 0.5 * no == mr * 0.5 by { Associate4(mr, r, no); }
    if out == n * m {
      assert no == nr * mr;
      assert mr * r * nr == 1.0 by { Reorder(mr, r, nr, no); }
      Assemble(mr * r, i as real, nr, mr, 0.5 * mr);
    } else {
      assert i == 0 && nr == 1.0;
    }
    CastDifference(n, m);
  }

  lemma Associate4(m: real, r: real, no: real)
    requires r * no == 1.0
    ensures m * r * 0.5 * no == m * 0.5
  {
    assert m * r * 0.5 * no == m * 0.5 * (r * no);
  }

  lemma Reorder(m: real, r: real, n: real, no: real)
    requires r * no == 1.0 && no == n * m
    ensures m * r * n == 1.0
  {
    assert m * r * n == r * (n * m);
  }

  lemma Assemble(s: real, i: real, n: real, m: real, h: real)
    requires s * n == 1.0 && h == 0.5 * m
    ensures (s * i + (0.5 - h)) * n == i + 0.5 * n - h * n
  {
    assert (s * i) * n == i * (s * n);
  }

  lemma CastDifference(n: nat, m: int)
    ensures (n * (m - 1)) as real == n as real * m as real - n as real
  {
    assert n * (m - 1) == n * m - n;
    CastProduct(n, m);
  }

  lemma CastProduct(n: int, m: int)
    ensures (n * m) as real == n as real * m as real
  {
  }

  lemma OnGridOfInt(c: int, n: nat, x: real)
    requires x == c as real
    ensures OnGrid(x, n) == (c * n) as real
  {
    CastProduct(c, n);
  }

  /** A coordinate q + half steps of the grid: sample q mod n of cell q div n, weight half. */
  lemma AxisAtStep(x: real, n: nat, q: int, half: real)
    requires n >= 1 && (half == 0.0 || half == 0.5)
    requires OnGrid(x, n) == q as real + half
    ensures var a := AxisOf(x, n, false, false);
            a.i1 == q % n && a.i2 == (q + 1) % n && a.d == half && a.xi == (q / n) as real
  {
    hide OnGrid, AxisOf;
    AxisInRange(x, n, false, false);
    var a, c := AxisOf(x, n, false, false), x.Floor;
    OnGridOfInt(c, n, a.xi);
    assert a.i1 as real + a.d + (c * n) as real == q as real + half;
    assert a.i1 + c * n == q && a.d == half;
    DivisionIsUnique(n, c, a.i1, q);
    AddToModulo(q, n);
  }

  /** For every output index: the grid sample is at i - n*(m-1)/2, on a grid point if n*(m-1) is
      even and half-way between two if it is odd. */
  lemma PeriodAxisSamples(i: int, n: nat, m: int, out: nat)
    requires PeriodAxis(n, m, out) && 0 <= i < out
    ensures var a := AxisOf(PeriodCoordinate(i, m, out), n, false, false);
            var e := n * (m - 1);
            var q := i - (e + e % 2) / 2;
            && a.i1 == q % n && a.i2 == (q + 1) % n && a.xi == (q / n) as real
            && a.d == (if e % 2 == 0 then 0.0 else 0.5)
  {
    hide OnGrid, AxisOf, PeriodCoordinate;
    PeriodPosition(i, n, m, out);
    var e := n * (m - 1);
    var h := (e + e % 2) / 2;
    assert e as real / 2.0 == h as real - (if e % 2 == 0 then 0.0 else 0.5) by { HalfOf(e, h); }
    AxisAtStep(PeriodCoordinate(i, m, out), n, i - h, if e % 2 == 0 then 0.0 else 0.5);
  }

  lemma HalfOf(e: int, h: int)
    requires 2 * h == e + e % 2
    ensures e as real / 2.0 == h as real - (if e % 2 == 0 then 0.0 else 0.5)
  {
    assert e as real == 2.0 * h as real - (e % 2) as real;
  }

  /** An odd number of periods tiles: sample i mod n in the cell of that period, weight zero. */
  lemma OddPeriodsTile(i: int, n: nat, m: int, out: nat)
    requires PeriodAxis(n, m, out) && 0 <= i < out && m % 2 == 1
    ensures var a := AxisOf(PeriodCoordinate(i, m, out), n, false, false);
            a.i1 == i % n && a.d == 0.0 && a.xi == (i / n - (m - 1) / 2) as real
  {
    hide OnGrid, AxisOf, PeriodCoordinate;
    PeriodAxisSamples(i, n, m, out);
    OddShift(i, n, m);
  }

  lemma OddShift(i: int, n: nat, m: int)
    requires n >= 1 && m % 2 == 1
    ensures var e, h := n * (m - 1), (m - 1) / 2;
            var q := i - (e + e % 2) / 2;
            e % 2 == 0 && q % n == i % n && q / n == i / n - h
  {
    var h := (m - 1) / 2;
    assert m - 1 == 2 * h;
    TwiceProduct(n, h, n * (m - 1), n * h);
    ShiftCells(i, n, h);
    var q := i - n * h;
    DivisionIsUnique(n, i / n - h, i % n, q);
  }

  lemma TwiceProduct(n: int, h: int, e: int, p: int)
    requires e == n * (2 * h) && p == n * h
    ensures e == 2 * p && e % 2 == 0 && (e + e % 2) / 2 == p
  {
    assert n * (2 * h) == 2 * (n * h);
  }

  /** The value read at an axis position never depends on anything but sample i mod n. */
  predicate ReadsOnly(a: Axis, s: int) { a.i1 == s && (a.d == 0.0 || a.i2 == s) }

  /** Tiling holds at every output index exactly for an odd number of periods, or a single sample,
      with or without pick_nearest. */
  lemma TilesIff(i: int, n: nat, m: int, out: nat, nearest: bool)
    requires PeriodAxis(n, m, out) && 0 <= i < out
    ensures var a := AxisOf(PeriodCoordinate(i, m, out), n, false, nearest);
            && (ReadsOnly(a, i % n) <==> m % 2 == 1 || n == 1)
            && 0.0 <= a.d <= 0.5
  {
    hide OnGrid, AxisOf, PeriodCoordinate;
    PeriodAxisSamples(i, n, m, out);
    NearestAxis(PeriodCoordinate(i, m, out), n);
    if m % 2 == 1 {
      OddPeriodsTile(i, n, m, out);
    } else if n > 1 {
      EvenPeriodsShift(i, n, m);
    }
  }

  /** pick_nearest drops weights up to one half. */
  lemma NearestAxis(x: real, n: nat)
    requires n >= 1
    ensures var a := AxisOf(x, n, false, false); a.d <= 0.5 ==> AxisOf(x, n, false, true) == a.(d := 0.0)
  {
    hide OnGrid, Trunc, ModfPositive;
  }

  /** An even number of periods reads another sample. */
  lemma EvenPeriodsShift(i: int, n: nat, m: int)
    requires n >= 2 && m % 2 == 0
    ensures var e := n * (m - 1); (i - (e + e % 2) / 2) % n != i % n
  {
    var h := m / 2 - 1;
    var e, p := n * (m - 1), n * h;
    assert m - 1 == 2 * h + 1;
    assert e == 2 * p + n;
    var g := (n + n % 2) / 2;
    assert (e + e % 2) / 2 == p + g;
    ShiftedSample(i, n, h, g, i - p - g);
  }

  lemma ShiftedSample(i: int, n: nat, h: int, g: int, q: int)
    requires n >= 2 && 1 <= g < n && q == i - n * h - g
    ensures q % n != i % n
  {
    var d := q / n;
    assert q == d * n + q % n;
    if q % n == i % n {
      assert i - q == (i / n - d) * n;
      assert n * h + g == (i / n - d) * n;
      assert g == (i / n - d - h) * n;
      SmallMultiple(i / n - d - h, n);
      assert false;
    }
  }
}
