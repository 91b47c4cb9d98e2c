/** Band ranges and gaps (python/solver.py:506-572) and the k-point loop that fills them
    (python/solver.py:892-961). Frequencies are exact reals. */
module BandGaps {
  import opened Integers
  import opened Options
  import opened Vectors

  /** mp.inf. */
  const Inf := 100000000000000000000.0

  /** A frequency and the k-point it occurs at; ((min, kmin), (max, kmax)) for one band. No k-point
      stands for -1. */
  datatype Extreme = Extreme(freq: real, k: Option<Vector3>)

  datatype Range = Range(min: Extreme, max: Extreme)

  // ----- update_band_range_data

  /** What stands for a missing entry: every frequency below Inf beats the minimum, every one above
      -Inf the maximum. */
  const Missing := Range(Extreme(Inf, None), Extreme(-Inf, None))

  function Widen(r: Range, f: real, k: Vector3): Range {
    Range(if f < r.min.freq then Extreme(f, Some(k)) else r.min,
          if f > r.max.freq then Extreme(f, Some(k)) else r.max)
  }

  function UpdateBrd(brd: seq<Range>, freqs: seq<real>, k: Vector3, start: seq<Range>): seq<Range>
    decreases |freqs|
  {
    if |freqs| == 0 then start + brd
    else
      var br := if |brd| > 0 then brd[0] else Missing;
      var rest := if |brd| > 0 then brd[1..] else [];
      UpdateBrd(rest, freqs[1..], k, start + [Widen(br, freqs[0], k)])
  }

  function UpdateBandRangeData(brd: seq<Range>, freqs: seq<real>, k: Vector3): seq<Range> {
    UpdateBrd(brd, freqs, k, [])
  }

  /** Band by band; bands beyond the new frequencies keep their entries. */
  lemma {:induction false} UpdateBrdAt(brd: seq<Range>, freqs: seq<real>, k: Vector3, start: seq<Range>)
    ensures var r := UpdateBrd(brd, freqs, k, start);
            && |r| == |start| + Max(|brd|, |freqs|)
            && r[..|start|] == start
            && forall b :: 0 <= b < Max(|brd|, |freqs|) ==>
                 r[|start| + b] == (if b < |freqs| then Widen(if b < |brd| then brd[b] else Missing, freqs[b], k)
                                    else brd[b])
    decreases |freqs|
  {
    var r := UpdateBrd(brd, freqs, k, start);
    if |freqs| > 0 {
      var br := if |brd| > 0 then brd[0] else Missing;
      var rest := if |brd| > 0 then brd[1..] else [];
      var start' := start + [Widen(br, freqs[0], k)];
      UpdateBrdAt(rest, freqs[1..], k, start');
      assert start'[..|start|] == start;
      assert r[..|start|] == r[..|start'|][..|start|];
      assert r[|start|] == start'[|start|];
      forall b | 1 <= b < Max(|brd|, |freqs|)
        ensures r[|start| + b] == (if b < |freqs| then Widen(if b < |brd| then brd[b] else Missing, freqs[b], k)
                                   else brd[b])
      {
        assert r[|start| + b] == r[|start'| + (b - 1)];
      }
    }
  }

  // ----- the fold over k-points

  /** One solved k-point. */
  datatype Row = Row(k: Vector3, freqs: seq<real>)

  function Fold(rows: seq<Row>): seq<Range> {
    if |rows| == 0 then []
    else UpdateBandRangeData(Fold(rows[..|rows| - 1]), rows[|rows| - 1].freqs, rows[|rows| - 1].k)
  }

  predicate Rectangular(rows: seq<Row>, n: nat) { forall i :: 0 <= i < |rows| ==> |rows[i].freqs| == n }

  /** The frequencies of band b over the k-points. */
  function Column(rows: seq<Row>, b: nat): (c: seq<real>)
    requires forall i :: 0 <= i < |rows| ==> b < |rows[i].freqs|
    ensures |c| == |rows| && forall i :: 0 <= i < |rows| ==> c[i] == rows[i].freqs[b]
  {
    seq(|rows|, i requires 0 <= i < |rows| => rows[i].freqs[b])
  }

  /** j is the first index of the smallest (largest) entry. */
  predicate FirstMin(c: seq<real>, j: nat) {
    j < |c| && (forall i :: 0 <= i < |c| ==> c[j] <= c[i]) && (forall i :: 0 <= i < j ==> c[j] < c[i])
  }

  predicate FirstMax(c: seq<real>, j: nat) {
    j < |c| && (forall i :: 0 <= i < |c| ==> c[j] >= c[i]) && (forall i :: 0 <= i < j ==> c[j] > c[i])
  }

  /** The minimum stored for band b: the lowest frequency and the first k-point that attains it, unless
      no frequency is below Inf. */
  ghost predicate HoldsMin(e: Extreme, c: seq<real>, rows: seq<Row>)
    requires |c| == |rows|
  {
    || (exists j: nat :: j < |c| && FirstMin(c, j) && c[j] < Inf && e == Extreme(c[j], Some(rows[j].k)))
    || ((forall i :: 0 <= i < |c| ==> c[i] >= Inf) && e == Missing.min)
  }

  ghost predicate HoldsMax(e: Extreme, c: seq<real>, rows: seq<Row>)
    requires |c| == |rows|
  {
    || (exists j: nat :: j < |c| && FirstMax(c, j) && c[j] > -Inf && e == Extreme(c[j], Some(rows[j].k)))
    || ((forall i :: 0 <= i < |c| ==> c[i] <= -Inf) && e == Missing.max)
  }

  /** The range of band b holds its extreme frequencies and the first k-points that attain them. */
  ghost predicate HoldsExtremes(r: Range, rows: seq<Row>, b: nat)
    requires forall i :: 0 <= i < |rows| ==> b < |rows[i].freqs|
  {
    HoldsMin(r.min, Column(rows, b), rows) && HoldsMax(r.max, Column(rows, b), rows)
  }

  /** The stored ranges attain the extremes of every band, at the first k-point that does. */
  lemma {:induction false} FoldExtremes(rows: seq<Row>, n: nat)
    requires Rectangular(rows, n) && |rows| > 0
    ensures |Fold(rows)| == n
    ensures forall b :: 0 <= b < n ==> HoldsExtremes(Fold(rows)[b], rows, b)
  {
    hide HoldsExtremes, Widen, UpdateBrd;
    var m := |rows| - 1;
    var init, row := rows[..m], rows[m];
    UpdateBrdAt(Fold(init), row.freqs, row.k, []);
    if m > 0 {
      FoldExtremes(init, n);
    }
    assert |Fold(rows)| == n;
    forall b | 0 <= b < n ensures HoldsExtremes(Fold(rows)[b], rows, b) {
      if m == 0 {
        NothingHeld(init, b);
      }
      WidenExtremes(if m > 0 then Fold(init)[b] else Missing, rows, b);
    }
  }

  lemma WidenExtremes(r: Range, rows: seq<Row>, b: nat)
    requires |rows| > 0 && forall i :: 0 <= i < |rows| ==> b < |rows[i].freqs|
    requires HoldsExtremes(r, rows[..|rows| - 1], b)
    ensures HoldsExtremes(Widen(r, rows[|rows| - 1].freqs[b], rows[|rows| - 1].k), rows, b)
  {
    hide HoldsMin, HoldsMax;
    var m := |rows| - 1;
    var init, row := rows[..m], rows[m];
    WidenMin(r.min, Column(init, b), init, row, row.freqs[b]);
    WidenMax(r.max, Column(init, b), init, row, row.freqs[b]);
    assert Column(rows, b) == Column(init, b) + [row.freqs[b]] && rows == init + [row];
  }

  lemma NothingHeld(rows: seq<Row>, b: nat)
    requires |rows| == 0
    ensures HoldsExtremes(Missing, rows, b)
  {
  }

  lemma ExtendMin(c: seq<real>, j: nat, f: real)
    requires FirstMin(c, j)
    ensures FirstMin(c + [f], if f < c[j] then |c| else j)
  {
  }

  lemma ExtendMax(c: seq<real>, j: nat, f: real)
    requires FirstMax(c, j)
    ensures FirstMax(c + [f], if f > c[j] then |c| else j)
  {
  }

  lemma WidenMin(e: Extreme, c: seq<real>, rows: seq<Row>, row: Row, f: real)
    requires |c| == |rows| && HoldsMin(e, c, rows)
    ensures HoldsMin(if f < e.freq then Extreme(f, Some(row.k)) else e, c + [f], rows + [row])
  {
    var d, m := c + [f], |c|;
    if j: nat :| j < |c| && FirstMin(c, j) && c[j] < Inf && e == Extreme(c[j], Some(rows[j].k)) {
      ExtendMin(c, j, f);
      assert d[j] == c[j] && (rows + [row])[j] == rows[j];
    } else if f < Inf {
      assert FirstMin(d, m);
    }
  }

  lemma WidenMax(e: Extreme, c: seq<real>, rows: seq<Row>, row: Row, f: real)
    requires |c| == |rows| && HoldsMax(e, c, rows)
    ensures HoldsMax(if f > e.freq then Extreme(f, Some(row.k)) else e, c + [f], rows + [row])
  {
    var d, m := c + [f], |c|;
    if j: nat :| j < |c| && FirstMax(c, j) && c[j] > -Inf && e == Extreme(c[j], Some(rows[j].k)) {
      ExtendMax(c, j, f);
      assert d[j] == c[j] && (rows + [row])[j] == rows[j];
    } else if f > -Inf {
      assert FirstMax(d, m);
    }
  }

  // ----- output_gaps

  datatype Gap = Gap(percent: real, low: real, high: real)

  /** The size of a gap in percent of its midpoint. */
  function Percent(low: real, high: real): real
    requires high + low != 0.0
  {
    200.0 * (high - low) / (high + low)
  }

  /** None where the midpoint of a gap is zero and Python raises ZeroDivisionError. */
  function GapSize(low: real, high: real): Option<real> {
    if high + low == 0.0 then None else Some(Percent(low, high))
  }

  /** The accumulator `gaps`: three numbers for each gap, the newest gap first. */
  function Ogaps(cur: Range, rest: seq<Range>, gaps: seq<real>): Option<seq<real>>
    decreases |rest|
  {
    if |rest| == 0 then Some(gaps)
    else
      var high, low := rest[0].min.freq, cur.max.freq;
      if low >= high then Ogaps(rest[0], rest[1..], gaps)
      else
        var size := GapSize(low, high);
        if size.None? then None
        else Ogaps(rest[0], rest[1..], [size.value, low, high] + gaps)
  }

  function Reversed(s: seq<real>): (r: seq<real>)
    ensures |r| == |s|
  {
    if |s| == 0 then [] else Reversed(s[1..]) + [s[0]]
  }

  /** Triples of the reversed accumulator, each read backwards. */
  function Triples(s: seq<real>): seq<Gap>
    requires |s| % 3 == 0
  {
    if |s| == 0 then [] else [Gap(s[2], s[1], s[0])] + Triples(s[3..])
  }

  function OutputGaps(brd: seq<Range>): Option<seq<Gap>> {
    if |brd| == 0 then Some([])
    else
      var gaps := Ogaps(brd[0], brd[1..], []);
      if gaps.None? then None
      else
        OgapsLength(brd[0], brd[1..], []);
        Some(Triples(Reversed(gaps.value)))
  }

  lemma {:induction false} OgapsLength(cur: Range, rest: seq<Range>, gaps: seq<real>)
    requires |gaps| % 3 == 0
    ensures Ogaps(cur, rest, gaps).Some? ==> |Ogaps(cur, rest, gaps).value| % 3 == 0
    decreases |rest|
  {
    if |rest| > 0 {
      var high, low := rest[0].min.freq, cur.max.freq;
      OgapsLength(rest[0], rest[1..], gaps);
      if low < high && GapSize(low, high).Some? {
        OgapsLength(rest[0], rest[1..], [GapSize(low, high).value, low, high] + gaps);
      }
    }
  }

  // ----- what the list of gaps is

  predicate IsGap(brd: seq<Range>, b: nat)
    requires b + 1 < |brd|
  {
    brd[b].max.freq < brd[b + 1].min.freq
  }

  function GapAt(brd: seq<Range>, b: nat): Gap
    requires b + 1 < |brd| && brd[b].max.freq + brd[b + 1].min.freq != 0.0
  {
    var low, high := brd[b].max.freq, brd[b + 1].min.freq;
    Gap(Percent(low, high), low, high)
  }

  predicate NoZeroMidpoint(brd: seq<Range>) {
    forall b :: 0 <= b && b + 1 < |brd| && IsGap(brd, b) ==> brd[b].max.freq + brd[b + 1].min.freq != 0.0
  }

  /** The gaps in order of the bands. */
  function GapList(brd: seq<Range>): seq<Gap>
    requires NoZeroMidpoint(brd)
  {
    if |brd| < 2 then []
    else
      assert forall b :: 0 <= b && b + 1 < |brd[1..]| && IsGap(brd[1..], b) ==> IsGap(brd, b + 1);
      (if IsGap(brd, 0) then [GapAt(brd, 0)] else []) + GapList(brd[1..])
  }

  lemma {:induction false} ReversedConcat(s: seq<real>, t: seq<real>)
    ensures Reversed(s + t) == Reversed(t) + Reversed(s)
  {
    if |s| == 0 {
      assert s + t == t;
    } else {
      assert (s + t)[1..] == s[1..] + t;
      ReversedConcat(s[1..], t);
    }
  }

  lemma ReversedThree(a: real, b: real, c: real)
    ensures Reversed([a, b, c]) == [c, b, a]
  {
    assert [a, b, c][1..] == [b, c] && [b, c][1..] == [c] && [c][1..] == [];
    assert Reversed([c]) == [c];
    assert Reversed([b, c]) == [c, b];
  }

  lemma {:induction false} TriplesConcat(s: seq<real>, t: seq<real>)
    requires |s| % 3 == 0 && |t| % 3 == 0
    ensures |s + t| % 3 == 0
    ensures Triples(s + t) == Triples(s) + Triples(t)
  {
    if |s| == 0 {
      assert s + t == t;
    } else {
      TriplesConcat(s[3..], t);
      assert (s + t)[3..] == s[3..] + t;
      var first := [Gap(s[2], s[1], s[0])];
      assert Triples(s + t) == first + Triples(s[3..] + t);
      assert first + (Triples(s[3..]) + Triples(t)) == (first + Triples(s[3..])) + Triples(t);
    }
  }

  /** The accumulator, reversed and read in triples, is the old list followed by the new gaps. */
  lemma {:induction false} OgapsIsGapList(brd: seq<Range>, gaps: seq<real>)
    requires |brd| > 0 && |gaps| % 3 == 0
    ensures var r := Ogaps(brd[0], brd[1..], gaps);
            && (r.Some? <==> NoZeroMidpoint(brd))
            && (r.Some? ==> |r.value| % 3 == 0
                            && Triples(Reversed(r.value)) == Triples(Reversed(gaps)) + GapList(brd))
    decreases |brd|
  {
    hide Triples, Reversed, NoZeroMidpoint, GapList, Percent;
    if |brd| > 1 {
      var tail := brd[1..];
      var low, high := brd[0].max.freq, tail[0].min.freq;
      NoZeroTail(brd);
      assert brd[1..][1..] == tail[1..];
      if low >= high {
        OgapsIsGapList(tail, gaps);
        GapListStep(brd);
      } else if high + low != 0.0 {
        var size := Percent(low, high);
        OgapsIsGapList(tail, [size, low, high] + gaps);
        PushGap(gaps, size, low, high);
        GapListStep(brd);
      }
    } else {
      GapListShort(brd);
    }
  }

  lemma GapListShort(brd: seq<Range>)
    requires |brd| < 2
    ensures NoZeroMidpoint(brd) && GapList(brd) == []
  {
  }

  lemma GapListStep(brd: seq<Range>)
    requires |brd| > 1
    ensures NoZeroMidpoint(brd) ==>
              && NoZeroMidpoint(brd[1..])
              && (IsGap(brd, 0) ==> GapList(brd) == [GapAt(brd, 0)] + GapList(brd[1..]))
              && (!IsGap(brd, 0) ==> GapList(brd) == GapList(brd[1..]))
  {
    hide Percent;
    NoZeroTail(brd);
  }

  lemma PushGap(gaps: seq<real>, size: real, low: real, high: real)
    requires |gaps| % 3 == 0
    ensures var g := [size, low, high] + gaps;
            |g| % 3 == 0 && Triples(Reversed(g)) == Triples(Reversed(gaps)) + [Gap(size, low, high)]
  {
    ReversedConcat([size, low, high], gaps);
    ReversedThree(size, low, high);
    TriplesConcat(Reversed(gaps), [high, low, size]);
    assert [high, low, size][3..] == [];
    assert Triples([high, low, size]) == [Gap(size, low, high)];
  }

  lemma NoZeroTail(brd: seq<Range>)
    requires |brd| > 1
    ensures NoZeroMidpoint(brd) <==>
              NoZeroMidpoint(brd[1..]) && (IsGap(brd, 0) ==> brd[0].max.freq + brd[1].min.freq != 0.0)
  {
    var tail := brd[1..];
    assert forall b :: 0 <= b && b + 1 < |tail| ==> (IsGap(tail, b) <==> IsGap(brd, b + 1));
    if NoZeroMidpoint(tail) && (IsGap(brd, 0) ==> brd[0].max.freq + brd[1].min.freq != 0.0) {
      forall b | 0 <= b && b + 1 < |brd| && IsGap(brd, b) ensures brd[b].max.freq + brd[b + 1].min.freq != 0.0 {
        if b > 0 {
          assert IsGap(tail, b - 1);
        }
      }
    }
  }

  /** output_gaps returns the gaps between consecutive bands, in order, or fails exactly when the
      midpoint of one of them is zero. */
  lemma OutputGapsIsGapList(brd: seq<Range>)
    ensures OutputGaps(brd).Some? <==> NoZeroMidpoint(brd)
    ensures OutputGaps(brd).Some? ==> OutputGaps(brd).value == GapList(brd)
  {
    hide Percent;
    if |brd| > 0 {
      OgapsIsGapList(brd, []);
    }
  }

  // ----- soundness and completeness over the sampled bands

  predicate Ascending(f: seq<real>) { forall a, b :: 0 <= a < b < |f| ==> f[a] <= f[b] }

  predicate AscendingRows(rows: seq<Row>) { forall i :: 0 <= i < |rows| ==> Ascending(rows[i].freqs) }

  /** The list entry for the gap above band b. */
  lemma {:induction false} GapListHolds(brd: seq<Range>, b: nat)
    requires NoZeroMidpoint(brd) && b + 1 < |brd| && IsGap(brd, b)
    ensures GapAt(brd, b) in GapList(brd)
  {
    hide Percent;
    GapListStep(brd);
    if b > 0 {
      assert IsGap(brd[1..], b - 1);
      GapListHolds(brd[1..], b - 1);
      assert GapAt(brd, b) == GapAt(brd[1..], b - 1);
    }
  }

  /** Every list entry is the gap above some band. */
  lemma {:induction false} GapListFrom(brd: seq<Range>, g: Gap) returns (b: nat)
    requires NoZeroMidpoint(brd) && g in GapList(brd)
    ensures b + 1 < |brd| && IsGap(brd, b) && g == GapAt(brd, b)
  {
    hide Percent;
    if |brd| < 2 {
      GapListShort(brd);
      assert false;
    }
    GapListStep(brd);
    if IsGap(brd, 0) && g == GapAt(brd, 0) {
      b := 0;
    } else {
      var b' := GapListFrom(brd[1..], g);
      b := b' + 1;
    }
  }

  /** Lower bands have no larger maximum, upper bands no smaller minimum. */
  predicate Layered(brd: seq<Range>) {
    && (forall b :: 0 <= b < |brd| ==> brd[b].min.freq <= brd[b].max.freq)
    && (forall a, b :: 0 <= a < b < |brd| ==> brd[a].max.freq <= brd[b].max.freq && brd[a].min.freq <= brd[b].min.freq)
  }

  /** Disjoint open intervals in ascending order. */
  predicate Ordered(gaps: seq<Gap>) {
    && (forall i :: 0 <= i < |gaps| ==> gaps[i].low < gaps[i].high)
    && (forall i, j :: 0 <= i < j < |gaps| ==> gaps[i].high <= gaps[j].low)
  }

  lemma {:induction false} GapListOrdered(brd: seq<Range>)
    requires NoZeroMidpoint(brd) && Layered(brd)
    ensures Ordered(GapList(brd))
    ensures forall g :: g in GapList(brd) ==> brd[0].max.freq <= g.low
  {
    hide Percent;
    if |brd| < 2 {
      GapListShort(brd);
    } else {
      var tail := brd[1..];
      GapListStep(brd);
      GapListOrdered(tail);
      assert tail[0].max.freq >= tail[0].min.freq;
      assert brd[0].max.freq <= tail[0].max.freq;
      if IsGap(brd, 0) {
        var h, t := GapAt(brd, 0), GapList(tail);
        assert GapList(brd) == [h] + t;
        forall i | 0 <= i < |t| ensures h.high <= t[i].low {
          assert t[i] in t;
        }
      }
    }
  }

  /** The range of every band bounds its frequency at every k-point. */
  lemma RangeBounds(rows: seq<Row>, n: nat, i: nat, b: nat)
    requires Rectangular(rows, n) && i < |rows| && b < n
    ensures |Fold(rows)| == n
    ensures Fold(rows)[b].min.freq <= rows[i].freqs[b] <= Fold(rows)[b].max.freq
  {
    FoldExtremes(rows, n);
    assert HoldsExtremes(Fold(rows)[b], rows, b);
    assert Column(rows, b)[i] == rows[i].freqs[b];
  }

  lemma FoldLayered(rows: seq<Row>, n: nat)
    requires Rectangular(rows, n) && AscendingRows(rows) && |rows| > 0
    ensures |Fold(rows)| == n && Layered(Fold(rows))
  {
    hide Fold, HoldsMin, HoldsMax;
    FoldExtremes(rows, n);
    var brd := Fold(rows);
    forall b | 0 <= b < |brd| ensures brd[b].min.freq <= brd[b].max.freq {
      RangeBounds(rows, n, 0, b);
    }
    forall a, b | 0 <= a < b < |brd|
      ensures brd[a].max.freq <= brd[b].max.freq && brd[a].min.freq <= brd[b].min.freq
    {
      BandsAscend(rows, n, a, b);
    }
  }

  lemma BandsAscend(rows: seq<Row>, n: nat, a: nat, b: nat)
    requires Rectangular(rows, n) && AscendingRows(rows) && |rows| > 0 && a < b < n
    ensures |Fold(rows)| == n
    ensures Fold(rows)[a].max.freq <= Fold(rows)[b].max.freq && Fold(rows)[a].min.freq <= Fold(rows)[b].min.freq
  {
    hide Fold, HoldsMin, HoldsMax;
    FoldExtremes(rows, n);
    InfBounds(rows, n, a);
    InfBounds(rows, n, b);
    if Fold(rows)[a].max.freq > -Inf {
      var j := AttainedMax(rows, n, a);
      RangeBounds(rows, n, j, b);
    }
    if Fold(rows)[b].min.freq < Inf {
      var l := AttainedMin(rows, n, b);
      RangeBounds(rows, n, l, a);
    }
  }

  /** Stored minima never exceed Inf, stored maxima never go below -Inf. */
  lemma InfBounds(rows: seq<Row>, n: nat, b: nat)
    requires Rectangular(rows, n) && |rows| > 0 && b < n
    ensures |Fold(rows)| == n && Fold(rows)[b].min.freq <= Inf && Fold(rows)[b].max.freq >= -Inf
  {
    hide Fold;
    FoldExtremes(rows, n);
    assert HoldsExtremes(Fold(rows)[b], rows, b);
  }

  lemma AttainedMax(rows: seq<Row>, n: nat, b: nat) returns (j: nat)
    requires Rectangular(rows, n) && |rows| > 0 && b < n
    requires |Fold(rows)| == n && Fold(rows)[b].max.freq > -Inf
    ensures j < |rows| && Fold(rows)[b].max == Extreme(rows[j].freqs[b], Some(rows[j].k))
  {
    hide Fold;
    FoldExtremes(rows, n);
    var c := Column(rows, b);
    assert HoldsExtremes(Fold(rows)[b], rows, b);
    j :| j < |c| && FirstMax(c, j) && c[j] > -Inf && Fold(rows)[b].max == Extreme(c[j], Some(rows[j].k));
  }

  lemma AttainedMin(rows: seq<Row>, n: nat, b: nat) returns (j: nat)
    requires Rectangular(rows, n) && |rows| > 0 && b < n
    requires |Fold(rows)| == n && Fold(rows)[b].min.freq < Inf
    ensures j < |rows| && Fold(rows)[b].min == Extreme(rows[j].freqs[b], Some(rows[j].k))
  {
    hide Fold;
    FoldExtremes(rows, n);
    var c := Column(rows, b);
    assert HoldsExtremes(Fold(rows)[b], rows, b);
    j :| j < |c| && FirstMin(c, j) && c[j] < Inf && Fold(rows)[b].min == Extreme(c[j], Some(rows[j].k));
  }

  /** A frequency lies strictly between two neighbouring bands at every k-point. */
  ghost predicate Separates(rows: seq<Row>, n: nat, w: real, b: nat)
    requires Rectangular(rows, n)
  {
    b + 1 < n && forall i :: 0 <= i < |rows| ==> rows[i].freqs[b] < w < rows[i].freqs[b + 1]
  }

  lemma InsideSeparates(rows: seq<Row>, n: nat, w: real, g: Gap) returns (b: nat)
    requires Rectangular(rows, n) && NoZeroMidpoint(Fold(rows)) && |rows| > 0
    requires g in GapList(Fold(rows)) && g.low < w < g.high
    ensures Separates(rows, n, w, b) && -Inf < w < Inf
  {
    hide Fold, GapList, NoZeroMidpoint, Percent;
    FoldExtremes(rows, n);
    b := GapListFrom(Fold(rows), g);
    GapAtBounds(Fold(rows), b);
    InfBounds(rows, n, b);
    InfBounds(rows, n, b + 1);
    forall i | 0 <= i < |rows| ensures rows[i].freqs[b] < w < rows[i].freqs[b + 1] {
      RangeBounds(rows, n, i, b);
      RangeBounds(rows, n, i, b + 1);
    }
  }

  lemma SeparatedInside(rows: seq<Row>, n: nat, w: real, b: nat) returns (g: Gap)
    requires Rectangular(rows, n) && NoZeroMidpoint(Fold(rows)) && |rows| > 0
    requires Separates(rows, n, w, b) && -Inf < w < Inf
    ensures g in GapList(Fold(rows)) && g.low < w < g.high
  {
    hide Fold, GapList, NoZeroMidpoint, Percent;
    FoldExtremes(rows, n);
    var brd := Fold(rows);
    if brd[b].max.freq > -Inf {
      var j := AttainedMax(rows, n, b);
    }
    if brd[b + 1].min.freq < Inf {
      var l := AttainedMin(rows, n, b + 1);
    }
    assert IsGap(brd, b);
    GapListHolds(brd, b);
    GapAtBounds(brd, b);
    g := GapAt(brd, b);
  }

  /** The reported gaps are in order and disjoint, hold no sampled frequency, and a frequency lies
      strictly inside one of them exactly when it separates two neighbouring bands everywhere and is within the bounds of Inf. */
  lemma {:induction false} GapsAreExact(rows: seq<Row>, n: nat, w: real)
    requires Rectangular(rows, n) && AscendingRows(rows) && |rows| > 0
    requires NoZeroMidpoint(Fold(rows))
    ensures Ordered(GapList(Fold(rows)))
    ensures (exists g :: g in GapList(Fold(rows)) && g.low < w < g.high)
            <==> -Inf < w < Inf && exists b: nat :: Separates(rows, n, w, b)
  {
    hide Fold, GapList, NoZeroMidpoint, Layered, Separates;
    FoldLayered(rows, n);
    GapListOrdered(Fold(rows));
    if g :| g in GapList(Fold(rows)) && g.low < w < g.high {
      var b := InsideSeparates(rows, n, w, g);
    }
    if -Inf < w < Inf {
      if b: nat :| Separates(rows, n, w, b) {
        var g := SeparatedInside(rows, n, w, b);
      }
    }
  }

  lemma GapAtBounds(brd: seq<Range>, b: nat)
    requires NoZeroMidpoint(brd) && b + 1 < |brd| && IsGap(brd, b)
    ensures brd[b].max.freq + brd[b + 1].min.freq != 0.0
    ensures GapAt(brd, b).low == brd[b].max.freq && GapAt(brd, b).high == brd[b + 1].min.freq
  {
    hide Percent;
  }

  lemma {:induction false} GapsHoldNoSample(rows: seq<Row>, n: nat, i: nat, b: nat, g: Gap)
    requires Rectangular(rows, n) && AscendingRows(rows)
    requires NoZeroMidpoint(Fold(rows)) && g in GapList(Fold(rows))
    requires i < |rows| && b < n
    ensures rows[i].freqs[b] <= g.low || g.high <= rows[i].freqs[b]
  {
    hide Fold, GapList, Percent;
    var a := GapListFrom(Fold(rows), g);
    FoldLayered(rows, n);
    RangeBounds(rows, n, i, a);
    RangeBounds(rows, n, i, a + 1);
  }

  // ----- retrieve_gap

  datatype Retrieved = Value(percent: real) | ValueError | IndexError | ZeroDivisionError

  /** Python indexing: negative indices count from the end. */
  function PyIndex(n: nat, i: int): Option<nat> {
    if 0 <= i < n then Some(i) else if -(n as int) <= i < 0 then Some(i + n) else None
  }

  function RetrieveGap(brd: seq<Range>, lowerBand: int): Retrieved {
    if lowerBand + 1 > |brd| then ValueError
    else
      var i, j := PyIndex(|brd|, lowerBand - 1), PyIndex(|brd|, lowerBand);
      if i.None? || j.None? then IndexError
      else
        var f1, f2 := brd[i.value].max.freq, brd[j.value].min.freq;
        if 0.005 * (f1 + f2) == 0.0 then ZeroDivisionError else Value((f2 - f1) / (0.005 * (f1 + f2)))
  }

  /** The other arguments. Indices count from the end where they are negative, so 0 compares the last band
      with the first one and -1 the last but one with the last. */
  lemma RetrievedFromTheEnd(brd: seq<Range>, lowerBand: int)
    ensures RetrieveGap(brd, lowerBand) == ValueError <==> lowerBand >= |brd|
    ensures RetrieveGap(brd, lowerBand) == IndexError <==> lowerBand < |brd| && lowerBand <= -|brd|
    ensures -|brd| < lowerBand < 0 ==> RetrieveGap(brd, lowerBand) == RetrieveGap(brd, lowerBand + |brd|)
    ensures lowerBand == 0 && |brd| > 0 && brd[|brd| - 1].max.freq + brd[0].min.freq != 0.0 ==>
              RetrieveGap(brd, lowerBand) == Value(Percent(brd[|brd| - 1].max.freq, brd[0].min.freq))
  {
    hide Percent;
    if lowerBand == 0 && |brd| > 0 && brd[|brd| - 1].max.freq + brd[0].min.freq != 0.0 {
      SamePercent(brd[|brd| - 1].max.freq, brd[0].min.freq);
    }
  }

  /** For a band below another one, retrieve_gap gives the percentage that output_gaps reports;
      it is positive exactly when there is a gap, for non-negative frequencies. */
  lemma {:induction false} RetrievedIsReported(brd: seq<Range>, b: nat)
    requires b + 1 < |brd| && brd[b].max.freq + brd[b + 1].min.freq != 0.0
    ensures RetrieveGap(brd, b + 1) == Value(GapAt(brd, b).percent)
    ensures brd[b].max.freq + brd[b + 1].min.freq > 0.0 ==> (GapAt(brd, b).percent > 0.0 <==> IsGap(brd, b))
  {
    hide Percent;
    var f1, f2 := brd[b].max.freq, brd[b + 1].min.freq;
    SamePercent(f1, f2);
    if f1 + f2 > 0.0 {
      PercentSign(f1, f2);
    }
  }

  lemma SamePercent(f1: real, f2: real)
    requires f1 + f2 != 0.0
    ensures 0.005 * (f1 + f2) != 0.0 && (f2 - f1) / (0.005 * (f1 + f2)) == Percent(f1, f2)
  {
    var q := Percent(f1, f2);
    assert q * (f2 + f1) == 200.0 * (f2 - f1);
    assert q * (0.005 * (f1 + f2)) == f2 - f1;
  }

  /** The percentage is that of the width in the middle frequency. */
  lemma PercentOfMiddle(low: real, high: real)
    requires high + low != 0.0
    ensures Percent(low, high) * ((low + high) / 2.0) == 100.0 * (high - low)
  {
    var q := Percent(low, high);
    assert q * (high + low) == 200.0 * (high - low);
  }

  lemma PercentSign(f1: real, f2: real)
    requires f1 + f2 > 0.0
    ensures Percent(f1, f2) > 0.0 <==> f1 < f2
  {
    var q := Percent(f1, f2);
    assert q * (f2 + f1) == 200.0 * (f2 - f1);
  }

  // ----- the loop of run_parity

  function RowsOf(ks: seq<Vector3>, solved: seq<seq<real>>): (r: seq<Row>)
    requires |solved| == |ks|
    ensures |r| == |ks| && forall i :: 0 <= i < |r| ==> r[i] == Row(ks[i], solved[i])
  {
    seq(|ks|, i requires 0 <= i < |ks| => Row(ks[i], solved[i]))
  }

  lemma FoldStep(rows: seq<Row>, i: nat)
    requires i < |rows|
    ensures Fold(rows[..i + 1]) == UpdateBandRangeData(Fold(rows[..i]), rows[i].freqs, rows[i].k)
  {
    assert rows[..i + 1][..i] == rows[..i];
  }

  class ModeSolver {
    var numBands: nat
    var kPoints: seq<Vector3>
    var freqs: seq<real>
    var allFreqs: seq<seq<real>>
    var bandRangeData: seq<Range>
    var gapList: seq<Gap>

    /** `solved` holds what solve_kpoint leaves in self.freqs at each k-point; false where
        output_gaps raises ZeroDivisionError. */
    method RunParity(solved: seq<seq<real>>) returns (ok: bool)
      requires |solved| == |kPoints|
      requires forall i :: 0 <= i < |solved| ==> |solved[i]| == numBands
      modifies this
      ensures numBands == old(numBands) && kPoints == old(kPoints)
      ensures numBands == 0 ==> ok && bandRangeData == [] && gapList == old(gapList) && freqs == old(freqs)
      ensures numBands > 0 ==> bandRangeData == Fold(RowsOf(kPoints, solved)) && allFreqs == solved
      ensures numBands > 0 && |kPoints| > 0 ==> freqs == solved[|solved| - 1]
      ensures numBands > 0 && |kPoints| <= 1 ==> ok && gapList == []
      ensures numBands > 0 && |kPoints| > 1 ==> (ok <==> NoZeroMidpoint(bandRangeData))
      ensures numBands > 0 && |kPoints| > 1 && ok ==> gapList == GapList(bandRangeData)
      ensures !ok ==> gapList == old(gapList)
    {
      hide UpdateBandRangeData, Fold, OutputGaps, GapList, NoZeroMidpoint;
      var n := numBands;
      allFreqs := seq(|kPoints|, _ => seq(n, _ => 0.0));
      bandRangeData := [];
      ok := true;
      if numBands > 0 {
        ghost var rows := RowsOf(kPoints, solved);
        FoldNothing(rows);
        for i := 0 to |kPoints|
          invariant numBands == old(numBands) && kPoints == old(kPoints) && gapList == old(gapList)
          invariant bandRangeData == Fold(rows[..i])
          invariant |allFreqs| == |solved| && forall j :: 0 <= j < i ==> allFreqs[j] == solved[j]
          invariant i > 0 ==> freqs == solved[i - 1]
        {
          freqs := solved[i];
          allFreqs := allFreqs[i := freqs];
          FoldStep(rows, i);
          bandRangeData := UpdateBandRangeData(bandRangeData, freqs, kPoints[i]);
        }
        assert rows[..|kPoints|] == rows;
        if |kPoints| > 1 {
          OutputGapsIsGapList(bandRangeData);
          var gaps := OutputGaps(bandRangeData);
          if gaps.None? {
            return false;
          }
          gapList := gaps.value;
        } else {
          gapList := [];
        }
      }
    }
  }

  lemma FoldNothing(rows: seq<Row>)
    ensures Fold(rows[..0]) == []
  {
  }
}
