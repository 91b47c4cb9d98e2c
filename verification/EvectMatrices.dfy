/** Matrices of eigenvectors stored row by row in one buffer, p numbers to the row, and the loops
    that move their columns in place (libpympb/pympb.cpp:1085-1092, 1133-1138, 1172-1178,
    1195-1201). evectmatrix_resize belongs to MPB; the body here keeps the column data as that
    routine promises when asked to. */
module EvectMatrices {
  import opened Complexes
  import opened Integers

  type Column = seq<Complex>

  /** Position of row r, column c in rows of p. */
  function Spot(r: int, p: int, c: int): int { r * p + c }

  lemma SpotInRange(r: int, p: int, c: int, n: int)
    requires 0 <= r < n && 0 <= c < p
    ensures 0 <= Spot(r, p, c) < n * p
  {
    PositionInRange(r, n, c, p);
  }

  lemma SpotGrows(r: int, p: int, p': int, c: int)
    requires 0 <= r && p <= p'
    ensures Spot(r, p, c) <= Spot(r, p', c)
  {
    assert r * p <= r * p';
  }

  lemma SpotNext(r: int, p: int, c: int, d: int)
    ensures Spot(r, p, c + d) == Spot(r, p, c) + d
    ensures Spot(r + 1, p, c) == Spot(r, p, c) + p
  {
  }

  function Element(a: seq<Complex>, n: nat, p: nat, r: nat, c: nat): Complex
    requires |a| >= n * p && r < n && c < p
  {
    SpotInRange(r, p, c, n);
    a[Spot(r, p, c)]
  }

  /** The columns of the matrix in the buffer a. */
  function Columns(a: seq<Complex>, n: nat, p: nat): (cols: seq<Column>)
    requires |a| >= n * p
    ensures |cols| == p && forall c :: 0 <= c < p ==> |cols[c]| == n
  {
    seq(p, c requires 0 <= c < p => seq(n, r requires 0 <= r < n => Element(a, n, p, r, c)))
  }

  /** Element (r, k) of the part of the matrix that starts at column c. */
  function Shifted(a: seq<Complex>, n: nat, p: nat, c: nat, r: nat, k: nat): Complex
    requires |a| >= n * p && r < n && c + k < p
  {
    Element(a, n, p, r, c + k)
  }

  /** Buffers whose rows of p and p' agree in w columns from c and c' on. */
  ghost predicate SameColumns(a: seq<Complex>, p: nat, c: nat, a': seq<Complex>, p': nat, c': nat, w: nat, n: nat)
    requires |a| >= n * p && |a'| >= n * p' && c + w <= p && c' + w <= p'
  {
    forall r, k :: 0 <= r < n && 0 <= k < w ==> Shifted(a, n, p, c, r, k) == Shifted(a', n, p', c', r, k)
  }

  lemma ColumnElements(a: seq<Complex>, n: nat, p: nat, c: nat, w: nat, k: nat)
    requires |a| >= n * p && c + w <= p && k < w
    ensures Columns(a, n, p)[c..c + w][k] == seq(n, r requires 0 <= r < n => Shifted(a, n, p, c, r, k))
  {
    hide Element;
    assert Columns(a, n, p)[c..c + w][k] == Columns(a, n, p)[c + k];
  }

  lemma SameSlices(a: seq<Complex>, p: nat, c: nat, a': seq<Complex>, p': nat, c': nat, w: nat, n: nat)
    requires |a| >= n * p && |a'| >= n * p' && c + w <= p && c' + w <= p'
    requires SameColumns(a, p, c, a', p', c', w, n)
    ensures Columns(a, n, p)[c..c + w] == Columns(a', n, p')[c'..c' + w]
  {
    hide Shifted, Columns;
    var s, s' := Columns(a, n, p)[c..c + w], Columns(a', n, p')[c'..c' + w];
    forall k | 0 <= k < w ensures s[k] == s'[k] {
      ColumnElements(a, n, p, c, w, k);
      ColumnElements(a', n, p', c', w, k);
    }
  }

  // ----- moves within one buffer

  /** For every row: w numbers from column soff of rows of ps to column doff of rows of pd. */
  datatype Move = Move(pd: nat, doff: nat, ps: nat, soff: nat, w: nat) {
    predicate Fits() { doff + w <= pd && soff + w <= ps }

    /** Numbers move toward the start of the buffer, or toward its end. */
    predicate Down() { Fits() && pd <= ps && doff <= soff }

    predicate Up() { Fits() && ps <= pd && soff <= doff }

    function Dest(r: int, c: int): int { Spot(r, pd, doff + c) }

    function Src(r: int, c: int): int { Spot(r, ps, soff + c) }
  }

  lemma MoveRange(m: Move, r: int, c: int, n: int)
    requires m.Fits() && 0 <= r < n && 0 <= c < m.w
    ensures 0 <= m.Dest(r, c) < n * m.pd && 0 <= m.Src(r, c) < n * m.ps
  {
    SpotInRange(r, m.pd, m.doff + c, n);
    SpotInRange(r, m.ps, m.soff + c, n);
  }

  lemma MoveOrder(m: Move, r: int, c: int)
    requires 0 <= r && 0 <= c
    ensures m.Down() ==> m.Dest(r, c) <= m.Src(r, c)
    ensures m.Up() ==> m.Src(r, c) <= m.Dest(r, c)
  {
    SpotNext(r, m.pd, 0, m.doff + c);
    SpotNext(r, m.ps, 0, m.soff + c);
    if m.Down() {
      SpotGrows(r, m.pd, m.ps, 0);
    }
    if m.Up() {
      SpotGrows(r, m.ps, m.pd, 0);
    }
  }

  /** Element (r', c') comes before (r, c) in reading order. */
  predicate Before(r': int, c': int, r: int, c: int) { r' < r || (r' == r && c' < c) }

  lemma DestOrder(m: Move, r': int, c': int, r: int, c: int)
    requires m.Fits() && 0 <= c' < m.w && 0 <= c <= m.w && Before(r', c', r, c)
    ensures m.Dest(r', c') < m.Dest(r, c)
  {
    SpotNext(r', m.pd, m.doff, c');
    SpotNext(r, m.pd, m.doff, c);
    if r' < r {
      SpotRows(r', r, m.pd, m.doff);
    }
  }

  lemma SpotRows(r': int, r: int, p: nat, c: int)
    requires r' < r
    ensures Spot(r', p, c) + p <= Spot(r, p, c)
  {
    assert (r' + 1) * p <= r * p;
  }

  /** The state of an ascending loop that has reached (r, c). */
  ghost predicate Descended(a: seq<Complex>, was: seq<Complex>, m: Move, n: nat, r: int, c: int) {
    && |a| == |was| >= n * m.pd && |a| >= n * m.ps && m.Down()
    && (forall r', c' :: 0 <= r' < n && 0 <= c' < m.w && Before(r', c', r, c) ==>
          0 <= m.Dest(r', c') < |a| && 0 <= m.Src(r', c') < |a| && a[m.Dest(r', c')] == was[m.Src(r', c')])
    && (forall k :: 0 <= k < |a| && m.Dest(r, c) <= k ==> a[k] == was[k])
  }

  lemma DescendedStep(a: seq<Complex>, a': seq<Complex>, was: seq<Complex>, m: Move, n: nat, r: int, c: int)
    requires Descended(a, was, m, n, r, c) && 0 <= r < n && 0 <= c < m.w
    requires 0 <= m.Dest(r, c) < |a| && 0 <= m.Src(r, c) < |a|
    requires a' == a[m.Dest(r, c) := a[m.Src(r, c)]]
    ensures Descended(a', was, m, n, r, c + 1)
  {
    hide Move.Dest, Move.Src;
    MoveOrder(m, r, c);
    DestOrder(m, r, c, r, c + 1);
    forall r', c' | 0 <= r' < n && 0 <= c' < m.w && Before(r', c', r, c + 1)
      ensures 0 <= m.Dest(r', c') < |a| && 0 <= m.Src(r', c') < |a| && a'[m.Dest(r', c')] == was[m.Src(r', c')]
    {
      if Before(r', c', r, c) {
        DestOrder(m, r', c', r, c);
      }
    }
  }

  lemma DescendedRow(a: seq<Complex>, was: seq<Complex>, m: Move, n: nat, r: int)
    requires Descended(a, was, m, n, r, m.w)
    ensures Descended(a, was, m, n, r + 1, 0)
  {
    hide Move.Src;
    SpotNext(r, m.pd, m.doff, m.w);
    SpotNext(r, m.pd, m.doff, 0);
    assert m.Dest(r, m.w) <= m.Dest(r + 1, 0);
  }

  lemma DescendedStart(a: seq<Complex>, m: Move, n: nat)
    requires |a| >= n * m.pd && |a| >= n * m.ps && m.Down()
    ensures Descended(a, a, m, n, 0, 0)
  {
  }

  /** The state of a descending loop that has done everything from (r, c) on. */
  ghost predicate Ascended(a: seq<Complex>, was: seq<Complex>, m: Move, n: nat, r: int, c: int) {
    && |a| == |was| >= n * m.pd && |a| >= n * m.ps && m.Up()
    && (forall r', c' :: 0 <= r' < n && 0 <= c' < m.w && !Before(r', c', r, c) ==>
          0 <= m.Dest(r', c') < |a| && 0 <= m.Src(r', c') < |a| && a[m.Dest(r', c')] == was[m.Src(r', c')])
    && (forall k :: 0 <= k < |a| && k < m.Dest(r, c) ==> a[k] == was[k])
  }

  lemma AscendedStep(a: seq<Complex>, a': seq<Complex>, was: seq<Complex>, m: Move, n: nat, r: int, c: int)
    requires Ascended(a, was, m, n, r, c + 1) && 0 <= r < n && 0 <= c < m.w
    requires 0 <= m.Dest(r, c) < |a| && 0 <= m.Src(r, c) < |a|
    requires a' == a[m.Dest(r, c) := a[m.Src(r, c)]]
    ensures Ascended(a', was, m, n, r, c)
  {
    hide Move.Dest, Move.Src;
    MoveOrder(m, r, c);
    DestOrder(m, r, c, r, c + 1);
    forall r', c' | 0 <= r' < n && 0 <= c' < m.w && !Before(r', c', r, c)
      ensures 0 <= m.Dest(r', c') < |a| && 0 <= m.Src(r', c') < |a| && a'[m.Dest(r', c')] == was[m.Src(r', c')]
    {
      if r' != r || c' != c {
        DestOrder(m, r, c, r', c');
      }
    }
  }

  lemma AscendedRow(a: seq<Complex>, was: seq<Complex>, m: Move, n: nat, r: int)
    requires Ascended(a, was, m, n, r + 1, 0)
    ensures Ascended(a, was, m, n, r, m.w)
  {
    hide Move.Src;
    SpotNext(r, m.pd, m.doff, m.w);
    SpotNext(r, m.pd, m.doff, 0);
    assert m.Dest(r, m.w) <= m.Dest(r + 1, 0);
  }

  lemma AscendedStart(a: seq<Complex>, m: Move, n: nat)
    requires |a| >= n * m.pd && |a| >= n * m.ps && m.Up()
    ensures Ascended(a, a, m, n, n, 0)
  {
    SpotNext(n, m.pd, 0, m.doff);
  }

  lemma SpotInjective(r: int, c: int, r': int, c': int, p: nat)
    requires 0 <= c < p && 0 <= c' < p && Spot(r, p, c) == Spot(r', p, c')
    ensures r == r' && c == c'
  {
    DivisionIsUnique(p, r, c, Spot(r, p, c));
    DivisionIsUnique(p, r', c', Spot(r, p, c));
  }

  /** The state of a loop with ascending rows and descending columns, between rows of equal width,
      that has done the rows before r and in row r everything from column c on. */
  ghost predicate RowShifted(a: seq<Complex>, was: seq<Complex>, m: Move, n: nat, r: int, c: int) {
    && |a| == |was| >= n * m.pd && m.Up() && m.ps == m.pd
    && (forall r', c' :: 0 <= r' < n && 0 <= c' < m.w && (r' < r || (r' == r && c <= c')) ==>
          0 <= m.Dest(r', c') < |a| && 0 <= m.Src(r', c') < |a| && a[m.Dest(r', c')] == was[m.Src(r', c')])
    && (forall r', c' :: 0 <= r' < n && 0 <= c' < m.pd && (r' > r || (r' == r && c' < m.doff + c)) ==>
          0 <= Spot(r', m.pd, c') < |a| && a[Spot(r', m.pd, c')] == was[Spot(r', m.pd, c')])
  }

  lemma RowShiftedStep(a: seq<Complex>, a': seq<Complex>, was: seq<Complex>, m: Move, n: nat, r: int, c: int)
    requires RowShifted(a, was, m, n, r, c + 1) && 0 <= r < n && 0 <= c < m.w
    requires 0 <= m.Dest(r, c) < |a| && 0 <= m.Src(r, c) < |a|
    requires a' == a[m.Dest(r, c) := a[m.Src(r, c)]]
    ensures RowShifted(a', was, m, n, r, c)
  {
    hide Spot;
    assert a[m.Src(r, c)] == was[m.Src(r, c)];
    forall r', c' | 0 <= r' < n && 0 <= c' < m.w && (r' < r || (r' == r && c <= c'))
      ensures 0 <= m.Dest(r', c') < |a| && 0 <= m.Src(r', c') < |a| && a'[m.Dest(r', c')] == was[m.Src(r', c')]
    {
      MoveRange(m, r', c', n);
      if m.Dest(r', c') == m.Dest(r, c) {
        SpotInjective(r', m.doff + c', r, m.doff + c, m.pd);
      }
    }
    forall r', c' | 0 <= r' < n && 0 <= c' < m.pd && (r' > r || (r' == r && c' < m.doff + c))
      ensures 0 <= Spot(r', m.pd, c') < |a| && a'[Spot(r', m.pd, c')] == was[Spot(r', m.pd, c')]
    {
      if Spot(r', m.pd, c') == m.Dest(r, c) {
        SpotInjective(r', c', r, m.doff + c, m.pd);
      }
    }
  }

  lemma RowShiftedRow(a: seq<Complex>, was: seq<Complex>, m: Move, n: nat, r: int)
    requires RowShifted(a, was, m, n, r, 0)
    ensures RowShifted(a, was, m, n, r + 1, m.w)
  {
    hide Spot, Move.Dest, Move.Src;
  }

  lemma RowShiftedStart(a: seq<Complex>, m: Move, n: nat)
    requires |a| >= n * m.pd && m.Up() && m.ps == m.pd
    ensures RowShifted(a, a, m, n, 0, m.w)
  {
    hide Spot, Move.Dest, Move.Src;
    forall r', c' | 0 <= r' < n && 0 <= c' < m.pd ensures 0 <= Spot(r', m.pd, c') < |a| {
      SpotInRange(r', m.pd, c', n);
    }
  }

  /** A finished move, seen as columns. */
  lemma MovedColumns(a: seq<Complex>, was: seq<Complex>, m: Move, n: nat)
    requires Descended(a, was, m, n, n, 0) || Ascended(a, was, m, n, 0, 0) || RowShifted(a, was, m, n, n, m.w)
    ensures Columns(a, n, m.pd)[m.doff..m.doff + m.w] == Columns(was, n, m.ps)[m.soff..m.soff + m.w]
  {
    hide Columns;
    assert SameColumns(a, m.pd, m.doff, was, m.ps, m.soff, m.w, n) by {
      hide Spot;
      forall r, k | 0 <= r < n && 0 <= k < m.w
        ensures Shifted(a, n, m.pd, m.doff, r, k) == Shifted(was, n, m.ps, m.soff, r, k)
      {
        assert a[m.Dest(r, k)] == was[m.Src(r, k)];
      }
    }
    SameSlices(a, m.pd, m.doff, was, m.ps, m.soff, m.w, n);
  }

  // ----- copies between two buffers

  /** The state of a loop that copies rows of one buffer to another and has reached (r, c): what
      was visited is copied, everything else is as before. */
  ghost predicate Copied(a: seq<Complex>, was: seq<Complex>, from: seq<Complex>, m: Move, n: nat, r: int, c: int) {
    && |a| == |was| >= n * m.pd && |from| >= n * m.ps && m.Fits()
    && (forall r', c' :: 0 <= r' < n && 0 <= c' < m.w && Before(r', c', r, c) ==>
          0 <= m.Dest(r', c') < |a| && 0 <= m.Src(r', c') < |from| && a[m.Dest(r', c')] == from[m.Src(r', c')])
    && (forall r', c' :: 0 <= r' < n && 0 <= c' < m.pd && !(m.doff <= c' < m.doff + m.w) ==>
          0 <= Spot(r', m.pd, c') < |a| && a[Spot(r', m.pd, c')] == was[Spot(r', m.pd, c')])
  }

  lemma CopiedStart(a: seq<Complex>, from: seq<Complex>, m: Move, n: nat)
    requires |a| >= n * m.pd && |from| >= n * m.ps && m.Fits()
    ensures Copied(a, a, from, m, n, 0, 0)
  {
    hide Spot;
    forall r', c' | 0 <= r' < n && 0 <= c' < m.pd ensures 0 <= Spot(r', m.pd, c') < |a| {
      SpotInRange(r', m.pd, c', n);
    }
  }

  lemma CopiedStep(a: seq<Complex>, a': seq<Complex>, was: seq<Complex>, from: seq<Complex>, m: Move, n: nat, r: int, c: int)
    requires Copied(a, was, from, m, n, r, c) && 0 <= r < n && 0 <= c < m.w
    requires 0 <= m.Dest(r, c) < |a| && 0 <= m.Src(r, c) < |from|
    requires a' == a[m.Dest(r, c) := from[m.Src(r, c)]]
    ensures Copied(a', was, from, m, n, r, c + 1)
  {
    hide Spot;
    forall r', c' | 0 <= r' < n && 0 <= c' < m.w && Before(r', c', r, c + 1)
      ensures 0 <= m.Dest(r', c') < |a| && 0 <= m.Src(r', c') < |from| && a'[m.Dest(r', c')] == from[m.Src(r', c')]
    {
      if Before(r', c', r, c) {
        DestOrder(m, r', c', r, c);
      }
    }
    forall r', c' | 0 <= r' < n && 0 <= c' < m.pd && !(m.doff <= c' < m.doff + m.w)
      ensures 0 <= Spot(r', m.pd, c') < |a| && a'[Spot(r', m.pd, c')] == was[Spot(r', m.pd, c')]
    {
      SpotDistinct(r', c', r, m.doff + c, m.pd);
    }
  }

  lemma SpotDistinct(r: int, c: int, r': int, c': int, p: nat)
    requires 0 <= c < p && 0 <= c' < p && c != c'
    ensures Spot(r, p, c) != Spot(r', p, c')
  {
    SpotNext(r, p, 0, c);
    SpotNext(r', p, 0, c');
    if r < r' {
      SpotRows(r, r', p, 0);
    } else if r' < r {
      SpotRows(r', r, p, 0);
    }
  }

  lemma CopiedSame(a: seq<Complex>, was: seq<Complex>, from: seq<Complex>, m: Move, n: nat)
    requires Copied(a, was, from, m, n, n, 0)
    ensures SameColumns(a, m.pd, m.doff, from, m.ps, m.soff, m.w, n)
    ensures SameColumns(a, m.pd, 0, was, m.pd, 0, m.doff, n)
    ensures SameColumns(a, m.pd, m.doff + m.w, was, m.pd, m.doff + m.w, m.pd - m.doff - m.w, n)
  {
    hide Spot;
    forall r, k | 0 <= r < n && 0 <= k < m.w
      ensures Shifted(a, n, m.pd, m.doff, r, k) == Shifted(from, n, m.ps, m.soff, r, k)
    {
      assert a[m.Dest(r, k)] == from[m.Src(r, k)];
    }
  }

  lemma CopiedColumns(a: seq<Complex>, was: seq<Complex>, from: seq<Complex>, m: Move, n: nat)
    requires Copied(a, was, from, m, n, n, 0)
    ensures Columns(a, n, m.pd) == Columns(was, n, m.pd)[..m.doff] + Columns(from, n, m.ps)[m.soff..m.soff + m.w]
                                 + Columns(was, n, m.pd)[m.doff + m.w..]
  {
    CopiedSame(a, was, from, m, n);
    hide *;
    var cols, before := Columns(a, n, m.pd), Columns(was, n, m.pd);
    SameSlices(a, m.pd, m.doff, from, m.ps, m.soff, m.w, n);
    SameSlices(a, m.pd, 0, was, m.pd, 0, m.doff, n);
    var e := m.doff + m.w;
    SameSlices(a, m.pd, e, was, m.pd, e, m.pd - e, n);
    assert cols == cols[0..m.doff] + cols[m.doff..e] + cols[e..e + (m.pd - e)];
    assert before[e..e + (m.pd - e)] == before[e..];
  }

  // ----- the matrices

  lemma RowsFit(n: nat, p: nat, q: nat)
    requires p <= q
    ensures n * p <= n * q
  {
  }

  /** A matrix of eigenvectors; assigning one structure to another shares the data. */
  class EvectMatrix {
    const data: array<Complex>
    const n: nat
    const allocP: nat
    var p: nat

    ghost predicate Valid()
      reads this
    {
      p <= allocP && data.Length >= n * allocP && data.Length >= n * p
    }

    ghost function Cols(): (cols: seq<Column>)
      requires Valid()
      reads this, data
      ensures |cols| == p && forall c :: 0 <= c < p ==> |cols[c]| == n
    {
      Columns(data[..], n, p)
    }

    constructor (data: array<Complex>, n: nat, allocP: nat)
      requires data.Length >= n * allocP
      ensures Valid() && this.data == data && this.n == n && this.allocP == allocP && p == allocP
    {
      this.data, this.n, this.allocP, p := data, n, allocP, allocP;
    }

    /** The left shift: column ip + k moves to column ip. */
    method ShiftLeft(k: nat)
      requires Valid() && k <= p
      modifies data
      ensures Valid() && Cols()[..p - k] == old(Cols())[k..]
    {
      hide Descended, Columns, Move.Dest, Move.Src;
      ghost var was, m := data[..], Move(p, 0, p, k, p - k);
      DescendedStart(was, m, n);
      for i := 0 to n
        invariant Descended(data[..], was, m, n, i, 0)
      {
        for j := 0 to p - k
          invariant Descended(data[..], was, m, n, i, j)
        {
          MoveSpots(m, i, j, n);
          ghost var a := data[..];
          data[i * p + j] := data[i * p + j + k];
          DescendedStep(a, data[..], was, m, n, i, j);
        }
        DescendedRow(data[..], was, m, n, i);
      }
      MovedColumns(data[..], was, m, n);
      assert Cols()[..p - k] == Columns(data[..], n, p)[0..0 + (p - k)];
      assert Columns(was, n, p)[k..k + (p - k)] == old(Cols())[k..];
    }

    /** The right shift: column ip moves to column ip + k, last column first. */
    method ShiftRight(k: nat)
      requires Valid() && k <= p
      modifies data
      ensures Valid() && Cols()[k..] == old(Cols())[..p - k]
    {
      hide RowShifted, Columns, Move.Dest, Move.Src;
      ghost var was, m := data[..], Move(p, k, p, 0, p - k);
      RowShiftedStart(was, m, n);
      for i := 0 to n
        invariant RowShifted(data[..], was, m, n, i, p - k)
      {
        for j := p - k downto 0
          invariant RowShifted(data[..], was, m, n, i, j)
        {
          MoveSpots(m, i, j, n);
          ghost var a := data[..];
          data[i * p + j + k] := data[i * p + j];
          RowShiftedStep(a, data[..], was, m, n, i, j);
        }
        RowShiftedRow(data[..], was, m, n, i);
      }
      MovedColumns(data[..], was, m, n);
      assert Cols()[k..] == Columns(data[..], n, p)[k..k + (p - k)];
      assert Columns(was, n, p)[0..0 + (p - k)] == old(Cols())[..p - k];
    }

    /** evectmatrix_resize: rows of q numbers from now on, keeping the columns on demand. */
    method Resize(q: nat, preserve: bool)
      requires Valid() && q <= allocP
      modifies this`p, data
      ensures Valid() && p == q
      ensures !preserve ==> data[..] == old(data[..])
      ensures preserve ==> var w := if q < old(p) then q else old(p); Cols()[..w] == old(Cols())[..w]
    {
      RowsFit(n, q, allocP);
      if preserve {
        if q < p {
          Shrink(q);
        } else {
          Grow(q);
        }
      }
      p := q;
    }

    method Shrink(q: nat)
      requires Valid() && q <= p && data.Length >= n * q
      modifies data
      ensures Valid() && Columns(data[..], n, q) == old(Cols())[..q]
    {
      hide Descended, Columns, Move.Dest, Move.Src;
      ghost var was, m := data[..], Move(q, 0, p, 0, q);
      DescendedStart(was, m, n);
      for i := 0 to n
        invariant Descended(data[..], was, m, n, i, 0)
      {
        for j := 0 to q
          invariant Descended(data[..], was, m, n, i, j)
        {
          MoveSpots(m, i, j, n);
          ghost var a := data[..];
          data[i * q + j] := data[i * p + j];
          DescendedStep(a, data[..], was, m, n, i, j);
        }
        DescendedRow(data[..], was, m, n, i);
      }
      MovedColumns(data[..], was, m, n);
      assert Columns(data[..], n, q) == Columns(data[..], n, q)[0..0 + q];
      assert Columns(was, n, p)[0..0 + q] == old(Cols())[..q];
    }

    method Grow(q: nat)
      requires Valid() && p <= q && data.Length >= n * q
      modifies data
      ensures Valid() && Columns(data[..], n, q)[..p] == old(Cols())
    {
      hide Ascended, Columns, Move.Dest, Move.Src;
      ghost var was, m := data[..], Move(q, 0, p, 0, p);
      AscendedStart(was, m, n);
      for i := n downto 0
        invariant Ascended(data[..], was, m, n, i, 0)
      {
        AscendedRow(data[..], was, m, n, i);
        for j := p downto 0
          invariant Ascended(data[..], was, m, n, i, j)
        {
          MoveSpots(m, i, j, n);
          ghost var a := data[..];
          data[i * q + j] := data[i * p + j];
          AscendedStep(a, data[..], was, m, n, i, j);
        }
      }
      MovedColumns(data[..], was, m, n);
      assert Columns(data[..], n, q)[..p] == Columns(data[..], n, q)[0..0 + p];
      assert Columns(was, n, p)[0..0 + p] == old(Cols());
    }

    /** Columns off, off + 1, ... of h become the columns of this matrix. */
    method LoadBlock(h: EvectMatrix, off: nat)
      requires Valid() && h.Valid() && data != h.data && n == h.n && off + p <= h.p
      modifies data
      ensures Valid() && Cols() == h.Cols()[off..off + p]
    {
      hide Copied, Columns, Move.Dest, Move.Src;
      ghost var was, m := data[..], Move(p, 0, h.p, off, p);
      CopiedStart(was, h.data[..], m, n);
      for i := 0 to n
        invariant Copied(data[..], was, h.data[..], m, n, i, 0)
      {
        for j := 0 to p
          invariant Copied(data[..], was, h.data[..], m, n, i, j)
        {
          MoveSpots(m, i, j, n);
          ghost var a := data[..];
          data[i * p + j] := h.data[i * h.p + j + off];
          CopiedStep(a, data[..], was, h.data[..], m, n, i, j);
        }
        CopiedRow(data[..], was, h.data[..], m, n, i);
      }
      CopiedColumns(data[..], was, h.data[..], m, n);
    }

    /** The columns of this matrix become columns off, off + 1, ... of h. */
    method SaveBlock(h: EvectMatrix, off: nat)
      requires Valid() && h.Valid() && data != h.data && n == h.n && off + p <= h.p
      modifies h.data
      ensures Valid() && h.Valid()
      ensures h.Cols() == old(h.Cols())[..off] + Cols() + old(h.Cols())[off + p..]
    {
      hide Copied, Columns, Move.Dest, Move.Src;
      ghost var was, m := h.data[..], Move(h.p, off, p, 0, p);
      CopiedStart(was, data[..], m, n);
      for i := 0 to n
        invariant Copied(h.data[..], was, data[..], m, n, i, 0)
      {
        for j := 0 to p
          invariant Copied(h.data[..], was, data[..], m, n, i, j)
        {
          MoveSpots(m, i, j, n);
          ghost var a := h.data[..];
          h.data[i * h.p + j + off] := data[i * p + j];
          CopiedStep(a, h.data[..], was, data[..], m, n, i, j);
        }
        CopiedRow(h.data[..], was, data[..], m, n, i);
      }
      CopiedColumns(h.data[..], was, data[..], m, n);
      assert Columns(data[..], n, p)[0..0 + p] == Cols();
    }

    /** The first k columns are overwritten by those of the buffer `from`. */
    method Store(from: seq<Complex>, k: nat)
      requires Valid() && k <= p && |from| == n * k
      modifies data
      ensures Valid() && Cols() == Columns(from, n, k) + old(Cols())[k..]
    {
      hide Copied, Columns, Move.Dest, Move.Src;
      ghost var was, m := data[..], Move(p, 0, k, 0, k);
      CopiedStart(was, from, m, n);
      for i := 0 to n
        invariant Copied(data[..], was, from, m, n, i, 0)
      {
        for j := 0 to k
          invariant Copied(data[..], was, from, m, n, i, j)
        {
          MoveSpots(m, i, j, n);
          ghost var a := data[..];
          data[i * p + j] := from[i * k + j];
          CopiedStep(a, data[..], was, from, m, n, i, j);
        }
        CopiedRow(data[..], was, from, m, n, i);
      }
      CopiedColumns(data[..], was, from, m, n);
      assert Columns(from, n, k)[0..0 + k] == Columns(from, n, k);
    }
  }

  lemma CopiedRow(a: seq<Complex>, was: seq<Complex>, from: seq<Complex>, m: Move, n: nat, r: int)
    requires Copied(a, was, from, m, n, r, m.w)
    ensures Copied(a, was, from, m, n, r + 1, 0)
  {
    hide Spot;
  }

  lemma MoveSpots(m: Move, r: int, c: int, n: int)
    requires m.Fits() && 0 <= r < n && 0 <= c < m.w
    ensures 0 <= r * m.pd + m.doff + c == m.Dest(r, c) < n * m.pd
    ensures 0 <= r * m.ps + m.soff + c == m.Src(r, c) < n * m.ps
  {
    MoveRange(m, r, c, n);
  }
}
