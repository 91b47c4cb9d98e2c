/** Solving for bands block by block (libpympb/pympb.cpp:749-758, 1085-1214): the block size, the
    block loop, and the columns of H that are shifted in place at k = 0. The eigensolver is a
    parameter: any function of the bands already found and the starting vectors. */
module BandBlocks {
  import opened Options
  import opened Complexes
  import opened EvectMatrices

  // ----- the block size

  /** ceil(n / s), as the code writes it. */
  function CeilDiv(n: nat, s: nat): nat
    requires s >= 1
  {
    (n + s - 1) / s
  }

  lemma CeilDivIs(n: nat, s: nat, q: int)
    requires s >= 1
    ensures CeilDiv(n, s) <= q <==> n <= q * s
  {
    var c := CeilDiv(n, s);
    assert c * s <= n + s - 1 < c * s + s;
    if c <= q {
      assert c * s <= q * s;
    } else {
      assert (q + 1) * s <= c * s;
    }
  }

  /** block_size in init; None when the code divides by zero. */
  function BlockSize(numBands: nat, requested: int): Option<nat> {
    if requested != 0 && requested < numBands then
      if requested < 0 then
        var q := CeilDiv(numBands, -requested);
        if q == 0 then None else Some(CeilDiv(numBands, q))
      else Some(requested)
    else Some(numBands)
  }

  /** The block size is defined and between 1 and the number of bands, except that there is no
      block size for zero bands: a negative request then divides by zero. */
  lemma BlockSizeFits(numBands: nat, requested: int)
    ensures BlockSize(numBands, requested).None? <==> numBands == 0 && requested < 0
    ensures numBands >= 1 ==> 1 <= BlockSize(numBands, requested).value <= numBands
  {
    hide CeilDiv;
    if requested < 0 && requested < numBands {
      CeilDivSign(numBands, -requested);
      if numBands >= 1 {
        CeilDivSign(numBands, CeilDiv(numBands, -requested));
      }
    }
  }

  /** A positive request is met as far as there are bands; no request is all of them. */
  lemma PositiveRequest(n: nat, requested: nat, s: nat)
    ensures BlockSize(n, 0) == Some(n)
    ensures requested > 0 ==> BlockSize(n, requested).Some?
    ensures requested > 0 ==> (s <= BlockSize(n, requested).value <==> s <= n && s <= requested)
  {
  }

  lemma CeilDivSign(n: nat, s: nat)
    requires s >= 1
    ensures CeilDiv(n, s) <= n && (CeilDiv(n, s) == 0 <==> n == 0)
  {
    hide CeilDiv;
    CeilDivIs(n, s, 0);
    CeilDivIs(n, s, n);
    assert 0 * s == 0;
    assert n * s >= n;
  }

  /** For a request of -B: the smallest size that needs no more than ceil(n/B) blocks, and it needs
      exactly that many. */
  lemma GuessedBlockSize(n: nat, B: nat, s: nat)
    requires n >= 1 && B >= 1 && s >= 1
    ensures BlockSize(n, -(B as int)).Some?
    ensures var size := BlockSize(n, -(B as int)).value;
            && size >= 1 && CeilDiv(n, size) == CeilDiv(n, B)
            && (CeilDiv(n, s) <= CeilDiv(n, B) <==> size <= s)
  {
    hide CeilDiv;
    BlockSizeFits(n, -(B as int));
    var q := CeilDiv(n, B);
    var size := CeilDiv(n, q);
    CeilDivSign(n, B);
    SmallestSize(n, q, s);
    SmallestSize(n, q, size);
    SmallestSize(n, q, B);
    CeilDivAntitone(n, size, B);
  }

  lemma SmallestSize(n: nat, q: nat, s: nat)
    requires q >= 1 && s >= 1
    ensures CeilDiv(n, s) <= q <==> CeilDiv(n, q) <= s
  {
    CeilDivIs(n, s, q);
    CeilDivIs(n, q, s);
    assert q * s == s * q;
  }

  lemma CeilDivAntitone(n: nat, s: nat, t: nat)
    requires 1 <= s <= t
    ensures CeilDiv(n, t) <= CeilDiv(n, s)
  {
    hide CeilDiv;
    var q := CeilDiv(n, s);
    CeilDivIs(n, s, q);
    CeilDivIs(n, t, q);
    assert q * s <= q * t;
  }

  // ----- what the block loop computes

  /** The answer of one eigensolver call: the rows of its columns, and its eigenvalues. */
  datatype Answer = Answer(rows: seq<Complex>, values: seq<real>)

  type Solver = (seq<Column>, seq<Column>) -> Answer

  /** An answer has as many columns and values as the starting vectors. */
  ghost predicate WellShaped(solver: Solver, n: nat) {
    forall found, start :: |solver(found, start).rows| == n * |start| && |solver(found, start).values| == |start|
  }

  datatype Bands = Bands(cols: seq<Column>, values: seq<real>)

  /** Number of bands in the block that starts after `done` of `total` bands. */
  function BlockLength(total: nat, done: nat, size: nat): nat
    requires done < total && size >= 1
  {
    if done + size > total then total - done else size
  }

  function Found(a: Answer, n: nat, q: nat): seq<Column>
    requires |a.rows| == n * q
  {
    Columns(a.rows, n, q)
  }

  /** One block: it starts from the columns in its place and is solved with the bands before it. */
  ghost function NextBlock(solver: Solver, n: nat, size: nat, b: Bands): Bands
    requires WellShaped(solver, n) && size >= 1 && |b.values| < |b.cols|
  {
    var done := |b.values|;
    var q := BlockLength(|b.cols|, done, size);
    var a := solver(b.cols[..done], b.cols[done..done + q]);
    Bands(b.cols[..done] + Found(a, n, q) + b.cols[done + q..], b.values + a.values)
  }

  lemma NextBlockParts(solver: Solver, n: nat, size: nat, b: Bands)
    requires WellShaped(solver, n) && size >= 1 && |b.values| < |b.cols|
    ensures var done, c := |b.values|, NextBlock(solver, n, size, b);
            var q := BlockLength(|b.cols|, done, size);
            var a := solver(b.cols[..done], b.cols[done..done + q]);
            && |c.cols| == |b.cols| && |c.values| == done + q
            && c.cols[..done] == b.cols[..done] && c.cols[done..done + q] == Found(a, n, q) && c.cols[done + q..] == b.cols[done + q..]
            && c.values[..done] == b.values && c.values[done..] == a.values
  {
    hide Columns;
  }

  ghost function SolveBlocks(solver: Solver, n: nat, size: nat, b: Bands): Bands
    requires WellShaped(solver, n) && size >= 1 && |b.values| <= |b.cols|
    decreases |b.cols| - |b.values|
  {
    if |b.values| == |b.cols| then b
    else
      NextBlockParts(solver, n, size, b);
      SolveBlocks(solver, n, size, NextBlock(solver, n, size, b))
  }

  /** Bands that are found stay as they are; the others are found exactly once. */
  lemma {:induction false} SolvedShape(solver: Solver, n: nat, size: nat, b: Bands)
    requires WellShaped(solver, n) && size >= 1 && |b.values| <= |b.cols|
    ensures var r := SolveBlocks(solver, n, size, b);
            && |r.cols| == |r.values| == |b.cols|
            && r.cols[..|b.values|] == b.cols[..|b.values|] && r.values[..|b.values|] == b.values
    decreases |b.cols| - |b.values|
  {
    hide NextBlock, WellShaped, Found;
    var done := |b.values|;
    if done < |b.cols| {
      NextBlockParts(solver, n, size, b);
      var c := NextBlock(solver, n, size, b);
      SolvedShape(solver, n, size, c);
      var r := SolveBlocks(solver, n, size, c);
      Prefixes(r.cols, c.cols, |c.values|, done);
      Prefixes(r.values, c.values, |c.values|, done);
    }
  }

  lemma Prefixes<T>(s: seq<T>, t: seq<T>, k: nat, j: nat)
    requires j <= k <= |s| && k <= |t| && s[..k] == t[..k]
    ensures s[..j] == t[..j] && s[j..k] == t[j..k]
  {
    assert s[..j] == s[..k][..j] && t[..j] == t[..k][..j];
    assert s[j..k] == s[..k][j..] && t[j..k] == t[..k][j..];
  }

  lemma Suffixes<T>(s: seq<T>, t: seq<T>, k: nat, j: nat)
    requires k <= j <= |s| == |t| && s[k..] == t[k..]
    ensures s[j..] == t[j..] && s[k..j] == t[k..j]
  {
    assert s[j..] == s[k..][j - k..] && t[j..] == t[k..][j - k..];
    assert s[k..j] == s[k..][..j - k] && t[k..j] == t[k..][..j - k];
  }

  /** The finished state, block by block: the columns [done, done + q) of the block that starts at
      `done` are the eigensolver's answer, given the finished bands before the block and the
      initial columns in the block's place. */
  ghost predicate BlockSolved(solver: Solver, n: nat, size: nat, start: seq<Column>, r: Bands, done: nat)
    requires WellShaped(solver, n) && size >= 1 && |r.cols| == |r.values| == |start| && done < |start|
  {
    var q := BlockLength(|start|, done, size);
    var a := solver(r.cols[..done], start[done..done + q]);
    r.cols[done..done + q] == Found(a, n, q) && r.values[done..done + q] == a.values
  }

  lemma FirstBlockSolved(solver: Solver, n: nat, size: nat, b: Bands, start: seq<Column>)
    requires WellShaped(solver, n) && size >= 1 && |b.values| < |b.cols| == |start|
    requires b.cols[|b.values|..] == start[|b.values|..]
    ensures var r := SolveBlocks(solver, n, size, b);
            |r.cols| == |r.values| == |start| && BlockSolved(solver, n, size, start, r, |b.values|)
  {
    hide Found, NextBlock, WellShaped;
    SolvedShape(solver, n, size, b);
    NextBlockParts(solver, n, size, b);
    var d := |b.values|;
    var q := BlockLength(|start|, d, size);
    Suffixes(b.cols, start, d, d + q);
    var c, r := NextBlock(solver, n, size, b), SolveBlocks(solver, n, size, b);
    SolvedShape(solver, n, size, c);
    Prefixes(r.cols, c.cols, d + q, d);
    Prefixes(r.values, c.values, d + q, d);
  }

  /** Start of block j. */
  function BlockStart(j: nat, size: nat): nat { j * size }

  lemma BlockStarts(j: nat, size: nat)
    ensures j >= 1 ==> BlockStart(j, size) == BlockStart(j - 1, size) + size
    ensures j == 0 ==> BlockStart(j, size) == 0
  {
  }

  lemma {:induction false} EveryBlockSolved(solver: Solver, n: nat, size: nat, b: Bands, start: seq<Column>, j: nat)
    requires WellShaped(solver, n) && size >= 1 && |b.values| <= |b.cols| == |start|
    requires b.cols[|b.values|..] == start[|b.values|..]
    requires |b.values| + BlockStart(j, size) < |start|
    ensures var r := SolveBlocks(solver, n, size, b);
            |r.cols| == |r.values| == |start| && BlockSolved(solver, n, size, start, r, |b.values| + BlockStart(j, size))
    decreases j
  {
    hide Found, NextBlock, WellShaped, BlockStart, BlockSolved;
    BlockStarts(j, size);
    if j == 0 {
      FirstBlockSolved(solver, n, size, b, start);
    } else {
      NextBlockParts(solver, n, size, b);
      Suffixes(b.cols, start, |b.values|, |b.values| + size);
      EveryBlockSolved(solver, n, size, NextBlock(solver, n, size, b), start, j - 1);
    }
  }

  /** The block that band lies in. */
  function BlockOf(band: nat, size: nat): nat
    requires size >= 1
  {
    band / size
  }

  lemma BlockOfIs(band: nat, size: nat)
    requires size >= 1
    ensures BlockStart(BlockOf(band, size), size) <= band < BlockStart(BlockOf(band, size), size) + size
  {
  }

  lemma StartOrder(j: nat, k: nat, size: nat)
    ensures j < k ==> BlockStart(j, size) + size <= BlockStart(k, size)
  {
    if j < k {
      assert (j + 1) * size <= k * size;
    }
  }

  /** Every band lies in exactly one block, and no block runs past the last band. */
  lemma BlocksTile(total: nat, size: nat, band: nat, j: nat)
    requires size >= 1 && band < total && BlockStart(j, size) < total
    ensures BlockStart(j, size) <= band < BlockStart(j, size) + BlockLength(total, BlockStart(j, size), size)
            <==> j == BlockOf(band, size)
    ensures BlockStart(j, size) + BlockLength(total, BlockStart(j, size), size) <= total
  {
    hide BlockStart, BlockOf;
    BlockOfIs(band, size);
    StartOrder(j, BlockOf(band, size), size);
    StartOrder(BlockOf(band, size), j, size);
  }

  /** Number of blocks: j is a block exactly if j < ceil(total / size). */
  lemma BlockCount(total: nat, size: nat, j: nat)
    requires size >= 1
    ensures BlockStart(j, size) < total <==> j < CeilDiv(total, size)
  {
    CeilDivIs(total, size, j);
  }

  /** Band i of the whole run: the answer of the one block that holds it, at the band's place in
      that block. */
  lemma EachBandOnce(solver: Solver, n: nat, size: nat, start: seq<Column>, i: nat)
    requires WellShaped(solver, n) && size >= 1 && i < |start|
    ensures var r := SolveBlocks(solver, n, size, Bands(start, []));
            var s := BlockStart(BlockOf(i, size), size);
            && |r.cols| == |r.values| == |start| && s <= i
            && var q := BlockLength(|start|, s, size);
            && i < s + q <= |start|
            && var a := solver(r.cols[..s], start[s..s + q]);
            r.cols[i] == Found(a, n, q)[i - s] && r.values[i] == a.values[i - s]
  {
    hide BlockStart, BlockOf, Found, NextBlock, SolveBlocks;
    var j := BlockOf(i, size);
    BlockOfIs(i, size);
    BlocksTile(|start|, size, i, j);
    EveryBlockSolved(solver, n, size, Bands(start, []), start, j);
    var r, s := SolveBlocks(solver, n, size, Bands(start, [])), BlockStart(j, size);
    var q := BlockLength(|start|, s, size);
    assert r.cols[i] == r.cols[s..s + q][i - s];
    assert r.values[i] == r.values[s..s + q][i - s];
  }

  // ----- the solver

  function Zeros(k: nat): (z: seq<real>)
    ensures |z| == k
  {
    seq(k, i => 0.0)
  }

  class ModeSolver {
    const numBands: nat
    /** All bands, and the matrix that one block is solved in; the same memory if there is one block. */
    const H: EvectMatrix
    const Hblock: EvectMatrix
    /** mdata->num_bands, and the widths of the work matrices W. */
    var workBands: nat
    var workP: seq<nat>

    ghost predicate Valid()
      reads this, H, Hblock
    {
      && H.Valid() && Hblock.Valid() && H != Hblock && H.n == Hblock.n
      && H.allocP == numBands && 1 <= Hblock.allocP <= numBands
      && (H.data == Hblock.data <==> Hblock.allocP == numBands)
    }

    /** Between calls all widths are the allocated ones. */
    ghost predicate Restored()
      reads this, H, Hblock
    {
      && H.p == H.allocP && Hblock.p == workBands == Hblock.allocP
      && forall w :: w in workP ==> w == Hblock.allocP
    }

    constructor (numBands: nat, n: nat, blockSize: nat, works: nat)
      requires 1 <= blockSize <= numBands
      ensures Valid() && Restored() && Hblock.allocP == blockSize && H.n == n && this.numBands == numBands && |workP| == works
    {
      this.numBands := numBands;
      var data := new Complex[n * numBands];
      var H := new EvectMatrix(data, n, numBands);
      var blockData := data;
      if blockSize < numBands {
        blockData := new Complex[n * blockSize];
      }
      var Hblock := new EvectMatrix(blockData, n, blockSize);
      this.H, this.Hblock := H, Hblock;
      workBands, workP := blockSize, seq(works, i => blockSize);
    }

    method SetWidths(q: nat)
      requires Valid() && q <= Hblock.allocP
      modifies this, Hblock`p
      ensures Valid() && Hblock.p == workBands == q && |workP| == old(|workP|)
      ensures forall w :: w in workP ==> w == q
    {
      workBands := q;
      for i := 0 to |workP|
        invariant |workP| == old(|workP|) && workBands == q && Hblock.p == old(Hblock.p)
        invariant forall k :: 0 <= k < i ==> workP[k] == q
      {
        workP := workP[i := q];
      }
      RowsFit(Hblock.n, q, Hblock.allocP);
      Hblock.p := q;
    }

    /** Fields of the block from H, and the bands before it that it is kept orthogonal to. */
    method StartBlock(done: nat) returns (found: seq<Column>)
      requires Valid() && done + Hblock.p <= H.p && (H.data == Hblock.data ==> done == 0 && Hblock.p == H.p)
      modifies Hblock.data
      ensures Valid() && H.Cols() == old(H.Cols())
      ensures found == H.Cols()[..done] && Hblock.Cols() == H.Cols()[done..done + Hblock.p]
    {
      hide Columns;
      found := [];
      if Hblock.data != H.data {
        Hblock.LoadBlock(H, done);
        found := Columns(H.data[..], H.n, H.p)[..done];
      }
    }

    /** The answer in the block, and from there in H. */
    method FinishBlock(rows: seq<Complex>, done: nat)
      requires Valid() && done + Hblock.p <= H.p && (H.data == Hblock.data ==> done == 0 && Hblock.p == H.p)
      requires |rows| == H.n * Hblock.p
      modifies H.data, Hblock.data
      ensures Valid()
      ensures H.Cols() == old(H.Cols())[..done] + Columns(rows, H.n, Hblock.p) + old(H.Cols())[done + Hblock.p..]
    {
      hide Columns;
      Hblock.Store(rows, Hblock.p);
      if Hblock.data != H.data {
        Hblock.SaveBlock(H, done);
      }
    }

    /** One pass of the block loop: bands [done, done + q) of H. */
    method SolveBlock(solver: Solver, done: nat, ghost b: Bands) returns (values: seq<real>)
      requires Valid() && WellShaped(solver, H.n) && done < H.p <= numBands
      requires done + Hblock.p <= H.p && Hblock.p == BlockLength(H.p, done, Hblock.allocP)
      requires H.data == Hblock.data ==> done == 0 && Hblock.p == H.p
      requires b.cols == H.Cols() && |b.values| == done
      modifies H.data, Hblock.data
      ensures Valid()
      ensures Bands(H.Cols(), b.values + values) == NextBlock(solver, H.n, Hblock.allocP, b)
    {
      hide Columns, BlockLength, WellShaped, NextBlock;
      var found := StartBlock(done);
      var a := solver(found, Columns(Hblock.data[..], Hblock.n, Hblock.p));
      AnswerShape(solver, H.n, found, Hblock.Cols());
      FinishBlock(a.rows, done);
      values := a.values;
      NextBlockIs(solver, H.n, Hblock.allocP, b, Hblock.p, a, H.Cols());
    }

    /** The part of solve_kpoint that moves and solves bands. At k = 0 without a target frequency
        the first `constants` bands are not solved for: their columns are shifted out of H and put
        back at the end. */
    method SolveKpoint(solver: Solver, zeroK: bool, targeted: bool, constants: nat, constRows: seq<Complex>)
      returns (eigvals: seq<real>)
      requires Valid() && Restored() && WellShaped(solver, H.n)
      requires constants <= numBands && |constRows| == H.n * constants
      modifies this, H, H.data, Hblock, Hblock.data
      ensures Valid() && Restored()
      ensures var k := if zeroK && !targeted then constants else 0;
              var r := SolveBlocks(solver, H.n, Hblock.allocP, Bands(old(H.Cols())[k..], []));
              && H.Cols() == Columns(constRows, H.n, constants)[..k] + r.cols && eigvals == Zeros(k) + r.values
              && forall i :: 0 <= i < k ==> eigvals[i] == 0.0
    {
      hide Columns, WellShaped, NextBlock, SolveBlocks;
      var ib0 := 0;
      ghost var all := H.Cols();
      if zeroK && !targeted {
        ib0 := constants;
        RemoveConstants(ib0);
      }
      assert H.Cols() == all[ib0..];
      eigvals := SolveRest(solver, ib0, H.Cols());
      if zeroK && !targeted {
        PutConstants(constants, constRows);
      }
      eigvals := Zeros(ib0) + eigvals;
      SetWidths(Hblock.allocP);
    }

    /** The block loop over bands ib0, ..., numBands - 1, which are the columns of H. */
    method SolveRest(solver: Solver, ib0: nat, ghost start: seq<Column>) returns (eigvals: seq<real>)
      requires Valid() && WellShaped(solver, H.n) && ib0 <= numBands && H.p == numBands - ib0
      requires Hblock.p == workBands == Hblock.allocP && start == H.Cols()
      modifies this, H.data, Hblock, Hblock.data
      ensures Valid() && |workP| == old(|workP|)
      ensures Bands(H.Cols(), eigvals) == SolveBlocks(solver, H.n, Hblock.allocP, Bands(start, []))
    {
      hide Columns, WellShaped, NextBlock;
      ghost var r := SolveBlocks(solver, H.n, Hblock.allocP, Bands(start, []));
      eigvals := [];
      var ib := ib0;
      while ib < numBands
        invariant Valid() && ib0 <= ib && |workP| == old(|workP|)
        invariant ib < numBands ==> Hblock.p == workBands == Hblock.allocP && (H.data == Hblock.data ==> ib == ib0)
        invariant |eigvals| == if ib < numBands then ib - ib0 else H.p
        invariant SolveBlocks(solver, H.n, Hblock.allocP, Bands(H.Cols(), eigvals)) == r
        decreases numBands - ib
      {
        if ib + workBands > numBands {
          SetWidths(numBands - ib);
        }
        ghost var b := Bands(H.Cols(), eigvals);
        NextBlockParts(solver, H.n, Hblock.allocP, b);
        var values := SolveBlock(solver, ib - ib0, b);
        eigvals := eigvals + values;
        ib := ib + Hblock.allocP;
      }
    }

    method RemoveConstants(k: nat)
      requires Valid() && k <= H.p
      modifies H, H.data
      ensures Valid() && H.p == old(H.p) - k && H.Cols() == old(H.Cols())[k..]
    {
      hide Columns;
      H.ShiftLeft(k);
      ghost var shifted := H.Cols();
      H.Resize(H.p - k, true);
      assert H.Cols() == H.Cols()[..H.p] == shifted[..H.p];
    }

    method PutConstants(k: nat, constRows: seq<Complex>)
      requires Valid() && k <= numBands && H.p == numBands - k && |constRows| == H.n * k
      modifies H`p, H.data
      ensures Valid() && H.p == numBands && Hblock.p == old(Hblock.p)
      ensures H.Cols() == Columns(constRows, H.n, k)[..k] + old(H.Cols())
    {
      hide Columns;
      H.Resize(H.allocP, true);
      assert H.Cols()[..H.p - k] == old(H.Cols());
      H.ShiftRight(k);
      H.Store(constRows, k);
    }
  }

  lemma NextBlockIs(solver: Solver, n: nat, size: nat, b: Bands, q: nat, a: Answer, cols: seq<Column>)
    requires WellShaped(solver, n) && size >= 1 && |b.values| < |b.cols| && q == BlockLength(|b.cols|, |b.values|, size)
    requires a == solver(b.cols[..|b.values|], b.cols[|b.values|..|b.values| + q])
    requires |a.rows| == n * q
    requires cols == b.cols[..|b.values|] + Columns(a.rows, n, q) + b.cols[|b.values| + q..]
    ensures Bands(cols, b.values + a.values) == NextBlock(solver, n, size, b)
  {
    hide Columns;
  }

  lemma AnswerShape(solver: Solver, n: nat, found: seq<Column>, start: seq<Column>)
    requires WellShaped(solver, n)
    ensures |solver(found, start).rows| == n * |start| && |solver(found, start).values| == |start|
  {
  }
}
