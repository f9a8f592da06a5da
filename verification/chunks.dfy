/** Move-ins along a four-dimensional layout, cell by cell. */
module Chunks {
  import opened Params
  import opened Dram
  import opened Grid
  import opened State
  import opened Patches
  import opened Layouts
  import opened Machine
  import Wrap

  ghost predicate InRegion(l: Layout, R: int) {
    l.start <= R < l.start + l.Rows()
  }

  /** A chunk has been moved into the scratchpad: its cells are loaded, nothing else changed. */
  ghost predicate ChunkIn(s: Spad, s': Spad, l: Layout, g: Patch, a: int, b: int, c: int, d: int,
                          mem: Memory, ls: LoadState, addr: int)
  {
    && (forall a', b', c', d', C :: l.In(a', b', c', d') && 0 <= C < DIM ==>
          At(s', l.Row(a', b', c', d'), C) ==
          if ChunkCell(g, a, b, c, d, a', b', c', d', C) then SpadIn(mem, ls, addr, d' - d, (a' - a) * DIM + C)
          else At(s, l.Row(a', b', c', d'), C))
    && (forall R, C :: !InRegion(l, R) ==> At(s', R, C) == At(s, R, C))
  }

  ghost predicate AccChunkIn(m: AccMem, m': AccMem, l: Layout, g: Patch, a: int, b: int, c: int, d: int,
                             mem: Memory, ls: LoadState, addr: int)
  {
    && (forall a', b', c', d', C :: l.In(a', b', c', d') && 0 <= C < DIM ==>
          At(m', l.Row(a', b', c', d'), C) ==
          if ChunkCell(g, a, b, c, d, a', b', c', d', C) then AccIn(mem, ls, addr, d' - d, (a' - a) * DIM + C)
          else At(m, l.Row(a', b', c', d'), C))
    && (forall R, C :: !InRegion(l, R) ==> At(m', R, C) == At(m, R, C))
  }

  method SpadChunk(g: Gemmini, addr: int, patch: Patch, id: int, ghost l: Layout,
                   ghost a: int, ghost b: int, ghost c: int, ghost d: int)
    requires Chunk(l, patch, a, b, c, d) && 0 <= l.start && l.start + l.Rows() <= SPAD_ROWS
    requires g.cfg.Load(id).pixels == 1 && g.cfg.Load(id).blockStride == patch.blockStride
    modifies g`spad
    ensures ChunkIn(old(g.spad), g.spad, l, patch, a, b, c, d, g.dram, g.cfg.Load(id), addr)
  {
    hide At, Rect, SpadIn, Layout.Row, Layout.Rows, ChunkCell, Hit, SrcRow, SrcCol;
    ghost var s := g.spad;
    ChunkInBounds(l, patch, a, b, c, d, SPAD_ROWS);
    ChunkSeparate(l, patch, a, b, c, d);
    g.MvinSpad(addr, patch, id);
    forall a', b', c', d', C | l.In(a', b', c', d') && 0 <= C < DIM
      ensures At(g.spad, l.Row(a', b', c', d'), C) ==
              if ChunkCell(patch, a, b, c, d, a', b', c', d', C)
              then SpadIn(g.dram, g.cfg.Load(id), addr, d' - d, (a' - a) * DIM + C)
              else At(s, l.Row(a', b', c', d'), C)
    {
      ChunkHit(l, patch, a, b, c, d, a', b', c', d', C);
      RowBounds(l, a', b', c', d');
    }
    forall R, C | !InRegion(l, R) ensures At(g.spad, R, C) == At(s, R, C) {
      if 0 <= R && 0 <= C < DIM {
        if Hit(patch, R, C) { HitInRegion(l, patch, a, b, c, d, R, C); }
      } else {
        OutsideSpad(s, R, C);
        OutsideSpad(g.spad, R, C);
      }
    }
  }

  method AccChunk(g: Gemmini, addr: int, patch: Patch, id: int, ghost l: Layout,
                  ghost a: int, ghost b: int, ghost c: int, ghost d: int)
    requires Chunk(l, patch, a, b, c, d) && 0 <= l.start && l.start + l.Rows() <= ACC_ROWS
    requires g.cfg.Load(id).pixels == 1 && g.cfg.Load(id).blockStride == patch.blockStride
    modifies g`acc
    ensures AccChunkIn(old(g.acc), g.acc, l, patch, a, b, c, d, g.dram, g.cfg.Load(id), addr)
  {
    hide At, Rect, AccIn, Layout.Row, Layout.Rows, ChunkCell, Hit, SrcRow, SrcCol, Wrap.Wrap32;
    ghost var m := g.acc;
    ChunkInBounds(l, patch, a, b, c, d, ACC_ROWS);
    ChunkSeparate(l, patch, a, b, c, d);
    g.MvinAcc(addr, patch, false, id);
    forall a', b', c', d', C | l.In(a', b', c', d') && 0 <= C < DIM
      ensures At(g.acc, l.Row(a', b', c', d'), C) ==
              if ChunkCell(patch, a, b, c, d, a', b', c', d', C)
              then AccIn(g.dram, g.cfg.Load(id), addr, d' - d, (a' - a) * DIM + C)
              else At(m, l.Row(a', b', c', d'), C)
    {
      ChunkHit(l, patch, a, b, c, d, a', b', c', d', C);
      RowBounds(l, a', b', c', d');
      Wrap.WrapSame(AccIn(g.dram, g.cfg.Load(id), addr, d' - d, (a' - a) * DIM + C));
    }
    forall R, C | !InRegion(l, R) ensures At(g.acc, R, C) == At(m, R, C) {
      if 0 <= R && 0 <= C < DIM {
        if Hit(patch, R, C) { HitInRegion(l, patch, a, b, c, d, R, C); }
      } else {
        OutsideAcc(m, R, C);
        OutsideAcc(g.acc, R, C);
      }
    }
  }

  // Several pixels per row: each row also receives its right-hand neighbours, `cols` columns apart.

  ghost predicate PackedPatch(l: Layout, g: Patch, b: int, c: int, d: int) {
    && l.In(0, b, c, d) && l.start == 0 && g.base == l.Row(0, b, c, d)
    && g.pixels > 1 && g.pixels * g.cols <= DIM && g.cols > 0 && g.rows > 0 && d + g.rows <= l.n3
  }

  /** Column C of row (b', c', d') belongs to pixel d' + C / cols, which is in the run. */
  predicate PackedCell(g: Patch, b: int, c: int, d: int, b': int, c': int, d': int, C: int) {
    g.cols > 0 && b' == b && c' == c && d <= d' + C / g.cols < d + g.rows
  }

  ghost predicate PackedIn(s: Spad, s': Spad, l: Layout, g: Patch, b: int, c: int, d: int, mem: Memory, ls: LoadState,
                           addr: int)
    requires g.cols > 0
  {
    && (forall b', c', d', C :: l.In(0, b', c', d') && 0 <= C < DIM && C / g.cols < g.pixels
                                && d' + C / g.cols < l.n3 ==>
          At(s', l.Row(0, b', c', d'), C) ==
          if PackedCell(g, b, c, d, b', c', d', C) then SpadIn(mem, ls, addr, d' + C / g.cols - d, C % g.cols)
          else At(s, l.Row(0, b', c', d'), C))
    && (forall R, C :: !InRegion(l, R) ==> At(s', R, C) == At(s, R, C))
  }

  lemma PackedSource(g: Patch, R: int, C: int)
    requires g.pixels > 1 && g.pixels * g.cols <= DIM && g.cols > 0 && 0 <= C < DIM
    ensures g.cols <= DIM && SrcRow(g, R, C) == R + C / g.cols - g.base && SrcCol(g, R, C) == C % g.cols
    ensures Hit(g, R, C) <==> C / g.cols < g.pixels && g.base <= R + C / g.cols < g.base + g.rows
  {
    MulLe(1, g.pixels, g.cols);
    var q := C / g.cols;
    assert C == q * g.cols + C % g.cols;
  }

  lemma PackedHit(l: Layout, g: Patch, b: int, c: int, d: int, b': int, c': int, d': int, C: int)
    requires PackedPatch(l, g, b, c, d) && l.In(0, b', c', d') && 0 <= C < DIM
    requires C / g.cols < g.pixels && d' + C / g.cols < l.n3
    ensures Hit(g, l.Row(0, b', c', d'), C) <==> PackedCell(g, b, c, d, b', c', d', C)
    ensures Hit(g, l.Row(0, b', c', d'), C) ==>
              SrcRow(g, l.Row(0, b', c', d'), C) == d' + C / g.cols - d
                && SrcCol(g, l.Row(0, b', c', d'), C) == C % g.cols
  {
    hide Layout.Row, Layout.Block, Hit, SrcRow, SrcCol;
    var R, px := l.Row(0, b', c', d'), C / g.cols;
    DivNat(C, g.cols);
    PackedSource(g, R, C);
    RowStep(l, 0, b', c', d', px);
    RowStep(l, 0, b, c, d, d' + px - d);
    if g.base <= R + px < g.base + g.rows {
      RowRun(l, 0, b, c, d, R + px - g.base, 0, b', c', d' + px);
    }
  }

  lemma PackedInRegion(l: Layout, g: Patch, b: int, c: int, d: int, R: int, C: int)
    requires PackedPatch(l, g, b, c, d) && 0 <= C < DIM && 0 <= R && Hit(g, R, C)
    ensures InRegion(l, R)
  {
    hide Layout.Row, Layout.Rows, Hit, SrcRow, SrcCol;
    PackedSource(g, R, C);
    DivNat(C, g.cols);
    RowStep(l, 0, b, c, d, g.rows - 1);
    RowBounds(l, 0, b, c, d + g.rows - 1);
  }

  lemma PackedInBounds(l: Layout, g: Patch, b: int, c: int, d: int, limit: int)
    requires PackedPatch(l, g, b, c, d) && l.start + l.Rows() <= limit
    ensures InBounds(g, limit) && Separate(g)
  {
    hide Layout.Row, Layout.Rows;
    MulLe(1, g.pixels, g.cols);
    forall row, col | 0 <= row < g.rows && 0 <= col < g.cols ensures LandRow(g, row, col) < limit {
      DivUnique(col, DIM, 0, col);
      RowStep(l, 0, b, c, d, row);
      RowBounds(l, 0, b, c, d + row);
    }
  }

  method PackedChunk(g: Gemmini, addr: int, patch: Patch, id: int, ghost l: Layout, ghost b: int, ghost c: int,
                     ghost d: int)
    requires PackedPatch(l, patch, b, c, d) && l.start + l.Rows() <= SPAD_ROWS
    requires g.cfg.Load(id).pixels == patch.pixels && g.cfg.Load(id).blockStride == patch.blockStride
    modifies g`spad
    ensures PackedIn(old(g.spad), g.spad, l, patch, b, c, d, g.dram, g.cfg.Load(id), addr)
  {
    hide At, Rect, SpadIn, Layout.Row, Layout.Rows, PackedCell, Hit, SrcRow, SrcCol;
    ghost var s := g.spad;
    PackedInBounds(l, patch, b, c, d, SPAD_ROWS);
    g.MvinSpad(addr, patch, id);
    forall b', c', d', C | l.In(0, b', c', d') && 0 <= C < DIM && C / patch.cols < patch.pixels
      && d' + C / patch.cols < l.n3
      ensures At(g.spad, l.Row(0, b', c', d'), C) ==
              if PackedCell(patch, b, c, d, b', c', d', C)
              then SpadIn(g.dram, g.cfg.Load(id), addr, d' + C / patch.cols - d, C % patch.cols)
              else At(s, l.Row(0, b', c', d'), C)
    {
      PackedHit(l, patch, b, c, d, b', c', d', C);
      RowBounds(l, 0, b', c', d');
    }
    forall R, C | !InRegion(l, R) ensures At(g.spad, R, C) == At(s, R, C) {
      if 0 <= R && 0 <= C < DIM {
        if Hit(patch, R, C) { PackedInRegion(l, patch, b, c, d, R, C); }
      } else {
        OutsideSpad(s, R, C);
        OutsideSpad(g.spad, R, C);
      }
    }
  }

  // Filling a layout chunk by chunk, in any order.

  type CellFn = (int, int, int, int, int) -> int
  type CellSet = (int, int, int, int, int) -> bool

  /** Every cell of the layout that is done holds its intended value. */
  ghost predicate Filled(m: seq<seq<int>>, l: Layout, f: CellFn, done: CellSet) {
    forall a, b, c, d, C :: l.In(a, b, c, d) && 0 <= C < DIM && done(a, b, c, d, C) ==>
      At(m, l.Row(a, b, c, d), C) == f(a, b, c, d, C)
  }

  ghost predicate Grows(l: Layout, g: Patch, a: int, b: int, c: int, d: int, done: CellSet, done': CellSet) {
    forall a', b', c', d', C :: l.In(a', b', c', d') && 0 <= C < DIM && done'(a', b', c', d', C) ==>
      done(a', b', c', d', C) || ChunkCell(g, a, b, c, d, a', b', c', d', C)
  }

  /** The chunk brings exactly the intended values. */
  ghost predicate Brings(l: Layout, g: Patch, a: int, b: int, c: int, d: int, f: CellFn, mem: Memory, ls: LoadState,
                         addr: int) {
    forall a', b', c', d', C :: l.In(a', b', c', d') && 0 <= C < DIM && ChunkCell(g, a, b, c, d, a', b', c', d', C) ==>
      SpadIn(mem, ls, addr, d' - d, (a' - a) * DIM + C) == f(a', b', c', d', C)
  }

  ghost predicate AccBrings(l: Layout, g: Patch, a: int, b: int, c: int, d: int, f: CellFn, mem: Memory, ls: LoadState,
                            addr: int) {
    forall a', b', c', d', C :: l.In(a', b', c', d') && 0 <= C < DIM && ChunkCell(g, a, b, c, d, a', b', c', d', C) ==>
      AccIn(mem, ls, addr, d' - d, (a' - a) * DIM + C) == f(a', b', c', d', C)
  }

  lemma FillStep(s: Spad, s': Spad, l: Layout, g: Patch, a: int, b: int, c: int, d: int,
                 mem: Memory, ls: LoadState, addr: int, f: CellFn, done: CellSet, done': CellSet)
    requires ChunkIn(s, s', l, g, a, b, c, d, mem, ls, addr) && Filled(s, l, f, done)
    requires Brings(l, g, a, b, c, d, f, mem, ls, addr) && Grows(l, g, a, b, c, d, done, done')
    ensures Filled(s', l, f, done')
  {
    hide At, SpadIn, ChunkCell, Layout.Row, Layout.Rows;
  }

  lemma AccFillStep(m: AccMem, m': AccMem, l: Layout, g: Patch, a: int, b: int, c: int, d: int,
                    mem: Memory, ls: LoadState, addr: int, f: CellFn, done: CellSet, done': CellSet)
    requires AccChunkIn(m, m', l, g, a, b, c, d, mem, ls, addr) && Filled(m, l, f, done)
    requires AccBrings(l, g, a, b, c, d, f, mem, ls, addr) && Grows(l, g, a, b, c, d, done, done')
    ensures Filled(m', l, f, done')
  {
    hide At, AccIn, ChunkCell, Layout.Row, Layout.Rows;
  }

  lemma FilledLess(m: seq<seq<int>>, l: Layout, f: CellFn, done: CellSet, done': CellSet)
    requires Filled(m, l, f, done)
    requires forall a, b, c, d, C :: l.In(a, b, c, d) && 0 <= C < DIM && done'(a, b, c, d, C) ==> done(a, b, c, d, C)
    ensures Filled(m, l, f, done')
  {
    hide At, Layout.Row;
  }

  /** Filling one region leaves a disjoint one as it was. */
  ghost predicate OutsideKept(l: Layout, m: seq<seq<int>>, m': seq<seq<int>>) {
    forall R, C :: !InRegion(l, R) ==> At(m', R, C) == At(m, R, C)
  }
}
