/** The three load phases of loop_conv_ws. */
module ConvLoad {
  import opened Params
  import opened Dram
  import opened Grid
  import opened Scaling
  import opened State
  import opened Patches
  import opened Layouts
  import opened Machine
  import opened Chunks
  import opened ConvSpec

  /** Channels below `chs` of the pixels before (b, r, c), and the first `ch` of the run of `rows` at (b, r, c). */
  ghost function RunDone(chs: int, b: int, r: int, c: int, rows: int, ch: int): CellSet {
    (a', b', c', d', C) =>
      a' * DIM + C < chs &&
      (b' < b || (b' == b && (c' < r || (c' == r && (d' < c || (d' < c + rows && a' * DIM + C < ch))))))
  }

  lemma RunGrows(l: Layout, g: Patch, chs: int, o: int, b: int, r: int, c: int, ch: int)
    requires ch == o * DIM
    ensures Grows(l, g, o, b, r, c, RunDone(chs, b, r, c, g.rows, ch), RunDone(chs, b, r, c, g.rows, ch + g.cols))
  {
    hide Layout.Row;
    forall a', b', c', d', C | l.In(a', b', c', d') && 0 <= C < DIM
      && RunDone(chs, b, r, c, g.rows, ch + g.cols)(a', b', c', d', C)
      ensures RunDone(chs, b, r, c, g.rows, ch)(a', b', c', d', C) || ChunkCell(g, o, b, r, c, a', b', c', d', C)
    {
      assert (a' - o) * DIM == a' * DIM - o * DIM;
      MulFar(a' - o, DIM);
    }
  }

  /** Finishing all channels of a run is moving past it. */
  lemma RunNext(m: seq<seq<int>>, l: Layout, f: CellFn, chs: int, b: int, r: int, c: int, rows: int, ch: int, c': int)
    requires Filled(m, l, f, RunDone(chs, b, r, c, rows, ch)) && chs <= ch && (c' <= c + rows || l.n3 <= c + rows)
    ensures Filled(m, l, f, RunDone(chs, b, r, c', 0, 0))
  {
    hide At, Layout.Row;
    FilledLess(m, l, f, RunDone(chs, b, r, c, rows, ch), RunDone(chs, b, r, c', 0, 0));
  }

  lemma RunStart(m: seq<seq<int>>, l: Layout, f: CellFn, chs: int, b: int, r: int, c: int, rows: int)
    requires Filled(m, l, f, RunDone(chs, b, r, c, 0, 0))
    ensures Filled(m, l, f, RunDone(chs, b, r, c, rows, 0))
  {
    hide At, Layout.Row;
    forall a', b', c', d', C | l.In(a', b', c', d') && 0 <= C < DIM && RunDone(chs, b, r, c, rows, 0)(a', b', c', d', C)
      ensures RunDone(chs, b, r, c, 0, 0)(a', b', c', d', C)
    {
      MulFar(a', DIM);
      assert 0 <= a' * DIM;
    }
    FilledLess(m, l, f, RunDone(chs, b, r, c, rows, 0), RunDone(chs, b, r, c, 0, 0));
  }

  lemma RunNextRow(m: seq<seq<int>>, l: Layout, f: CellFn, chs: int, b: int, r: int, c: int)
    requires Filled(m, l, f, RunDone(chs, b, r, c, 0, 0)) && l.n3 <= c
    ensures Filled(m, l, f, RunDone(chs, b, r + 1, 0, 0, 0))
  {
    hide At, Layout.Row;
    FilledLess(m, l, f, RunDone(chs, b, r, c, 0, 0), RunDone(chs, b, r + 1, 0, 0, 0));
  }

  lemma RunNextImage(m: seq<seq<int>>, l: Layout, f: CellFn, chs: int, b: int, r: int)
    requires Filled(m, l, f, RunDone(chs, b, r, 0, 0, 0)) && l.n2 <= r
    ensures Filled(m, l, f, RunDone(chs, b + 1, 0, 0, 0, 0))
  {
    hide At, Layout.Row;
    FilledLess(m, l, f, RunDone(chs, b, r, 0, 0, 0), RunDone(chs, b + 1, 0, 0, 0, 0));
  }

  /** A run of at most `max` channels from block o on stays within the channel blocks. */
  lemma RunBlocks(chs: nat, o: nat, cols: int)
    requires 0 < cols && o * DIM + cols <= chs
    ensures 0 <= o && o + (cols - 1) / DIM < BlockCount(chs)
  {
    var q := (cols - 1) / DIM;
    DivUnique(o * DIM + cols - 1, DIM, o + q, (cols - 1) % DIM);
    DivMono(o * DIM + cols - 1, chs - 1);
    DivUnique(chs + DIM - 1, DIM, (chs - 1) / DIM + 1, (chs - 1) % DIM);
  }

  lemma BlockOf(o: int)
    ensures o * DIM / DIM == o
  {
    DivUnique(o * DIM, DIM, o, 0);
  }

  // Bias.

  ghost function BiasFn(z: Start): CellFn {
    (a, b, c, d, C) => BiasElem(z, a * DIM + C)
  }

  function BiasLoad(p: Call): LoadState
    requires p.CLayout(0).Block() >= 0
  {
    LoadState(0, p.CLayout(0).Block(), false, 1.0, 1)
  }

  lemma BlockNat(l: Layout)
    requires 0 <= l.n1 && 0 <= l.n2 && 0 <= l.n3
    ensures 0 <= l.Block()
  {
    MulLe(0, l.n1, l.n2);
    MulLe(0, l.n1 * l.n2, l.n3);
  }

  lemma BiasBrings(z: Start, l: Layout, g: Patch, o: int, b: int, r: int, c: int)
    requires z.p.bias != 0 && o >= 0 && z.p.CLayout(0).Block() >= 0
    ensures AccBrings(l, g, o, b, r, c, BiasFn(z), z.d, BiasLoad(z.p), if z.p.noBias then 0 else z.p.bias + o * DIM * 4)
  {
    hide AccIn, BiasElem, Layout.Row, Layout.Block;
    forall a', b', c', d', C | l.In(a', b', c', d') && 0 <= C < DIM && ChunkCell(g, o, b, r, c, a', b', c', d', C)
      ensures AccIn(z.d, BiasLoad(z.p), if z.p.noBias then 0 else z.p.bias + o * DIM * 4, d' - c, (a' - o) * DIM + C)
              == BiasFn(z)(a', b', c', d', C)
    {
      BiasCell(z, o, d' - c, a', C);
    }
  }

  lemma BiasCell(z: Start, o: int, t: int, a: int, C: int)
    requires z.p.bias != 0 && o >= 0 && z.p.CLayout(0).Block() >= 0
    ensures AccIn(z.d, BiasLoad(z.p), if z.p.noBias then 0 else z.p.bias + o * DIM * 4, t, (a - o) * DIM + C)
            == BiasElem(z, a * DIM + C)
  {
    hide LoadAcc, Layout.Block;
    MulLe(0, o, DIM);
    assert (a - o) * DIM == a * DIM - o * DIM;
    var addr := z.p.bias + o * DIM * 4;
    assert addr + t * 0 + 4 * ((a - o) * DIM + C) == z.p.bias + 4 * (a * DIM + C);
  }

  /** One mvin of the bias. */
  method BiasChunk(g: Gemmini, ghost z: Start, p: Call, row: nat, b: nat, r: nat, c: nat, I: nat, och: nat,
                   ghost o: nat, J: nat)
    requires p == z.p && p.Fits(row) && p.bias != 0 && g.dram == z.d && I > 0 && c + I <= p.ocols
    requires b < p.batches && r < p.orows && p.CLayout(0).Block() >= 0 && g.cfg.load2 == BiasLoad(p)
    requires och == o * DIM && J > 0 && och + J <= p.ochs
    requires Filled(g.acc, p.CLayout(row), BiasFn(z), RunDone(p.ochs, b, r, c, I, och))
    requires OutsideKept(p.CLayout(row), z.m, g.acc)
    modifies g`acc
    ensures Filled(g.acc, p.CLayout(row), BiasFn(z), RunDone(p.ochs, b, r, c, I, och + J))
    ensures OutsideKept(p.CLayout(row), z.m, g.acc)
  {
    hide At, Layout.Row, Layout.Block, Layout.Rows, BiasFn, RunDone, Grows, AccBrings, Filled, OutsideKept, Call.Fits,
         BlockCount;
    FitsC(p, row);
    ghost var l := p.CLayout(row);
    BlockOf(o);
    RunBlocks(p.ochs, o, J);
    RowNat(l, o, b, r, c);
    var patch := Patch(p.CLayout(row).Row(och / DIM, b, r, c), I, J, p.CLayout(0).Block(), 1);
    SameBlock(p, row);
    var addr := if p.noBias then 0 else p.bias + och * 4;
    ghost var m := g.acc;
    AccChunk(g, addr, patch, 2, l, o, b, r, c);
    BiasBrings(z, l, patch, o, b, r, c);
    RunGrows(l, patch, p.ochs, o, b, r, c, och);
    AccFillStep(m, g.acc, l, patch, o, b, r, c, z.d, BiasLoad(p), addr, BiasFn(z),
                RunDone(p.ochs, b, r, c, I, och), RunDone(p.ochs, b, r, c, I, och + J));
    KeptByChunk(m, g.acc, l, patch, o, b, r, c, z.d, BiasLoad(p), addr, z.m);
  }

  lemma MaxPositive(step: Pos)
    ensures 0 < step * DIM
  {
  }

  /** Load all channels of the bias for output pixels ocol .. ocol + I of one row. */
  method LoadBiasRun(g: Gemmini, ghost z: Start, p: Call, row: nat, b: nat, r: nat, c: nat, I: nat)
    requires p == z.p && p.Fits(row) && p.bias != 0 && g.dram == z.d && I > 0 && c + I <= p.ocols
    requires b < p.batches && r < p.orows && p.CLayout(0).Block() >= 0 && g.cfg.load2 == BiasLoad(p)
    requires Filled(g.acc, p.CLayout(row), BiasFn(z), RunDone(p.ochs, b, r, c, 0, 0))
    requires OutsideKept(p.CLayout(row), z.m, g.acc)
    modifies g`acc
    ensures Filled(g.acc, p.CLayout(row), BiasFn(z), RunDone(p.ochs, b, r, c + I, 0, 0))
    ensures OutsideKept(p.CLayout(row), z.m, g.acc)
  {
    hide At, Layout.Row, Layout.Block, Layout.Rows, BiasFn, RunDone, Filled, OutsideKept, Call.Fits, BiasLoad;
    ghost var l := p.CLayout(row);
    var max := if p.ochs < MAX_BLOCK_LEN_ACC * DIM then p.ochs else MAX_BLOCK_LEN_ACC * DIM;
    var och := 0;
    ghost var o: nat := 0;
    RunStart(g.acc, l, BiasFn(z), p.ochs, b, r, c, I);
    while och < p.ochs
      invariant 0 <= och && (och < p.ochs ==> och == o * DIM)
      invariant Filled(g.acc, l, BiasFn(z), RunDone(p.ochs, b, r, c, I, och)) && OutsideKept(l, z.m, g.acc)
      decreases p.ochs - och
    {
      var J := if p.ochs - och > max then max else p.ochs - och;
      MaxPositive(MAX_BLOCK_LEN_ACC);
      BiasChunk(g, z, p, row, b, r, c, I, och, o, J);
      NextBlock(o, MAX_BLOCK_LEN_ACC, och, J, p.ochs);
      RunLess(g.acc, l, BiasFn(z), p.ochs, b, r, c, I, och + J, och + max);
      och := och + max;
      o := o + MAX_BLOCK_LEN_ACC;
    }
    RunNext(g.acc, l, BiasFn(z), p.ochs, b, r, c, I, och, c + I);
  }

  lemma FitsC(p: Call, row: int)
    requires p.Fits(row)
    ensures 0 <= p.CLayout(row).start && p.CLayout(row).start + p.CLayout(row).Rows() <= ACC_ROWS
  {
  }

  lemma RowNat(l: Layout, a: int, b: int, c: int, d: int)
    requires l.In(a, b, c, d) && 0 <= l.start
    ensures 0 <= l.Row(a, b, c, d)
  {
    hide Layout.Row;
    RowBounds(l, a, b, c, d);
  }

  lemma SameBlock(p: Call, row: int)
    ensures p.CLayout(row).Block() == p.CLayout(0).Block()
  {
  }

  lemma KeptByChunk(m: AccMem, m': AccMem, l: Layout, g: Patch, a: int, b: int, c: int, d: int,
                    mem: Memory, ls: LoadState, addr: int, m0: AccMem)
    requires AccChunkIn(m, m', l, g, a, b, c, d, mem, ls, addr) && OutsideKept(l, m0, m)
    ensures OutsideKept(l, m0, m')
  {
    hide At, InRegion, AccIn, Layout.Row;
  }

  lemma KeptBySpadChunk(s: Spad, s': Spad, l: Layout, g: Patch, a: int, b: int, c: int, d: int,
                        mem: Memory, ls: LoadState, addr: int, s0: Spad)
    requires ChunkIn(s, s', l, g, a, b, c, d, mem, ls, addr) && OutsideKept(l, s0, s)
    ensures OutsideKept(l, s0, s')
  {
    hide At, InRegion, SpadIn, Layout.Row;
  }

  lemma NextBlock(o: nat, step: Pos, ch: int, cols: int, chs: nat)
    requires ch == o * DIM && ch < chs
    requires cols
             == (if chs - ch > (if chs < step * DIM then chs else step * DIM)
                 then (if chs < step * DIM then chs else step * DIM) else chs - ch)
    ensures var max := if chs < step * DIM then chs else step * DIM;
            0 < cols <= max && (ch + max < chs ==> ch + max == (o + step) * DIM && cols == max)
            && (ch + max >= chs ==> ch + cols >= chs)
  {
    MulLe(1, step, DIM);
    assert (o + step) * DIM == o * DIM + step * DIM;
  }

  /** Only channels below chs count, so overshooting the end is harmless. */
  lemma RunLess(m: seq<seq<int>>, l: Layout, f: CellFn, chs: int, b: int, r: int, c: int, rows: int, ch: int, ch': int)
    requires Filled(m, l, f, RunDone(chs, b, r, c, rows, ch)) && (ch' <= ch || chs <= ch)
    ensures Filled(m, l, f, RunDone(chs, b, r, c, rows, ch'))
  {
    hide At, Layout.Row;
    FilledLess(m, l, f, RunDone(chs, b, r, c, rows, ch), RunDone(chs, b, r, c, rows, ch'));
  }

  lemma NothingDone(m: seq<seq<int>>, l: Layout, f: CellFn, chs: int)
    ensures Filled(m, l, f, RunDone(chs, 0, 0, 0, 0, 0)) && OutsideKept(l, m, m)
  {
    hide At, Layout.Row;
    forall a', b', c', d', C | l.In(a', b', c', d') && 0 <= C < DIM
      ensures !RunDone(chs, 0, 0, 0, 0, 0)(a', b', c', d', C)
    {
    }
  }

  /** The mvin-bias phase. */
  method LoadBias(g: Gemmini, ghost z: Start, p: Call, row: nat)
    requires p == z.p && p.Fits(row) && p.bias != 0 && g.dram == z.d && g.acc == z.m
    modifies g`acc, g`cfg
    ensures p.CLayout(0).Block() >= 0 && g.cfg == old(g.cfg).WithLoad(2, BiasLoad(p))
    ensures Filled(g.acc, p.CLayout(row), BiasFn(z), RunDone(p.ochs, p.batches, 0, 0, 0, 0))
    ensures OutsideKept(p.CLayout(row), z.m, g.acc)
  {
    hide At, Layout.Row, Layout.Block, Layout.Rows, BiasFn, RunDone, Filled, OutsideKept, Call.Fits;
    BlockNat(p.CLayout(0));
    g.ConfigLd(2, BiasLoad(p));
    ghost var cfg := g.cfg;
    ghost var l := p.CLayout(row);
    NothingDone(g.acc, l, BiasFn(z), p.ochs);
    for b := 0 to p.batches
      invariant g.cfg == cfg && Filled(g.acc, l, BiasFn(z), RunDone(p.ochs, b, 0, 0, 0, 0))
      invariant OutsideKept(l, z.m, g.acc)
    {
      for r := 0 to p.orows
        invariant g.cfg == cfg && Filled(g.acc, l, BiasFn(z), RunDone(p.ochs, b, r, 0, 0, 0))
        invariant OutsideKept(l, z.m, g.acc)
      {
        var c := 0;
        while c < p.ocols
          invariant 0 <= c <= p.ocols
          invariant g.cfg == cfg && Filled(g.acc, l, BiasFn(z), RunDone(p.ochs, b, r, c, 0, 0))
          invariant OutsideKept(l, z.m, g.acc)
        {
          var I := if p.ocols - c > DIM then DIM else p.ocols - c;
          LoadBiasRun(g, z, p, row, b, r, c, I);
          c := c + I;
        }
        RunNextRow(g.acc, l, BiasFn(z), p.ochs, b, r, c);
      }
      RunNextImage(g.acc, l, BiasFn(z), p.ochs, b, p.orows);
    }
  }

  // Input image.

  ghost function AFn(z: Start): CellFn {
    (a, b, c, d, C) => Image(z, b, c, d, a * DIM + C)
  }

  function InputLoad(p: Call): LoadState
    requires p.ALayout().Block() >= 0
  {
    LoadState(p.InRowStride(), p.ALayout().Block(), false, 1.0, p.pixels)
  }

  /** A run of pixels lies wholly in the padding or wholly in the image. */
  predicate AllZero(p: Call, irow: int, icol: int) {
    irow < 0 || irow >= p.IRowsU() || icol < 0 || icol >= p.IColsU()
  }

  predicate OneSided(p: Call, icol: int, I: int) {
    if icol < 0 then icol + I <= 0 else if icol < p.IColsU() then icol + I <= p.IColsU() else true
  }

  lemma InputBrings(z: Start, g: Patch, o: int, b: int, irow: int, icol: int, addr: int)
    requires z.p.input != 0 && !z.p.transInput3120 && o >= 0 && b >= 0 && z.p.ALayout().Block() >= 0
    requires OneSided(z.p, icol, g.rows)
    requires addr == if AllZero(z.p, irow, icol) then 0 else z.p.InAddr(b, irow, icol, o * DIM)
    ensures Brings(z.p.ALayout(), g, o, b, irow + z.p.Undilated(z.p.upad), icol + z.p.Undilated(z.p.lpad), AFn(z), z.d,
                   InputLoad(z.p), addr)
  {
    hide Layout.Row, Layout.Block, SpadIn, Image, Call.InAddr, Call.Undilated, OneSided, AllZero;
    var p := z.p;
    var y, x := irow + p.Undilated(p.upad), icol + p.Undilated(p.lpad);
    forall a', b', c', d', C | p.ALayout().In(a', b', c', d') && 0 <= C < DIM
      && ChunkCell(g, o, b, y, x, a', b', c', d', C)
      ensures SpadIn(z.d, InputLoad(p), addr, d' - x, (a' - o) * DIM + C) == AFn(z)(a', b', c', d', C)
    {
      InputCell(z, g.rows, o, b, irow, icol, addr, d' - x, a', C);
    }
  }

  lemma InputCell(z: Start, I: int, o: int, b: int, irow: int, icol: int, addr: int, t: int, a: int, C: int)
    requires z.p.input != 0 && !z.p.transInput3120 && o >= 0 && b >= 0 && z.p.ALayout().Block() >= 0
    requires OneSided(z.p, icol, I) && 0 <= t < I
    requires addr == if AllZero(z.p, irow, icol) then 0 else z.p.InAddr(b, irow, icol, o * DIM)
    ensures SpadIn(z.d, InputLoad(z.p), addr, t, (a - o) * DIM + C)
            == Image(z, b, irow + z.p.Undilated(z.p.upad), icol + t + z.p.Undilated(z.p.lpad), a * DIM + C)
  {
    hide LoadElem, Layout.Block, Call.InAddr, Scale, Call.IRowsU, Call.IColsU, Call.Undilated, Call.ALayout;
    if !AllZero(z.p, irow, icol) {
      InAddrPositive(z.p, b, irow, icol, o * DIM, o);
      InAddrRun(z.p, b, irow, icol, o, t, a, C);
      ScaleIdentity(LoadElem(z.d, z.p.InAddr(b, irow, icol + t, a * DIM + C)));
    }
  }

  lemma InAddrPositive(p: Call, b: int, y: int, x: int, ch: int, o: int)
    requires p.input != 0 && !p.transInput3120 && 0 <= b && 0 <= y && 0 <= x && 0 <= o && ch == o * DIM
    ensures p.InAddr(b, y, x, ch) > 0
  {
    MulLe(0, o, DIM);
    MulLe(0, b, p.inRowDim);
    MulLe(0, b * p.inRowDim, p.inColDim);
    MulLe(0, y, p.inColDim);
    MulLe(0, b * p.inRowDim * p.inColDim + y * p.inColDim + x, p.inStride);
  }

  lemma InAddrRun(p: Call, b: int, y: int, x: int, o: int, t: int, a: int, C: int)
    requires !p.transInput3120
    ensures p.InAddr(b, y, x, o * DIM) + t * p.inStride + ((a - o) * DIM + C) == p.InAddr(b, y, x + t, a * DIM + C)
  {
    assert (a - o) * DIM == a * DIM - o * DIM;
    var q := b * p.inRowDim * p.inColDim + y * p.inColDim + x;
    assert (q + t) * p.inStride == q * p.inStride + t * p.inStride;
  }

  lemma FitsA(p: Call, row: int)
    requires p.Fits(row)
    ensures 0 <= p.ALayout().start && p.ALayout().start + p.ALayout().Rows() <= SPAD_ROWS
    ensures 0 <= p.BLayout().start && p.BLayout().start + p.BLayout().Rows() <= SPAD_ROWS
    ensures p.ALayout().start + p.ALayout().Rows() <= p.BLayout().start
            || p.BLayout().start + p.BLayout().Rows() <= p.ALayout().start
  {
    assert p.BLayout().Rows() == p.BShape(0).Rows();
  }

  // Packed input: each row holds its pixel and its right-hand neighbours.

  ghost function PackedFn(z: Start): CellFn {
    (a, b, c, d, C) => if z.p.kchs == 0 then 0 else Image(z, b, c, d + C / z.p.kchs, C % z.p.kchs)
  }

  /** Pixels before (b, r, c), wherever they are repeated. */
  ghost function PackedDone(p: Call, b: int, r: int, c: int): CellSet {
    (a', b', c', d', C) =>
      p.kchs > 0 && C / p.kchs < p.pixels && d' + C / p.kchs < p.ICols()
      && (b' < b || (b' == b && (c' < r || (c' == r && d' + C / p.kchs < c))))
  }

  /** The image pixels before (b, r, c) are in, and the first `ch` channels of the run of `rows` at (b, r, c). */
  ghost predicate InputIn(z: Start, s: Spad, b: int, r: int, c: int, rows: int, ch: int) {
    && OutsideKept(z.p.ALayout(), z.s, s)
    && if z.p.pixels == 1 then Filled(s, z.p.ALayout(), AFn(z), RunDone(z.p.kchs, b, r, c, rows, ch))
       else Filled(s, z.p.ALayout(), PackedFn(z), PackedDone(z.p, b, r, if ch == 0 then c else c + rows))
  }

  lemma PackedStep(z: Start, s: Spad, s': Spad, g: Patch, b: int, irow: int, icol: int, addr: int)
    requires z.p.input != 0 && !z.p.transInput3120 && b >= 0 && z.p.ALayout().Block() >= 0
    requires OneSided(z.p, icol, g.rows) && g.rows > 0
    requires z.p.pixels > 1 && z.p.kchs > 0 && g.cols == z.p.kchs && g.pixels == z.p.pixels && z.p.KBlocks() == 1
    requires addr == if AllZero(z.p, irow, icol) then 0 else z.p.InAddr(b, irow, icol, 0)
    requires var y, x := irow + z.p.Undilated(z.p.upad), icol + z.p.Undilated(z.p.lpad);
             PackedIn(s, s', z.p.ALayout(), g, b, y, x, z.d, InputLoad(z.p), addr)
             && InputIn(z, s, b, y, x, g.rows, 0)
    ensures InputIn(z, s', b, irow + z.p.Undilated(z.p.upad), icol + z.p.Undilated(z.p.lpad), g.rows, z.p.kchs)
  {
    hide At, Layout.Row, Layout.Block, Layout.Rows, SpadIn, Image, Call.InAddr, Call.Undilated, OneSided, AllZero,
         BlockCount, Call.ICols, Call.IRows, Call.AStart, InRegion, AFn, RunDone;
    var p, l := z.p, z.p.ALayout();
    var y, x := irow + p.Undilated(p.upad), icol + p.Undilated(p.lpad);
    forall a', b', c', d', C | l.In(a', b', c', d') && 0 <= C < DIM
      && PackedDone(p, b, y, x + g.rows)(a', b', c', d', C)
      ensures At(s', l.Row(a', b', c', d'), C) == PackedFn(z)(a', b', c', d', C)
    {
      assert a' == 0;
      if PackedCell(g, b, y, x, b', c', d', C) {
        InputCell(z, g.rows, 0, b, irow, icol, addr, d' + C / p.kchs - x, 0, C % p.kchs);
      } else {
        assert PackedDone(p, b, y, x)(a', b', c', d', C);
      }
    }
  }

  lemma InputStart(z: Start, s: Spad, b: int, r: int, c: int, rows: int)
    requires InputIn(z, s, b, r, c, 0, 0)
    ensures InputIn(z, s, b, r, c, rows, 0)
  {
    hide At, Layout.Row, OutsideKept, Filled, RunDone;
    if z.p.pixels == 1 { RunStart(s, z.p.ALayout(), AFn(z), z.p.kchs, b, r, c, rows); }
  }

  lemma InputLess(z: Start, s: Spad, b: int, r: int, c: int, rows: int, ch: int, ch': int)
    requires InputIn(z, s, b, r, c, rows, ch) && (ch' <= ch || z.p.kchs <= ch) && 0 < ch && 0 < ch'
    ensures InputIn(z, s, b, r, c, rows, ch')
  {
    hide At, Layout.Row, OutsideKept, Filled, RunDone;
    if z.p.pixels == 1 { RunLess(s, z.p.ALayout(), AFn(z), z.p.kchs, b, r, c, rows, ch, ch'); }
  }

  lemma InputNext(z: Start, s: Spad, b: int, r: int, c: int, rows: int, ch: int)
    requires InputIn(z, s, b, r, c, rows, ch) && z.p.kchs <= ch && (z.p.pixels > 1 ==> 0 < ch)
    ensures InputIn(z, s, b, r, c + rows, 0, 0)
  {
    hide At, Layout.Row, OutsideKept, Filled, RunDone;
    if z.p.pixels == 1 { RunNext(s, z.p.ALayout(), AFn(z), z.p.kchs, b, r, c, rows, ch, c + rows); }
  }

  lemma InputNextRow(z: Start, s: Spad, b: int, r: int, c: int)
    requires InputIn(z, s, b, r, c, 0, 0) && z.p.ICols() <= c
    ensures InputIn(z, s, b, r + 1, 0, 0, 0)
  {
    hide At, Layout.Row, OutsideKept, Call.ICols, Call.IRows;
    var l := z.p.ALayout();
    if z.p.pixels == 1 { RunNextRow(s, l, AFn(z), z.p.kchs, b, r, c); }
    else { FilledLess(s, l, PackedFn(z), PackedDone(z.p, b, r, c),
                      PackedDone(z.p, b, r + 1, 0)) by { PackedRow(z.p, b, r, c); } }
  }

  /** Rows repeat only pixels to their right, so nothing of row r + 1 is due before its first pixel. */
  lemma PackedRow(p: Call, b: int, r: int, c: int)
    requires p.ICols() <= c
    ensures forall a', b', c', d', C :: p.ALayout().In(a', b', c', d') && 0 <= C < DIM
                                        && PackedDone(p, b, r + 1, 0)(a', b', c', d', C) ==>
              PackedDone(p, b, r, c)(a', b', c', d', C)
  {
    hide Call.ICols, Call.IRows, Call.AStart;
    forall a', b', c', d', C | p.ALayout().In(a', b', c', d') && 0 <= C < DIM
      && PackedDone(p, b, r + 1, 0)(a', b', c', d', C)
      ensures PackedDone(p, b, r, c)(a', b', c', d', C)
    {
      DivNat(C, p.kchs);
    }
  }

  lemma InputNextImage(z: Start, s: Spad, b: int, r: int)
    requires InputIn(z, s, b, r, 0, 0, 0) && z.p.IRows() <= r
    ensures InputIn(z, s, b + 1, 0, 0, 0, 0)
  {
    hide At, Layout.Row, OutsideKept, Call.ICols, Call.IRows;
    var l := z.p.ALayout();
    if z.p.pixels == 1 { RunNextImage(s, l, AFn(z), z.p.kchs, b, r); }
    else { FilledLess(s, l, PackedFn(z), PackedDone(z.p, b, r, 0),
                      PackedDone(z.p, b + 1, 0, 0)) by { PackedImage(z.p, b, r); } }
  }

  lemma PackedImage(p: Call, b: int, r: int)
    requires p.IRows() <= r
    ensures forall a', b', c', d', C :: p.ALayout().In(a', b', c', d') && 0 <= C < DIM
                                        && PackedDone(p, b + 1, 0, 0)(a', b', c', d', C) ==>
              PackedDone(p, b, r, 0)(a', b', c', d', C)
  {
    hide Call.ICols, Call.IRows, Call.AStart;
    forall a', b', c', d', C | p.ALayout().In(a', b', c', d') && 0 <= C < DIM
      && PackedDone(p, b + 1, 0, 0)(a', b', c', d', C)
      ensures PackedDone(p, b, r, 0)(a', b', c', d', C)
    {
      DivNat(C, p.kchs);
    }
  }

  lemma InputNothing(z: Start)
    ensures InputIn(z, z.s, 0, 0, 0, 0, 0)
  {
    hide At, Layout.Row, Call.ICols, Call.IRows;
    var l := z.p.ALayout();
    NothingDone(z.s, l, AFn(z), z.p.kchs);
    forall a', b', c', d', C | l.In(a', b', c', d') && 0 <= C < DIM
      ensures !PackedDone(z.p, 0, 0, 0)(a', b', c', d', C)
    {
      if z.p.kchs > 0 { DivNat(C, z.p.kchs); }
    }
  }

  /** One block of channels when pixels are packed. */
  predicate Packing(p: Call) {
    p.pixels > 1 ==> p.Packable() && !p.transInput3120
  }

  lemma PackedFitsBlock(p: Call)
    requires Packing(p) && p.pixels > 1
    ensures 0 < p.kchs <= DIM && p.KBlocks() == 1 && p.ALayout().start == 0 && p.pixels * p.kchs <= DIM
    ensures !p.transInput3120
  {
    MulLe(1, p.pixels, p.kchs);
    DivUnique(p.kchs + DIM - 1, DIM, 1, p.kchs - 1);
  }

  /** One mvin of image data or padding. */
  method InputChunk(g: Gemmini, ghost z: Start, p: Call, ghost row: int, b: nat, irow: int, icol: int, I: nat, ich: nat,
                    ghost o: nat, K: nat)
    requires p == z.p && p.Fits(row) && Packing(p) && !p.transInput3120 && p.input != 0 && g.dram == z.d && I > 0
    requires b < p.batches
    requires -p.Undilated(p.upad) <= irow < p.IRowsU() + p.Undilated(p.dpad)
    requires -p.Undilated(p.lpad) <= icol && icol + I <= p.IColsU() + p.Undilated(p.rpad) && OneSided(p, icol, I)
    requires p.ALayout().Block() >= 0 && g.cfg.load0 == InputLoad(p)
    requires ich == o * DIM && K > 0 && ich + K <= p.kchs && (p.pixels > 1 ==> ich == 0 && K == p.kchs)
    requires InputIn(z, g.spad, b, irow + p.Undilated(p.upad), icol + p.Undilated(p.lpad), I, ich)
    modifies g`spad
    ensures InputIn(z, g.spad, b, irow + p.Undilated(p.upad), icol + p.Undilated(p.lpad), I, ich + K)
  {
    hide At, Layout.Row, Layout.Block, Layout.Rows, AFn, RunDone, Grows, Brings, Filled, OutsideKept, Call.Fits,
         Call.IRowsU, Call.IColsU, Call.Undilated, Call.InAddr, Call.AStart, OneSided, AllZero, BlockCount, Packing,
         PackedIn;
    FitsA(p, row);
    var l := p.ALayout();
    var y, x := irow + p.Undilated(p.upad), icol + p.Undilated(p.lpad);
    BlockOf(o);
    RunBlocks(p.kchs, o, K);
    RowNat(l, o, b, y, x);
    var patch := Patch(l.Row(ich / DIM, b, y, x), I, K, l.Block(), p.pixels);
    var addr := if AllZero(p, irow, icol) then 0 else p.InAddr(b, irow, icol, ich);
    ghost var s := g.spad;
    if p.pixels == 1 {
      SpadChunk(g, addr, patch, 0, l, o, b, y, x);
      InputBrings(z, patch, o, b, irow, icol, addr);
      RunGrows(l, patch, p.kchs, o, b, y, x, ich);
      FillStep(s, g.spad, l, patch, o, b, y, x, z.d, InputLoad(p), addr, AFn(z),
               RunDone(p.kchs, b, y, x, I, ich), RunDone(p.kchs, b, y, x, I, ich + K));
      KeptBySpadChunk(s, g.spad, l, patch, o, b, y, x, z.d, InputLoad(p), addr, z.s);
    } else {
      PackedFitsBlock(p);
      PackedChunk(g, addr, patch, 0, l, b, y, x);
      PackedStep(z, s, g.spad, patch, b, irow, icol, addr);
    }
  }

  /** Load all channels of I neighbouring pixels of one image row. */
  method LoadInputRun(g: Gemmini, ghost z: Start, p: Call, ghost row: int, b: nat, irow: int, icol: int, I: nat)
    requires p == z.p && p.Fits(row) && Packing(p) && !p.transInput3120 && p.input != 0 && g.dram == z.d && I > 0
    requires b < p.batches
    requires -p.Undilated(p.upad) <= irow < p.IRowsU() + p.Undilated(p.dpad)
    requires -p.Undilated(p.lpad) <= icol && icol + I <= p.IColsU() + p.Undilated(p.rpad) && OneSided(p, icol, I)
    requires p.ALayout().Block() >= 0 && g.cfg.load0 == InputLoad(p)
    requires InputIn(z, g.spad, b, irow + p.Undilated(p.upad), icol + p.Undilated(p.lpad), 0, 0)
    modifies g`spad
    ensures InputIn(z, g.spad, b, irow + p.Undilated(p.upad), icol + p.Undilated(p.lpad) + I, 0, 0)
  {
    hide At, Layout.Row, Layout.Block, Layout.Rows, InputIn, Call.Fits, Call.IRowsU, Call.IColsU,
         Call.Undilated, Call.AStart, InputLoad, OneSided, Packing, Call.KBlocks;
    ghost var y, x := irow + p.Undilated(p.upad), icol + p.Undilated(p.lpad);
    var max := if p.kchs < MAX_BLOCK_LEN * DIM then p.kchs else MAX_BLOCK_LEN * DIM;
    if p.pixels > 1 {
      PackedFitsBlock(p);
      MulLe(1, MAX_BLOCK_LEN, DIM);
    }
    var ich := 0;
    ghost var o: nat := 0;
    InputStart(z, g.spad, b, y, x, I);
    while ich < p.kchs
      invariant 0 <= ich && (ich < p.kchs ==> ich == o * DIM)
      invariant p.pixels > 1 ==> ich == 0 || p.kchs <= ich
      invariant InputIn(z, g.spad, b, y, x, I, ich)
      decreases p.kchs - ich
    {
      var K := if p.kchs - ich > max then max else p.kchs - ich;
      MaxPositive(MAX_BLOCK_LEN);
      InputChunk(g, z, p, row, b, irow, icol, I, ich, o, K);
      NextBlock(o, MAX_BLOCK_LEN, ich, K, p.kchs);
      InputLess(z, g.spad, b, y, x, I, ich + K, ich + max);
      ich := ich + max;
      o := o + MAX_BLOCK_LEN;
    }
    InputNext(z, g.spad, b, y, x, I, ich);
  }

  /** The length of the run at icol: up to DIM pixels, never across the edge of the padding. */
  function RunLength(p: Call, icol: int): int {
    if icol < 0 then Min(-icol, DIM)
    else if icol >= p.IColsU() then Min(p.IColsU() + p.Undilated(p.rpad) - icol, DIM)
    else Min(p.IColsU() - icol, DIM)
  }

  lemma RunLengthOk(p: Call, row: int, icol: int)
    requires p.Fits(row) && -p.Undilated(p.lpad) <= icol < p.IColsU() + p.Undilated(p.rpad)
    ensures 0 < RunLength(p, icol) && icol + RunLength(p, icol) <= p.IColsU() + p.Undilated(p.rpad)
    ensures OneSided(p, icol, RunLength(p, icol))
  {
  }

  /** The input phase for images stored channel by channel within a pixel. */
  method LoadPlainInput(g: Gemmini, ghost z: Start, p: Call, ghost row: int)
    requires p == z.p && p.Fits(row) && Packing(p) && !p.transInput3120 && p.input != 0 && g.dram == z.d
    requires g.spad == z.s
    modifies g`spad, g`cfg
    ensures p.ALayout().Block() >= 0 && g.cfg == old(g.cfg).WithLoad(0, InputLoad(p))
    ensures InputIn(z, g.spad, p.batches, 0, 0, 0, 0)
  {
    hide At, Layout.Row, Layout.Block, Layout.Rows, InputIn, Call.Fits, OneSided, RunLength, Call.IRowsU, Call.IColsU,
         Packing;
    TileSize(p, row);
    BlockNat(p.ALayout());
    g.ConfigLd(0, InputLoad(p));
    ghost var cfg := g.cfg;
    var up, left := p.Undilated(p.upad), p.Undilated(p.lpad);
    InputNothing(z);
    for b := 0 to p.batches
      invariant g.cfg == cfg && InputIn(z, g.spad, b, 0, 0, 0, 0)
    {
      for irow := -up to p.IRowsU() + p.Undilated(p.dpad)
        invariant g.cfg == cfg && InputIn(z, g.spad, b, irow + up, 0, 0, 0)
      {
        var icol := -left;
        while icol < p.IColsU() + p.Undilated(p.rpad)
          invariant -left <= icol <= p.IColsU() + p.Undilated(p.rpad)
          invariant g.cfg == cfg && InputIn(z, g.spad, b, irow + up, icol + left, 0, 0)
          decreases p.IColsU() + p.Undilated(p.rpad) - icol
        {
          RunLengthOk(p, row, icol);
          var I := RunLength(p, icol);
          LoadInputRun(g, z, p, row, b, irow, icol, I);
          icol := icol + I;
        }
        InputNextRow(z, g.spad, b, irow + up, icol + left);
      }
      InputNextImage(z, g.spad, b, p.IRows());
    }
  }

  // Transposed input: images are the innermost index, in memory and in the scratchpad.

  function ImagesPerMvin(p: Call): nat { if p.batches < MAX_BLOCK_LEN * DIM then p.batches else MAX_BLOCK_LEN * DIM }

  ghost function TransFn(z: Start): CellFn {
    (a, ch, y, x, C) => Image(z, a * DIM + C, y, x, ch)
  }

  /** All of the images before b; of the next ImagesPerMvin, the pixels before (r, c), and the first `ch` channels of
      the run at (r, c). */
  ghost function TransDone(p: Call, b: int, r: int, c: int, rows: int, ch: int): CellSet {
    (a', ch', y', x', C) =>
      a' * DIM + C < p.batches &&
      (a' * DIM + C < b ||
       (a' * DIM + C < b + ImagesPerMvin(p) && (y' < r || (y' == r && (x' < c || (x' < c + rows && ch' < ch))))))
  }

  ghost predicate TransIn(z: Start, s: Spad, b: int, r: int, c: int, rows: int, ch: int) {
    OutsideKept(z.p.ALayout(), z.s, s) && Filled(s, z.p.ALayout(), TransFn(z), TransDone(z.p, b, r, c, rows, ch))
  }

  lemma TransGrows(p: Call, l: Layout, g: Patch, o: int, b: int, ch: int, r: int, c: int)
    requires b == o * DIM && g.cols == Min(p.batches - b, ImagesPerMvin(p))
    ensures Grows(l, g, o, ch, r, c, TransDone(p, b, r, c, g.rows, ch), TransDone(p, b, r, c, g.rows, ch + 1))
  {
    hide Layout.Row, ImagesPerMvin;
    forall a', b', c', d', C | l.In(a', b', c', d') && 0 <= C < DIM
      && TransDone(p, b, r, c, g.rows, ch + 1)(a', b', c', d', C)
      ensures TransDone(p, b, r, c, g.rows, ch)(a', b', c', d', C) || ChunkCell(g, o, ch, r, c, a', b', c', d', C)
    {
      assert (a' - o) * DIM == a' * DIM - o * DIM;
      MulFar(a' - o, DIM);
    }
  }

  lemma TransCell(z: Start, I: int, o: int, ch: int, irow: int, icol: int, addr: int, t: int, a: int, C: int)
    requires z.p.input != 0 && z.p.transInput3120 && o >= 0 && ch >= 0 && z.p.ALayout().Block() >= 0
    requires OneSided(z.p, icol, I) && 0 <= t < I
    requires addr == if AllZero(z.p, irow, icol) then 0 else z.p.InAddr(o * DIM, irow, icol, ch)
    ensures SpadIn(z.d, InputLoad(z.p), addr, t, (a - o) * DIM + C)
            == Image(z, a * DIM + C, irow + z.p.Undilated(z.p.upad), icol + t + z.p.Undilated(z.p.lpad), ch)
  {
    hide LoadElem, Layout.Block, Call.InAddr, Scale, Call.IRowsU, Call.IColsU, Call.Undilated, Call.ALayout;
    if !AllZero(z.p, irow, icol) {
      TransAddrPositive(z.p, o, irow, icol, ch);
      TransAddrRun(z.p, o, irow, icol, ch, t, a, C);
      ScaleIdentity(LoadElem(z.d, z.p.InAddr(a * DIM + C, irow, icol + t, ch)));
    }
  }

  lemma TransAddrPositive(p: Call, o: int, y: int, x: int, ch: int)
    requires p.input != 0 && p.transInput3120 && 0 <= o && 0 <= y && 0 <= x && 0 <= ch
    ensures p.InAddr(o * DIM, y, x, ch) > 0
  {
    MulLe(0, o, DIM);
    MulLe(0, ch, p.inRowDim);
    MulLe(0, ch * p.inRowDim, p.inColDim);
    MulLe(0, y, p.inColDim);
    MulLe(0, ch * p.inRowDim * p.inColDim + y * p.inColDim + x, p.batchSize);
  }

  lemma TransAddrRun(p: Call, o: int, y: int, x: int, ch: int, t: int, a: int, C: int)
    requires p.transInput3120
    ensures p.InAddr(o * DIM, y, x, ch) + t * p.batchSize + ((a - o) * DIM + C) == p.InAddr(a * DIM + C, y, x + t, ch)
  {
    assert (a - o) * DIM == a * DIM - o * DIM;
    var q := ch * p.inRowDim * p.inColDim + y * p.inColDim + x;
    assert (q + t) * p.batchSize == q * p.batchSize + t * p.batchSize;
  }

  lemma TransBrings(z: Start, g: Patch, o: int, ch: int, irow: int, icol: int, addr: int)
    requires z.p.input != 0 && z.p.transInput3120 && o >= 0 && ch >= 0 && z.p.ALayout().Block() >= 0
    requires OneSided(z.p, icol, g.rows)
    requires addr == if AllZero(z.p, irow, icol) then 0 else z.p.InAddr(o * DIM, irow, icol, ch)
    ensures Brings(z.p.ALayout(), g, o, ch, irow + z.p.Undilated(z.p.upad), icol + z.p.Undilated(z.p.lpad), TransFn(z),
                   z.d, InputLoad(z.p), addr)
  {
    hide Layout.Row, Layout.Block, SpadIn, Image, Call.InAddr, Call.Undilated, OneSided, AllZero, BlockCount;
    var p := z.p;
    var y, x := irow + p.Undilated(p.upad), icol + p.Undilated(p.lpad);
    forall a', b', c', d', C | p.ALayout().In(a', b', c', d') && 0 <= C < DIM
      && ChunkCell(g, o, ch, y, x, a', b', c', d', C)
      ensures SpadIn(z.d, InputLoad(p), addr, d' - x, (a' - o) * DIM + C) == TransFn(z)(a', b', c', d', C)
    {
      TransCell(z, g.rows, o, ch, irow, icol, addr, d' - x, a', C);
    }
  }

  /** One mvin of one channel of a run of pixels, for up to ImagesPerMvin images. */
  method TransChunk(g: Gemmini, ghost z: Start, p: Call, ghost row: int, b: nat, ghost o: nat, irow: int, icol: int,
                    I: nat, ich: nat)
    requires p == z.p && p.Fits(row) && p.transInput3120 && p.pixels == 1 && p.input != 0 && g.dram == z.d && I > 0
    requires b == o * DIM && b < p.batches && ich < p.kchs
    requires -p.Undilated(p.upad) <= irow < p.IRowsU() + p.Undilated(p.dpad)
    requires -p.Undilated(p.lpad) <= icol && icol + I <= p.IColsU() + p.Undilated(p.rpad) && OneSided(p, icol, I)
    requires p.ALayout().Block() >= 0 && g.cfg.load0 == InputLoad(p)
    requires TransIn(z, g.spad, b, irow + p.Undilated(p.upad), icol + p.Undilated(p.lpad), I, ich)
    modifies g`spad
    ensures TransIn(z, g.spad, b, irow + p.Undilated(p.upad), icol + p.Undilated(p.lpad), I, ich + 1)
  {
    hide At, Layout.Row, Layout.Block, Layout.Rows, TransFn, TransDone, Grows, Brings, Filled, OutsideKept, Call.Fits,
         Call.IRowsU, Call.IColsU, Call.Undilated, Call.InAddr, Call.AStart, OneSided, AllZero, BlockCount;
    FitsA(p, row);
    var l := p.ALayout();
    var y, x := irow + p.Undilated(p.upad), icol + p.Undilated(p.lpad);
    var K := Min(p.batches - b, ImagesPerMvin(p));
    MaxPositive(MAX_BLOCK_LEN);
    BlockOf(o);
    RunBlocks(p.batches, o, K);
    RowNat(l, o, ich, y, x);
    var patch := Patch(l.Row(b / DIM, ich, y, x), I, K, l.Block(), 1);
    var addr := if AllZero(p, irow, icol) then 0 else p.InAddr(b, irow, icol, ich);
    ghost var s := g.spad;
    SpadChunk(g, addr, patch, 0, l, o, ich, y, x);
    TransBrings(z, patch, o, ich, irow, icol, addr);
    TransGrows(p, l, patch, o, b, ich, y, x);
    FillStep(s, g.spad, l, patch, o, ich, y, x, z.d, InputLoad(p), addr, TransFn(z),
             TransDone(p, b, y, x, I, ich), TransDone(p, b, y, x, I, ich + 1));
    KeptBySpadChunk(s, g.spad, l, patch, o, ich, y, x, z.d, InputLoad(p), addr, z.s);
  }

  lemma TransStart(z: Start, s: Spad, b: int, r: int, c: int, rows: int)
    requires TransIn(z, s, b, r, c, 0, 0)
    ensures TransIn(z, s, b, r, c, rows, 0)
  {
    hide At, Layout.Row, OutsideKept, ImagesPerMvin;
    FilledLess(s, z.p.ALayout(), TransFn(z), TransDone(z.p, b, r, c, 0, 0), TransDone(z.p, b, r, c, rows, 0));
  }

  lemma TransNext(z: Start, s: Spad, b: int, r: int, c: int, rows: int)
    requires TransIn(z, s, b, r, c, rows, z.p.kchs) && z.p.transInput3120
    ensures TransIn(z, s, b, r, c + rows, 0, 0)
  {
    hide At, Layout.Row, OutsideKept, ImagesPerMvin, Call.IRows, Call.ICols;
    FilledLess(s, z.p.ALayout(), TransFn(z), TransDone(z.p, b, r, c, rows, z.p.kchs),
               TransDone(z.p, b, r, c + rows, 0, 0));
  }

  lemma TransNextRow(z: Start, s: Spad, b: int, r: int, c: int)
    requires TransIn(z, s, b, r, c, 0, 0) && z.p.ICols() <= c
    ensures TransIn(z, s, b, r + 1, 0, 0, 0)
  {
    hide At, Layout.Row, OutsideKept, ImagesPerMvin, Call.IRows, Call.ICols;
    FilledLess(s, z.p.ALayout(), TransFn(z), TransDone(z.p, b, r, c, 0, 0), TransDone(z.p, b, r + 1, 0, 0, 0));
  }

  lemma TransNextImages(z: Start, s: Spad, b: int, r: int)
    requires TransIn(z, s, b, r, 0, 0, 0) && z.p.IRows() <= r
    ensures TransIn(z, s, b + ImagesPerMvin(z.p), 0, 0, 0, 0)
  {
    hide At, Layout.Row, OutsideKept, ImagesPerMvin, Call.IRows, Call.ICols;
    FilledLess(s, z.p.ALayout(), TransFn(z), TransDone(z.p, b, r, 0, 0, 0),
               TransDone(z.p, b + ImagesPerMvin(z.p), 0, 0, 0, 0));
  }

  lemma TransNothing(z: Start)
    ensures TransIn(z, z.s, 0, 0, 0, 0, 0)
  {
    hide At, Layout.Row, ImagesPerMvin, Call.IRows, Call.ICols;
    var l := z.p.ALayout();
    forall a', b', c', d', C | l.In(a', b', c', d') && 0 <= C < DIM
      ensures !TransDone(z.p, 0, 0, 0, 0, 0)(a', b', c', d', C)
    {
      MulLe(0, a', DIM);
    }
  }

  /** The input phase for transposed input. */
  method LoadTransInput(g: Gemmini, ghost z: Start, p: Call, ghost row: int)
    requires p == z.p && p.Fits(row) && p.transInput3120 && p.pixels == 1 && p.input != 0 && g.dram == z.d
    requires g.spad == z.s
    modifies g`spad, g`cfg
    ensures p.ALayout().Block() >= 0 && g.cfg == old(g.cfg).WithLoad(0, InputLoad(p))
    ensures exists b :: p.batches <= b && TransIn(z, g.spad, b, 0, 0, 0, 0)
  {
    hide At, Layout.Row, Layout.Block, Layout.Rows, TransIn, Call.Fits, OneSided, RunLength, Call.IRowsU, Call.IColsU;
    TileSize(p, row);
    BlockNat(p.ALayout());
    g.ConfigLd(0, InputLoad(p));
    ghost var cfg := g.cfg;
    TransNothing(z);
    MaxPositive(MAX_BLOCK_LEN);
    var b := 0;
    ghost var o: nat := 0;
    while b < p.batches
      invariant 0 <= b && (b < p.batches ==> b == o * DIM)
      invariant g.cfg == cfg && TransIn(z, g.spad, b, 0, 0, 0, 0)
      decreases p.batches - b
    {
      TransRows(g, z, p, row, b, o);
      assert (o + MAX_BLOCK_LEN) * DIM == o * DIM + MAX_BLOCK_LEN * DIM;
      b := b + ImagesPerMvin(p);
      o := o + MAX_BLOCK_LEN;
    }
  }

  /** All rows, runs and channels of one batch of images. */
  method TransRows(g: Gemmini, ghost z: Start, p: Call, ghost row: int, b: nat, ghost o: nat)
    requires p == z.p && p.Fits(row) && p.transInput3120 && p.pixels == 1 && p.input != 0 && g.dram == z.d
    requires b == o * DIM && b < p.batches && p.ALayout().Block() >= 0 && g.cfg.load0 == InputLoad(p)
    requires TransIn(z, g.spad, b, 0, 0, 0, 0)
    modifies g`spad
    ensures TransIn(z, g.spad, b + ImagesPerMvin(p), 0, 0, 0, 0)
  {
    hide At, Layout.Row, Layout.Block, Layout.Rows, TransIn, Call.Fits, OneSided, RunLength, Call.IRowsU, Call.IColsU,
         InputLoad, ImagesPerMvin;
    TileSize(p, row);
    var up, left := p.Undilated(p.upad), p.Undilated(p.lpad);
    for irow := -up to p.IRowsU() + p.Undilated(p.dpad)
      invariant TransIn(z, g.spad, b, irow + up, 0, 0, 0)
    {
      var icol := -left;
      while icol < p.IColsU() + p.Undilated(p.rpad)
        invariant -left <= icol <= p.IColsU() + p.Undilated(p.rpad)
        invariant TransIn(z, g.spad, b, irow + up, icol + left, 0, 0)
        decreases p.IColsU() + p.Undilated(p.rpad) - icol
      {
        RunLengthOk(p, row, icol);
        var I := RunLength(p, icol);
        TransStart(z, g.spad, b, irow + up, icol + left, I);
        for ich := 0 to p.kchs
          invariant TransIn(z, g.spad, b, irow + up, icol + left, I, ich)
        {
          TransChunk(g, z, p, row, b, o, irow, icol, I, ich);
        }
        TransNext(z, g.spad, b, irow + up, icol + left, I);
        icol := icol + I;
      }
      TransNextRow(z, g.spad, b, irow + up, icol + left);
    }
    TransNextImages(z, g.spad, b, p.IRows());
  }

  /** The image is in: in either order of storage. */
  ghost predicate InputReady(z: Start, s: Spad) {
    if z.p.transInput3120 then exists b :: z.p.batches <= b && TransIn(z, s, b, 0, 0, 0, 0)
    else InputIn(z, s, z.p.batches, 0, 0, 0, 0)
  }

  /** The mvin-input phase. */
  method LoadInput(g: Gemmini, ghost z: Start, p: Call, ghost row: int)
    requires p == z.p && p.Fits(row) && Packing(p) && p.input != 0 && g.dram == z.d && g.spad == z.s
    modifies g`spad, g`cfg
    ensures p.ALayout().Block() >= 0 && g.cfg == old(g.cfg).WithLoad(0, InputLoad(p))
    ensures InputReady(z, g.spad) && OutsideKept(p.ALayout(), z.s, g.spad)
  {
    hide Filled, OutsideKept, AFn, PackedFn, TransFn, RunDone, PackedDone, TransDone, Call.Fits, Layout.Block;
    if p.transInput3120 {
      LoadTransInput(g, z, p, row);
    } else {
      LoadPlainInput(g, z, p, row);
    }
  }

  lemma TileSize(p: Call, row: int)
    requires p.Fits(row)
    ensures 0 <= p.IRowsU() && 0 <= p.IColsU() && 0 <= p.Undilated(p.upad) && 0 <= p.Undilated(p.dpad)
    ensures 0 <= p.Undilated(p.lpad) && 0 <= p.Undilated(p.rpad)
    ensures p.ALayout().n2 == p.IRows() && p.ALayout().n3 == p.ICols()
  {
  }

  // Weights.

  /** Address and coordinates of a weight in terms of its place in the layout. */
  function WCell(p: Call, kr: int, kc: int, d: int, ch: int): int {
    if p.transWeight0132 then p.WAddr(kr, kc, ch, d) else p.WAddr(kr, kc, d, ch)
  }

  function WStride(p: Call): int {
    if p.transWeight1203 then p.kernelDim * p.kernelDim * p.outChannels
    else if p.transWeight0132 then p.inChannels
    else p.weightStride
  }

  ghost function BFn(z: Start): CellFn {
    (a, b, c, d, C) => LoadElem(z.d, WCell(z.p, b, c, d, a * DIM + C))
  }

  function WeightLoad(p: Call): LoadState
    requires p.BLayout().Block() >= 0 && WStride(p) >= 0
  {
    LoadState(WStride(p), p.BLayout().Block(), false, 1.0, 1)
  }

  /** The weights of output channels before och, and of och .. och + span the taps before (kr, kc), channel kch. */
  ghost function WDone(p: Call, och: int, span: int, kr: int, kc: int, kch: int): CellSet {
    (a', b', c', d', C) =>
      var o, k := if p.transWeight0132 then d' else a' * DIM + C, if p.transWeight0132 then a' * DIM + C else d';
      o < p.ochs && k < p.kchs &&
      (o < och || (o < och + span && (b' < kr || (b' == kr && (c' < kc || (c' == kc && k < kch))))))
  }

  lemma WCellRun(p: Call, kr: int, kc: int, d: int, ch: int, t: int, u: int)
    requires !(p.transWeight1203 && p.transWeight0132)
    ensures WCell(p, kr, kc, d + t, ch + u) == WCell(p, kr, kc, d, ch) + t * WStride(p) + u
  {
    if p.transWeight1203 {
      var q := d * p.kernelDim * p.kernelDim + kr * p.kernelDim + kc;
      var n := p.kernelDim * p.kernelDim;
      assert (d + t) * p.kernelDim * p.kernelDim == d * p.kernelDim * p.kernelDim + t * n;
      assert (q + t * n) * p.outChannels == q * p.outChannels + t * n * p.outChannels;
      assert t * (n * p.outChannels) == t * n * p.outChannels;
    } else if p.transWeight0132 {
      var q := kr * p.kernelDim * p.outChannels + kc * p.outChannels + d;
      assert (q + t) * p.inChannels == q * p.inChannels + t * p.inChannels;
    } else {
      var q := kr * p.kernelDim * p.inChannels + kc * p.inChannels + d;
      assert (q + t) * p.weightStride == q * p.weightStride + t * p.weightStride;
    }
  }

  lemma Product3(a: int, b: int, c: int)
    requires 0 <= a && 0 <= b && 0 <= c
    ensures 0 <= a * b && 0 <= a * b * c
  {
    MulLe(0, a, b);
    MulLe(0, a * b, c);
  }

  lemma WAddrPositive(p: Call, kr: int, kc: int, kch: int, och: int)
    requires p.weights != 0 && 0 <= kr && 0 <= kc && 0 <= kch && 0 <= och
    ensures p.WAddr(kr, kc, kch, och) > 0
  {
    if p.transWeight1203 {
      Product3(kch, p.kernelDim, p.kernelDim);
      Product3(kr, p.kernelDim, 0);
      Product3(kch * p.kernelDim * p.kernelDim + kr * p.kernelDim + kc, p.outChannels, 0);
    } else if p.transWeight0132 {
      Product3(kr, p.kernelDim, p.outChannels);
      Product3(kc, p.outChannels, 0);
      Product3(kr * p.kernelDim * p.outChannels + kc * p.outChannels + och, p.inChannels, 0);
    } else {
      Product3(kr, p.kernelDim, p.inChannels);
      Product3(kc, p.inChannels, 0);
      Product3(kr * p.kernelDim * p.inChannels + kc * p.inChannels + kch, p.weightStride, 0);
    }
  }

  lemma WStrideNat(p: Call)
    ensures WStride(p) >= 0
  {
    Product3(p.kernelDim, p.kernelDim, p.outChannels);
  }

  lemma WeightBrings(z: Start, g: Patch, o: int, kr: int, kc: int, d: int)
    requires z.p.weights != 0 && o >= 0 && kr >= 0 && kc >= 0 && d >= 0 && z.p.BLayout().Block() >= 0
    requires WStride(z.p) >= 0
    requires !(z.p.transWeight1203 && z.p.transWeight0132)
    ensures Brings(z.p.BLayout(), g, o, kr, kc, d, BFn(z), z.d, WeightLoad(z.p), WCell(z.p, kr, kc, d, o * DIM))
  {
    hide Layout.Row, Layout.Block, SpadIn, WCell, LoadElem, Call.BLayout, WStride;
    forall a', b', c', d', C | z.p.BLayout().In(a', b', c', d') && 0 <= C < DIM
      && ChunkCell(g, o, kr, kc, d, a', b', c', d', C)
      ensures SpadIn(z.d, WeightLoad(z.p), WCell(z.p, kr, kc, d, o * DIM), d' - d, (a' - o) * DIM + C)
              == BFn(z)(a', b', c', d', C)
    {
      WeightCell(z, o, kr, kc, d, d' - d, a', C);
    }
  }

  lemma WeightCell(z: Start, o: int, kr: int, kc: int, d: int, t: int, a: int, C: int)
    requires z.p.weights != 0 && o >= 0 && kr >= 0 && kc >= 0 && d >= 0 && z.p.BLayout().Block() >= 0
    requires WStride(z.p) >= 0
    requires !(z.p.transWeight1203 && z.p.transWeight0132)
    ensures SpadIn(z.d, WeightLoad(z.p), WCell(z.p, kr, kc, d, o * DIM), t, (a - o) * DIM + C)
            == LoadElem(z.d, WCell(z.p, kr, kc, d + t, a * DIM + C))
  {
    hide Layout.Block, WCell, LoadElem, Call.BLayout, WStride, Scale;
    MulLe(0, o, DIM);
    assert WCell(z.p, kr, kc, d, o * DIM) > 0 by { WCellPositive(z.p, kr, kc, d, o * DIM); }
    assert (a - o) * DIM == a * DIM - o * DIM;
    WCellRun(z.p, kr, kc, d, o * DIM, t, (a - o) * DIM + C);
    ScaleIdentity(LoadElem(z.d, WCell(z.p, kr, kc, d + t, a * DIM + C)));
  }

  lemma WCellPositive(p: Call, kr: int, kc: int, d: int, ch: int)
    requires p.weights != 0 && 0 <= kr && 0 <= kc && 0 <= d && 0 <= ch
    ensures WCell(p, kr, kc, d, ch) > 0
  {
    hide Call.WAddr;
    if p.transWeight0132 { WAddrPositive(p, kr, kc, ch, d); } else { WAddrPositive(p, kr, kc, d, ch); }
  }

  lemma WGrows(p: Call, g: Patch, o: int, och: int, span: int, kr: int, kc: int, kch: int, step: int)
    requires (if p.transWeight0132 then kch else och) == o * DIM
    requires if p.transWeight0132 then g.rows == span && (g.cols == step || p.kchs <= kch + g.cols)
             else g.cols == span && (g.rows == step || p.kchs <= kch + g.rows)
    ensures Grows(p.BLayout(), g, o, kr, kc, if p.transWeight0132 then och else kch,
                  WDone(p, och, span, kr, kc, kch), WDone(p, och, span, kr, kc, kch + step))
  {
    hide Layout.Row, Call.BLayout;
    var l, d := p.BLayout(), if p.transWeight0132 then och else kch;
    forall a', b', c', d', C | l.In(a', b', c', d') && 0 <= C < DIM
      && WDone(p, och, span, kr, kc, kch + step)(a', b', c', d', C)
      ensures WDone(p, och, span, kr, kc, kch)(a', b', c', d', C) || ChunkCell(g, o, kr, kc, d, a', b', c', d', C)
    {
      assert (a' - o) * DIM == a' * DIM - o * DIM;
      MulFar(a' - o, DIM);
    }
  }

  lemma WNextTap(m: seq<seq<int>>, p: Call, f: CellFn, och: int, span: int, kr: int, kc: int, kch: int)
    requires Filled(m, p.BLayout(), f, WDone(p, och, span, kr, kc, kch)) && p.kchs <= kch
    ensures Filled(m, p.BLayout(), f, WDone(p, och, span, kr, kc + 1, 0))
  {
    hide At, Layout.Row, Call.BLayout;
    var l := p.BLayout();
    forall a', b', c', d', C | l.In(a', b', c', d') && 0 <= C < DIM
      && WDone(p, och, span, kr, kc + 1, 0)(a', b', c', d', C)
      ensures WDone(p, och, span, kr, kc, kch)(a', b', c', d', C)
    {
      MulLe(0, a', DIM);
    }
    FilledLess(m, l, f, WDone(p, och, span, kr, kc, kch), WDone(p, och, span, kr, kc + 1, 0));
  }

  lemma WNextKRow(m: seq<seq<int>>, p: Call, f: CellFn, och: int, span: int, kr: int)
    requires Filled(m, p.BLayout(), f, WDone(p, och, span, kr, p.kcols, 0))
    ensures Filled(m, p.BLayout(), f, WDone(p, och, span, kr + 1, 0, 0))
  {
    hide At, Layout.Row, Layout.Rows;
    var l := p.BLayout();
    forall a', b', c', d', C | l.In(a', b', c', d') && 0 <= C < DIM
      && WDone(p, och, span, kr + 1, 0, 0)(a', b', c', d', C)
      ensures WDone(p, och, span, kr, p.kcols, 0)(a', b', c', d', C)
    {
      MulLe(0, a', DIM);
    }
    FilledLess(m, l, f, WDone(p, och, span, kr, p.kcols, 0), WDone(p, och, span, kr + 1, 0, 0));
  }

  lemma WNextOch(m: seq<seq<int>>, p: Call, f: CellFn, och: int, span: int, span': int, och': int)
    requires Filled(m, p.BLayout(), f, WDone(p, och, span, p.krows, 0, 0))
    requires och' <= och + span || p.ochs <= och + span
    ensures Filled(m, p.BLayout(), f, WDone(p, och', span', 0, 0, 0))
  {
    hide At, Layout.Row, Layout.Rows;
    var l := p.BLayout();
    forall a', b', c', d', C | l.In(a', b', c', d') && 0 <= C < DIM && WDone(p, och', span', 0, 0, 0)(a', b', c', d', C)
      ensures WDone(p, och, span, p.krows, 0, 0)(a', b', c', d', C)
    {
      MulLe(0, a', DIM);
    }
    FilledLess(m, l, f, WDone(p, och, span, p.krows, 0, 0), WDone(p, och', span', 0, 0, 0));
  }

  function MaxPerMvin(p: Call): int {
    Min(if p.transWeight0132 then p.kchs else p.ochs, MAX_BLOCK_LEN * DIM)
  }

  function OchStep(p: Call): int { if p.transWeight0132 then DIM else MaxPerMvin(p) }
  function KchStep(p: Call): int { if p.transWeight0132 then MaxPerMvin(p) else DIM }

  /** Stepping by whole blocks, or past the end. */
  lemma NextAligned(o: nat, ch: int, chs: nat, step: int)
    requires ch == o * DIM && ch < chs
    requires step == DIM || step == Min(chs, MAX_BLOCK_LEN * DIM)
    ensures 0 < step && 0 < Min(step, chs - ch) && (ch + step < chs ==> exists o': nat :: ch + step == o' * DIM)
    ensures Min(step, chs - ch) == step || chs <= ch + Min(step, chs - ch)
  {
    MulLe(1, MAX_BLOCK_LEN, DIM);
    assert (o + 1) * DIM == o * DIM + DIM;
    assert (o + MAX_BLOCK_LEN) * DIM == o * DIM + MAX_BLOCK_LEN * DIM;
    if ch + step < chs {
      var o' := if step == DIM then o + 1 else o + MAX_BLOCK_LEN;
      assert ch + step == o' * DIM;
    }
  }

  lemma WeightChunk(p: Call, oo: nat, och: int, span: int, kr: int, kc: int, kk: nat, kch: int, K: int, J: int)
    requires 0 <= kr < p.krows && 0 <= kc < p.kcols && 0 <= och < p.ochs && 0 <= kch < p.kchs && och == oo * DIM
    requires kch == kk * DIM
    requires 0 < K && 0 < J && 0 <= p.BLayout().start && p.BLayout().Block() >= 0
    requires if p.transWeight0132 then och + K <= p.ochs && kch + J <= p.kchs
             else kch + K <= p.kchs && och + J <= p.ochs
    ensures var o, d := if p.transWeight0132 then kk else oo, if p.transWeight0132 then och else kch;
            && 0 <= p.BLayout().Row(o, kr, kc, d)
            && Chunk(p.BLayout(), Patch(p.BLayout().Row(o, kr, kc, d), K, J, p.BLayout().Block(), 1), o, kr, kc, d)
            && (if p.transWeight0132 then kch else och) / DIM == o
  {
    hide Layout.Row, Layout.Block, Layout.Rows, Call.BStart;
    var o, d := if p.transWeight0132 then kk else oo, if p.transWeight0132 then och else kch;
    RunBlocks(if p.transWeight0132 then p.kchs else p.ochs, o, J);
    BlockOf(o);
    RowNat(p.BLayout(), o, kr, kc, d);
  }

  /** Load the weights of one tap for output channels och .. och + span. */
  method LoadWeightTap(g: Gemmini, ghost z: Start, p: Call, ghost row: int, och: nat, ghost oo: nat, span: nat, kr: nat,
                       kc: nat)
    requires p == z.p && p.Fits(row) && p.weights != 0 && g.dram == z.d && !(p.transWeight1203 && p.transWeight0132)
    requires och < p.ochs && och == oo * DIM && span == Min(OchStep(p), p.ochs - och) && kr < p.krows && kc < p.kcols
    requires p.BLayout().Block() >= 0 && WStride(p) >= 0 && g.cfg.load1 == WeightLoad(p)
    requires Filled(g.spad, p.BLayout(), BFn(z), WDone(p, och, span, kr, kc, 0))
    requires OutsideKept(p.BLayout(), z.s, g.spad)
    modifies g`spad
    ensures Filled(g.spad, p.BLayout(), BFn(z), WDone(p, och, span, kr, kc + 1, 0))
    ensures OutsideKept(p.BLayout(), z.s, g.spad)
  {
    hide At, Layout.Row, Layout.Block, Layout.Rows, BFn, WDone, Grows, Brings, Filled, OutsideKept, Call.Fits,
         Call.BLayout, WCell, WStride, Chunk;
    FitsA(p, row);
    var l := p.BLayout();
    var kch := 0;
    ghost var kk: nat := 0;
    while kch < p.kchs
      invariant 0 <= kch && (kch < p.kchs ==> kch == kk * DIM)
      invariant Filled(g.spad, l, BFn(z), WDone(p, och, span, kr, kc, kch)) && OutsideKept(l, z.s, g.spad)
      decreases p.kchs - kch
    {
      NextAligned(kk, kch, p.kchs, KchStep(p));
      NextAligned(oo, och, p.ochs, OchStep(p));
      var width := Min(KchStep(p), p.kchs - kch);
      var K, J := if p.transWeight0132 then span else width, if p.transWeight0132 then width else span;
      ghost var o, d := if p.transWeight0132 then kk else oo, if p.transWeight0132 then och else kch;
      WeightChunk(p, oo, och, span, kr, kc, kk, kch, K, J);
      var at := if p.transWeight0132 then l.Row(kch / DIM, kr, kc, och) else l.Row(och / DIM, kr, kc, kch);
      var patch := Patch(at, K, J, l.Block(), 1);
      var w := if p.transWeight0132 then WCell(p, kr, kc, och, kch) else WCell(p, kr, kc, kch, och);
      ghost var s := g.spad;
      SpadChunk(g, w, patch, 1, l, o, kr, kc, d);
      WeightBrings(z, patch, o, kr, kc, d);
      WGrows(p, patch, o, och, span, kr, kc, kch, KchStep(p));
      FillStep(s, g.spad, l, patch, o, kr, kc, d, z.d, WeightLoad(p), w, BFn(z),
               WDone(p, och, span, kr, kc, kch), WDone(p, och, span, kr, kc, kch + KchStep(p)));
      KeptBySpadChunk(s, g.spad, l, patch, o, kr, kc, d, z.d, WeightLoad(p), w, z.s);
      kch := kch + KchStep(p);
      if kch < p.kchs { kk :| kch == kk * DIM; }
    }
    WNextTap(g.spad, p, BFn(z), och, span, kr, kc, kch);
  }

  /** The mvin-weights phase; `s` is the scratchpad it starts from. */
  method LoadWeights(g: Gemmini, ghost z: Start, p: Call, ghost row: int)
    requires p == z.p && p.Fits(row) && p.weights != 0 && g.dram == z.d && g.spad == z.s
    requires !(p.transWeight1203 && p.transWeight0132)
    modifies g`spad, g`cfg
    ensures p.BLayout().Block() >= 0 && WStride(p) >= 0 && g.cfg == old(g.cfg).WithLoad(1, WeightLoad(p))
    ensures Filled(g.spad, p.BLayout(), BFn(z), WDone(p, p.ochs, 0, 0, 0, 0))
    ensures OutsideKept(p.BLayout(), z.s, g.spad)
  {
    hide At, Layout.Row, Layout.Block, Layout.Rows, BFn, WDone, Filled, OutsideKept, Call.Fits, Call.BLayout, WStride,
         MaxPerMvin;
    BBlockNat(p);
    WStrideNat(p);
    g.ConfigLd(1, WeightLoad(p));
    ghost var cfg := g.cfg;
    ghost var l := p.BLayout();
    WNothingDone(g.spad, p, BFn(z));
    var och := 0;
    ghost var oo: nat := 0;
    while och < p.ochs
      invariant 0 <= och && (och < p.ochs ==> och == oo * DIM)
      invariant g.cfg == cfg && Filled(g.spad, l, BFn(z), WDone(p, och, 0, 0, 0, 0)) && OutsideKept(l, z.s, g.spad)
      decreases p.ochs - och
    {
      OchStepOk(p, oo, och);
      var span := Min(OchStep(p), p.ochs - och);
      WWiden(g.spad, p, BFn(z), och, span);
      for kr := 0 to p.krows
        invariant g.cfg == cfg && Filled(g.spad, l, BFn(z), WDone(p, och, span, kr, 0, 0))
        invariant OutsideKept(l, z.s, g.spad)
      {
        for kc := 0 to p.kcols
          invariant g.cfg == cfg && Filled(g.spad, l, BFn(z), WDone(p, och, span, kr, kc, 0))
          invariant OutsideKept(l, z.s, g.spad)
        {
          LoadWeightTap(g, z, p, row, och, oo, span, kr, kc);
        }
        WNextKRow(g.spad, p, BFn(z), och, span, kr);
      }
      WNextOch(g.spad, p, BFn(z), och, span, 0, och + OchStep(p));
      och := och + OchStep(p);
      if och < p.ochs { oo :| och == oo * DIM; }
    }
    WFinish(g.spad, p, BFn(z), och);
  }

  lemma OchStepOk(p: Call, o: nat, och: int)
    requires och == o * DIM && och < p.ochs
    ensures 0 < OchStep(p) && 0 < Min(OchStep(p), p.ochs - och)
    ensures och + OchStep(p) < p.ochs ==> exists o': nat :: och + OchStep(p) == o' * DIM
    ensures Min(OchStep(p), p.ochs - och) == OchStep(p) || p.ochs <= och + Min(OchStep(p), p.ochs - och)
  {
    NextAligned(o, och, p.ochs, OchStep(p));
  }

  lemma BBlockNat(p: Call)
    ensures p.BLayout().Block() >= 0
  {
    BlockNat(p.BLayout());
  }

  lemma WNothingDone(m: seq<seq<int>>, p: Call, f: CellFn)
    ensures Filled(m, p.BLayout(), f, WDone(p, 0, 0, 0, 0, 0)) && OutsideKept(p.BLayout(), m, m)
  {
    hide At, Layout.Row, Layout.Rows;
    var l := p.BLayout();
    forall a', b', c', d', C | l.In(a', b', c', d') && 0 <= C < DIM
      ensures !WDone(p, 0, 0, 0, 0, 0)(a', b', c', d', C)
    {
      MulLe(0, a', DIM);
    }
  }

  lemma WWiden(m: seq<seq<int>>, p: Call, f: CellFn, och: int, span: int)
    requires Filled(m, p.BLayout(), f, WDone(p, och, 0, 0, 0, 0))
    ensures Filled(m, p.BLayout(), f, WDone(p, och, span, 0, 0, 0))
  {
    hide At, Layout.Row, Layout.Rows;
    var l := p.BLayout();
    forall a', b', c', d', C | l.In(a', b', c', d') && 0 <= C < DIM && WDone(p, och, span, 0, 0, 0)(a', b', c', d', C)
      ensures WDone(p, och, 0, 0, 0, 0)(a', b', c', d', C)
    {
      MulLe(0, a', DIM);
    }
    FilledLess(m, l, f, WDone(p, och, 0, 0, 0, 0), WDone(p, och, span, 0, 0, 0));
  }

  lemma WFinish(m: seq<seq<int>>, p: Call, f: CellFn, och: int)
    requires Filled(m, p.BLayout(), f, WDone(p, och, 0, 0, 0, 0)) && p.ochs <= och
    ensures Filled(m, p.BLayout(), f, WDone(p, p.ochs, 0, 0, 0, 0))
  {
    hide At, Layout.Row, Layout.Rows;
    FilledLess(m, p.BLayout(), f, WDone(p, och, 0, 0, 0, 0), WDone(p, p.ochs, 0, 0, 0, 0));
  }
}
