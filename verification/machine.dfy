/** The accelerator's state and its micro-instructions. */
module Machine {
  import opened Params
  import opened Wrap
  import opened Sums
  import opened Dram
  import opened Grid
  import opened Scaling
  import opened State
  import opened Patches
  import opened Norm

  /** The element a move-in to the scratchpad reads; address 0 stands for a zero matrix. */
  function SpadIn(d: Memory, ls: LoadState, addr: int, row: int, col: int): Elem {
    if addr == 0 then 0 else Scale(LoadElem(d, addr + row * ls.stride + col), ls.scale)
  }

  /** The value a move-in to the accumulator reads, int32 or (shrunk) scaled int8. */
  function AccIn(d: Memory, ls: LoadState, addr: int, row: int, col: int): Acc {
    if addr == 0 then 0
    else if ls.shrunk then Scale(LoadElem(d, addr + row * ls.stride + col), ls.scale)
    else LoadAcc(d, addr + row * ls.stride + 4 * col)
  }

  /** An accumulator cell after `v` arrives: on top of what was there, or instead of it. */
  function Landed(was: int, v: int, accumulate: bool): Acc {
    Wrap32(if accumulate then was + v else v)
  }

  /** Cell (R, C) after the elements before (row, col) have been moved in one by one: a later element replaces an
      earlier one. */
  ghost function SpadAfter(d: Memory, ls: LoadState, addr: int, g: Patch, s: Spad, R: int, C: int, row: nat,
                           col: nat): int
    decreases row, col
  {
    if col > 0 then
      if Lands(g, row, col - 1, R, C) then SpadIn(d, ls, addr, row, col - 1)
      else SpadAfter(d, ls, addr, g, s, R, C, row, col - 1)
    else if row > 0 then SpadAfter(d, ls, addr, g, s, R, C, row - 1, g.cols)
    else At(s, R, C)
  }

  /** The same in the accumulator, where elements landing on one cell may add up. */
  ghost function AccAfter(d: Memory, ls: LoadState, addr: int, g: Patch, accumulate: bool, m: AccMem, R: int, C: int,
                          row: nat, col: nat): int
    decreases row, col
  {
    if col > 0 then
      var was := AccAfter(d, ls, addr, g, accumulate, m, R, C, row, col - 1);
      if Lands(g, row, col - 1, R, C) then Landed(was, AccIn(d, ls, addr, row, col - 1), accumulate) else was
    else if row > 0 then AccAfter(d, ls, addr, g, accumulate, m, R, C, row - 1, g.cols)
    else At(m, R, C)
  }

  ghost function RowOf(m: AccMem, row: int): int -> int {
    i => At(m, row, i)
  }

  /** In row-major order, (r, c) comes before (row, col). */
  predicate Before(r: int, c: int, row: int, col: int) {
    r < row || (r == row && c < col)
  }

  /** A compute operand: a scratchpad address, or nothing for the all-ones address. */
  datatype Operand = Operand(src: Option<nat>, rows: nat, cols: nat)

  function PreloadCell(s: Spad, pre: PreloadRegs, transpose: bool, i: int, j: int): int {
    if pre.src.Some? && i < pre.rows && j < pre.cols
    then if transpose then At(s, pre.src.value + j, i) else At(s, pre.src.value + i, j)
    else 0
  }

  function ACell(s: Spad, cfg: Config, a: Operand, i: int, k: int): int {
    if a.src.Some? && i < a.rows && k < a.cols
    then if cfg.aTranspose then At(s, RowAt(a.src.value, cfg.aStride, k), i)
         else At(s, RowAt(a.src.value, cfg.aStride, i), k)
    else 0
  }

  function BCell(s: Spad, cfg: Config, b: Operand, k: int, j: int): int {
    if b.src.Some? && k < b.rows && j < b.cols
    then if cfg.bTranspose then At(s, b.src.value + j, k) else At(s, b.src.value + k, j)
    else 0
  }

  function DCell(s: Spad, d: Operand, i: int, j: int): int {
    if d.src.Some? && i < d.rows && j < d.cols then At(s, d.src.value + i, j) else 0
  }

  predicate ABounds(cfg: Config, a: Operand) {
    a.src.Some? && (a.rows > 0 && a.cols > 0 ==>
      RowAt(a.src.value, cfg.aStride, Min(if cfg.aTranspose then a.cols else a.rows, DIM) - 1) < SPAD_ROWS)
  }

  predicate BDBounds(cfg: Config, b: Operand) {
    b.src.Some? && b.rows > 0 && b.cols > 0 ==>
      && b.src.value + Min(b.rows, DIM) <= SPAD_ROWS
      && (cfg.mode == OS && cfg.bTranspose ==> b.src.value + Min(b.cols, DIM) <= SPAD_ROWS)
  }

  predicate PreloadBounds(cfg: Config, pre: PreloadRegs) {
    pre.src.Some? && pre.rows > 0 && pre.cols > 0 ==>
      pre.src.value + Min(if cfg.mode == WS && cfg.bTranspose then pre.cols else pre.rows, DIM) <= SPAD_ROWS
  }

  predicate OutBounds(cfg: Config, pre: PreloadRegs) {
    pre.out.Some? && pre.outRows > 0 && pre.outCols > 0 ==>
      && pre.outRows <= DIM && pre.outCols <= DIM
      && RowAt(pre.out.value.row, cfg.cStride, pre.outRows - 1)
         < (if pre.out.value.accumulator then ACC_ROWS else SPAD_ROWS)
  }

  ghost function WsTerms(s: Spad, pe: PeGrid, cfg: Config, a: Operand, i: int, j: int): int -> int {
    k => ACell(s, cfg, a, i, k) * At(pe, k, j)
  }

  ghost function OsTerms(s: Spad, cfg: Config, a: Operand, b: Operand, i: int, j: int): int -> int {
    k => ACell(s, cfg, a, i, k) * BCell(s, cfg, b, k, j)
  }

  /** Element (i, j) as mvout writes it; columns beyond DIM continue DIM rows further on. */
  function OutCell(s: Spad, m: AccMem, cfg: Config, stat: NormStat, src: Source, i: int, j: int): (v: Acc)
    ensures OutFits(src.Wide(), v)
  {
    var r, c := src.row + j / DIM * DIM + i, j % DIM;
    if src.accumulator then OutValue(cfg, stat, src.full, AccAt(m, r, c)) else SpadAt(s, r, c)
  }

  predicate OutRows(src: Source, rows: int, cols: int) {
    cols > 0 ==>
      && src.row + (cols - 1) / DIM * DIM + rows <= ACC_ROWS
      && (!src.accumulator ==> src.row + (cols - 1) / DIM * DIM + rows <= SPAD_ROWS)
  }

  /** The statistics after the first n blocks of a row have been shown to them. */
  ghost function NormBlocks(s: NormStat, m: AccMem, k: NormConsts, row: int, cols: nat, cmd: NormCmd,
                            n: nat): NormStat {
    if n == 0 then s
    else NormStep(NormBlocks(s, m, k, row, cols, cmd, n - 1), RowOf(m, row + Flat(n - 1, DIM, 0)),
                  BlockLen(cols, n - 1),
                  if cols <= Flat(n, DIM, 0) then cmd else NonTerminating(cmd), k)
  }

  function BlockLen(cols: nat, n: nat): nat {
    if Flat(n, DIM, 0) >= cols then 0 else Min(DIM, cols - Flat(n, DIM, 0))
  }

  function BlockCount(cols: nat): nat {
    (cols + DIM - 1) / DIM
  }

  ghost function NormRows(s: NormStat, m: AccMem, k: NormConsts, row: int, rows: nat, cols: nat,
                          cmd: NormCmd): NormStat {
    if rows == 0 then s
    else NormBlocks(NormRows(s, m, k, row, rows - 1, cols, cmd), m, k, row + rows - 1, cols, cmd, BlockCount(cols))
  }

  lemma {:induction false} NormBlocksReset(s: NormStat, m: AccMem, k: NormConsts, row: int, cols: nat, n: nat)
    ensures SameOutputs(s, NormBlocks(s, m, k, row, cols, RESET, n))
    ensures s.reset ==> NormBlocks(s, m, k, row, cols, RESET, n).reset
  {
    if n > 0 { NormBlocksReset(s, m, k, row, cols, n - 1); }
  }

  lemma {:induction false} NormRowsReset(s: NormStat, m: AccMem, k: NormConsts, row: int, rows: nat, cols: nat)
    ensures SameOutputs(s, NormRows(s, m, k, row, rows, cols, RESET))
    ensures s.reset ==> NormRows(s, m, k, row, rows, cols, RESET).reset
  {
    if rows > 0 {
      NormRowsReset(s, m, k, row, rows - 1, cols);
      NormBlocksReset(NormRows(s, m, k, row, rows - 1, cols, RESET), m, k, row + rows - 1, cols, BlockCount(cols));
    }
  }

  lemma BlockStep(cols: nat, n: nat, j: int)
    requires j == Flat(n, DIM, 0) && j < cols
    ensures j / DIM == n && Flat(n + 1, DIM, 0) == j + DIM && n < BlockCount(cols)
    ensures j <= (cols - 1) / DIM * DIM
  {
    DivUnique(j, DIM, n, 0);
    var q := (cols - 1) / DIM;
    assert n <= q by { DivMono(j, cols - 1); }
    MulLe(n, q, DIM);
    DivUnique(cols + DIM - 1, DIM, q + 1, (cols - 1) % DIM);
  }

  lemma DivMono(x: int, y: int)
    requires x <= y
    ensures x / DIM <= y / DIM
  {
    var q, r, q', r' := x / DIM, x % DIM, y / DIM, y % DIM;
    assert x == q * DIM + r && y == q' * DIM + r';
    QuotientOrder(q, r, q', r');
  }

  lemma QuotientOrder(q: int, r: int, q': int, r': int)
    requires 0 <= r < DIM && 0 <= r' < DIM && q * DIM + r <= q' * DIM + r'
    ensures q <= q'
  {
    MulFar(q - q', DIM);
    assert (q - q') * DIM == q * DIM - q' * DIM;
  }

  lemma BlocksDone(cols: nat, n: nat)
    requires n <= BlockCount(cols) && cols <= Flat(n, DIM, 0)
    ensures n == BlockCount(cols)
  {
    var q := BlockCount(cols);
    MulFar(q - n, DIM);
    assert (q - n) * DIM == q * DIM - n * DIM;
  }

  class Gemmini {
    var spad: Spad
    var acc: AccMem
    var pe: PeGrid
    var dram: Memory
    var cfg: Config
    var norm: NormBank
    var statId: StatId
    var pre: PreloadRegs
    // Where loop_conv_ws puts its next bias and its next sums; survives a reset.
    var dRow: nat
    var cRow: nat

    /** config_mvin: set one of the three load states. */
    method ConfigLd(id: int, ls: LoadState)
      modifies `cfg
      ensures cfg == old(cfg).WithLoad(id, ls)
    {
      cfg := cfg.WithLoad(id, ls);
    }

    /** config_mvout: set the store stride, activation, scale and pooling. */
    method ConfigSt(stride: nat, act: int, scale: real, regs: PoolRegs)
      modifies `cfg
      ensures cfg == old(cfg).WithStore(stride, act, scale, regs)
    {
      cfg := cfg.WithStore(stride, act, scale, regs);
    }

    /** config_ex; the combinations of dataflow and transposes it asserts against are excluded. */
    method ConfigEx(flow: Dataflow, act: int, shift: nat, a: nat, c: nat, aT: bool, bT: bool)
      requires !(flow == OS && !aT && bT) && !(flow == WS && aT && bT)
      modifies `cfg
      ensures cfg == old(cfg).WithExecute(flow, act, shift, a, c, aT, bT)
    {
      cfg := cfg.WithExecute(flow, act, shift, a, c, aT, bT);
    }

    /** config_norm; the top activation bit is only ever added to code 0. */
    method ConfigNorm(id: StatId, q: Acc, inverse: bool, softmax: bool, qb: Acc, qc: Acc)
      requires softmax ==> cfg.accAct == NONE || cfg.accAct == SOFTMAX
      modifies `cfg, `statId
      ensures cfg == old(cfg).WithNorm(q, inverse, softmax, qb, qc) && statId == id
    {
      cfg := cfg.WithNorm(q, inverse, softmax, qb, qc);
      statId := id;
    }

    /** config_ex with the strides-only bit: set the row strides of operand A and of the output. */
    method ConfigStrides(a: nat, c: nat)
      modifies `cfg
      ensures cfg == old(cfg).(aStride := a, cStride := c)
    {
      cfg := cfg.(aStride := a, cStride := c);
    }

    /** config_norm with the stat-id-only bit: select a statistic. */
    method ConfigStat(id: StatId)
      modifies `statId
      ensures statId == id
    {
      statId := id;
    }

    /** Write one element to its `pixels` cells. */
    method MvinSpadElement(g: Patch, row: nat, col: nat, v: Elem)
      requires InBounds(g, SPAD_ROWS) && row < g.rows && col < g.cols
      modifies `spad
      ensures forall R, C :: 0 <= R && 0 <= C < DIM ==>
                At(spad, R, C) == if Lands(g, row, col, R, C) then v else old(At(spad, R, C))
    {
      hide LandRow, LandCol, At, Rect;
      var r := LandRow(g, row, col);
      LandRowNat(g, row, col);
      var pixel := 0;
      while pixel < g.pixels && pixel <= r
        invariant 0 <= pixel <= g.pixels
        invariant pixel <= r + 1
        invariant forall R, C :: 0 <= R && 0 <= C < DIM ==>
                    At(spad, R, C) == if Lands(g, row, col, R, C) && r - R < pixel then v else old(At(spad, R, C))
      {
        PixelFits(g, col, pixel);
        spad := SetSpad(spad, r - pixel, LandCol(g, col, pixel), v);
        pixel := pixel + 1;
      }
    }

    method MvinAccElement(g: Patch, row: nat, col: nat, v: Acc, accumulate: bool)
      requires InBounds(g, ACC_ROWS) && row < g.rows && col < g.cols
      modifies `acc
      ensures forall R, C :: 0 <= R && 0 <= C < DIM ==>
                At(acc, R, C) == if Lands(g, row, col, R, C) then Landed(old(At(acc, R, C)), v, accumulate)
                                 else old(At(acc, R, C))
    {
      hide LandRow, LandCol, At, Rect, Wrap32;
      var r := LandRow(g, row, col);
      LandRowNat(g, row, col);
      var pixel := 0;
      while pixel < g.pixels && pixel <= r
        invariant 0 <= pixel <= g.pixels
        invariant pixel <= r + 1
        invariant forall R, C :: 0 <= R && 0 <= C < DIM ==>
                    At(acc, R, C) == if Lands(g, row, col, R, C) && r - R < pixel
                                     then Landed(old(At(acc, R, C)), v, accumulate) else old(At(acc, R, C))
      {
        PixelFits(g, col, pixel);
        var was := At(acc, r - pixel, LandCol(g, col, pixel));
        acc := SetAcc(acc, r - pixel, LandCol(g, col, pixel), Landed(was, v, accumulate));
        pixel := pixel + 1;
      }
    }

    /** mvin into the scratchpad. */
    method MvinSpad(addr: int, g: Patch, id: int)
      requires InBounds(g, SPAD_ROWS) && g.pixels == cfg.Load(id).pixels && g.blockStride == cfg.Load(id).blockStride
      modifies `spad
      ensures forall R, C :: 0 <= R && 0 <= C < DIM ==>
                At(spad, R, C) == SpadAfter(dram, cfg.Load(id), addr, g, old(spad), R, C, g.rows, 0)
      ensures Separate(g) ==> forall R, C :: 0 <= R && 0 <= C < DIM ==>
                At(spad, R, C) == if Hit(g, R, C)
                then SpadIn(dram, cfg.Load(id), addr, SrcRow(g, R, C), SrcCol(g, R, C))
                                  else old(At(spad, R, C))
    {
      hide LandRow, LandCol, At, Rect, SpadIn, Lands, Hit, SrcRow, SrcCol;
      var ls := cfg.Load(id);
      SourceRange(g);
      for row := 0 to g.rows
        invariant forall R, C :: 0 <= R && 0 <= C < DIM ==>
                    At(spad, R, C) == SpadAfter(dram, ls, addr, g, old(spad), R, C, row, 0)
        invariant Separate(g) ==> forall R, C :: 0 <= R && 0 <= C < DIM ==>
                    At(spad, R, C) == if Hit(g, R, C) && Before(SrcRow(g, R, C), SrcCol(g, R, C), row, 0)
                                      then SpadIn(dram, ls, addr, SrcRow(g, R, C), SrcCol(g, R, C))
                                      else old(At(spad, R, C))
      {
        for col := 0 to g.cols
          invariant forall R, C :: 0 <= R && 0 <= C < DIM ==>
                      At(spad, R, C) == SpadAfter(dram, ls, addr, g, old(spad), R, C, row, col)
          invariant Separate(g) ==> forall R, C :: 0 <= R && 0 <= C < DIM ==>
                      At(spad, R, C) == if Hit(g, R, C) && Before(SrcRow(g, R, C), SrcCol(g, R, C), row, col)
                                        then SpadIn(dram, ls, addr, SrcRow(g, R, C), SrcCol(g, R, C))
                                        else old(At(spad, R, C))
        {
          MvinSpadElement(g, row, col, SpadIn(dram, ls, addr, row, col));
          if Separate(g) { LandsIffSource(g, row, col); }
        }
      }
    }

    /** mvin into the accumulator, overwriting or accumulating. */
    method MvinAcc(addr: int, g: Patch, accumulate: bool, id: int)
      requires InBounds(g, ACC_ROWS) && g.pixels == cfg.Load(id).pixels && g.blockStride == cfg.Load(id).blockStride
      modifies `acc
      ensures forall R, C :: 0 <= R && 0 <= C < DIM ==>
                At(acc, R, C) == AccAfter(dram, cfg.Load(id), addr, g, accumulate, old(acc), R, C, g.rows, 0)
      ensures Separate(g) ==> forall R, C :: 0 <= R && 0 <= C < DIM ==>
                At(acc, R, C) == if Hit(g, R, C)
                                 then Landed(old(At(acc, R, C)),
                                             AccIn(dram, cfg.Load(id), addr, SrcRow(g, R, C), SrcCol(g, R, C)),
                                               accumulate)
                                 else old(At(acc, R, C))
    {
      hide LandRow, LandCol, At, Rect, AccIn, Lands, Hit, SrcRow, SrcCol, Landed;
      var ls := cfg.Load(id);
      SourceRange(g);
      for row := 0 to g.rows
        invariant forall R, C :: 0 <= R && 0 <= C < DIM ==>
                    At(acc, R, C) == AccAfter(dram, ls, addr, g, accumulate, old(acc), R, C, row, 0)
        invariant Separate(g) ==> forall R, C :: 0 <= R && 0 <= C < DIM ==>
                    At(acc, R, C) == if Hit(g, R, C) && Before(SrcRow(g, R, C), SrcCol(g, R, C), row, 0)
                                     then Landed(old(At(acc, R, C)),
                                                 AccIn(dram, ls, addr, SrcRow(g, R, C), SrcCol(g, R, C)), accumulate)
                                     else old(At(acc, R, C))
      {
        for col := 0 to g.cols
          invariant forall R, C :: 0 <= R && 0 <= C < DIM ==>
                      At(acc, R, C) == AccAfter(dram, ls, addr, g, accumulate, old(acc), R, C, row, col)
          invariant Separate(g) ==> forall R, C :: 0 <= R && 0 <= C < DIM ==>
                      At(acc, R, C) == if Hit(g, R, C) && Before(SrcRow(g, R, C), SrcCol(g, R, C), row, col)
                                       then Landed(old(At(acc, R, C)),
                                                   AccIn(dram, ls, addr, SrcRow(g, R, C), SrcCol(g, R, C)), accumulate)
                                       else old(At(acc, R, C))
        {
          MvinAccElement(g, row, col, AccIn(dram, ls, addr, row, col), accumulate);
          if Separate(g) { LandsIffSource(g, row, col); }
        }
      }
    }

    /** The preload half of compute: fill the array from the scratchpad, zero elsewhere. */
    method PreloadArray()
      requires PreloadBounds(cfg, pre)
      modifies `pe
      ensures forall i, j :: 0 <= i < DIM && 0 <= j < DIM ==>
                At(pe, i, j) == PreloadCell(spad, pre, cfg.mode == WS && cfg.bTranspose, i, j)
    {
      hide Rect, At;
      var transpose := cfg.mode == WS && cfg.bTranspose;
      for i := 0 to DIM
        invariant forall i', j :: 0 <= i' < i && 0 <= j < DIM ==>
                    At(pe, i', j) == PreloadCell(spad, pre, transpose, i', j)
      {
        for j := 0 to DIM
          invariant forall i', j' :: 0 <= i' < i && 0 <= j' < DIM ==>
                      At(pe, i', j') == PreloadCell(spad, pre, transpose, i', j')
          invariant forall j' :: 0 <= j' < j ==> At(pe, i, j') == PreloadCell(spad, pre, transpose, i, j')
        {
          var v := 0;
          if pre.src.Some? && i < pre.rows && j < pre.cols {
            v := ReadSpad(spad, pre.src.value + (if transpose then j else i), if transpose then i else j);
          }
          pe := SetPe(pe, i, j, v);
        }
      }
    }

    /** One output cell in weight-stationary mode, on top of its bias operand. */
    method DotWs(a: Operand, i: nat, j: nat, bias: Acc) returns (v: Acc)
      requires ABounds(cfg, a) && i < DIM && j < DIM
      ensures v == Wrap32(bias + Sum(DIM, WsTerms(spad, pe, cfg, a, i, j)))
    {
      hide Rect, At, Wrap32, ACell, BCell;
      ghost var f := WsTerms(spad, pe, cfg, a, i, j);
      v := bias;
      assert v == Wrap32(bias) by { WrapSame(bias); }
      for k := 0 to DIM
        invariant v == Wrap32(bias + Sum(k, f))
      {
        var x: int := ReadA(spad, cfg, a, i, k);
        var w := At(pe, k, j);
        WrapAdd(bias + Sum(k, f), x * w);
        v := Wrap32(v + x * w);
        assert f(k) == x * w;
      }
    }

    /** One array cell in output-stationary mode. */
    method DotOs(a: Operand, b: Operand, i: nat, j: nat, start: Acc) returns (v: Acc)
      requires ABounds(cfg, a) && BDBounds(cfg, b) && cfg.mode == OS && i < DIM && j < DIM
      ensures v == Wrap32(start + Sum(DIM, OsTerms(spad, cfg, a, b, i, j)))
    {
      hide Rect, At, Wrap32, ACell, BCell;
      ghost var f := OsTerms(spad, cfg, a, b, i, j);
      v := start;
      assert v == Wrap32(start) by { WrapSame(start); }
      for k := 0 to DIM
        invariant v == Wrap32(start + Sum(k, f))
      {
        var x: int := ReadA(spad, cfg, a, i, k);
        var w: int := ReadB(spad, cfg, b, k, j);
        WrapAdd(start + Sum(k, f), x * w);
        v := Wrap32(v + x * w);
        assert f(k) == x * w;
      }
    }

    /** The multiply half of compute in WS mode: a fresh result matrix, the array untouched. */
    method MatMulWs(a: Operand, d: Operand) returns (results: PeGrid)
      requires ABounds(cfg, a) && BDBounds(cfg, d)
      ensures forall i, j :: 0 <= i < DIM && 0 <= j < DIM ==> At(results, i, j) == WsResult(spad, pe, cfg, a, d, i, j)
    {
      hide Rect, At, Wrap32, ACell, DCell, ABounds, BDBounds, WsTerms, WsResult;
      results := pe;
      for i := 0 to DIM
        invariant forall i', j :: 0 <= i' < i && 0 <= j < DIM ==>
                    At(results, i', j) == WsResult(spad, pe, cfg, a, d, i', j)
      {
        for j := 0 to DIM
          invariant forall i', j' :: 0 <= i' < i && 0 <= j' < DIM ==>
                      At(results, i', j') == WsResult(spad, pe, cfg, a, d, i', j')
          invariant forall j' :: 0 <= j' < j ==> At(results, i, j') == WsResult(spad, pe, cfg, a, d, i, j')
        {
          var v := DotWs(a, i, j, ReadD(spad, cfg, d, i, j));
          WsResultDef(spad, pe, cfg, a, d, i, j);
          results := SetPe(results, i, j, v);
        }
      }
    }

    /** The multiply half of compute in OS mode: the array accumulates. */
    method MatMulOs(a: Operand, b: Operand)
      requires ABounds(cfg, a) && BDBounds(cfg, b) && cfg.mode == OS
      modifies `pe
      ensures forall i, j :: 0 <= i < DIM && 0 <= j < DIM ==> At(pe, i, j) == OsResult(spad, old(pe), cfg, a, b, i, j)
    {
      hide Rect, At, Wrap32, ACell, BCell, ABounds, BDBounds, OsTerms, OsResult;
      ghost var pe0 := pe;
      for i := 0 to DIM
        invariant forall i', j :: 0 <= i' < i && 0 <= j < DIM ==> At(pe, i', j) == OsResult(spad, pe0, cfg, a, b, i', j)
        invariant forall i', j :: i <= i' ==> At(pe, i', j) == At(pe0, i', j)
      {
        for j := 0 to DIM
          invariant forall i', j' :: 0 <= i' < i && 0 <= j' < DIM ==>
                      At(pe, i', j') == OsResult(spad, pe0, cfg, a, b, i', j')
          invariant forall j' :: 0 <= j' < j ==> At(pe, i, j') == OsResult(spad, pe0, cfg, a, b, i, j')
          invariant forall i', j' :: i < i' || (i == i' && j <= j') ==> At(pe, i', j') == At(pe0, i', j')
        {
          var v := DotOs(a, b, i, j, ReadPe(pe, i, j));
          OsResultDef(spad, pe0, cfg, a, b, i, j);
          pe := SetPe(pe, i, j, v);
        }
      }
    }

    /** The write-back half of compute, to the accumulator: unshifted values, overwrite or accumulate. */
    method WriteBackAcc(values: PeGrid)
      requires pre.out.Some? && pre.out.value.accumulator && OutBounds(cfg, pre)
      modifies `acc
      ensures WrittenAcc(cfg, pre, values, old(acc), acc)
    {
      hide Rect, At, Wrap32, Strided, IndexOf, RowAt, Landed;
      var base, stride, keep := pre.out.value.row, cfg.cStride, pre.out.value.accumulate;
      ghost var m := acc;
      for i := 0 to pre.outRows
        invariant forall R, C :: 0 <= R && 0 <= C < DIM ==> At(acc, R, C) == AccRows(cfg, pre, values, m, R, C, i)
      {
        for j := 0 to pre.outCols
          invariant forall R, C :: 0 <= R && 0 <= C < DIM ==>
                      At(acc, R, C) ==
                      if R == RowAt(base, stride, i) && C < j
                      then Landed(AccRows(cfg, pre, values, m, R, C, i), At(values, i, C), keep)
                      else AccRows(cfg, pre, values, m, R, C, i)
        {
          var r := RowAt(base, stride, i);
          RowAtLe(base, stride, i, pre.outRows - 1);
          acc := SetAcc(acc, r, j, Landed(At(acc, r, j), ReadPe(values, i, j), keep));
        }
      }
      AccRowsClosed(cfg, pre, values, m);
    }

    /** The write-back half of compute, to the scratchpad: shifted, saturated and activated. */
    method WriteBackSpad(values: PeGrid)
      requires pre.out.Some? && !pre.out.value.accumulator && OutBounds(cfg, pre)
      modifies `spad
      ensures WrittenSpad(cfg, pre, values, old(spad), spad)
    {
      hide Rect, At, Wrap32, Strided, IndexOf, RowAt, SysOut;
      var base, stride := pre.out.value.row, cfg.cStride;
      ghost var s := spad;
      for i := 0 to pre.outRows
        invariant forall R, C :: 0 <= R && 0 <= C < DIM ==> At(spad, R, C) == SpadRows(cfg, pre, values, s, R, C, i)
      {
        for j := 0 to pre.outCols
          invariant forall R, C :: 0 <= R && 0 <= C < DIM ==>
                      At(spad, R, C) ==
                      if R == RowAt(base, stride, i) && C < j then SysOut(cfg, At(values, i, C))
                      else SpadRows(cfg, pre, values, s, R, C, i)
        {
          var r := RowAt(base, stride, i);
          RowAtLe(base, stride, i, pre.outRows - 1);
          spad := SetSpad(spad, r, j, SysOut(cfg, At(values, i, j)));
        }
      }
      SpadRowsClosed(cfg, pre, values, s);
    }

    /** The compute instruction: optional preload, multiply, write back. */
    method Compute(a: Operand, bd: Operand, preload: bool)
      requires ABounds(cfg, a) && BDBounds(cfg, bd) && OutBounds(cfg, pre)
      requires preload ==> PreloadBounds(cfg, pre)
      modifies `pe, `acc, `spad
      ensures ComputeEffect(cfg, pre, a, bd, preload, old(spad), old(pe), old(acc), spad, pe, acc)
    {
      hide Rect, At, ABounds, BDBounds, OutBounds, PreloadBounds, WsResult, OsResult, Strided, IndexOf, Landed, SysOut,
           PreloadCell;
      if preload {
        PreloadArray();
      }
      ghost var loaded := pe;
      var values := pe;
      if cfg.mode == WS {
        values := MatMulWs(a, bd);
      } else {
        MatMulOs(a, bd);
        values := pe;
      }
      if pre.out.Some? {
        if pre.out.value.accumulator {
          WriteBackAcc(values);
        } else {
          WriteBackSpad(values);
        }
      }
      assert Multiplied(cfg, a, bd, old(spad), loaded, pe, values);
    }

    /** The preload instruction only latches its operands. */
    method Preload(src: Option<nat>, rows: nat, cols: nat, out: Option<Dest>, outRows: nat, outCols: nat)
      modifies `pre
      ensures pre == PreloadRegs(src, rows, cols, out, outRows, outCols)
    {
      pre := PreloadRegs(src, rows, cols, out, outRows, outCols);
    }

    /** Update the selected statistic from the first `len` values of an accumulator row;
        only RESET lets the row be written out. */
    method ApplyNorm(row: nat, len: nat, cmd: NormCmd) returns (write: bool)
      requires row < ACC_ROWS && len <= DIM
      modifies `norm
      ensures norm == old(norm)[statId := NormStep(old(norm)[statId], RowOf(acc, row), len, cmd, cfg.consts)]
      ensures write <==> cmd == RESET
    {
      var s := Fresh(norm[statId]).(reset := EndsPass(cmd));
      s := GatherRow(s, row, len, cmd);
      norm := norm[statId := Finish(s, cmd)];
      write := cmd == RESET;
    }

    method GatherRow(s: NormStat, row: nat, len: nat, cmd: NormCmd) returns (r: NormStat)
      requires row < ACC_ROWS && len <= DIM
      ensures r == Gather(s, RowOf(acc, row), len, cmd, cfg.consts)
    {
      hide Rect, At, Wrap32, ExpTerm, Exps;
      r := s;
      if cmd == SUM || cmd == MEAN {
        var sum := SumRow(s, row, len, false, 0);
        r := s.(sum := sum, count := Wrap32(s.count + len));
      } else if cmd == VARIANCE || cmd == INV_STDDEV {
        var sum := SumRow(s, row, len, true, s.mean);
        r := s.(sum := sum, count := Wrap32(s.count + len));
      } else if cmd == MAX {
        var max := MaxRow(s.runningMax, row, len);
        r := s.(runningMax := max);
      } else if cmd == SUM_EXP || cmd == INV_SUM_EXP {
        var sum := ExpRow(s, row, len, s.runningMax);
        r := s.(max := s.runningMax, sum := sum);
      }
    }

    method SumRow(s: NormStat, row: nat, len: nat, squares: bool, mean: Acc) returns (sum: Acc)
      requires row < ACC_ROWS && len <= DIM
      ensures sum == Wrap32(s.sum + Sum(len, if squares then Deviations(RowOf(acc, row), mean) else RowOf(acc, row)))
    {
      hide Rect, At, Wrap32;
      ghost var f := if squares then Deviations(RowOf(acc, row), mean) else RowOf(acc, row);
      sum := s.sum;
      assert sum == Wrap32(s.sum) by { WrapSame(s.sum); }
      for i := 0 to len
        invariant sum == Wrap32(s.sum + Sum(i, f))
      {
        var x := At(acc, row, i);
        var term := if squares then (x - mean) * (x - mean) else x;
        assert f(i) == term;
        WrapAdd(s.sum + Sum(i, f), term);
        sum := Wrap32(sum + term);
      }
    }

    method MaxRow(start: Acc, row: nat, len: nat) returns (max: Acc)
      requires row < ACC_ROWS && len <= DIM
      ensures max == Wrap32(MaxFrom(start, len, RowOf(acc, row)))
    {
      hide Rect, At, Wrap32;
      ghost var f := RowOf(acc, row);
      max := start;
      for i := 0 to len
        invariant max == MaxFrom(start, i, f)
      {
        AccRange(acc, row, i);
        var x := At(acc, row, i);
        assert f(i) == x;
        max := if x > max then x else max;
      }
      WrapSame(max);
    }

    method ExpRow(s: NormStat, row: nat, len: nat, max: Acc) returns (sum: Acc)
      requires row < ACC_ROWS && len <= DIM
      ensures sum == Wrap32(s.sum + Sum(len, Exps(RowOf(acc, row), max, cfg.consts)))
    {
      hide Rect, At, Wrap32, ExpTerm, Exps;
      var k := cfg.consts;
      ghost var f := Exps(RowOf(acc, row), max, k);
      sum := s.sum;
      assert sum == Wrap32(s.sum) by { WrapSame(s.sum); }
      for i := 0 to len
        invariant sum == Wrap32(s.sum + Sum(i, f))
      {
        var x := At(acc, row, i);
        var term := ExpTerm(x, max, k);
        ExpsAt(RowOf(acc, row), max, k, i);
        assert f(i) == term;
        WrapAdd(s.sum + Sum(i, f), term);
        sum := Wrap32(sum + term);
      }
    }

    /** Show one row, block by block, to the selected statistic. */
    method NormRow(row: nat, cols: nat, cmd: NormCmd) returns (write: bool)
      requires cols > 0 ==> row + (cols - 1) / DIM * DIM < ACC_ROWS
      modifies `norm
      ensures norm
              == old(norm)[statId := NormBlocks(old(norm)[statId], acc, cfg.consts, row, cols, cmd, BlockCount(cols))]
      ensures cols > 0 ==> (write <==> cmd == RESET)
    {
      hide Flat, NormStep, BlockCount, RowOf;
      write := true;
      var j := 0;
      ghost var n := 0;
      FlatZero(DIM);
      assert BlockCount(cols) >= 0;
      while j < cols
        invariant j == Flat(n, DIM, 0) && 0 <= n <= BlockCount(cols)
        invariant norm == old(norm)[statId := NormBlocks(old(norm)[statId], acc, cfg.consts, row, cols, cmd, n)]
        invariant j > 0 && j >= cols ==> (write <==> cmd == RESET)
        decreases cols - j
      {
        BlockStep(cols, n, j);
        var block := j / DIM;
        var len := if cols - j > DIM then DIM else cols - j;
        var last := j + DIM >= cols;
        FlatNext(block, DIM);
        write := ApplyNorm(row + Flat(block, DIM, 0), len, if last then cmd else NonTerminating(cmd));
        j := j + DIM;
        n := n + 1;
      }
      BlocksDone(cols, n);
    }

    /** Write one row of the output. */
    method MvoutRow(addr: int, src: Source, i: nat, rows: nat, cols: nat, ghost stat: NormStat, ghost d: Memory)
      requires i < rows && OutRows(src, rows, cols) && SameOutputs(stat, norm[statId])
      requires dram == StoredTo(spad, acc, cfg, stat, src, addr, cols, d, i, 0)
      requires Distinct(addr, cfg.storeStride, src.Wide(), rows, cols) ==>
                 RowsOut(spad, acc, cfg, stat, src, addr, cols, dram, i, 0)
      modifies `dram
      ensures dram == StoredTo(spad, acc, cfg, stat, src, addr, cols, d, i + 1, 0)
      ensures Distinct(addr, cfg.storeStride, src.Wide(), rows, cols) ==>
                RowsOut(spad, acc, cfg, stat, src, addr, cols, dram, i + 1, 0)
      ensures forall x :: !Touched(addr, cfg.storeStride, src.Wide(), rows, cols, x) ==>
                Load(dram, x) == old(Load(dram, x))
    {
      hide OutAddr, OutCell, StoreOut, LoadOut, Load, OutRows, Apart, Touched;
      var stride, wide := cfg.storeStride, src.Wide();
      ghost var distinct := Distinct(addr, stride, wide, rows, cols);
      for j := 0 to cols
        invariant dram == StoredTo(spad, acc, cfg, stat, src, addr, cols, d, i, j)
        invariant distinct ==> RowsOut(spad, acc, cfg, stat, src, addr, cols, dram, i, j)
        invariant forall x :: !Touched(addr, stride, wide, rows, cols, x) ==> Load(dram, x) == old(Load(dram, x))
      {
        OutCellSame(spad, acc, cfg, stat, norm[statId], src, i, j);
        var v := OutCell(spad, acc, cfg, norm[statId], src, i, j);
        var a := OutAddr(addr, stride, wide, i, j);
        StoreOutSpec(dram, wide, a, v);
        if distinct {
          StoreKeepsRows(spad, acc, cfg, stat, src, addr, rows, cols, dram, i, j, v);
        }
        TouchedBy(addr, stride, wide, rows, cols, i, j);
        dram := StoreOut(dram, wide, a, v);
      }
      if distinct { NextRow(spad, acc, cfg, stat, src, addr, cols, dram, i); }
    }

    /** mvout without pooling: strided rows, each first shown to the selected statistic. */
    method Mvout(addr: int, src: Source, rows: nat, cols: nat)
      requires cfg.pool.stride == 0 && OutRows(src, rows, cols)
      modifies `dram, `norm
      ensures norm == old(norm)[statId := NormRows(old(norm)[statId], acc, cfg.consts, src.row, rows, cols, src.cmd)]
      ensures src.cmd != RESET ==> dram == old(dram)
      ensures src.cmd == RESET ==>
                dram == StoredTo(spad, acc, cfg, old(norm)[statId], src, addr, cols, old(dram), rows, 0)
      ensures src.cmd == RESET && Distinct(addr, cfg.storeStride, src.Wide(), rows, cols) ==>
                RowsOut(spad, acc, cfg, old(norm)[statId], src, addr, cols, dram, rows, 0)
      ensures forall x :: !Touched(addr, cfg.storeStride, src.Wide(), rows, cols, x) ==>
                Load(dram, x) == old(Load(dram, x))
    {
      hide OutAddr, OutCell, StoreOut, LoadOut, Load, Touched, Distinct, NormBlocks;
      ghost var stat := norm[statId];
      assert src.cmd == RESET ==> RowsOut(spad, acc, cfg, stat, src, addr, cols, dram, 0, 0);
      for i := 0 to rows
        invariant norm == old(norm)[statId := NormRows(stat, acc, cfg.consts, src.row, i, cols, src.cmd)]
        invariant src.cmd != RESET ==> dram == old(dram)
        invariant src.cmd == RESET ==> dram == StoredTo(spad, acc, cfg, stat, src, addr, cols, old(dram), i, 0)
        invariant src.cmd == RESET && Distinct(addr, cfg.storeStride, src.Wide(), rows, cols) ==>
                    RowsOut(spad, acc, cfg, stat, src, addr, cols, dram, i, 0)
        invariant forall x :: !Touched(addr, cfg.storeStride, src.Wide(), rows, cols, x) ==>
                    Load(dram, x) == old(Load(dram, x))
      {
        RowInRange(src, rows, cols, i);
        var write := NormRow(src.row + i, cols, src.cmd);
        if write {
          if src.cmd == RESET {
            NormRowsReset(stat, acc, cfg.consts, src.row, i + 1, cols);
            MvoutRow(addr, src, i, rows, cols, stat, old(dram));
          }
        }
      }
    }
  }

  /** Main memory after the elements before (i, j) have been stored one by one; a later one may overwrite an earlier
      one. */
  ghost function StoredTo(s: Spad, m: AccMem, cfg: Config, stat: NormStat, src: Source, addr: int, cols: nat,
                          d: Memory, i: nat, j: nat): Memory
    decreases i, j
  {
    if j > 0 then
      StoreOut(StoredTo(s, m, cfg, stat, src, addr, cols, d, i, j - 1), src.Wide(),
               OutAddr(addr, cfg.storeStride, src.Wide(), i, j - 1), OutCell(s, m, cfg, stat, src, i, j - 1))
    else if i > 0 then StoredTo(s, m, cfg, stat, src, addr, cols, d, i - 1, cols)
    else d
  }

  /** The first i rows, and the first j elements of row i, are in main memory. */
  ghost predicate RowsOut(s: Spad, m: AccMem, cfg: Config, stat: NormStat, src: Source, addr: int, cols: int,
                          d: Memory, i: int, j: int)
  {
    forall i', j' :: 0 <= i' && 0 <= j' < cols && Before(i', j', i, j) ==>
      LoadOut(d, src.Wide(), OutAddr(addr, cfg.storeStride, src.Wide(), i', j'))
        == OutCell(s, m, cfg, stat, src, i', j')
  }

  lemma NextRow(s: Spad, m: AccMem, cfg: Config, stat: NormStat, src: Source, addr: int, cols: int, d: Memory, i: int)
    requires RowsOut(s, m, cfg, stat, src, addr, cols, d, i, cols)
    ensures RowsOut(s, m, cfg, stat, src, addr, cols, d, i + 1, 0)
  {
    hide OutAddr, OutCell, LoadOut;
  }

  lemma RowInRange(src: Source, rows: int, cols: int, i: int)
    requires OutRows(src, rows, cols) && 0 <= i < rows
    ensures cols > 0 ==> src.row + i + (cols - 1) / DIM * DIM < ACC_ROWS
  {
  }

  lemma OutCellSame(s: Spad, m: AccMem, cfg: Config, t: NormStat, u: NormStat, src: Source, i: int, j: int)
    requires SameOutputs(t, u)
    ensures OutCell(s, m, cfg, t, src, i, j) == OutCell(s, m, cfg, u, src, i, j)
  {
    OutValueSame(cfg, t, u, src.full, AccAt(m, src.row + j / DIM * DIM + i, j % DIM));
  }

  lemma TouchedBy(addr: int, stride: int, wide: bool, rows: int, cols: int, i: int, j: int)
    requires 0 <= i < rows && 0 <= j < cols
    ensures forall x :: OutAddr(addr, stride, wide, i, j) <= x < OutAddr(addr, stride, wide, i, j) + Size(wide) ==>
              Touched(addr, stride, wide, rows, cols, x)
  {
    hide OutAddr;
  }

  lemma StoreKeepsRows(s: Spad, m: AccMem, cfg: Config, stat: NormStat, src: Source, addr: int, rows: int, cols: int,
                       d: Memory, i: int, j: int, v: int)
    requires 0 <= i < rows && 0 <= j < cols
    requires Distinct(addr, cfg.storeStride, src.Wide(), rows, cols)
    requires RowsOut(s, m, cfg, stat, src, addr, cols, d, i, j)
    requires v == OutCell(s, m, cfg, stat, src, i, j)
    ensures RowsOut(s, m, cfg, stat, src, addr, cols,
                    StoreOut(d, src.Wide(), OutAddr(addr, cfg.storeStride, src.Wide(), i, j), v), i, j + 1)
  {
    hide OutAddr, OutCell, StoreOut, LoadOut, Apart;
    var wide := src.Wide();
    var a := OutAddr(addr, cfg.storeStride, wide, i, j);
    StoreOutSpec(d, wide, a, v);
    forall i', j' | 0 <= i' && 0 <= j' < cols && Before(i', j', i, j)
      ensures LoadOut(StoreOut(d, wide, a, v), wide, OutAddr(addr, cfg.storeStride, wide, i', j'))
              == OutCell(s, m, cfg, stat, src, i', j')
    {
      StoreOutOther(d, wide, a, v, OutAddr(addr, cfg.storeStride, wide, i', j'));
    }
  }

  /** The array after the optional preload. */
  ghost predicate Loaded(cfg: Config, pre: PreloadRegs, preload: bool, s: Spad, pe: PeGrid, pe': PeGrid) {
    if preload
    then forall i, j :: 0 <= i < DIM && 0 <= j < DIM ==>
           At(pe', i, j) == PreloadCell(s, pre, cfg.mode == WS && cfg.bTranspose, i, j)
    else pe' == pe
  }

  /** The results, and the array after the multiplication. */
  ghost predicate Multiplied(cfg: Config, a: Operand, bd: Operand, s: Spad, pe: PeGrid, pe': PeGrid, values: PeGrid) {
    if cfg.mode == WS
    then && pe' == pe
         && forall i, j :: 0 <= i < DIM && 0 <= j < DIM ==> At(values, i, j) == WsResult(s, pe, cfg, a, bd, i, j)
    else && pe' == values
         && forall i, j :: 0 <= i < DIM && 0 <= j < DIM ==> At(values, i, j) == OsResult(s, pe, cfg, a, bd, i, j)
  }

  /** Accumulator cell (R, C) after the first i result rows have been written back, one after the other. */
  ghost function AccRows(cfg: Config, pre: PreloadRegs, values: PeGrid, m: AccMem, R: int, C: int, i: nat): int
    requires pre.out.Some?
  {
    if i == 0 then At(m, R, C)
    else
      var was := AccRows(cfg, pre, values, m, R, C, i - 1);
      if R == RowAt(pre.out.value.row, cfg.cStride, i - 1) && C < pre.outCols
      then Landed(was, At(values, i - 1, C), pre.out.value.accumulate) else was
  }

  ghost function SpadRows(cfg: Config, pre: PreloadRegs, values: PeGrid, s: Spad, R: int, C: int, i: nat): int
    requires pre.out.Some?
  {
    if i == 0 then At(s, R, C)
    else if R == RowAt(pre.out.value.row, cfg.cStride, i - 1) && C < pre.outCols then SysOut(cfg, At(values, i - 1, C))
    else SpadRows(cfg, pre, values, s, R, C, i - 1)
  }

  /** With a positive stride no row is written twice. */
  lemma {:induction false} AccRowsAt(cfg: Config, pre: PreloadRegs, values: PeGrid, m: AccMem, R: int, C: int, i: nat)
    requires pre.out.Some? && i <= pre.outRows && (cfg.cStride > 0 || pre.outRows <= 1)
    ensures AccRows(cfg, pre, values, m, R, C, i) ==
            if Strided(pre.out.value.row, cfg.cStride, i, R) && C < pre.outCols
            then Landed(At(m, R, C), At(values, IndexOf(pre.out.value.row, cfg.cStride, R), C),
                        pre.out.value.accumulate)
            else At(m, R, C)
  {
    hide At, Landed, RowAt, IndexOf;
    if i > 0 {
      AccRowsAt(cfg, pre, values, m, R, C, i - 1);
      IndexOfRowAt(pre.out.value.row, cfg.cStride, i, i - 1);
    }
  }

  lemma {:induction false} SpadRowsAt(cfg: Config, pre: PreloadRegs, values: PeGrid, s: Spad, R: int, C: int, i: nat)
    requires pre.out.Some? && i <= pre.outRows && (cfg.cStride > 0 || pre.outRows <= 1)
    ensures SpadRows(cfg, pre, values, s, R, C, i) ==
            if Strided(pre.out.value.row, cfg.cStride, i, R) && C < pre.outCols
            then SysOut(cfg, At(values, IndexOf(pre.out.value.row, cfg.cStride, R), C))
            else At(s, R, C)
  {
    hide At, SysOut, RowAt, IndexOf;
    if i > 0 {
      SpadRowsAt(cfg, pre, values, s, R, C, i - 1);
      IndexOfRowAt(pre.out.value.row, cfg.cStride, i, i - 1);
    }
  }

  lemma AccRowsClosed(cfg: Config, pre: PreloadRegs, values: PeGrid, m: AccMem)
    requires pre.out.Some?
    ensures cfg.cStride > 0 || pre.outRows <= 1 ==>
              forall R, C :: 0 <= R && 0 <= C < DIM ==>
                AccRows(cfg, pre, values, m, R, C, pre.outRows) ==
                if Strided(pre.out.value.row, cfg.cStride, pre.outRows, R) && C < pre.outCols
                then Landed(At(m, R, C), At(values, IndexOf(pre.out.value.row, cfg.cStride, R), C),
                            pre.out.value.accumulate)
                else At(m, R, C)
  {
    hide At, Landed, Strided, IndexOf, AccRows;
    if cfg.cStride > 0 || pre.outRows <= 1 {
      forall R, C | 0 <= R && 0 <= C < DIM
        ensures AccRows(cfg, pre, values, m, R, C, pre.outRows) ==
                if Strided(pre.out.value.row, cfg.cStride, pre.outRows, R) && C < pre.outCols
                then Landed(At(m, R, C), At(values, IndexOf(pre.out.value.row, cfg.cStride, R), C),
                            pre.out.value.accumulate)
                else At(m, R, C)
      {
        AccRowsAt(cfg, pre, values, m, R, C, pre.outRows);
      }
    }
  }

  lemma SpadRowsClosed(cfg: Config, pre: PreloadRegs, values: PeGrid, s: Spad)
    requires pre.out.Some?
    ensures cfg.cStride > 0 || pre.outRows <= 1 ==>
              forall R, C :: 0 <= R && 0 <= C < DIM ==>
                SpadRows(cfg, pre, values, s, R, C, pre.outRows) ==
                if Strided(pre.out.value.row, cfg.cStride, pre.outRows, R) && C < pre.outCols
                then SysOut(cfg, At(values, IndexOf(pre.out.value.row, cfg.cStride, R), C))
                else At(s, R, C)
  {
    hide At, SysOut, Strided, IndexOf, SpadRows;
    if cfg.cStride > 0 || pre.outRows <= 1 {
      forall R, C | 0 <= R && 0 <= C < DIM
        ensures SpadRows(cfg, pre, values, s, R, C, pre.outRows) ==
                if Strided(pre.out.value.row, cfg.cStride, pre.outRows, R) && C < pre.outCols
                then SysOut(cfg, At(values, IndexOf(pre.out.value.row, cfg.cStride, R), C))
                else At(s, R, C)
      {
        SpadRowsAt(cfg, pre, values, s, R, C, pre.outRows);
      }
    }
  }

  /** Written back to the accumulator: every cell, row after row; without repeated rows, each cell at most once. */
  ghost predicate WrittenAcc(cfg: Config, pre: PreloadRegs, values: PeGrid, m: AccMem, m': AccMem) {
    if pre.out.Some? && pre.out.value.accumulator
    then && (forall R, C :: 0 <= R && 0 <= C < DIM ==> At(m', R, C) == AccRows(cfg, pre, values, m, R, C, pre.outRows))
         && (cfg.cStride > 0 || pre.outRows <= 1 ==>
               forall R, C :: 0 <= R && 0 <= C < DIM ==>
                 At(m', R, C) ==
                 if Strided(pre.out.value.row, cfg.cStride, pre.outRows, R) && C < pre.outCols
                 then Landed(At(m, R, C), At(values, IndexOf(pre.out.value.row, cfg.cStride, R), C),
                             pre.out.value.accumulate)
                 else At(m, R, C))
    else m' == m
  }

  ghost predicate WrittenSpad(cfg: Config, pre: PreloadRegs, values: PeGrid, m: Spad, m': Spad) {
    if pre.out.Some? && !pre.out.value.accumulator
    then && (forall R, C :: 0 <= R && 0 <= C < DIM ==> At(m', R, C) == SpadRows(cfg, pre, values, m, R, C, pre.outRows))
         && (cfg.cStride > 0 || pre.outRows <= 1 ==>
               forall R, C :: 0 <= R && 0 <= C < DIM ==>
                 At(m', R, C) ==
                 if Strided(pre.out.value.row, cfg.cStride, pre.outRows, R) && C < pre.outCols
                 then SysOut(cfg, At(values, IndexOf(pre.out.value.row, cfg.cStride, R), C))
                 else At(m, R, C))
    else m' == m
  }

  /** The whole effect of compute on the three local memories. */
  ghost predicate ComputeEffect(cfg: Config, pre: PreloadRegs, a: Operand, bd: Operand, preload: bool,
                                s: Spad, pe: PeGrid, m: AccMem, s': Spad, pe': PeGrid, m': AccMem)
  {
    exists loaded: PeGrid, values: PeGrid ::
      && Multiplied(cfg, a, bd, s, loaded, pe', values)
      && Loaded(cfg, pre, preload, s, pe, loaded)
      && WrittenAcc(cfg, pre, values, m, m')
      && WrittenSpad(cfg, pre, values, s, s')
  }

  function ReadPe(m: PeGrid, i: nat, j: nat): (v: Acc)
    requires i < DIM && j < DIM
    ensures v == At(m, i, j)
  {
    m[i][j]
  }

  /** A result on its way to the scratchpad. */
  function SysOut(cfg: Config, v: int): Elem {
    Activate(SysShift(v, if cfg.mode == OS then cfg.sysShift else 0), cfg.sysAct)
  }

  /** Output stationary, r is the value divided by two to the shift, rounded to nearest; weight stationary, nothing is
      shifted. Then saturation, and ReLU if it is set. */
  lemma SysOutIs(cfg: Config, v: int, r: int)
    requires NearestQuotient(v, Pow2(if cfg.mode == OS then cfg.sysShift else 0), r)
    ensures Limits(r, cfg.sysAct == RELU, SysOut(cfg, v))
  {
    hide SysShift, Activate, NearestQuotient, Pow2;
    var shift := if cfg.mode == OS then cfg.sysShift else 0;
    ShiftsToNearest(v, shift, r);
    ActivateIsClip(r, SysShift(v, shift), cfg.sysAct);
  }

  lemma WsResultDef(s: Spad, pe: PeGrid, cfg: Config, a: Operand, d: Operand, i: int, j: int)
    ensures WsResult(s, pe, cfg, a, d, i, j) == Wrap32(DCell(s, d, i, j) + Sum(DIM, WsTerms(s, pe, cfg, a, i, j)))
  {
  }

  lemma OsResultDef(s: Spad, pe: PeGrid, cfg: Config, a: Operand, b: Operand, i: int, j: int)
    ensures OsResult(s, pe, cfg, a, b, i, j) == Wrap32(At(pe, i, j) + Sum(DIM, OsTerms(s, cfg, a, b, i, j)))
  {
  }

  /** What compute leaves in cell (i, j): WS adds to the bias operand, OS to the array's own value. */
  ghost function WsResult(s: Spad, pe: PeGrid, cfg: Config, a: Operand, d: Operand, i: int, j: int): Acc {
    Wrap32(DCell(s, d, i, j) + Sum(DIM, WsTerms(s, pe, cfg, a, i, j)))
  }

  ghost function OsResult(s: Spad, pe: PeGrid, cfg: Config, a: Operand, b: Operand, i: int, j: int): Acc {
    Wrap32(At(pe, i, j) + Sum(DIM, OsTerms(s, cfg, a, b, i, j)))
  }

  /** A bounds-checked read. */
  function ReadSpad(s: Spad, r: int, c: int): (e: Elem)
    requires 0 <= r < SPAD_ROWS && 0 <= c < DIM
    ensures e == At(s, r, c)
  {
    s[r][c]
  }

  function ReadB(s: Spad, cfg: Config, b: Operand, k: nat, j: nat): (e: Elem)
    requires BDBounds(cfg, b) && cfg.mode == OS && k < DIM && j < DIM
    ensures e == BCell(s, cfg, b, k, j)
  {
    if b.src.Some? && k < b.rows && j < b.cols then
      if cfg.bTranspose then ReadSpad(s, b.src.value + j, k) else ReadSpad(s, b.src.value + k, j)
    else 0
  }

  function ReadD(s: Spad, cfg: Config, d: Operand, i: nat, j: nat): (e: Elem)
    requires BDBounds(cfg, d) && i < DIM && j < DIM
    ensures e == DCell(s, d, i, j)
  {
    if d.src.Some? && i < d.rows && j < d.cols then ReadSpad(s, d.src.value + i, j) else 0
  }

  /** Element (i, k) of operand A, zero outside its declared rows and columns. */
  function ReadA(s: Spad, cfg: Config, a: Operand, i: nat, k: nat): (e: Elem)
    requires ABounds(cfg, a) && i < DIM && k < DIM
    ensures e == ACell(s, cfg, a, i, k)
  {
    if i < a.rows && k < a.cols then
      var n := Min(if cfg.aTranspose then a.cols else a.rows, DIM) - 1;
      RowAtLe(a.src.value, cfg.aStride, if cfg.aTranspose then k else i, n);
      ReadSpad(s, RowAt(a.src.value, cfg.aStride, if cfg.aTranspose then k else i), if cfg.aTranspose then i else k)
    else 0
  }
}
