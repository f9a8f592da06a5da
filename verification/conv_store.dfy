/** The un-pooled store phase of loop_conv_ws. */
module ConvStore {
  import opened Params
  import opened Wrap
  import opened Dram
  import opened Grid
  import opened State
  import opened Patches
  import opened Layouts
  import opened Machine
  import opened ConvSpec
  import opened ConvTaps

  /** The finished accumulator value of a cell. */
  ghost function Value(z: Start, e: Cell): Acc {
    Wrap32(Base(z, e) + Total(z, e))
  }

  function EAddr(z: Start, e: Cell): int {
    z.p.OutAddr(e.b, e.r, e.c, e.ob * DIM + e.n)
  }

  /** No two outputs share an address. */
  ghost predicate OutApart(z: Start) {
    forall e, e' :: InC(z, e) && InC(z, e') && e != e' ==> EAddr(z, e) != EAddr(z, e')
  }

  ghost predicate InOutput(z: Start, x: int) {
    exists e :: InC(z, e) && EAddr(z, e) == x
  }

  ghost predicate Finished(z: Start, m: AccMem) {
    forall e :: InC(z, e) ==> At(m, CRow(z, e), e.n) == Value(z, e)
  }

  predicate OutDone(e: Cell, b: int, r: int, c: int, cols: int, ob: int) {
    e.b < b || (e.b == b && (e.r < r || (e.r == r && (e.c < c || (e.c < c + cols && e.ob < ob)))))
  }

  ghost predicate OutHeld(z: Start, d: Memory, b: int, r: int, c: int, cols: int, ob: int) {
    forall e :: InC(z, e) && OutDone(e, b, r, c, cols, ob) ==>
      LoadOut(d, false, EAddr(z, e)) == OutValue(z.cfg, z.stat, false, Value(z, e))
  }

  ghost predicate DramFrame(z: Start, d: Memory) {
    forall x :: !InOutput(z, x) ==> Load(d, x) == Load(z.d, x)
  }

  lemma OutAddrRun(p: Call, b: int, r: int, c: int, och: int, i: int, j: int)
    ensures p.OutAddr(b, r, c, och) + i * p.OutRowStride() + j == p.OutAddr(b, r, c + i, och + j)
  {
    if p.transOutput1203 {
      var q := r * p.outColDim * p.batchSize + c * p.batchSize + b;
      assert (c + i) * p.batchSize == c * p.batchSize + i * p.batchSize;
      assert (q + i * p.batchSize) * p.outChannels == q * p.outChannels + i * p.batchSize * p.outChannels;
      assert i * (p.batchSize * p.outChannels) == i * p.batchSize * p.outChannels;
    } else {
      var q := b * p.outRowDim * p.outColDim + r * p.outColDim + c;
      assert (q + i) * p.outStride == q * p.outStride + i * p.outStride;
    }
  }

  predicate InRun(z: Start, ob: int, b: int, r: int, c: int, cols: int) {
    0 <= ob && 0 <= ob * DIM < z.p.ochs && 0 <= b < z.p.batches && 0 <= r < z.p.orows && 0 <= c && 0 < cols <= DIM
      && c + cols <= z.p.ocols
  }

  function SourceOf(z: Start, ob: int, b: int, r: int, c: int): Source
    requires 0 <= CRow(z, Cell(ob, b, r, c, 0))
  {
    Source(true, false, RESET, CRow(z, Cell(ob, b, r, c, 0)))
  }

  lemma RunAddr(z: Start, ob: int, b: int, r: int, c: int, i: int, j: int)
    requires z.cfg.storeStride == z.p.OutRowStride()
    ensures OutAddr(z.p.OutAddr(b, r, c, ob * DIM), z.cfg.storeStride, false, i, j)
            == EAddr(z, Cell(ob, b, r, c + i, j))
  {
    OutAddrRun(z.p, b, r, c, ob * DIM, i, j);
  }

  lemma RunCell(z: Start, s: Spad, m: AccMem, stat: NormStat, ob: int, b: int, r: int, c: int, cols: int, i: int,
                j: int)
    requires Ready(z) && InRun(z, ob, b, r, c, cols) && 0 <= i < cols && 0 <= j < GroupCols(z.p, ob)
    requires Finished(z, m) && SameOutputs(stat, z.stat) && 0 <= CRow(z, Cell(ob, b, r, c, 0))
    ensures InC(z, Cell(ob, b, r, c + i, j))
    ensures OutCell(s, m, z.cfg, stat, SourceOf(z, ob, b, r, c), i, j)
            == OutValue(z.cfg, z.stat, false, Value(z, Cell(ob, b, r, c + i, j)))
  {
    hide At, OutValue, Value, Layout.Row, Call.Fits, Wrap32;
    var e := Cell(ob, b, r, c + i, j);
    DivUnique(j, DIM, 0, j);
    RowStep(z.p.CLayout(z.cRow), ob, b, r, c, i);
    OutValueSame(z.cfg, stat, z.stat, false, AccAt(m, CRow(z, e), j));
  }

  lemma RunDistinct(z: Start, ob: int, b: int, r: int, c: int, cols: int)
    requires OutApart(z) && z.cfg.storeStride == z.p.OutRowStride() && InRun(z, ob, b, r, c, cols)
    ensures Distinct(z.p.OutAddr(b, r, c, ob * DIM), z.cfg.storeStride, false, cols, GroupCols(z.p, ob))
  {
    hide OutAddr, EAddr, Call.OutAddr;
    var base, stride := z.p.OutAddr(b, r, c, ob * DIM), z.cfg.storeStride;
    forall i, j, i', j' | 0 <= i < cols && 0 <= j < GroupCols(z.p, ob) && 0 <= i' < cols && 0 <= j' < GroupCols(z.p, ob)
      && (i != i' || j != j')
      ensures Apart(OutAddr(base, stride, false, i, j), Size(false), OutAddr(base, stride, false, i', j'), Size(false))
    {
      RunAddr(z, ob, b, r, c, i, j);
      RunAddr(z, ob, b, r, c, i', j');
      assert InC(z, Cell(ob, b, r, c + i, j)) && InC(z, Cell(ob, b, r, c + i', j'));
    }
  }

  /** A byte the run does not own is not touched by it. */
  lemma RunTouches(z: Start, ob: int, b: int, r: int, c: int, cols: int, x: int)
    requires z.cfg.storeStride == z.p.OutRowStride() && InRun(z, ob, b, r, c, cols)
    requires Touched(z.p.OutAddr(b, r, c, ob * DIM), z.cfg.storeStride, false, cols, GroupCols(z.p, ob), x)
    ensures exists e :: InC(z, e) && e.ob == ob && e.b == b && e.r == r && c <= e.c < c + cols && EAddr(z, e) == x
  {
    hide OutAddr, EAddr, Call.OutAddr;
    var base, stride := z.p.OutAddr(b, r, c, ob * DIM), z.cfg.storeStride;
    var i, j :| 0 <= i < cols && 0 <= j < GroupCols(z.p, ob)
                && OutAddr(base, stride, false, i, j) <= x < OutAddr(base, stride, false, i, j) + Size(false);
    RunAddr(z, ob, b, r, c, i, j);
    var e := Cell(ob, b, r, c + i, j);
    assert InC(z, e) && EAddr(z, e) == x;
  }

  lemma OutStep(z: Start, s: Spad, m: AccMem, stat: NormStat, d: Memory, d': Memory, ob: int, b: int, r: int, c: int,
                cols: int)
    requires Ready(z) && OutApart(z) && z.cfg.storeStride == z.p.OutRowStride() && InRun(z, ob, b, r, c, cols)
    requires Finished(z, m) && SameOutputs(stat, z.stat) && 0 <= CRow(z, Cell(ob, b, r, c, 0))
    requires OutHeld(z, d, b, r, c, cols, ob)
    requires RowsOut(s, m, z.cfg, stat, SourceOf(z, ob, b, r, c), z.p.OutAddr(b, r, c, ob * DIM), GroupCols(z.p, ob),
                     d', cols, 0)
    requires forall x ::
             !Touched(z.p.OutAddr(b, r, c, ob * DIM), z.cfg.storeStride, false, cols, GroupCols(z.p, ob), x) ==>
               Load(d', x) == Load(d, x)
    ensures OutHeld(z, d', b, r, c, cols, ob + 1)
  {
    hide OutAddr, EAddr, Call.OutAddr, OutValue, Value, LoadOut, Load, Touched, OutCell, Finished, Call.Fits;
    forall e | InC(z, e) && OutDone(e, b, r, c, cols, ob + 1)
      ensures LoadOut(d', false, EAddr(z, e)) == OutValue(z.cfg, z.stat, false, Value(z, e))
    {
      if e.b == b && e.r == r && c <= e.c < c + cols && e.ob == ob {
        RunCell(z, s, m, stat, ob, b, r, c, cols, e.c - c, e.n);
        RunAddr(z, ob, b, r, c, e.c - c, e.n);
        assert e == Cell(ob, b, r, c + (e.c - c), e.n);
      } else {
        var x := EAddr(z, e);
        if Touched(z.p.OutAddr(b, r, c, ob * DIM), z.cfg.storeStride, false, cols, GroupCols(z.p, ob), x) {
          RunTouches(z, ob, b, r, c, cols, x);
          assert false;
        }
        LoadOutSame(d', d, false, x);
      }
    }
  }

  lemma FrameStep(z: Start, d: Memory, d': Memory, ob: int, b: int, r: int, c: int, cols: int)
    requires z.cfg.storeStride == z.p.OutRowStride() && InRun(z, ob, b, r, c, cols) && DramFrame(z, d)
    requires forall x ::
             !Touched(z.p.OutAddr(b, r, c, ob * DIM), z.cfg.storeStride, false, cols, GroupCols(z.p, ob), x) ==>
               Load(d', x) == Load(d, x)
    ensures DramFrame(z, d')
  {
    hide EAddr, Call.OutAddr, Load, Touched;
    forall x | !InOutput(z, x) ensures Load(d', x) == Load(z.d, x) {
      if Touched(z.p.OutAddr(b, r, c, ob * DIM), z.cfg.storeStride, false, cols, GroupCols(z.p, ob), x) {
        RunTouches(z, ob, b, r, c, cols, x);
      }
    }
  }

  lemma RunRows(z: Start, ob: int, b: int, r: int, c: int, cols: int)
    requires Ready(z) && InRun(z, ob, b, r, c, cols)
    ensures 0 <= CRow(z, Cell(ob, b, r, c, 0)) && 0 < GroupCols(z.p, ob) <= DIM
    ensures OutRows(SourceOf(z, ob, b, r, c), cols, GroupCols(z.p, ob))
  {
    hide Layout.Row, Layout.Rows, Call.Fits;
    BlockInRange(ob, z.p.ochs);
    ARegion(z.p, z.cRow);
    var l := z.p.CLayout(z.cRow);
    RowBounds(l, ob, b, r, c);
    RowBounds(l, ob, b, r, c + cols - 1);
    RowStep(l, ob, b, r, c, cols - 1);
    DivUnique(GroupCols(z.p, ob) - 1, DIM, 0, GroupCols(z.p, ob) - 1);
  }

  /** Store all channel blocks of a run of pixels. */
  method StoreRun(g: Gemmini, ghost z: Start, p: Call, cRow: nat, b: nat, r: nat, c: nat, cols: nat)
    requires Ready(z) && p == z.p && cRow == z.cRow && g.cfg == z.cfg && OutApart(z) && p.output != 0
    requires z.cfg.storeStride == p.OutRowStride() && z.cfg.pool.stride == 0 && Finished(z, g.acc)
    requires b < p.batches && r < p.orows && 0 < cols <= DIM && c + cols <= p.ocols
    requires SameOutputs(g.norm[g.statId], z.stat)
    requires OutHeld(z, g.dram, b, r, c, 0, 0) && DramFrame(z, g.dram)
    modifies g`dram, g`norm
    ensures NormKept(old(g.norm), g.norm, g.statId)
    ensures OutHeld(z, g.dram, b, r, c + cols, 0, 0) && DramFrame(z, g.dram)
  {
    hide OutApart, Finished, Call.Fits, BlockCount, NormRows, Load, Touched, Distinct, RowsOut, OutRows, OutValue,
         Value, EAddr, Call.OutAddr, LoadOut, InOutput, Layout.Row, Layout.Rows;
    hide StoredTo;
    for ob := 0 to p.OBlocks()
      invariant NormKept(old(g.norm), g.norm, g.statId)
      invariant OutHeld(z, g.dram, b, r, c, cols, ob) && DramFrame(z, g.dram)
    {
      BlockStarts(p.ochs, ob);
      RunRows(z, ob, b, r, c, cols);
      RunDistinct(z, ob, b, r, c, cols);
      ghost var d, stat := g.dram, g.norm[g.statId];
      var J := GroupCols(p, ob);
      var src := Source(true, false, RESET, p.CLayout(cRow).Row(ob, b, r, c));
      NormRowsReset(stat, g.acc, g.cfg.consts, src.row, cols, J);
      g.Mvout(p.OutAddr(b, r, c, ob * DIM), src, cols, J);
      OutStep(z, g.spad, g.acc, stat, d, g.dram, ob, b, r, c, cols);
      FrameStep(z, d, g.dram, ob, b, r, c, cols);
    }
    RunFinished(z, g.dram, b, r, c, cols);
  }

  lemma RunFinished(z: Start, d: Memory, b: int, r: int, c: int, cols: int)
    requires OutHeld(z, d, b, r, c, cols, z.p.OBlocks())
    ensures OutHeld(z, d, b, r, c + cols, 0, 0)
  {
    hide OutValue, Value, EAddr, LoadOut, BlockCount;
    forall e | InC(z, e) ensures e.ob < z.p.OBlocks() {
      BlockInRange(e.ob, z.p.ochs);
    }
  }

  /** The mvout phase without pooling. */
  method StoreOutputs(g: Gemmini, ghost z: Start, p: Call, cRow: nat)
    requires Ready(z) && p == z.p && cRow == z.cRow && g.cfg == z.cfg && OutApart(z) && p.output != 0 && g.dram == z.d
    requires z.cfg.storeStride == p.OutRowStride() && z.cfg.pool.stride == 0 && Finished(z, g.acc)
    requires SameOutputs(g.norm[g.statId], z.stat)
    modifies g`dram, g`norm
    ensures OutHeld(z, g.dram, p.batches, 0, 0, 0, 0) && DramFrame(z, g.dram) && NormKept(old(g.norm), g.norm, g.statId)
  {
    hide OutApart, Finished, Ready, OutValue, Value, EAddr, LoadOut, Load, InOutput;
    for b := 0 to p.batches
      invariant NormKept(old(g.norm), g.norm, g.statId) && OutHeld(z, g.dram, b, 0, 0, 0, 0) && DramFrame(z, g.dram)
    {
      for r := 0 to p.orows
        invariant NormKept(old(g.norm), g.norm, g.statId) && OutHeld(z, g.dram, b, r, 0, 0, 0) && DramFrame(z, g.dram)
      {
        var c := 0;
        while c < p.ocols
          invariant 0 <= c <= p.ocols
          invariant NormKept(old(g.norm), g.norm, g.statId) && OutHeld(z, g.dram, b, r, c, 0, 0) && DramFrame(z, g.dram)
        {
          var I := if p.ocols - c > DIM then DIM else p.ocols - c;
          StoreRun(g, z, p, cRow, b, r, c, I);
          c := c + I;
        }
      }
    }
  }
}
