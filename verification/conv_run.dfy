/** The loop_conv_ws instruction. */
module LoopConvWs {
  import opened Params
  import opened Wrap
  import opened Sums
  import opened Dram
  import opened Grid
  import opened State
  import opened Patches
  import opened Layouts
  import opened Machine
  import opened Chunks
  import opened ConvSpec
  import opened ConvLoad
  import opened ConvTaps
  import opened ConvGroups
  import opened ConvCompute
  import opened ConvStore
  import opened ConvPool

  ghost function StartOf(g: Gemmini, p: Call): Start
    reads g
  {
    Start(p, g.cfg, g.norm[g.statId], g.spad, g.acc, g.dram, g.dRow, g.cRow)
  }

  /** The call reconfigures the load states and nothing else. */
  ghost predicate SameButLoads(c: Config, c': Config) {
    c' == c.(load0 := c'.load0, load1 := c'.load1, load2 := c'.load2)
  }

  ghost predicate Loadable(p: Call) {
    p.CLayout(0).Block() >= 0 && p.ALayout().Block() >= 0 && p.BLayout().Block() >= 0 && WStride(p) >= 0
      && p.ChannelRows() >= 0
  }

  /** The strides the compute phase runs with: transposed input sets its own, and leaves them set. */
  ghost function ComputeConfig(p: Call, cfg: Config): Config
    requires Loadable(p)
  {
    if p.transInput3120 then cfg.(aStride := p.ChannelRows(), cStride := p.ImageRows()) else cfg
  }

  ghost function LoadsAfter(p: Call, cfg: Config): (c: Config)
    requires Loadable(p)
    ensures SameButLoads(cfg, c)
  {
    var c1 := if p.bias != 0 then cfg.WithLoad(2, BiasLoad(p)) else cfg;
    var c2 := if p.input != 0 then c1.WithLoad(0, InputLoad(p)) else c1;
    if p.weights != 0 then c2.WithLoad(1, WeightLoad(p)) else c2
  }

  /** The configuration a call leaves behind; a pooled store ends with pooling switched off. */
  ghost function Leaves(p: Call, cfg: Config): Config
    requires Loadable(p)
  {
    var c := ComputeConfig(p, LoadsAfter(p, cfg));
    if p.output != 0 && !p.noPool then PoolConfig(p, c).(pool := NO_POOL) else c
  }

  lemma FitsLoadable(p: Call, row: int)
    requires p.Fits(row)
    ensures Loadable(p)
  {
    TileSize(p, row);
    BlockNat(p.CLayout(0));
    BlockNat(p.ALayout());
    BlockNat(p.BLayout());
    WStrideNat(p);
    MulLe(0, p.IRows(), p.ICols());
  }

  /** The other accumulator half. */
  function Toggle(row: nat): nat { (row + ACC_ROWS / 2) % ACC_ROWS }

  // From the load phases to the invariants of the compute phase.

  lemma InputHeld(z: Start, s: Spad)
    requires Ready(z) && z.p.input != 0 && InputReady(z, s)
    ensures AHeld(z, s)
  {
    hide At, Image, Layout.Row, Layout.Rows, Call.Fits, Call.IRows, Call.ICols;
    if z.p.transInput3120 {
      TransInputHeld(z, s);
    } else if z.p.pixels == 1 {
      PlainInputHeld(z, s);
    } else {
      PackedInputHeld(z, s);
    }
  }

  lemma PlainInputHeld(z: Start, s: Spad)
    requires z.p.input != 0 && z.p.pixels == 1 && InputIn(z, s, z.p.batches, 0, 0, 0, 0) && !z.p.transInput3120
    ensures PlainHeld(z, s)
  {
    hide At, Image, Layout.Row, Layout.Rows, Call.Fits, Call.IRows, Call.ICols;
    var l := z.p.ALayout();
    forall kb, b, y, x, c | l.In(kb, b, y, x) && 0 <= c < DIM && kb * DIM + c < z.p.kchs
      ensures At(s, l.Row(kb, b, y, x), c) == AElem(z, kb, b, y, x, c)
    {
      assert RunDone(z.p.kchs, z.p.batches, 0, 0, 0, 0)(kb, b, y, x, c);
      assert AFn(z)(kb, b, y, x, c) == AElem(z, kb, b, y, x, c);
    }
  }

  lemma PackedInputHeld(z: Start, s: Spad)
    requires z.p.input != 0 && z.p.pixels > 1 && z.p.Packable() && InputIn(z, s, z.p.batches, 0, 0, 0, 0)
    requires !z.p.transInput3120
    ensures Packed(z, s)
  {
    hide At, Image, Layout.Row, Layout.Rows, Call.Fits, Call.IRows, Call.ICols;
    PackedFitsBlock(z.p);
    var l := z.p.ALayout();
    forall b, y, x, px, c | l.In(0, b, y, x) && 0 <= px < z.p.pixels && x + px < z.p.ICols() && 0 <= c < z.p.kchs
      ensures At(s, l.Row(0, b, y, x), Flat(px, z.p.kchs, c)) == AElem(z, 0, b, y, x + px, c)
    {
      var C := Flat(px, z.p.kchs, c);
      PackedIndex(z.p, px, c);
      assert PackedDone(z.p, z.p.batches, 0, 0)(0, b, y, x, C);
      assert PackedFn(z)(0, b, y, x, C) == AElem(z, 0, b, y, x + px, c);
    }
  }

  lemma TransInputHeld(z: Start, s: Spad)
    requires z.p.input != 0 && z.p.transInput3120 && InputReady(z, s)
    ensures TransHeld(z, s)
  {
    hide At, Image, Layout.Row, Layout.Rows, Call.Fits, Call.IRows, Call.ICols, ImagesPerMvin, BlockCount;
    var l := z.p.ALayout();
    var n :| z.p.batches <= n && TransIn(z, s, n, 0, 0, 0, 0);
    forall a, ch, y, x, C | l.In(a, ch, y, x) && 0 <= C < DIM && a * DIM + C < z.p.batches
      ensures At(s, l.Row(a, ch, y, x), C) == ImageAt(z, a, ch, y, x, C)
    {
      assert TransDone(z.p, n, 0, 0, 0, 0)(a, ch, y, x, C);
      assert TransFn(z)(a, ch, y, x, C) == Image(z, a * DIM + C, y, x, ch);
      assert ch / DIM * DIM + ch % DIM == ch;
    }
  }

  lemma PackedIndex(p: Call, px: int, c: int)
    requires p.Packable() && 0 <= px < p.pixels && 0 <= c < p.kchs
    ensures Flat(px, p.kchs, c) / p.kchs == px && Flat(px, p.kchs, c) % p.kchs == c && 0 <= Flat(px, p.kchs, c) < DIM
  {
    DivUnique(Flat(px, p.kchs, c), p.kchs, px, c);
    MulLe(px + 1, p.pixels, p.kchs);
    MulLe(0, px, p.kchs);
    assert (px + 1) * p.kchs == px * p.kchs + p.kchs;
  }

  lemma AKeptResident(z: Start, s: Spad)
    requires Ready(z) && z.p.input == 0 && OutsideKept(z.p.BLayout(), z.s, s)
    ensures AHeld(z, s)
  {
    hide At, Layout.Row, Layout.Rows, Call.Fits;
    if z.p.transInput3120 { TransResident(z); } else if z.p.pixels == 1 { assert PlainHeld(z, z.s); }
    AKept(z, z.s, s);
  }

  lemma TransResident(z: Start)
    requires z.p.input == 0 && z.p.transInput3120
    ensures TransHeld(z, z.s)
  {
    hide At, Layout.Row, Call.IRows, Call.ICols, BlockCount;
    var l := z.p.ALayout();
    forall a, ch, y, x, C | l.In(a, ch, y, x) && 0 <= C < DIM && a * DIM + C < z.p.batches
      ensures At(z.s, l.Row(a, ch, y, x), C) == ImageAt(z, a, ch, y, x, C)
    {
      DivUnique(a * DIM + C, DIM, a, C);
      assert ch / DIM * DIM + ch % DIM == ch;
    }
  }

  lemma AKept(z: Start, s: Spad, s': Spad)
    requires z.p.Fits(z.cRow) && AHeld(z, s) && OutsideKept(z.p.BLayout(), s, s')
    ensures AHeld(z, s')
  {
    hide At, Layout.Row, Layout.Rows, Call.Fits, AElem, Flat, BlockCount;
    var l := z.p.ALayout();
    FitsA(z.p, z.cRow);
    forall kb, b, y, x, c | l.In(kb, b, y, x) ensures At(s', l.Row(kb, b, y, x), c) == At(s, l.Row(kb, b, y, x), c) {
      RowBounds(l, kb, b, y, x);
      assert !InRegion(z.p.BLayout(), l.Row(kb, b, y, x));
    }
    if z.p.transInput3120 {
      assert TransHeld(z, s');
    } else if z.p.pixels == 1 {
      assert PlainHeld(z, s');
    } else {
      forall b, y, x, px, c | l.In(0, b, y, x) && 0 <= px < z.p.pixels && x + px < z.p.ICols() && 0 <= c < z.p.kchs
        ensures At(s', l.Row(0, b, y, x), Flat(px, z.p.kchs, c)) == AElem(z, 0, b, y, x + px, c)
      {
        assert At(s, l.Row(0, b, y, x), Flat(px, z.p.kchs, c)) == AElem(z, 0, b, y, x + px, c);
      }
    }
  }

  lemma WeightsFilled(z: Start, s: Spad)
    requires z.p.weights != 0 && Filled(s, z.p.BLayout(), BFn(z), WDone(z.p, z.p.ochs, 0, 0, 0, 0))
    ensures BHeld(z, s)
  {
    hide At, LoadElem, Layout.Row, Layout.Rows, Call.BStart, Call.WAddr;
    var l, done := z.p.BLayout(), WDone(z.p, z.p.ochs, 0, 0, 0, 0);
    forall a, kr, kc, d, C | l.In(a, kr, kc, d) && 0 <= C < DIM
      && a * DIM + C < (if z.p.transWeight0132 then z.p.kchs else z.p.ochs)
      ensures At(s, l.Row(a, kr, kc, d), C) == BValue(z, a, kr, kc, d, C)
    {
      assert done(a, kr, kc, d, C);
      assert BFn(z)(a, kr, kc, d, C) == BValue(z, a, kr, kc, d, C);
    }
  }

  lemma WeightsResident(z: Start, s: Spad)
    requires z.p.Fits(z.cRow) && z.p.weights == 0 && OutsideKept(z.p.ALayout(), z.s, s)
    ensures BHeld(z, s)
  {
    hide At, Layout.Row, Layout.Rows, Call.Fits, Call.BStart;
    var l := z.p.BLayout();
    FitsA(z.p, z.cRow);
    forall a, kr, kc, d, C | l.In(a, kr, kc, d) && 0 <= C < DIM
      && a * DIM + C < (if z.p.transWeight0132 then z.p.kchs else z.p.ochs)
      ensures At(s, l.Row(a, kr, kc, d), C) == BValue(z, a, kr, kc, d, C)
    {
      RowBounds(l, a, kr, kc, d);
      assert !InRegion(z.p.ALayout(), l.Row(a, kr, kc, d));
      DivUnique(a * DIM + C, DIM, a, C);
    }
  }

  /** Before the first product every cell holds its bias, or what was there. */
  lemma SumsStart(z: Start, m: AccMem)
    requires Ready(z)
    requires if z.p.bias != 0
             then Filled(m, z.p.CLayout(z.dRow), BiasFn(z), RunDone(z.p.ochs, z.p.batches, 0, 0, 0, 0))
               && OutsideKept(z.p.CLayout(z.dRow), z.m, m)
             else m == z.m
    ensures AccHeld(z, m, 0, 0, 0, 0, 0, 0, 0)
  {
    hide At, Layout.Row, Layout.Rows, Call.Fits, Wrap32, BiasElem, BlockSums, TapSums, KRowSums, BlockSum, Total;
    forall e | InC(z, e)
      ensures At(m, CRow(z, e), e.n) == Wrap32(Base(z, e) + Progress(z, e, 0, 0, 0, 0, CellDone(z.p, e, 0, 0, 0)))
    {
      BlockInRange(e.ob, z.p.ochs);
      AccRange(m, CRow(z, e), e.n);
      WrapSame(At(m, CRow(z, e), e.n));
      if z.p.bias != 0 {
        if z.dRow == z.cRow {
          assert RunDone(z.p.ochs, z.p.batches, 0, 0, 0, 0)(e.ob, e.b, e.r, e.c, e.n);
          assert BiasFn(z)(e.ob, e.b, e.r, e.c, e.n) == Base(z, e);
        } else {
          CRowNat(z, e);
          SameRows(z.p, z.dRow);
          assert !InRegion(z.p.CLayout(z.dRow), CRow(z, e));
        }
      }
    }
  }

  lemma SumsFinished(z: Start, m: AccMem)
    requires AccHeld(z, m, z.p.OBlocks(), 0, 0, 0, 0, 0, 0)
    ensures Finished(z, m)
  {
    hide At, CRow, Base, Total, Wrap32, BlockCount;
    forall e | InC(z, e) ensures e.ob < z.p.OBlocks() {
      BlockInRange(e.ob, z.p.ochs);
    }
  }

  /** Load whatever the call brings along; what it does not bring must be resident. */
  method LoadOperands(g: Gemmini, ghost z: Start, p: Call)
    requires Ready(z) && p == z.p && g.dram == z.d && g.spad == z.s && g.acc == z.m && g.dRow == z.dRow
    modifies g`spad, g`acc, g`cfg
    ensures AHeld(z, g.spad) && BHeld(z, g.spad) && SpadFrame(z, g.spad)
    ensures Loadable(p) && g.cfg == LoadsAfter(p, old(g.cfg))
    ensures AccHeld(z, g.acc, 0, 0, 0, 0, 0, 0, 0)
    ensures if p.bias != 0 then OutsideKept(p.CLayout(z.dRow), z.m, g.acc) else g.acc == z.m
  {
    hide AHeld, BHeld, SpadFrame, AccHeld, OutsideKept, Filled, Call.Fits, Layout.Rows, AFn, BFn, BiasFn, RunDone,
         WDone;
    FitsLoadable(p, z.cRow);
    if p.bias != 0 {
      LoadBias(g, z, p, g.dRow);
    }
    SumsStart(z, g.acc);
    if p.input != 0 {
      LoadInput(g, z, p, z.cRow);
      InputHeld(z, g.spad);
    }
    Unmoved(p.ALayout(), g.spad);
    ghost var s := g.spad;
    if p.weights != 0 {
      ghost var z' := z.(s := s);
      LoadWeights(g, z', p, z.cRow);
      SameWeights(z, z');
      WeightsFilled(z, g.spad);
    } else {
      WeightsResident(z, g.spad);
    }
    Unmoved(p.BLayout(), g.spad);
    LoadsFrame(z, s, g.spad);
    if p.input != 0 {
      AKept(z, s, g.spad);
    } else {
      AKeptResident(z, g.spad);
    }
  }

  lemma Unmoved(l: Layout, s: Spad)
    ensures OutsideKept(l, s, s)
  {
  }

  lemma SameWeights(z: Start, z': Start)
    requires z'.p == z.p && z'.d == z.d
    ensures BFn(z') == BFn(z)
  {
  }

  /** Only the scratchpad rows of operands the call brings along change. */
  ghost predicate SpadFrame(z: Start, s: Spad) {
    forall R, C :: !(z.p.input != 0 && InRegion(z.p.ALayout(), R)) && !(z.p.weights != 0 && InRegion(z.p.BLayout(), R))
                   ==> At(s, R, C) == At(z.s, R, C)
  }

  lemma LoadsFrame(z: Start, s: Spad, s': Spad)
    requires if z.p.input != 0 then OutsideKept(z.p.ALayout(), z.s, s) else s == z.s
    requires if z.p.weights != 0 then OutsideKept(z.p.BLayout(), s, s') else s' == s
    ensures SpadFrame(z, s')
  {
    hide At, InRegion;
  }

  /** What a completed call leaves behind. */
  ghost predicate Completed(z: Start, s: Spad, m: AccMem, d: Memory) {
    // Operands stay resident, and so does everything outside the rows they were loaded to.
    && AHeld(z, s) && BHeld(z, s) && SpadFrame(z, s)
    // Every sum is bias plus convolution; rows outside the call's bias and sum regions are untouched.
    && Finished(z, m)
    && (forall R, C :: !InRegion(z.p.CLayout(z.cRow), R) && !(z.p.bias != 0 && InRegion(z.p.CLayout(z.dRow), R)) ==>
        At(m, R, C) == At(z.m, R, C))
    // Main memory holds the activated convolution, or its max-pool, and nothing else changes.
    && (z.p.output == 0 ==> d == z.d)
    && (z.p.output != 0 && z.p.noPool ==> OutHeld(z, d, z.p.batches, 0, 0, 0, 0) && DramFrame(z, d))
    && (z.p.output != 0 && !z.p.noPool ==> PHeld(z, d, z.p.batches, 0) && PFrame(z, d))
  }

  ghost predicate CanStore(z: Start) {
    z.p.output != 0 ==>
      if z.p.noPool then OutApart(z) && z.cfg.storeStride == z.p.OutRowStride() && z.cfg.pool.stride == 0
      else PApart(z) && PoolFields(z.p) && 0 < z.p.orows && 0 < z.p.ocols
  }

  lemma CanStoreNow(z: Start)
    requires CanStore(z) && z.p.output != 0
    ensures z.p.noPool ==> OutApart(z) && z.cfg.storeStride == z.p.OutRowStride() && z.cfg.pool.stride == 0
    ensures !z.p.noPool ==> PApart(z) && PoolFields(z.p) && 0 < z.p.orows && 0 < z.p.ocols
  {
    hide OutApart, PApart, PoolFields;
  }

  lemma CallCompleted(z: Start, s: Spad, m: AccMem, d: Memory)
    requires AHeld(z, s) && BHeld(z, s) && SpadFrame(z, s) && Finished(z, m)
    requires forall R, C :: !InRegion(z.p.CLayout(z.cRow), R)
                            && !(z.p.bias != 0 && InRegion(z.p.CLayout(z.dRow), R)) ==>
               At(m, R, C) == At(z.m, R, C)
    requires z.p.output == 0 ==> d == z.d
    requires z.p.output != 0 && z.p.noPool ==> OutHeld(z, d, z.p.batches, 0, 0, 0, 0) && DramFrame(z, d)
    requires z.p.output != 0 && !z.p.noPool ==> PHeld(z, d, z.p.batches, 0) && PFrame(z, d)
    ensures Completed(z, s, m, d)
  {
    hide At, AHeld, BHeld, SpadFrame, Finished, OutHeld, DramFrame, PHeld, PFrame, InRegion;
  }

  lemma Reconfigured(z: Start, z': Start)
    requires Loadable(z.p) && z' == z.(cfg := z'.cfg) && SameButLoads(ComputeConfig(z.p, z.cfg), z'.cfg) && Ready(z)
    requires CanStore(z)
    ensures Ready(z') && Restrided(z') && CanStore(z')
  {
    hide Call.Fits, Call.OutAddr, PAddr, Layout.Rows;
    forall e ensures InC(z', e) == InC(z, e) && EAddr(z', e) == EAddr(z, e) {
    }
    forall q ensures InP(z', q) == InP(z, q) && QAddr(z', q) == QAddr(z, q) {
      assert PAddr(z', q.b, q.pr, q.pc, q.ob * DIM + q.n) == PAddr(z, q.b, q.pr, q.pc, q.ob * DIM + q.n) by {
        SamePAddr(z, z', q);
      }
    }
  }

  lemma SamePAddr(z: Start, z': Start, q: Pixel)
    requires z'.p == z.p
    ensures PAddr(z', q.b, q.pr, q.pc, q.ob * DIM + q.n) == PAddr(z, q.b, q.pr, q.pc, q.ob * DIM + q.n)
  {
  }

  /** Everything before the stores: operands in, strides set, sums complete. */
  method Convolve(g: Gemmini, ghost z: Start, p: Call)
    requires Ready(z) && Restrided(z) && Loadable(p)
    requires z == StartOf(g, p).(cfg := ComputeConfig(p, LoadsAfter(p, g.cfg)))
    modifies g`spad, g`acc, g`pe, g`pre, g`cfg
    ensures g.cfg == z.cfg && AHeld(z, g.spad) && BHeld(z, g.spad) && SpadFrame(z, g.spad) && Finished(z, g.acc)
    ensures forall R, C :: !InRegion(p.CLayout(z.cRow), R) && !(p.bias != 0 && InRegion(p.CLayout(z.dRow), R)) ==>
              At(g.acc, R, C) == At(z.m, R, C)
  {
    hide Call.Fits, AHeld, BHeld, SpadFrame, AccHeld, OutsideKept, Finished, Layout.Rows, InRegion, At, Packed;
    LoadOperands(g, z, p);
    if p.transInput3120 {
      g.ConfigStrides(p.ChannelRows(), p.ImageRows());
    }
    ghost var m0 := g.acc;
    KeptRefl(p.CLayout(g.cRow), m0);
    Compute(g, z, p, g.cRow, m0);
    SumsFinished(z, g.acc);
    RowsKept(z, m0, g.acc);
  }

  /** loop_conv_ws: load, convolve, store. Bias and sums switch accumulator halves for the next call. */
  method LoopConvWs(g: Gemmini, p: Call) returns (ghost z: Start)
    requires Ready(StartOf(g, p)) && CanStore(StartOf(g, p))
    modifies g`spad, g`acc, g`pe, g`pre, g`dram, g`norm, g`cfg, g`dRow, g`cRow
    ensures Loadable(p) && z == old(StartOf(g, p)).(cfg := ComputeConfig(p, LoadsAfter(p, old(g.cfg))))
    ensures Completed(z, g.spad, g.acc, g.dram)
    ensures g.dRow == (if p.bias != 0 then Toggle(old(g.dRow)) else old(g.dRow))
    ensures g.cRow == (if p.output != 0 then Toggle(old(g.cRow)) else old(g.cRow))
    ensures g.cfg == Leaves(p, old(g.cfg))
    ensures NormKept(old(g.norm), g.norm, g.statId) && (AllReset(old(g.norm)) ==> AllReset(g.norm))
  {
    hide Call.Fits, AHeld, BHeld, SpadFrame, Finished, OutApart, PApart, OutHeld, PHeld, DramFrame, PFrame, Layout.Rows,
         Loadable, Completed, InRegion, At, CanStore, Packed;
    FitsLoadable(p, g.cRow);
    z := StartOf(g, p).(cfg := ComputeConfig(p, LoadsAfter(p, g.cfg)));
    Reconfigured(StartOf(g, p), z);
    var cRow := g.cRow;
    Convolve(g, z, p);
    hide Ready;
    g.dRow := if p.bias != 0 then Toggle(g.dRow) else g.dRow;
    g.cRow := if p.output != 0 then Toggle(g.cRow) else g.cRow;
    if p.output != 0 {
      CanStoreNow(z);
      if p.noPool {
        StoreOutputs(g, z, p, cRow);
      } else {
        StorePooled(g, z, p, cRow);
      }
    }
    CallCompleted(z, g.spad, g.acc, g.dram);
  }

  lemma KeptRefl(l: Layout, m: AccMem)
    ensures OutsideKept(l, m, m)
  {
  }

  lemma RowsKept(z: Start, m0: AccMem, m: AccMem)
    requires if z.p.bias != 0 then OutsideKept(z.p.CLayout(z.dRow), z.m, m0) else m0 == z.m
    requires OutsideKept(z.p.CLayout(z.cRow), m0, m)
    ensures forall R, C :: !InRegion(z.p.CLayout(z.cRow), R) && !(z.p.bias != 0 && InRegion(z.p.CLayout(z.dRow), R)) ==>
              At(m, R, C) == At(z.m, R, C)
  {
    hide At, InRegion;
  }
}
