/** The compute loops of loop_conv_ws. */
module ConvCompute {
  import opened Params
  import opened Wrap
  import opened Sums
  import opened Grid
  import opened State
  import opened Patches
  import opened Layouts
  import opened Machine
  import opened ConvSpec
  import opened ConvTaps
  import opened Chunks
  import opened ConvGroups

  /** Preload the tap's weights if they are new, then multiply up to DIM pixels of one row. */
  method Group(g: Gemmini, ghost z: Start, p: Call, cRow: nat, ob: nat, kr: nat, kc: nat, kb: nat, b: nat, r: nat,
               c: nat, fresh': bool)
    requires Ready(z) && p == z.p && cRow == z.cRow && g.cfg == z.cfg && InGroup(z, ob, kr, kc, kb, b, r, c)
    requires AHeld(z, g.spad) && BHeld(z, g.spad)
    requires !fresh' ==> WeightsHeld(z, g.pe, ob, kr, kc, kb)
    requires AccHeld(z, g.acc, ob, kr, kc, kb, b, r, c)
    modifies g`pre, g`pe, g`acc, g`spad
    ensures g.spad == old(g.spad) && WeightsHeld(z, g.pe, ob, kr, kc, kb)
    ensures AccHeld(z, g.acc, ob, kr, kc, kb, b, r, c + p.ColStep())
    ensures forall m0: AccMem :: OutsideKept(p.CLayout(cRow), m0, old(g.acc)) ==>
              OutsideKept(p.CLayout(cRow), m0, g.acc)
  {
    hide At, AHeld, BHeld, AccHeld, WeightsHeld, OutsideKept, Call.Fits, GroupRows, GroupCols, GroupDepth, BRowOf, CRow,
         TapRow, TapCol, OnData, ABounds, BDBounds, OutBounds, PreloadBounds, WsResult, StepSum, Wrap32, Layout.Row,
         Layout.Rows, Packed, Member;
    RowsNat(z, ob, kr, kc, kb, b, r, c);
    GroupBounds(z, ob, kr, kc, kb, b, r, c, fresh');
    ghost var s, m, pe := g.spad, g.acc, g.pe;
    var I, J, K := GroupRows(p, b, c), GroupCols(p, ob), GroupDepth(p, kc, kb);
    var y, x := p.Undilated(TapRow(p, kr, r)), p.Undilated(TapCol(p, kc, c));
    var aRow := if p.transInput3120 then p.ALayout().Row(b / DIM, kb * DIM, y, x) else p.ALayout().Row(kb, b, y, x);
    var cRow' := p.CLayout(cRow).Row(ob, b, r, c);
    CRowIs(z, ob, b, r, c);
    g.Preload(if fresh' then Some(BRowOf(p, ob, kr, kc, kb)) else None, K, J, Some(Dest(true, true, cRow')), I, J);
    g.Compute(Operand(Some(aRow), I, K), Operand(None, I, J), fresh');
    ghost var pre := PreloadFor(z, ob, kr, kc, kb, b, r, c, fresh');
    ghost var loaded: PeGrid, values: PeGrid :|
      && Multiplied(z.cfg, OperandFor(z, ob, kr, kc, kb, b, r, c), ZeroFor(z, ob, b, c), s, loaded, g.pe, values)
      && Loaded(z.cfg, pre, fresh', s, pe, loaded)
      && WrittenAcc(z.cfg, pre, values, m, g.acc)
      && WrittenSpad(z.cfg, pre, values, s, g.spad);
    if fresh' { WeightsLoaded(z, s, loaded, ob, kr, kc, kb, b, r, c); }
    forall i, n | 0 <= i < GroupRows(p, b, c) && 0 <= n < DIM
      ensures At(values, i, n) == Wrap32(StepSum(z, Member(p, ob, b, r, c, i, n), kr, kc, kb))
    {
      GroupResult(z, s, loaded, ob, kr, kc, kb, b, r, c, i, n);
    }
    GroupStep(z, m, g.acc, values, ob, kr, kc, kb, b, r, c, fresh');
    forall m0: AccMem | OutsideKept(p.CLayout(cRow), m0, m) ensures OutsideKept(p.CLayout(cRow), m0, g.acc) {
      GroupFrame(z, m, g.acc, values, ob, kr, kc, kb, b, r, c, fresh', m0);
    }
  }

  lemma CRowIs(z: Start, ob: int, b: int, r: int, c: int)
    ensures CRow(z, Cell(ob, b, r, c, 0)) == z.p.CLayout(z.cRow).Row(ob, b, r, c)
  {
  }

  /** Skipping a column whose tap falls on an inserted zero. */
  lemma SkipColumn(z: Start, m: AccMem, ob: int, kr: nat, kc: nat, kb: nat, b: int, r: int, c: int)
    requires Ready(z) && AccHeld(z, m, ob, kr, kc, kb, b, r, c) && !OnData(z.p, TapCol(z.p, kc, c), z.p.lpad)
    ensures AccHeld(z, m, ob, kr, kc, kb, b, r, c + 1)
  {
    hide At, CRow, Base, Prefix, StepSum, Total, TapRow, TapCol, Wrap32, Call.Fits, Packed;
    forall e | InC(z, e)
      ensures At(m, CRow(z, e), e.n)
              == Wrap32(Base(z, e) + Progress(z, e, ob, kr, kc, kb, CellDone(z.p, e, b, r, c + 1)))
    {
      if e.r == r && e.c == c { SkippedIsZero(z, e, kr, kc, kb); }
    }
  }

  lemma SkipRow(z: Start, m: AccMem, ob: int, kr: nat, kc: nat, kb: nat, b: int, r: int)
    requires Ready(z) && AccHeld(z, m, ob, kr, kc, kb, b, r, 0) && !OnData(z.p, TapRow(z.p, kr, r), z.p.upad)
    ensures AccHeld(z, m, ob, kr, kc, kb, b, r + 1, 0)
  {
    hide At, CRow, Base, Prefix, StepSum, Total, TapRow, TapCol, Wrap32, Call.Fits, Packed;
    forall e | InC(z, e)
      ensures At(m, CRow(z, e), e.n)
              == Wrap32(Base(z, e) + Progress(z, e, ob, kr, kc, kb, CellDone(z.p, e, b, r + 1, 0)))
    {
      if e.r == r { SkippedIsZero(z, e, kr, kc, kb); }
    }
  }

  lemma NextRow(z: Start, m: AccMem, ob: int, kr: nat, kc: nat, kb: nat, b: int, r: int, c: int)
    requires AccHeld(z, m, ob, kr, kc, kb, b, r, c) && z.p.ocols <= c
    ensures AccHeld(z, m, ob, kr, kc, kb, b, r + 1, 0)
  {
    hide At, CRow, Base, Progress, Wrap32;
  }

  lemma NextImage(z: Start, m: AccMem, ob: int, kr: nat, kc: nat, kb: nat, b: int)
    requires AccHeld(z, m, ob, kr, kc, kb, b, z.p.orows, 0)
    ensures AccHeld(z, m, ob, kr, kc, kb, b + z.p.BatchStep(), 0, 0)
  {
    hide At, CRow, Base, Progress, Wrap32;
  }

  lemma AllImages(z: Start, m: AccMem, ob: int, kr: nat, kc: nat, kb: nat, b: int)
    requires AccHeld(z, m, ob, kr, kc, kb, b, 0, 0) && z.p.batches <= b
    ensures AccHeld(z, m, ob, kr, kc, kb, z.p.batches, 0, 0)
  {
    hide At, CRow, Base, Progress, Wrap32;
  }

  lemma NextBlock(z: Start, m: AccMem, ob: int, kr: nat, kc: nat, kb: nat)
    requires AccHeld(z, m, ob, kr, kc, kb, z.p.batches, 0, 0) && z.p.pixels == 1
    ensures AccHeld(z, m, ob, kr, kc, kb + 1, 0, 0, 0)
  {
    hide At, CRow, Base, Wrap32, BlockSum, StepSum, TapSums, KRowSums, Total;
    forall e ensures StepSum(z, e, kr, kc, kb) == BlockSum(z, e, kr, kc, kb) { StepIsBlock(z, e, kr, kc, kb); }
  }

  lemma StepIsBlock(z: Start, e: Cell, kr: int, kc: int, kb: int)
    requires z.p.pixels == 1
    ensures StepSum(z, e, kr, kc, kb) == BlockSum(z, e, kr, kc, kb)
  {
    hide XPad, WPad;
    SumSame(DIM, StepTerms(z, e, kr, kc, kb), ChTerms(z, e, kr, kc, kb));
  }

  ghost function TapsFrom(z: Start, e: Cell, kr: int, kc: int): int -> int {
    px => TapSums(z, e, kr)(kc + px)
  }

  lemma OneBlock(chs: nat)
    requires 0 < chs <= DIM
    ensures BlockCount(chs) == 1
  {
    BlockInRange(0, chs);
    if BlockCount(chs) > 1 { BlockStarts(chs, 1); }
  }

  /** All channels of one tap, when they fit one block. */
  lemma TapIsBlock(z: Start, e: Cell, kr: int, kc: int)
    requires 0 < z.p.kchs <= DIM
    ensures TapSums(z, e, kr)(kc) == Sum(z.p.kchs, ChTerms(z, e, kr, kc, 0))
  {
    hide XPad, BElem, BlockCount;
    OneBlock(z.p.kchs);
    var f := ChTerms(z, e, kr, kc, 0);
    assert Sum(1, BlockSums(z, e, kr, kc)) == BlockSum(z, e, kr, kc, 0);
    SumTrim(z.p.kchs, DIM, f);
  }

  /** A packed column of the array multiplies the right channel of the right tap. */
  lemma PackedTerm(z: Start, e: Cell, kr: int, kc: int, px: int, ch: int)
    requires z.p.pixels > 1 && z.p.kchs > 0 && 0 <= px < z.p.PixelsAt(kc) && 0 <= ch < z.p.kchs
    ensures ChTerms(z, e, kr, kc + px, 0)(ch) == StepTerms(z, e, kr, kc, 0)(Flat(px, z.p.kchs, ch))
  {
    hide XPad, WPad, Call.PixelsAt;
    DivUnique(Flat(px, z.p.kchs, ch), z.p.kchs, px, ch);
    MulLe(px + 1, z.p.PixelsAt(kc), z.p.kchs);
    assert (px + 1) * z.p.kchs == px * z.p.kchs + z.p.kchs;
  }

  /** One packed step is the sum of its taps. */
  lemma PackedStep(z: Start, e: Cell, kr: int, kc: int)
    requires z.p.pixels > 1 && z.p.Packable() && 0 <= kc < z.p.kcols
    ensures StepSum(z, e, kr, kc, 0) == Sum(z.p.PixelsAt(kc), TapsFrom(z, e, kr, kc))
  {
    hide ChTerms, XPad, WPad, TapSums, Flat, Sum, Call.AStart;
    var n, k := z.p.PixelsAt(kc), z.p.kchs;
    var f, g, h := StepTerms(z, e, kr, kc, 0), px => ChTerms(z, e, kr, kc + px, 0), TapsFrom(z, e, kr, kc);
    MulLe(1, z.p.pixels, k);
    MulLe(n, z.p.pixels, k);
    FlatIs(n, k);
    forall i, j | 0 <= i < n && 0 <= j < k ensures g(i)(j) == f(Flat(i, k, j)) { PackedTerm(z, e, kr, kc, i, j); }
    forall i | 0 <= i < n ensures h(i) == Sum(k, g(i)) { TapIsBlock(z, e, kr, kc + i); }
    SumBlocks(n, k, f, g, h);
    SumTrim(Flat(n, k, 0), DIM, f);
  }

  lemma FlatIs(n: int, k: int)
    ensures Flat(n, k, 0) == n * k
  {
  }

  lemma NextPacked(z: Start, m: AccMem, ob: int, kr: nat, kc: nat)
    requires AccHeld(z, m, ob, kr, kc, 0, z.p.batches, 0, 0) && z.p.pixels > 1 && z.p.Packable() && kc < z.p.kcols
    ensures AccHeld(z, m, ob, kr, kc + z.p.PixelsAt(kc), 0, 0, 0, 0)
  {
    hide At, CRow, Base, Wrap32, StepSum, TapSums, KRowSums, Total, Call.AStart, BlockSums, InC, Prefix, Sum;
    forall e | InC(z, e)
      ensures At(m, CRow(z, e), e.n)
              == Wrap32(Base(z, e) + Progress(z, e, ob, kr, kc + z.p.PixelsAt(kc), 0, CellDone(z.p, e, 0, 0, 0)))
    {
      PackedPrefix(z, e, kr, kc);
      assert CellDone(z.p, e, z.p.batches, 0, 0) && !CellDone(z.p, e, 0, 0, 0) by { DoneRange(z, e); }
    }
  }

  lemma DoneRange(z: Start, e: Cell)
    requires InC(z, e)
    ensures CellDone(z.p, e, z.p.batches, 0, 0) && !CellDone(z.p, e, 0, 0, 0)
  {
  }

  lemma PackedPrefix(z: Start, e: Cell, kr: nat, kc: nat)
    requires z.p.pixels > 1 && z.p.Packable() && kc < z.p.kcols
    ensures Prefix(z, e, kr, kc, 0) + StepSum(z, e, kr, kc, 0) == Prefix(z, e, kr, kc + z.p.PixelsAt(kc), 0)
  {
    hide StepSum, TapSums, KRowSums, BlockSums, Call.AStart;
    PackedStep(z, e, kr, kc);
    SumSplit(kc, z.p.PixelsAt(kc), TapSums(z, e, kr), TapsFrom(z, e, kr, kc));
  }

  lemma NextTap(z: Start, m: AccMem, ob: int, kr: nat, kc: nat)
    requires AccHeld(z, m, ob, kr, kc, z.p.KBlocks(), 0, 0, 0)
    ensures AccHeld(z, m, ob, kr, kc + 1, 0, 0, 0, 0)
  {
    hide At, CRow, Base, Wrap32, BlockSum, KRowSums, Total;
  }

  lemma NextKRow(z: Start, m: AccMem, ob: int, kr: nat)
    requires AccHeld(z, m, ob, kr, z.p.kcols, 0, 0, 0, 0)
    ensures AccHeld(z, m, ob, kr + 1, 0, 0, 0, 0, 0)
  {
    hide At, CRow, Base, Wrap32, BlockSum, TapSums, Total;
  }

  lemma NextOch(z: Start, m: AccMem, ob: int)
    requires AccHeld(z, m, ob, z.p.krows, 0, 0, 0, 0, 0)
    ensures AccHeld(z, m, ob + 1, 0, 0, 0, 0, 0, 0)
  {
    hide At, CRow, Base, Wrap32, BlockSum, TapSums, KRowSums;
  }

  /** What the compute loops keep besides the sums. */
  ghost predicate Steady(g: Gemmini, z: Start, p: Call, cRow: int, m0: AccMem)
    reads g
  {
    && Ready(z) && p == z.p && cRow == z.cRow && g.cfg == z.cfg && AHeld(z, g.spad) && BHeld(z, g.spad)
    && OutsideKept(p.CLayout(cRow), m0, g.acc) && Restrided(z)
  }

  /** One output row: groups of DIM pixels, stepping over columns whose tap is an inserted zero. */
  method OutputRow(g: Gemmini, ghost z: Start, p: Call, cRow: nat, ob: nat, kr: nat, kc: nat, kb: nat, b: nat, r: nat,
                   fresh': bool, ghost m0: AccMem)
    returns (fresh'': bool)
    requires Steady(g, z, p, cRow, m0) && ob * DIM < p.ochs && kr < p.krows && kc < p.kcols && kb * DIM < p.kchs
    requires b < p.batches && r < p.orows
    requires OnData(p, TapRow(p, kr, r), p.upad) && (p.transInput3120 ==> b % DIM == 0)
    requires !fresh' ==> WeightsHeld(z, g.pe, ob, kr, kc, kb)
    requires AccHeld(z, g.acc, ob, kr, kc, kb, b, r, 0)
    modifies g`pre, g`pe, g`acc, g`spad
    ensures Steady(g, z, p, cRow, m0) && g.spad == old(g.spad) && (!fresh'' ==> WeightsHeld(z, g.pe, ob, kr, kc, kb))
    ensures AccHeld(z, g.acc, ob, kr, kc, kb, b, r + 1, 0)
  {
    hide AHeld, BHeld, AccHeld, WeightsHeld, OutsideKept, Ready, TapRow, TapCol;
    fresh'' := fresh';
    var c := 0;
    while c < p.ocols
      invariant 0 <= c
      invariant Steady(g, z, p, cRow, m0) && g.spad == old(g.spad)
      invariant !fresh'' ==> WeightsHeld(z, g.pe, ob, kr, kc, kb)
      invariant AccHeld(z, g.acc, ob, kr, kc, kb, b, r, c)
      decreases p.ocols - c
    {
      if !OnData(p, TapCol(p, kc, c), p.lpad) {
        SkipColumn(z, g.acc, ob, kr, kc, kb, b, r, c);
        c := c + 1;
        continue;
      }
      Group(g, z, p, cRow, ob, kr, kc, kb, b, r, c, fresh'');
      c := c + p.ColStep();
      fresh'' := false;
    }
    NextRow(z, g.acc, ob, kr, kc, kb, b, r, c);
  }

  lemma NextMultiple(b: int)
    requires b % DIM == 0
    ensures (b + DIM) % DIM == 0
  {
    DivUnique(b + DIM, DIM, b / DIM + 1, 0);
  }

  /** One channel block of one tap, over all images and rows; the weights are preloaded once. */
  method Tap(g: Gemmini, ghost z: Start, p: Call, cRow: nat, ob: nat, kr: nat, kc: nat, kb: nat, ghost m0: AccMem)
    requires Steady(g, z, p, cRow, m0) && ob * DIM < p.ochs && kr < p.krows && kc < p.kcols && kb * DIM < p.kchs
    requires AccHeld(z, g.acc, ob, kr, kc, kb, 0, 0, 0)
    modifies g`pre, g`pe, g`acc, g`spad
    ensures Steady(g, z, p, cRow, m0) && g.spad == old(g.spad)
    ensures AccHeld(z, g.acc, ob, kr, kc, kb, p.batches, 0, 0)
  {
    hide AHeld, BHeld, AccHeld, WeightsHeld, OutsideKept, Ready, TapRow, TapCol;
    var fresh' := true;
    var b := 0;
    while b < p.batches
      invariant 0 <= b && (p.transInput3120 ==> b % DIM == 0)
      invariant Steady(g, z, p, cRow, m0) && g.spad == old(g.spad) && (!fresh' ==> WeightsHeld(z, g.pe, ob, kr, kc, kb))
      invariant AccHeld(z, g.acc, ob, kr, kc, kb, b, 0, 0)
      decreases p.batches - b
    {
      for r := 0 to p.orows
        invariant Steady(g, z, p, cRow, m0) && g.spad == old(g.spad)
        invariant !fresh' ==> WeightsHeld(z, g.pe, ob, kr, kc, kb)
        invariant AccHeld(z, g.acc, ob, kr, kc, kb, b, r, 0)
      {
        if OnData(p, TapRow(p, kr, r), p.upad) {
          fresh' := OutputRow(g, z, p, cRow, ob, kr, kc, kb, b, r, fresh', m0);
        } else {
          SkipRow(z, g.acc, ob, kr, kc, kb, b, r);
        }
      }
      NextImage(z, g.acc, ob, kr, kc, kb, b);
      if p.transInput3120 { NextMultiple(b); }
      b := b + p.BatchStep();
    }
    AllImages(z, g.acc, ob, kr, kc, kb, b);
  }

  /** Where the sums stand after kb channel blocks of the taps at kc. */
  ghost predicate AtBlock(z: Start, m: AccMem, ob: int, kr: nat, kc: nat, kb: nat) {
    if z.p.pixels == 1 || kb == 0 then AccHeld(z, m, ob, kr, kc, kb, 0, 0, 0)
    else kc < z.p.kcols && AccHeld(z, m, ob, kr, kc + z.p.PixelsAt(kc), 0, 0, 0, 0)
  }

  lemma BlockDone(z: Start, m: AccMem, ob: int, kr: nat, kc: nat, kb: nat)
    requires Ready(z) && kc < z.p.kcols && kb < z.p.KBlocks() && AccHeld(z, m, ob, kr, kc, kb, z.p.batches, 0, 0)
    ensures AtBlock(z, m, ob, kr, kc, kb + 1)
  {
    PackedOneBlock(z);
    assert z.p.pixels > 1 ==> z.p.Packable();
    hide AccHeld, Ready, BlockCount, Call.Packable, Call.PixelsAt;
    if z.p.pixels == 1 {
      NextBlock(z, m, ob, kr, kc, kb);
    } else {
      NextPacked(z, m, ob, kr, kc);
    }
  }

  lemma BlocksDone(z: Start, m: AccMem, ob: int, kr: nat, kc: nat)
    requires Ready(z) && kc < z.p.kcols && AtBlock(z, m, ob, kr, kc, z.p.KBlocks())
    ensures AccHeld(z, m, ob, kr, kc + z.p.PixelsAt(kc), 0, 0, 0, 0)
  {
    PackedOneBlock(z);
    hide AccHeld, Ready, BlockCount, Call.PixelsAt;
    if z.p.pixels == 1 {
      NextTap(z, m, ob, kr, kc);
      OnePixel(z.p, kc);
    }
  }

  /** All channel blocks of the kernel columns handled together at kc. */
  method Taps(g: Gemmini, ghost z: Start, p: Call, cRow: nat, ob: nat, kr: nat, kc: nat, ghost m0: AccMem)
    requires Steady(g, z, p, cRow, m0) && ob * DIM < p.ochs && kr < p.krows && kc < p.kcols
    requires AccHeld(z, g.acc, ob, kr, kc, 0, 0, 0, 0)
    modifies g`pre, g`pe, g`acc, g`spad
    ensures Steady(g, z, p, cRow, m0) && g.spad == old(g.spad)
    ensures AccHeld(z, g.acc, ob, kr, kc + p.PixelsAt(kc), 0, 0, 0, 0)
  {
    hide AccHeld, Ready, AHeld, BHeld, OutsideKept, BlockCount, Call.PixelsAt;
    for kb := 0 to p.KBlocks()
      invariant Steady(g, z, p, cRow, m0) && g.spad == old(g.spad)
      invariant AtBlock(z, g.acc, ob, kr, kc, kb)
    {
      BlockStarts(p.kchs, kb);
      assert AccHeld(z, g.acc, ob, kr, kc, kb, 0, 0, 0) by { if kb > 0 { PackedOneBlock(z); } }
      Tap(g, z, p, cRow, ob, kr, kc, kb, m0);
      BlockDone(z, g.acc, ob, kr, kc, kb);
    }
    BlocksDone(z, g.acc, ob, kr, kc);
  }

  lemma OnePixel(p: Call, kc: nat)
    requires p.pixels == 1 && kc < p.kcols
    ensures p.PixelsAt(kc) == 1
  {
  }

  lemma PackedOneBlock(z: Start)
    requires Ready(z)
    ensures z.p.pixels > 1 ==> z.p.KBlocks() == 1
  {
    hide Call.Fits, BlockCount, Packed;
    if z.p.pixels > 1 {
      MulLe(1, z.p.pixels, z.p.kchs);
      OneBlock(z.p.kchs);
    }
  }

  /** One kernel row, `pixels` columns at a time. */
  method KernelRow(g: Gemmini, ghost z: Start, p: Call, cRow: nat, ob: nat, kr: nat, ghost m0: AccMem)
    requires Steady(g, z, p, cRow, m0) && ob * DIM < p.ochs && kr < p.krows
    requires AccHeld(z, g.acc, ob, kr, 0, 0, 0, 0, 0)
    modifies g`pre, g`pe, g`acc, g`spad
    ensures Steady(g, z, p, cRow, m0) && g.spad == old(g.spad)
    ensures AccHeld(z, g.acc, ob, kr, p.kcols, 0, 0, 0, 0)
  {
    hide AccHeld, Steady;
    var kc := 0;
    while kc < p.kcols
      invariant 0 <= kc && Steady(g, z, p, cRow, m0) && g.spad == old(g.spad)
      invariant AccHeld(z, g.acc, ob, kr, Min(kc, p.kcols), 0, 0, 0, 0)
      decreases p.kcols - kc
    {
      Taps(g, z, p, cRow, ob, kr, kc, m0);
      kc := kc + p.pixels;
    }
  }

  /** All taps of all channel blocks: afterwards every cell holds its bias plus the whole convolution sum. */
  method Compute(g: Gemmini, ghost z: Start, p: Call, cRow: nat, ghost m0: AccMem)
    requires Steady(g, z, p, cRow, m0)
    requires AccHeld(z, g.acc, 0, 0, 0, 0, 0, 0, 0)
    modifies g`pre, g`pe, g`acc, g`spad
    ensures Steady(g, z, p, cRow, m0) && g.spad == old(g.spad)
    ensures AccHeld(z, g.acc, p.OBlocks(), 0, 0, 0, 0, 0, 0)
  {
    assert p == z.p;
    hide AccHeld, Steady, BlockCount;
    for ob := 0 to p.OBlocks()
      invariant Steady(g, z, p, cRow, m0) && g.spad == old(g.spad) && AccHeld(z, g.acc, ob, 0, 0, 0, 0, 0, 0)
    {
      BlockStarts(p.ochs, ob);
      for kr := 0 to p.krows
        invariant Steady(g, z, p, cRow, m0) && g.spad == old(g.spad) && AccHeld(z, g.acc, ob, kr, 0, 0, 0, 0, 0)
      {
        KernelRow(g, z, p, cRow, ob, kr, m0);
        NextKRow(z, g.acc, ob, kr);
      }
      NextOch(z, g.acc, ob);
    }
  }
}
