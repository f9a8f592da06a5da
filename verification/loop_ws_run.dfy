/** The loop_ws instruction itself, proved to leave the matrix product in main memory. */
module LoopWs {
  import opened Params
  import opened Wrap
  import opened Sums
  import opened Dram
  import opened Grid
  import opened State
  import opened Patches
  import opened Machine
  import opened LoopWsSpec
  import opened LoopWsLayout
  import opened LoopWsSteps
  import opened LoopWsNorm

  ghost predicate Held(z: Start, s: Spad, m: AccMem, d: Memory, k: nat, j: int, i: int)
    requires z.p.Padded()
  {
    && AHeld(z, s, k, j, i) && BHeld(z, s, k, j, i) && SpadFrame(z, s)
    && AccHeld(z, m, k, j, i) && AccFrame(z, m)
    && CHeld(z, d, k, j, i) && DramFrame(z, d) && (z.p.C == 0 ==> d == z.d)
  }

  method MvinTile(g: Gemmini, addr: int, base: nat, rows: nat, cols: nat, id: int)
    requires base + rows <= SPAD_ROWS && cols <= DIM && g.cfg.Load(id).pixels == 1
    modifies g`spad
    ensures TileIn(old(g.spad), g.spad, base, rows, cols, g.dram, g.cfg.Load(id), addr)
  {
    hide At, SpadIn;
    var patch := Patch(base, rows, cols, g.cfg.Load(id).blockStride, 1);
    PlainBounds(patch, SPAD_ROWS);
    g.MvinSpad(addr, patch, id);
    PlainPatches(patch);
    hide Hit, SrcRow, SrcCol;
  }

  lemma PlainBounds(patch: Patch, limit: int)
    requires patch.pixels == 1 && patch.cols <= DIM && patch.base + patch.rows <= limit
    ensures InBounds(patch, limit) && Separate(patch)
  {
    forall row, col | 0 <= row < patch.rows && 0 <= col < patch.cols
      ensures LandRow(patch, row, col) < limit
    {
      DivUnique(col, DIM, 0, col);
    }
  }

  lemma PlainPatches(patch: Patch)
    requires patch.pixels == 1 && patch.cols <= DIM
    ensures forall R, C :: SrcRow(patch, R, C) == R - patch.base && SrcCol(patch, R, C) == C
    ensures forall R, C :: Hit(patch, R, C) <==> patch.base <= R < patch.base + patch.rows && 0 <= C < patch.cols
  {
  }

  /** Load block (i, k) of A if this is the first time it is needed. */
  method LoadA(g: Gemmini, ghost z: Start, p: Call, k: nat, j: nat, i: nat)
    requires Ready(z) && CApart(z) && p == z.p && g.cfg == z.cfg && p.InA(i, k) && p.InB(k, j)
    requires AHeld(z, g.spad, k, j, i) && BHeld(z, g.spad, k, j, i) && SpadFrame(z, g.spad) && DramFrame(z, g.dram)
    requires p.C == 0 ==> g.dram == z.d
    modifies g`spad
    ensures AHeld(z, g.spad, k, j, i + 1) && BHeld(z, g.spad, k, j, i) && SpadFrame(z, g.spad)
  {
    hide At, AElem, BElem, InCBytes, TileIn, Call.Accepted, Call.ARow, Call.BRow, CApart, SpadFrame;
    if j == 0 && p.A != 0 {
      ARange(p, i, k, 0);
      ghost var s := g.spad;
      MvinTile(g, p.AAddr(i, k), p.ARow(i, k, 0), p.ARows(i, k), p.ACols(i, k), 0);
      ALoaded(z, s, g.spad, g.dram, k, i);
      AFrame(z, s, g.spad, g.dram, k, i);
      BKept(z, s, g.spad, g.dram, k, j, i, i);
    }
  }

  method LoadB(g: Gemmini, ghost z: Start, p: Call, k: nat, j: nat, i: nat)
    requires Ready(z) && CApart(z) && p == z.p && g.cfg == z.cfg && p.InA(i, k) && p.InB(k, j)
    requires AHeld(z, g.spad, k, j, i + 1) && BHeld(z, g.spad, k, j, i) && SpadFrame(z, g.spad)
    requires DramFrame(z, g.dram)
    requires p.C == 0 ==> g.dram == z.d
    modifies g`spad
    ensures AHeld(z, g.spad, k, j, i + 1) && BHeld(z, g.spad, k, j, i + 1) && SpadFrame(z, g.spad)
  {
    hide At, AElem, BElem, InCBytes, TileIn, Call.Accepted, Call.ARow, Call.BRow, CApart, SpadFrame;
    if i == 0 && p.B != 0 {
      BRange(p, k, j, 0);
      ghost var s := g.spad;
      MvinTile(g, p.BAddr(k, j), p.BRow(k, j, 0), p.BRows(k, j), p.BCols(k, j), 1);
      BLoaded(z, s, g.spad, g.dram, k, j);
      BFrame(z, s, g.spad, g.dram, k, j);
      AKept(z, s, g.spad, g.dram, k, j, j, i + 1);
    }
  }

  lemma Bounds(z: Start, k: int, j: int, i: int)
    requires Ready(z) && z.p.InA(i, k) && z.p.InB(k, j)
    ensures ABounds(z.cfg, OperandA(z, i, k)) && BDBounds(z.cfg, ZeroOperand())
    ensures OutBounds(z.cfg, PreloadFor(z, k, j, i)) && PreloadBounds(z.cfg, PreloadFor(z, k, j, i))
  {
    hide Call.ARow, Call.BRow, Call.CRow, Call.Accepted;
    ARange(z.p, i, k, 0);
    BRange(z.p, k, j, 0);
    CRange(z.p, i, j);
  }

  /** Multiply block (i, k) of A by block (k, j) of B, reusing the weights after the first i. */
  method Multiply(g: Gemmini, ghost z: Start, p: Call, k: nat, j: nat, i: nat)
    requires Ready(z) && p == z.p && g.cfg == z.cfg && p.InA(i, k) && p.InB(k, j)
    requires AHeld(z, g.spad, k, j, i + 1) && BHeld(z, g.spad, k, j, i + 1)
    requires i > 0 ==> WeightsHeld(z, g.pe, k, j)
    requires AccHeld(z, g.acc, k, j, i) && AccFrame(z, g.acc)
    modifies g`pre, g`pe, g`acc, g`spad
    ensures g.spad == old(g.spad) && WeightsHeld(z, g.pe, k, j)
    ensures AccHeld(z, g.acc, k, j, i + 1) && AccFrame(z, g.acc)
  {
    hide At, AHeld, BHeld, AccHeld, AccFrame, WeightsHeld, ABounds, BDBounds, OutBounds, PreloadBounds, Call.ARow,
         Call.BRow, Call.CRow, Call.Accepted;
    ghost var s, m, pe := g.spad, g.acc, g.pe;
    Bounds(z, k, j, i);
    assert z.p.InA(0, k);
    ARange(p, i, k, 0); BRange(p, k, j, 0); CRange(p, i, j);
    g.Preload(if i == 0 then Some(p.BRow(k, j, 0)) else None, p.DepthOf(k), p.ColsOf(j),
              Some(Dest(true, p.accumulate || k > 0, p.CRow(i, j, 0))), p.RowsOf(i), p.ColsOf(j));
    g.Compute(Operand(Some(p.ARow(i, k, 0)), p.RowsOf(i), p.DepthOf(k)), Operand(None, DIM, DIM), i == 0);
    ghost var pre := PreloadFor(z, k, j, i);
    ghost var loaded: PeGrid, values: PeGrid :|
      && Multiplied(z.cfg, OperandA(z, i, k), ZeroOperand(), s, loaded, g.pe, values)
      && Loaded(z.cfg, pre, i == 0, s, pe, loaded)
      && WrittenAcc(z.cfg, pre, values, m, g.acc)
      && WrittenSpad(z.cfg, pre, values, s, g.spad);
    if i == 0 { WeightsLoaded(z, s, loaded, k, j); }
    forall r, c | 0 <= r < DIM && 0 <= c < DIM
      ensures At(values, r, c) == Wrap32(Sum(DIM, BlockTerms(z, i, j, r, c, k)))
    {
      ResultIsBlockProduct(z, s, loaded, k, j, i, r, c);
    }
    AccStep(z, m, g.acc, values, k, j, i);
    AccFrameStep(z, m, g.acc, values, k, j, i);
  }

  /** Block rows of a normalising call stored before iteration (k, j, i). */
  function StoredRows(z: Start, k: int, j: int, i: nat): nat {
    if z.p.C == 0 || z.p.K == 0 || z.p.J == 0 || k < z.p.K - 1 then 0
    else if k >= z.p.K || j >= z.p.J then z.p.I
    else if j == z.p.J - 1 then i
    else 0
  }

  /** The statistics before iteration (k, j, i): the selected one's outputs kept, or every slot where its rows left
      it. */
  ghost predicate NormInv(z: Start, n: NormBank, id: StatId, k: int, j: int, i: nat)
    requires z.p.Padded()
  {
    if z.p.Norms() then n == BankAt(z, StoredRows(z, k, j, i), 0) else id == z.id && NormKept(z.norm, n, z.id)
  }

  /** Store block (i, j) of C once its last product is in. */
  method StoreBlock(g: Gemmini, ghost z: Start, p: Call, k: nat, j: nat, i: nat)
    requires Ready(z) && CApart(z) && p == z.p && g.cfg == z.cfg && g.statId == z.id && p.InA(i, k) && p.InB(k, j)
    requires !p.Norms() && p.C != 0 && k == p.K - 1
    requires SameOutputs(g.norm[z.id], z.norm[z.id])
    requires AccHeld(z, g.acc, k, j, i + 1) && CHeld(z, g.dram, k, j, i) && DramFrame(z, g.dram)
    modifies g`dram, g`norm
    ensures NormKept(old(g.norm), g.norm, z.id)
    ensures CHeld(z, g.dram, k, j, i + 1) && DramFrame(z, g.dram)
  {
    hide At, AccHeld, Call.CRow, Call.Accepted, InCBytes, CApart, Touched, Distinct, Load, LoadOut, OutValue, Final,
         NormRows, OutAddr;
    hide StoredTo;
    ghost var d, stat := g.dram, g.norm[z.id];
    CRange(p, i, j);
    BlockDistinct(z, i, j);
    StoreRows(z, i, j);
    var src := Source(true, p.fullC, RESET, p.CRow(i, j, 0));
    NormRowsReset(stat, g.acc, g.cfg.consts, src.row, p.RowsOf(i), p.ColsOf(j));
    g.Mvout(p.CAddr(i, j), src, p.RowsOf(i), p.ColsOf(j));
    CStep(z, g.spad, g.acc, stat, d, g.dram, k, j, i);
    DramStep(z, d, g.dram, j, i);
  }

  /** Move out what iteration (k, j, i) completes: its own block, or at the last column its whole block row. */
  method Store(g: Gemmini, ghost z: Start, p: Call, k: nat, j: nat, i: nat)
    requires Ready(z) && CApart(z) && p == z.p && g.cfg == z.cfg && p.InA(i, k) && p.InB(k, j)
    requires NormInv(z, g.norm, g.statId, k, j, i)
    requires AccHeld(z, g.acc, k, j, i + 1) && CHeld(z, g.dram, k, j, i) && DramFrame(z, g.dram)
    requires p.C == 0 ==> g.dram == z.d
    modifies g`dram, g`norm, g`statId
    ensures NormInv(z, g.norm, g.statId, k, j, i + 1)
    ensures CHeld(z, g.dram, k, j, i + 1) && DramFrame(z, g.dram) && (p.C == 0 ==> g.dram == z.d)
  {
    hide AccHeld, Call.Accepted, InCBytes, CApart, Load, LoadOut, OutValue, Final, StatOf, CByteAddr, NHeld, RowReady,
         AfterGroup;
    if p.C != 0 && k == p.K - 1 {
      if !p.Norms() {
        StoreBlock(g, z, p, k, j, i);
      } else if j == p.J - 1 {
        RowIsReady(z, g.acc, i);
        NHeldIsCHeld(z, g.dram, i);
        StoreNormalised(g, z, p, i);
        NHeldIsCHeld(z, g.dram, i);
      }
    }
  }

  lemma StoreRows(z: Start, i: int, j: int)
    requires z.p.Padded() && z.p.Accepted() && 0 <= i < z.p.I && 0 <= j < z.p.J
    ensures OutRows(SourceC(z, i, j), z.p.RowsOf(i), z.p.ColsOf(j))
  {
    hide Call.CRow, Call.Accepted;
    CRange(z.p, i, j);
    if z.p.ColsOf(j) > 0 {
      DivUnique(z.p.ColsOf(j) - 1, DIM, 0, z.p.ColsOf(j) - 1);
    }
  }

  /** One iteration of the triple loop. */
  method Step(g: Gemmini, ghost z: Start, p: Call, k: nat, j: nat, i: nat)
    requires Ready(z) && CApart(z) && p == z.p && g.cfg == z.cfg && p.InA(i, k) && p.InB(k, j)
    requires Held(z, g.spad, g.acc, g.dram, k, j, i)
    requires i > 0 ==> WeightsHeld(z, g.pe, k, j)
    requires NormInv(z, g.norm, g.statId, k, j, i)
    modifies g`spad, g`pre, g`pe, g`acc, g`dram, g`norm, g`statId
    ensures Held(z, g.spad, g.acc, g.dram, k, j, i + 1) && WeightsHeld(z, g.pe, k, j)
    ensures NormInv(z, g.norm, g.statId, k, j, i + 1)
  {
    hide AHeld, BHeld, SpadFrame, AccHeld, AccFrame, CHeld, DramFrame, CApart, WeightsHeld, Call.Accepted, NormInv;
    LoadA(g, z, p, k, j, i);
    LoadB(g, z, p, k, j, i);
    Multiply(g, z, p, k, j, i);
    Store(g, z, p, k, j, i);
  }

  /** Finishing a column of blocks is starting the next one. */
  lemma NextColumn(z: Start, s: Spad, m: AccMem, d: Memory, k: nat, j: int)
    requires z.p.Padded() && 0 <= j < z.p.J && Held(z, s, m, d, k, j, z.p.I)
    ensures Held(z, s, m, d, k, j + 1, 0)
  {
    hide At, AElem, BElem, Call.ARow, Call.BRow, Call.CRow, Partial, LoadOut, OutValue, Final, Load, InCBytes,
         SpadFrame;
  }

  lemma NextDepth(z: Start, s: Spad, m: AccMem, d: Memory, k: nat)
    requires z.p.Padded() && k < z.p.K && Held(z, s, m, d, k, z.p.J, 0)
    ensures Held(z, s, m, d, k + 1, 0, 0)
  {
    hide At, AElem, BElem, Call.ARow, Call.BRow, Call.CRow, Partial, LoadOut, OutValue, Final, Load, InCBytes,
         SpadFrame;
  }

  /** The triple loop. */
  method Products(g: Gemmini, ghost z: Start, p: Call)
    requires Ready(z) && CApart(z) && p == z.p && g.cfg == z.cfg
    requires Held(z, g.spad, g.acc, g.dram, 0, 0, 0)
    requires NormInv(z, g.norm, g.statId, 0, 0, 0)
    modifies g`spad, g`pre, g`pe, g`acc, g`dram, g`norm, g`statId
    ensures Held(z, g.spad, g.acc, g.dram, p.K, 0, 0)
    ensures NormInv(z, g.norm, g.statId, p.K, 0, 0)
  {
    hide Held, CApart, WeightsHeld, Call.Accepted, BankAt;
    for k := 0 to p.K
      invariant Held(z, g.spad, g.acc, g.dram, k, 0, 0)
      invariant NormInv(z, g.norm, g.statId, k, 0, 0)
    {
      for j := 0 to p.J
        invariant Held(z, g.spad, g.acc, g.dram, k, j, 0)
        invariant NormInv(z, g.norm, g.statId, k, j, 0)
      {
        for i := 0 to p.I
          invariant Held(z, g.spad, g.acc, g.dram, k, j, i)
          invariant i > 0 ==> WeightsHeld(z, g.pe, k, j)
          invariant NormInv(z, g.norm, g.statId, k, j, i)
        {
          Step(g, z, p, k, j, i);
        }
        NextColumn(z, g.spad, g.acc, g.dram, k, j);
      }
      NextDepth(z, g.spad, g.acc, g.dram, k);
    }
  }

  method MvinAccTile(g: Gemmini, addr: int, base: nat, rows: nat, cols: nat, accumulate: bool, id: int)
    requires base + rows <= ACC_ROWS && cols <= DIM && g.cfg.Load(id).pixels == 1
    modifies g`acc
    ensures AccTileIn(old(g.acc), g.acc, base, rows, cols, g.dram, g.cfg.Load(id), addr, accumulate)
  {
    hide At, AccIn, Landed;
    var patch := Patch(base, rows, cols, g.cfg.Load(id).blockStride, 1);
    PlainBounds(patch, ACC_ROWS);
    g.MvinAcc(addr, patch, accumulate, id);
    PlainPatches(patch);
    hide Hit, SrcRow, SrcCol;
  }

  /** A plain block has been moved into the accumulator and nothing else changed. */
  ghost predicate AccTileIn(m: AccMem, m': AccMem, base: int, rows: int, cols: int, d: Memory, ls: LoadState, addr: int,
                            accumulate: bool)
  {
    forall R, C :: 0 <= R && 0 <= C < DIM ==>
      At(m', R, C) == if base <= R < base + rows && C < cols
      then Landed(At(m, R, C), AccIn(d, ls, addr, R - base, C), accumulate)
                      else At(m, R, C)
  }

  /** Before block (i, j) of D is loaded. */
  ghost predicate BiasHeld(z: Start, m: AccMem, i: int, j: int)
    requires z.p.Padded()
  {
    && AccFrame(z, m)
    && forall i', j', r, c :: z.p.InC(i', j', r, c) ==>
         At(m, z.p.CRow(i', j', r), c) ==
         if z.p.D != 0 && !Before(i', j', i, j) then At(z.m, z.p.CRow(i', j', r), c) else Initial(z, i', j', r, c)
  }

  lemma BiasStep(z: Start, m: AccMem, m': AccMem, i: int, j: int)
    requires z.p.Padded() && z.p.Accepted() && 0 <= i < z.p.I && 0 <= j < z.p.J && z.p.D != 0
    requires BiasHeld(z, m, i, j)
    requires AccTileIn(m, m', z.p.CRow(i, j, 0), z.p.RowsOf(i), z.p.ColsOf(j), z.d, z.cfg.load2, z.p.DAddr(i, j), false)
    ensures BiasHeld(z, m', i, j + 1)
  {
    hide At, AccIn, Wrap32, Call.CRow, Call.Accepted, Call.DAddr;
    CApartRows(z.p, i, j);
    CRange(z.p, i, j);
    forall i', j', r, c | z.p.InC(i', j', r, c)
      ensures At(m', z.p.CRow(i', j', r), c) ==
              if !Before(i', j', i, j + 1) then At(z.m, z.p.CRow(i', j', r), c) else Initial(z, i', j', r, c)
    {
      assert 0 <= z.p.CRow(i', j', r) by { CRange(z.p, i', j'); }
      WrapSame(AccIn(z.d, z.cfg.load2, z.p.DAddr(i, j), r, c));
    }
    forall R, C | z.p.I * z.p.J * DIM <= R ensures At(m', R, C) == At(z.m, R, C) {
      if !(0 <= C < DIM) { OutsideAcc(m', R, C); OutsideAcc(m, R, C); }
    }
  }

  lemma BiasStart(z: Start)
    requires z.p.Padded()
    ensures BiasHeld(z, z.m, 0, 0)
  {
  }

  /** Move the bias in, if there is one. */
  method LoadBias(g: Gemmini, ghost z: Start, p: Call)
    requires Ready(z) && p == z.p && g.cfg == z.cfg && g.dram == z.d && g.acc == z.m
    modifies g`acc
    ensures AccHeld(z, g.acc, 0, 0, 0) && AccFrame(z, g.acc)
  {
    hide At, AccIn, Landed, Call.CRow, Call.Accepted, Call.DAddr, AccTileIn, AccFrame;
    BiasStart(z);
    if p.D != 0 {
      for i := 0 to p.I
        invariant BiasHeld(z, g.acc, i, 0)
      {
        for j := 0 to p.J
          invariant BiasHeld(z, g.acc, i, j)
        {
          ghost var m := g.acc;
          CRange(p, i, j);
          MvinAccTile(g, p.DAddr(i, j), p.CRow(i, j, 0), p.RowsOf(i), p.ColsOf(j), false, 2);
          BiasStep(z, m, g.acc, i, j);
        }
      }
    }
  }

  ghost function StartOf(g: Gemmini, p: Call): Start
    reads g
  {
    Start(p, g.cfg, g.statId, g.norm, g.spad, g.acc, g.dram)
  }

  /** Element x of the product behind C's element (m, n) of block (i, j). */
  ghost function ProductTerms(z: Start, i: int, j: int, m: int, n: int): int -> int
    requires z.p.Padded()
  {
    x => APad(z, i, x / DIM, m, x % DIM) * BPad(z, x / DIM, j, x % DIM, n)
  }

  ghost function Depth(p: Call): int { p.K * DIM - p.padK }

  /** The accumulator value loop_ws is meant to compute: A * B on top of the bias or the old sums. */
  ghost function Product(z: Start, i: int, j: int, m: int, n: int): int
    requires z.p.Padded() && Depth(z.p) >= 0
  {
    (if z.p.accumulate then Initial(z, i, j, m, n) else 0) + Sum(Depth(z.p), ProductTerms(z, i, j, m, n))
  }

  ghost function BlockSums(z: Start, i: int, j: int, m: int, n: int): int -> int
    requires z.p.Padded()
  {
    k => Sum(DIM, BlockTerms(z, i, j, m, n, k))
  }

  lemma {:induction false} PartialIsSum(z: Start, i: int, j: int, m: int, n: int, k: nat)
    requires z.p.Padded() && k > 0
    ensures Partial(z, i, j, m, n, k) ==
            Wrap32((if z.p.accumulate then Initial(z, i, j, m, n) else 0) + Sum(k, BlockSums(z, i, j, m, n)))
  {
    hide Wrap32, Initial, BlockTerms;
    var base := if z.p.accumulate then Initial(z, i, j, m, n) else 0;
    var h := BlockSums(z, i, j, m, n);
    if k == 1 {
      assert Sum(1, h) == h(0);
      if z.p.accumulate { WrapAdd2(base, h(0)); } else { WrapAdd2(0, h(0)); }
    } else {
      PartialIsSum(z, i, j, m, n, k - 1);
      WrapAdd(base + Sum(k - 1, h), Wrap32(h(k - 1)));
      WrapAdd2(base + Sum(k - 1, h), h(k - 1));
    }
  }

  lemma SplitIndex(k: int, x: int)
    requires 0 <= x < DIM
    ensures Flat(k, DIM, x) / DIM == k && Flat(k, DIM, x) % DIM == x
  {
    DivUnique(k * DIM + x, DIM, k, x);
  }

  /** Past the padded depth there is nothing left to multiply. */
  lemma PaddingIsZero(z: Start, i: int, j: int, m: int, n: int, x: int)
    requires z.p.Padded() && Depth(z.p) <= x < z.p.K * DIM
    ensures ProductTerms(z, i, j, m, n)(x) == 0
  {
    hide AElem, BElem;
    var k := z.p.K - 1;
    assert z.p.K * DIM == k * DIM + DIM;
    DivUnique(x, DIM, k, x - k * DIM);
  }

  /** K blocks of DIM products are one sum over the unpadded inner dimension. */
  lemma BlockSumsAreProduct(z: Start, i: int, j: int, m: int, n: int)
    requires z.p.Padded() && z.p.K > 0
    ensures Depth(z.p) >= 0 && Sum(z.p.K, BlockSums(z, i, j, m, n)) == Sum(Depth(z.p), ProductTerms(z, i, j, m, n))
  {
    hide APad, BPad;
    var f, h := ProductTerms(z, i, j, m, n), BlockSums(z, i, j, m, n);
    var b: int -> int -> int := k => BlockTerms(z, i, j, m, n, k);
    forall k, x | 0 <= k < z.p.K && 0 <= x < DIM ensures b(k)(x) == f(Flat(k, DIM, x)) {
      SplitIndex(k, x);
    }
    SumBlocks(z.p.K, DIM, f, b, h);
    assert Flat(z.p.K, DIM, 0) == z.p.K * DIM;
    assert z.p.K * DIM >= DIM by { MulLe(1, z.p.K, DIM); }
    forall x | Depth(z.p) <= x < z.p.K * DIM ensures f(x) == 0 {
      PaddingIsZero(z, i, j, m, n, x);
    }
    SumTrim(Depth(z.p), z.p.K * DIM, f);
  }

  lemma FinalIsProduct(z: Start, i: int, j: int, m: int, n: int)
    requires z.p.Padded() && z.p.K > 0
    ensures Depth(z.p) >= 0 && Partial(z, i, j, m, n, z.p.K) == Wrap32(Product(z, i, j, m, n))
    ensures Final(z, i, j, m, n) == Wrap32(Product(z, i, j, m, n))
  {
    hide Wrap32, Initial, ProductTerms, BlockSums, Partial;
    PartialIsSum(z, i, j, m, n, z.p.K);
    BlockSumsAreProduct(z, i, j, m, n);
    WrapAdd(Product(z, i, j, m, n), 0);
  }

  /** What a completed call leaves behind. */
  ghost predicate Completed(z: Start, s: Spad, m: AccMem, d: Memory)
    requires z.p.Padded() && (z.p.K > 0 ==> Depth(z.p) >= 0)
  {
    // The accumulator holds the product, and rows past the C blocks are untouched.
    && AccFrame(z, m)
    && (z.p.K > 0 ==> forall i, j, r, c :: z.p.InC(i, j, r, c) ==>
          At(m, z.p.CRow(i, j, r), c) == Wrap32(Product(z, i, j, r, c)))
    // C is the scaled and activated product, and no byte outside C changes.
    && (z.p.K > 0 && z.p.C != 0 ==> forall i, j, r, c :: z.p.InC(i, j, r, c) ==>
          LoadOut(d, z.p.fullC, CByteAddr(z, i, j, r, c)) ==
          OutValue(z.cfg, StatOf(z, i, r), z.p.fullC, Wrap32(Product(z, i, j, r, c))))
    && DramFrame(z, d) && (z.p.C == 0 ==> d == z.d)
    // Both operands stay resident, and so does everything outside the rows they were loaded to.
    && AHeld(z, s, z.p.K, 0, 0) && BHeld(z, s, z.p.K, 0, 0) && SpadFrame(z, s)
  }

  lemma HeldIsCompleted(z: Start, s: Spad, m: AccMem, d: Memory)
    requires z.p.Padded() && Held(z, s, m, d, z.p.K, 0, 0)
    ensures z.p.K > 0 ==> Depth(z.p) >= 0
    ensures Completed(z, s, m, d)
  {
    hide At, AHeld, BHeld, SpadFrame, AccFrame, DramFrame, Call.CRow, Initial, ProductTerms, Partial, OutValue, LoadOut,
         Product, Final, Depth;
    if z.p.K > 0 {
      FinalIsProduct(z, 0, 0, 0, 0);
      forall i, j, r, c | z.p.InC(i, j, r, c)
        ensures At(m, z.p.CRow(i, j, r), c) == Wrap32(Product(z, i, j, r, c))
        ensures Final(z, i, j, r, c) == Wrap32(Product(z, i, j, r, c))
      {
        FinalIsProduct(z, i, j, r, c);
      }
    }
  }

  /** loop_ws: refuse an oversized call, otherwise multiply. */
  method LoopWs(g: Gemmini, p: Call) returns (ok: bool)
    requires p.Padded() && (p.Accepted() ==> Ready(StartOf(g, p)) && CApart(StartOf(g, p)))
    modifies g`spad, g`pre, g`pe, g`acc, g`dram, g`norm, g`statId
    ensures ok <==> p.Accepted()
    ensures !ok ==> unchanged(g)
    ensures ok && p.K > 0 ==> Depth(p) >= 0
    ensures ok ==> Completed(old(StartOf(g, p)), g.spad, g.acc, g.dram)
    ensures ok ==> NormInv(old(StartOf(g, p)), g.norm, g.statId, p.K, 0, 0)
    ensures AllReset(old(g.norm)) ==> AllReset(g.norm)
  {
    hide CApart, Completed, AccFrame, AccHeld, AHeld, BHeld, SpadFrame, CHeld, DramFrame, Call.Accepted, Depth;
    if !p.Accepted() {
      return false;
    }
    ghost var z := StartOf(g, p);
    LoadBias(g, z, p);
    HeldAtStart(z);
    Products(g, z, p);
    HeldIsCompleted(z, g.spad, g.acc, g.dram);
    if AllReset(z.norm) && p.Norms() { BankReset(z, StoredRows(z, p.K, 0, 0), 0); }
    return true;
  }

  lemma HeldAtStart(z: Start)
    requires z.p.Padded()
    ensures AHeld(z, z.s, 0, 0, 0) && BHeld(z, z.s, 0, 0, 0) && SpadFrame(z, z.s)
    ensures CHeld(z, z.d, 0, 0, 0) && DramFrame(z, z.d)
  {
    hide At, Call.ARow, Call.BRow, Final, OutValue, LoadOut, Load, InCBytes;
  }
}
