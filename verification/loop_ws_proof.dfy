/** Why the blocks of loop_ws do not disturb each other. */
module LoopWsLayout {
  import opened Params
  import opened Wrap
  import opened Patches
  import opened Tiles
  import opened LoopWsSpec

  /** A and B blocks together fit in half the scratchpad. */
  lemma Regions(p: Call)
    requires p.Accepted()
    ensures 0 <= p.AStart() && p.AStart() + p.ASize() <= SPAD_ROWS
    ensures 0 <= p.BStart() && p.BStart() + p.BSize() <= SPAD_ROWS
    ensures p.AStart() + p.ASize() <= p.BStart() || p.BStart() + p.BSize() <= p.AStart()
  {
    var a, b := p.I * p.K * DIM, p.K * p.J * DIM;
    assert (p.I * p.K + p.K * p.J) * DIM == a + b;
    Products(p.I, p.K);
    Products(p.K, p.J);
  }

  lemma Products(x: nat, y: nat)
    ensures 0 <= x * y * DIM
  {
    MulLe(0, x, y);
    MulLe(0, x * y, DIM);
  }

  /** As long as the row counts are int32 values, the check refuses exactly the oversized calls. */
  lemma SizeTestExact(p: Call)
    requires (p.I * p.K + p.K * p.J) * DIM <= 0x7fff_ffff && p.I * p.J * DIM <= 0x7fff_ffff
    ensures p.Tested() <==> p.Accepted()
  {
    hide Wrap32;
    HalfSizes(p);
    WrapSame((p.I * p.K + p.K * p.J) * DIM);
    WrapSame(p.I * p.J * DIM);
  }

  /** It never refuses a call that fits, but counts that wrap around can slip through. */
  lemma SizeTestSound(p: Call)
    requires SPAD_ROWS / 2 <= 0x7fff_ffff && ACC_ROWS / 2 <= 0x7fff_ffff
    ensures p.Accepted() ==> p.Tested()
    ensures p.Tested() && !p.Accepted() ==>
              (p.I * p.K + p.K * p.J) * DIM > 0x7fff_ffff || p.I * p.J * DIM > 0x7fff_ffff
  {
    hide Call.Accepted, Call.Tested;
    if (p.I * p.K + p.K * p.J) * DIM <= 0x7fff_ffff && p.I * p.J * DIM <= 0x7fff_ffff { SizeTestExact(p); }
    if p.Accepted() { SizeTestFits(p); }
  }

  lemma SizeTestFits(p: Call)
    requires SPAD_ROWS / 2 <= 0x7fff_ffff && ACC_ROWS / 2 <= 0x7fff_ffff && p.Accepted()
    ensures p.Tested()
  {
    SizeTestExact(p);
  }

  lemma OversizedSlips(p: Call)
    requires DIM == 16 && p.I == 16384 && p.J == 16384 && p.K == 4096 && SPAD_ROWS == 16384
    ensures p.Tested() && !p.Accepted()
  {
    assert (p.I * p.K + p.K * p.J) * DIM == 0x8000_0000 && p.I * p.J * DIM == 0x1_0000_0000;
  }

  lemma HalfSizes(p: Call)
    ensures 0 <= p.ASize() && 0 <= p.BSize() && 0 <= p.I * p.J * DIM
    ensures (p.I * p.K + p.K * p.J) * DIM == p.ASize() + p.BSize()
    ensures p.Accepted() ==> p.ASize() + p.BSize() <= SPAD_ROWS / 2
  {
    Products(p.I, p.K);
    Products(p.K, p.J);
    Products(p.I, p.J);
  }

  lemma ARange(p: Call, i: int, k: int, r: int)
    requires p.Accepted() && p.InA(i, k) && 0 <= r < DIM
    ensures 0 <= p.ARow(i, k, r)
    ensures p.AStart() <= p.ARow(i, k, r) < p.AStart() + p.ASize()
    ensures 0 <= p.ARow(i, k, 0) && p.ARow(i, k, 0) + DIM <= SPAD_ROWS
    ensures p.AStart() <= p.ARow(i, k, 0) && p.ARow(i, k, 0) + DIM <= p.AStart() + p.ASize()
  {
    hide TileRow, Call.ASize, Call.BSize, Call.Accepted;
    Regions(p);
    if p.aT {
      TileRange(p.AStart(), p.K, p.I, k, i, r, p.ASize()) by { SizeOrder(p); }
    } else {
      TileRange(p.AStart(), p.I, p.K, i, k, r, p.ASize()) by { SizeOrder(p); }
    }
  }

  lemma SizeOrder(p: Call)
    ensures p.ASize() == p.I * p.K * DIM && p.ASize() == p.K * p.I * DIM
    ensures p.BSize() == p.K * p.J * DIM && p.BSize() == p.J * p.K * DIM
  {
    assert p.I * p.K == p.K * p.I && p.J * p.K == p.K * p.J;
  }

  lemma TileRange(start: int, X: int, n: int, x: int, y: int, r: int, size: int)
    requires 0 <= x < X && 0 <= y < n && 0 <= r < DIM && size == X * n * DIM
    ensures start <= TileRow(start, x, n, y, r) < start + size
    ensures start <= TileRow(start, x, n, y, 0) <= start + size - DIM
  {
    TileRowBounds(start, X, n, x, y, r);
  }

  lemma BRange(p: Call, k: int, j: int, r: int)
    requires p.Accepted() && p.InB(k, j) && 0 <= r < DIM
    ensures 0 <= p.BRow(k, j, r)
    ensures p.BStart() <= p.BRow(k, j, r) < p.BStart() + p.BSize()
    ensures 0 <= p.BRow(k, j, 0) && p.BRow(k, j, 0) + DIM <= SPAD_ROWS
    ensures p.BStart() <= p.BRow(k, j, 0) && p.BRow(k, j, 0) + DIM <= p.BStart() + p.BSize()
  {
    hide TileRow, Call.ASize, Call.BSize, Call.Accepted;
    Regions(p);
    if p.bT {
      TileRange(p.BStart(), p.J, p.K, j, k, r, p.BSize()) by { SizeOrder(p); }
    } else {
      TileRange(p.BStart(), p.K, p.J, k, j, r, p.BSize()) by { SizeOrder(p); }
    }
  }

  /** Block (i, k) of A overlaps no other A block and no B block. */
  lemma AApart(p: Call, i: int, k: int)
    requires p.Accepted() && p.InA(i, k)
    ensures forall i', k', r :: p.InA(i', k') && 0 <= r < DIM ==>
              (p.ARow(i, k, 0) <= p.ARow(i', k', r) < p.ARow(i, k, 0) + DIM <==> i' == i && k' == k)
    ensures forall i', k', r :: p.ARow(i', k', r) == p.ARow(i', k', 0) + r
    ensures forall k', j', r :: p.InB(k', j') && 0 <= r < DIM ==>
              !(p.ARow(i, k, 0) <= p.BRow(k', j', r) < p.ARow(i, k, 0) + DIM)
  {
    hide TileRow, Call.ASize, Call.BSize, Call.Accepted;
    if p.aT {
      TileRowsApart(p.AStart(), p.I, k, i);
    } else {
      TileRowsApart(p.AStart(), p.K, i, k);
    }
    Regions(p);
    ARange(p, i, k, 0);
    forall k', j', r | p.InB(k', j') && 0 <= r < DIM
      ensures !(p.ARow(i, k, 0) <= p.BRow(k', j', r) < p.ARow(i, k, 0) + DIM)
    {
      BRange(p, k', j', r);
    }
  }

  lemma BApart(p: Call, k: int, j: int)
    requires p.Accepted() && p.InB(k, j)
    ensures forall k', j', r :: p.InB(k', j') && 0 <= r < DIM ==>
              (p.BRow(k, j, 0) <= p.BRow(k', j', r) < p.BRow(k, j, 0) + DIM <==> k' == k && j' == j)
    ensures forall k', j', r :: p.BRow(k', j', r) == p.BRow(k', j', 0) + r
    ensures forall i', k', r :: p.InA(i', k') && 0 <= r < DIM ==>
              !(p.BRow(k, j, 0) <= p.ARow(i', k', r) < p.BRow(k, j, 0) + DIM)
  {
    hide TileRow, Call.ASize, Call.BSize, Call.Accepted;
    if p.bT {
      TileRowsApart(p.BStart(), p.K, j, k);
    } else {
      TileRowsApart(p.BStart(), p.J, k, j);
    }
    Regions(p);
    BRange(p, k, j, 0);
    forall i', k', r | p.InA(i', k') && 0 <= r < DIM
      ensures !(p.BRow(k, j, 0) <= p.ARow(i', k', r) < p.BRow(k, j, 0) + DIM)
    {
      ARange(p, i', k', r);
    }
  }

  lemma CRange(p: Call, i: int, j: int)
    requires p.Accepted() && 0 <= i < p.I && 0 <= j < p.J
    ensures 0 <= p.CRow(i, j, 0) && p.CRow(i, j, 0) + DIM <= p.I * p.J * DIM <= ACC_ROWS
  {
    hide TileRow;
    TileRowBounds(0, p.I, p.J, i, j, 0);
  }

  lemma CApartRows(p: Call, i: int, j: int)
    requires 0 <= j < p.J
    ensures forall i', j', r :: 0 <= j' < p.J && 0 <= r < DIM ==>
              (p.CRow(i, j, 0) <= p.CRow(i', j', r) < p.CRow(i, j, 0) + DIM <==> i' == i && j' == j)
    ensures forall i', j', r :: p.CRow(i', j', r) == p.CRow(i', j', 0) + r
  {
    hide TileRow;
    TileRowsApart(0, p.J, i, j);
  }
}

/** One iteration of loop_ws keeps the loop invariants. */
module LoopWsSteps {
  import opened Params
  import opened Wrap
  import opened Sums
  import opened Dram
  import opened Grid
  import opened State
  import opened Patches
  import opened Machine
  import opened LoopWsSpec
  import opened LoopWsLayout

  /** A plain block has been moved into the scratchpad and nothing else changed. */
  ghost predicate TileIn(s: Spad, s': Spad, base: int, rows: int, cols: int, d: Memory, ls: LoadState, addr: int) {
    forall R, C :: 0 <= R && 0 <= C < DIM ==>
      At(s', R, C) == if base <= R < base + rows && C < cols then SpadIn(d, ls, addr, R - base, C) else At(s, R, C)
  }

  lemma SameByte(d: Memory, d': Memory, ls: LoadState, addr: int, r: int, c: int)
    requires Load(d, addr + r * ls.stride + c) == Load(d', addr + r * ls.stride + c)
    ensures SpadIn(d, ls, addr, r, c) == SpadIn(d', ls, addr, r, c)
  {
    hide Scaling.Scale;
  }

  /** C never overlaps A, so a late read of A still sees the original. */
  lemma AUntouched(z: Start, d: Memory, i: int, k: int, r: int, c: int)
    requires z.p.Padded() && CApart(z) && DramFrame(z, d) && (z.p.C == 0 ==> d == z.d) && z.p.A != 0
    requires z.p.InA(i, k) && 0 <= r < z.p.ARows(i, k) && 0 <= c < z.p.ACols(i, k)
    ensures SpadIn(d, z.cfg.load0, z.p.AAddr(i, k), r, c) == AElem(z, i, k, r, c)
  {
    hide Load, SpadIn, InCBytes;
    assert z.p.C != 0 ==> !InCBytes(z, AByte(z, i, k, r, c));
    SameByte(d, z.d, z.cfg.load0, z.p.AAddr(i, k), r, c);
  }

  lemma BUntouched(z: Start, d: Memory, k: int, j: int, r: int, c: int)
    requires z.p.Padded() && CApart(z) && DramFrame(z, d) && (z.p.C == 0 ==> d == z.d) && z.p.B != 0
    requires z.p.InB(k, j) && 0 <= r < z.p.BRows(k, j) && 0 <= c < z.p.BCols(k, j)
    ensures SpadIn(d, z.cfg.load1, z.p.BAddr(k, j), r, c) == BElem(z, k, j, r, c)
  {
    hide Load, SpadIn, InCBytes;
    assert z.p.C != 0 ==> !InCBytes(z, BByte(z, k, j, r, c));
    SameByte(d, z.d, z.cfg.load1, z.p.BAddr(k, j), r, c);
  }

  lemma ALoaded(z: Start, s: Spad, s': Spad, d: Memory, k: int, i: int)
    requires z.p.Padded() && z.p.Accepted() && CApart(z) && DramFrame(z, d) && (z.p.C == 0 ==> d == z.d) && z.p.A != 0
    requires z.p.InA(i, k)
    requires TileIn(s, s', z.p.ARow(i, k, 0), z.p.ARows(i, k), z.p.ACols(i, k), d, z.cfg.load0, z.p.AAddr(i, k))
    requires AHeld(z, s, k, 0, i)
    ensures AHeld(z, s', k, 0, i + 1)
  {
    hide At, SpadIn, AElem, InCBytes, Call.ARow;
    AApart(z.p, i, k);
    forall i', k', r, c | z.p.InA(i', k') && 0 <= r < z.p.ARows(i', k') && 0 <= c < z.p.ACols(i', k')
                          && LoadedA(k', i', k, 0, i + 1) && z.p.J > 0
      ensures At(s', z.p.ARow(i', k', r), c) == AElem(z, i', k', r, c)
    {
      ARange(z.p, i', k', r);
      if i' == i && k' == k {
        AUntouched(z, d, i, k, r, c);
      }
    }
  }

  lemma AFrame(z: Start, s: Spad, s': Spad, d: Memory, k: int, i: int)
    requires z.p.Padded() && z.p.Accepted() && z.p.A != 0 && z.p.InA(i, k) && SpadFrame(z, s)
    requires TileIn(s, s', z.p.ARow(i, k, 0), z.p.ARows(i, k), z.p.ACols(i, k), d, z.cfg.load0, z.p.AAddr(i, k))
    ensures SpadFrame(z, s')
  {
    hide At, SpadIn, Call.ARow, Call.Accepted, Call.AAddr, Call.InBRows;
    ARange(z.p, i, k, 0);
    OutsideBoth(s, s');
  }

  lemma BFrame(z: Start, s: Spad, s': Spad, d: Memory, k: int, j: int)
    requires z.p.Padded() && z.p.Accepted() && z.p.B != 0 && z.p.InB(k, j) && SpadFrame(z, s)
    requires TileIn(s, s', z.p.BRow(k, j, 0), z.p.BRows(k, j), z.p.BCols(k, j), d, z.cfg.load1, z.p.BAddr(k, j))
    ensures SpadFrame(z, s')
  {
    hide At, SpadIn, Call.BRow, Call.Accepted, Call.BAddr, Call.InARows;
    BRange(z.p, k, j, 0);
    OutsideBoth(s, s');
  }

  lemma OutsideBoth(s: Spad, s': Spad)
    ensures forall R, C :: !(0 <= R && 0 <= C < DIM) ==> At(s, R, C) == At(s', R, C)
  {
    hide At;
    forall R, C | !(0 <= R && 0 <= C < DIM) ensures At(s, R, C) == At(s', R, C) {
      OutsideSpad(s, R, C);
      OutsideSpad(s', R, C);
    }
  }

  lemma BKept(z: Start, s: Spad, s': Spad, d: Memory, k: int, j: int, i: int, i': int)
    requires z.p.Padded() && z.p.Accepted() && z.p.InA(i, k)
    requires TileIn(s, s', z.p.ARow(i, k, 0), z.p.ARows(i, k), z.p.ACols(i, k), d, z.cfg.load0, z.p.AAddr(i, k))
    requires BHeld(z, s, k, j, i')
    ensures BHeld(z, s', k, j, i')
  {
    hide At, SpadIn, BElem, Call.ARow, Call.BRow, Call.Accepted, Call.AAddr;
    AApart(z.p, i, k);
    forall k', j', r, c | z.p.InB(k', j') && 0 <= r < z.p.BRows(k', j') && 0 <= c < z.p.BCols(k', j')
                          && (z.p.B == 0 || LoadedB(k', j', k, j, i')) && z.p.I > 0
      ensures At(s', z.p.BRow(k', j', r), c) == BElem(z, k', j', r, c)
    {
      assert 0 <= z.p.BRow(k', j', r) by { BRange(z.p, k', j', r); }
      assert At(s', z.p.BRow(k', j', r), c) == At(s, z.p.BRow(k', j', r), c);
    }
  }

  lemma BLoaded(z: Start, s: Spad, s': Spad, d: Memory, k: int, j: int)
    requires z.p.Padded() && z.p.Accepted() && CApart(z) && DramFrame(z, d) && (z.p.C == 0 ==> d == z.d) && z.p.B != 0
    requires z.p.InB(k, j)
    requires TileIn(s, s', z.p.BRow(k, j, 0), z.p.BRows(k, j), z.p.BCols(k, j), d, z.cfg.load1, z.p.BAddr(k, j))
    requires BHeld(z, s, k, j, 0)
    ensures BHeld(z, s', k, j, 1)
  {
    hide At, SpadIn, BElem, InCBytes, Call.BRow;
    BApart(z.p, k, j);
    forall k', j', r, c | z.p.InB(k', j') && 0 <= r < z.p.BRows(k', j') && 0 <= c < z.p.BCols(k', j')
                          && LoadedB(k', j', k, j, 1) && z.p.I > 0
      ensures At(s', z.p.BRow(k', j', r), c) == BElem(z, k', j', r, c)
    {
      BRange(z.p, k', j', r);
      if k' == k && j' == j {
        BUntouched(z, d, k, j, r, c);
      }
    }
  }

  lemma AKept(z: Start, s: Spad, s': Spad, d: Memory, k: int, j: int, j': int, i': int)
    requires z.p.Padded() && z.p.Accepted() && z.p.InB(k, j)
    requires TileIn(s, s', z.p.BRow(k, j, 0), z.p.BRows(k, j), z.p.BCols(k, j), d, z.cfg.load1, z.p.BAddr(k, j))
    requires AHeld(z, s, k, j', i')
    ensures AHeld(z, s', k, j', i')
  {
    hide At, SpadIn, AElem, Call.ARow, Call.BRow, Call.Accepted, Call.BAddr;
    BApart(z.p, k, j);
    forall i, k', r, c | z.p.InA(i, k') && 0 <= r < z.p.ARows(i, k') && 0 <= c < z.p.ACols(i, k')
                         && (z.p.A == 0 || LoadedA(k', i, k, j', i')) && z.p.J > 0
      ensures At(s', z.p.ARow(i, k', r), c) == AElem(z, i, k', r, c)
    {
      assert 0 <= z.p.ARow(i, k', r) by { ARange(z.p, i, k', r); }
      assert At(s', z.p.ARow(i, k', r), c) == At(s, z.p.ARow(i, k', r), c);
    }
  }

  /** The instruction words of one block product. */
  function OperandA(z: Start, i: int, k: int): Operand
    requires z.p.Padded() && z.p.Accepted() && z.p.InA(i, k)
  {
    ARange(z.p, i, k, 0);
    Operand(Some(z.p.ARow(i, k, 0)), z.p.RowsOf(i), z.p.DepthOf(k))
  }

  function ZeroOperand(): Operand { Operand(None, DIM, DIM) }

  function PreloadFor(z: Start, k: int, j: int, i: int): PreloadRegs
    requires z.p.Padded() && z.p.Accepted() && z.p.InA(i, k) && z.p.InB(k, j)
  {
    BRange(z.p, k, j, 0);
    CRange(z.p, i, j);
    PreloadRegs(if i == 0 then Some(z.p.BRow(k, j, 0)) else None, z.p.DepthOf(k), z.p.ColsOf(j),
                Some(Dest(true, z.p.accumulate || k > 0, z.p.CRow(i, j, 0))), z.p.RowsOf(i), z.p.ColsOf(j))
  }

  lemma WeightsLoaded(z: Start, s: Spad, pe: PeGrid, k: int, j: int)
    requires z.p.Padded() && z.p.Accepted() && z.p.InA(0, k) && z.p.InB(k, j) && BHeld(z, s, k, j, 1)
    requires forall x, n :: 0 <= x < DIM && 0 <= n < DIM ==>
               At(pe, x, n) == PreloadCell(s, PreloadFor(z, k, j, 0), z.p.bT, x, n)
    ensures WeightsHeld(z, pe, k, j)
  {
    hide At, BElem, Call.BRow, Call.CRow;
    BApart(z.p, k, j);
  }

  lemma ResultIsBlockProduct(z: Start, s: Spad, pe: PeGrid, k: int, j: int, i: int, m: int, n: int)
    requires Ready(z) && z.p.InA(i, k) && z.p.InB(k, j) && 0 <= m < DIM && 0 <= n < DIM
    requires AHeld(z, s, k, j, i + 1) && WeightsHeld(z, pe, k, j)
    ensures WsResult(s, pe, z.cfg, OperandA(z, i, k), ZeroOperand(), m, n)
            == Wrap32(Sum(DIM, BlockTerms(z, i, j, m, n, k)))
  {
    hide At, AElem, BPad, Call.ARow, Wrap32, Call.Accepted;
    var a := OperandA(z, i, k);
    var f, g := WsTerms(s, pe, z.cfg, a, m, n), BlockTerms(z, i, j, m, n, k);
    AApart(z.p, i, k);
    forall x | 0 <= x < DIM ensures f(x) == g(x) {
      assert ACell(s, z.cfg, a, m, x) == APad(z, i, k, m, x);
    }
    SumSame(DIM, f, g);
  }

  /** A block product landed on block (i, j) of the accumulator and nowhere else. */
  lemma AccStep(z: Start, m: AccMem, m': AccMem, values: PeGrid, k: int, j: int, i: int)
    requires Ready(z) && z.p.InA(i, k) && z.p.InB(k, j)
    requires WrittenAcc(z.cfg, PreloadFor(z, k, j, i), values, m, m')
    requires forall r, c :: 0 <= r < DIM && 0 <= c < DIM ==>
               At(values, r, c) == Wrap32(Sum(DIM, BlockTerms(z, i, j, r, c, k)))
    requires AccHeld(z, m, k, j, i)
    ensures AccHeld(z, m', k, j, i + 1)
  {
    hide At, BlockTerms, Call.CRow, Call.BRow, Wrap32, Call.Accepted, Landed, Strided, IndexOf, Initial;
    CApartRows(z.p, i, j);
    var base, rows := z.p.CRow(i, j, 0), z.p.RowsOf(i);
    forall i', j', r, c | z.p.InC(i', j', r, c)
      ensures At(m', z.p.CRow(i', j', r), c) == Partial(z, i', j', r, c, if Done(i', j', j, i + 1) then k + 1 else k)
    {
      var R := z.p.CRow(i', j', r);
      UnitStride(base, rows, R);
      assert 0 <= R by { CRange(z.p, i', j'); }
    }
  }

  lemma AccFrameStep(z: Start, m: AccMem, m': AccMem, values: PeGrid, k: int, j: int, i: int)
    requires Ready(z) && z.p.InA(i, k) && z.p.InB(k, j)
    requires WrittenAcc(z.cfg, PreloadFor(z, k, j, i), values, m, m')
    requires AccFrame(z, m)
    ensures AccFrame(z, m')
  {
    hide Call.CRow, Call.BRow, Wrap32, Call.Accepted, Landed, Strided, IndexOf;
    CRange(z.p, i, j);
    forall R, C | z.p.I * z.p.J * DIM <= R
      ensures At(m', R, C) == At(z.m, R, C)
    {
      UnitStride(z.p.CRow(i, j, 0), z.p.RowsOf(i), R);
      if 0 <= C < DIM {
        assert At(m', R, C) == At(m, R, C);
      }
    }
  }

  function SourceC(z: Start, i: int, j: int): Source
    requires z.p.Accepted() && 0 <= i < z.p.I && 0 <= j < z.p.J
  {
    CRange(z.p, i, j);
    Source(true, z.p.fullC, RESET, z.p.CRow(i, j, 0))
  }

  lemma TouchedIsC(z: Start, i: int, j: int, x: int)
    requires !z.p.Norms()
    requires z.p.Padded() && 0 <= i < z.p.I && 0 <= j < z.p.J
    requires Touched(z.p.CAddr(i, j), z.cfg.storeStride, z.p.fullC, z.p.RowsOf(i), z.p.ColsOf(j), x)
    ensures InCBytes(z, x)
  {
    hide OutAddr, Call.CAddr;
    var m, n :| 0 <= m < z.p.RowsOf(i) && 0 <= n < z.p.ColsOf(j) &&
      OutAddr(z.p.CAddr(i, j), z.cfg.storeStride, z.p.fullC, m, n) <= x
      < OutAddr(z.p.CAddr(i, j), z.cfg.storeStride, z.p.fullC, m, n) + Size(z.p.fullC);
    assert z.p.InC(i, j, m, n) && CByteAddr(z, i, j, m, n) <= x < CByteAddr(z, i, j, m, n) + Size(z.p.fullC);
  }

  lemma BlockDistinct(z: Start, i: int, j: int)
    requires !z.p.Norms()
    requires z.p.Padded() && CApart(z) && z.p.C != 0 && 0 <= i < z.p.I && 0 <= j < z.p.J
    ensures Distinct(z.p.CAddr(i, j), z.cfg.storeStride, z.p.fullC, z.p.RowsOf(i), z.p.ColsOf(j))
  {
    hide OutAddr, Call.CAddr, Apart, InCBytes;
    forall m, n, m', n' | 0 <= m < z.p.RowsOf(i) && 0 <= n < z.p.ColsOf(j) && 0 <= m' < z.p.RowsOf(i)
      && 0 <= n' < z.p.ColsOf(j)
                          && (m != m' || n != n')
      ensures Apart(OutAddr(z.p.CAddr(i, j), z.cfg.storeStride, z.p.fullC, m, n), Size(z.p.fullC),
                    OutAddr(z.p.CAddr(i, j), z.cfg.storeStride, z.p.fullC, m', n'), Size(z.p.fullC))
    {
      assert z.p.InC(i, j, m, n) && z.p.InC(i, j, m', n');
      assert Apart(CByteAddr(z, i, j, m, n), Size(z.p.fullC), CByteAddr(z, i, j, m', n'), Size(z.p.fullC));
    }
  }

  /** A C element of another block shares no byte with block (i, j). */
  lemma OtherUntouched(z: Start, i: int, j: int, i': int, j': int, m: int, n: int, x: int)
    requires !z.p.Norms()
    requires z.p.Padded() && CApart(z) && z.p.C != 0 && 0 <= i < z.p.I && 0 <= j < z.p.J && z.p.InC(i', j', m, n)
    requires i' != i || j' != j
    requires CByteAddr(z, i', j', m, n) <= x < CByteAddr(z, i', j', m, n) + Size(z.p.fullC)
    ensures !Touched(z.p.CAddr(i, j), z.cfg.storeStride, z.p.fullC, z.p.RowsOf(i), z.p.ColsOf(j), x)
  {
    hide OutAddr, Call.CAddr, InCBytes;
    forall m', n' | 0 <= m' < z.p.RowsOf(i) && 0 <= n' < z.p.ColsOf(j)
      ensures !(OutAddr(z.p.CAddr(i, j), z.cfg.storeStride, z.p.fullC, m', n') <= x
                < OutAddr(z.p.CAddr(i, j), z.cfg.storeStride, z.p.fullC, m', n') + Size(z.p.fullC))
    {
      assert z.p.InC(i, j, m', n');
      assert Apart(CByteAddr(z, i, j, m', n'), Size(z.p.fullC), CByteAddr(z, i', j', m, n), Size(z.p.fullC));
    }
  }

  lemma StoredCell(z: Start, s: Spad, m: AccMem, stat: NormStat, k: nat, j: int, i: int, r: int, c: int)
    requires !z.p.Norms()
    requires z.p.Padded() && z.p.Accepted() && SameOutputs(stat, z.norm[z.id]) && k + 1 == z.p.K
    requires AccHeld(z, m, k, j, i + 1) && z.p.InC(i, j, r, c)
    ensures OutCell(s, m, z.cfg, stat, SourceC(z, i, j), r, c)
            == OutValue(z.cfg, StatOf(z, i, r), z.p.fullC, Final(z, i, j, r, c))
  {
    hide At, Call.CRow, Wrap32, OutValue, Partial, Call.Accepted;
    CApartRows(z.p, i, j);
    DivUnique(c, DIM, 0, c);
    var v := AccAt(m, z.p.CRow(i, j, r), c);
    assert v == Partial(z, i, j, r, c, z.p.K);
    WrapSame(v);
    OutValueSame(z.cfg, stat, z.norm[z.id], z.p.fullC, v);
  }

  lemma CStep(z: Start, s: Spad, m: AccMem, stat: NormStat, d: Memory, d': Memory, k: nat, j: int, i: int)
    requires !z.p.Norms()
    requires z.p.Padded() && z.p.Accepted() && SameOutputs(stat, z.norm[z.id]) && k + 1 == z.p.K
    requires 0 <= i < z.p.I && 0 <= j < z.p.J && CApart(z) && z.p.C != 0
    requires AccHeld(z, m, k, j, i + 1) && CHeld(z, d, k, j, i)
    requires RowsOut(s, m, z.cfg, stat, SourceC(z, i, j), z.p.CAddr(i, j), z.p.ColsOf(j), d', z.p.RowsOf(i), 0)
    requires forall x :: !Touched(z.p.CAddr(i, j), z.cfg.storeStride, z.p.fullC, z.p.RowsOf(i), z.p.ColsOf(j), x) ==>
               Load(d', x) == Load(d, x)
    ensures CHeld(z, d', k, j, i + 1)
  {
    hide Call.CRow, OutValue, Final, Call.Accepted, LoadOut, Load, Touched, CApart, AccHeld, OutCell, OutAddr;
    forall i', j', r, c | z.p.InC(i', j', r, c) && Stored(z, i', j', k, j, i + 1)
      ensures LoadOut(d', z.p.fullC, CByteAddr(z, i', j', r, c))
              == OutValue(z.cfg, StatOf(z, i', r), z.p.fullC, Final(z, i', j', r, c))
    {
      if i' == i && j' == j {
        StoredCell(z, s, m, stat, k, j, i, r, c);
      } else {
        var a := CByteAddr(z, i', j', r, c);
        forall x | a <= x < a + Size(z.p.fullC) ensures Load(d', x) == Load(d, x) {
          OtherUntouched(z, i, j, i', j', r, c, x);
        }
        LoadOutSame(d', d, z.p.fullC, a);
      }
    }
  }

  lemma DramStep(z: Start, d: Memory, d': Memory, j: int, i: int)
    requires !z.p.Norms()
    requires z.p.Padded() && 0 <= i < z.p.I && 0 <= j < z.p.J && DramFrame(z, d)
    requires forall x :: !Touched(z.p.CAddr(i, j), z.cfg.storeStride, z.p.fullC, z.p.RowsOf(i), z.p.ColsOf(j), x) ==>
               Load(d', x) == Load(d, x)
    ensures DramFrame(z, d')
  {
    hide InCBytes, Touched, Load;
    forall x | !InCBytes(z, x) ensures Load(d', x) == Load(z.d, x) {
      if Touched(z.p.CAddr(i, j), z.cfg.storeStride, z.p.fullC, z.p.RowsOf(i), z.p.ColsOf(j), x) {
        TouchedIsC(z, i, j, x);
      }
    }
  }
}
