/** Moving a matrix in and out again returns every element, through either local memory. */
module RoundTrip {
  import opened Params
  import opened Wrap
  import opened Dram
  import opened Grid
  import opened Scaling
  import opened State
  import opened Patches
  import opened Machine

  /** mvin refuses pixels whose copies do not fit a row. */
  predicate Packs(ls: LoadState, cols: nat) { ls.pixels > 1 ==> ls.pixels * cols <= DIM }

  /** mvout looks for blocks of DIM columns DIM rows apart, so either the columns fit one block, or mvin stores blocks
      that far apart and the rows fit in between. */
  predicate Movable(ls: LoadState, rows: nat, cols: nat) {
    cols <= DIM || (ls.blockStride == DIM && rows <= DIM)
  }

  lemma WideIsOnePixel(ls: LoadState, cols: nat)
    requires Packs(ls, cols) && cols > DIM
    ensures ls.pixels == 1
  {
    MulLe(1, ls.pixels, cols);
  }

  function PatchFor(ls: LoadState, row: nat, rows: nat,
                    cols: nat): Patch { Patch(row, rows, cols, ls.blockStride, ls.pixels) }

  /** Where mvout looks for element (i, j) is where mvin put it. */
  lemma SameCell(ls: LoadState, row: nat, rows: nat, cols: nat, i: int, j: int)
    requires Packs(ls, cols) && Movable(ls, rows, cols) && 0 <= i < rows && 0 <= j < cols
    ensures var g, R, C := PatchFor(ls, row, rows, cols), row + j / DIM * DIM + i, j % DIM;
            0 <= R && 0 <= C < DIM && Hit(g, R, C) && SrcRow(g, R, C) == i && SrcCol(g, R, C) == j
  {
    hide Hit, SrcRow, SrcCol;
    var g, R, C := PatchFor(ls, row, rows, cols), row + j / DIM * DIM + i, j % DIM;
    if cols <= DIM { DivUnique(j, DIM, 0, j); } else { WideIsOnePixel(ls, cols); }
    MulLe(0, j / DIM, DIM);
    assert LandRow(g, i, j) == R && LandCol(g, j, 0) == C;
    LandsForward(g, i, j, R, C);
  }

  function InAt(ls: LoadState, addr: int, size: int, i: int, j: int): int { addr + i * ls.stride + j * size }

  // The cell mvout reads element (i, j) from.

  function CellRow(row: int, i: int, j: int): int { row + j / DIM * DIM + i }
  function CellCol(j: int): int { j % DIM }

  /** Element (i, j) lands on cell (R, C) and no later element does: it is what mvin leaves there. */
  ghost predicate LandsLast(g: Patch, i: int, j: int, R: int, C: int) {
    && 0 <= i < g.rows && 0 <= j < g.cols && Lands(g, i, j, R, C)
    && forall i', j' :: 0 <= i' < g.rows && 0 <= j' < g.cols && Before(i, j, i', j') ==> !Lands(g, i', j', R, C)
  }

  lemma {:induction false} LastStays(d: Memory, ls: LoadState, addr: int, g: Patch, s: Spad, i: int, j: int, R: int,
                                     C: int, row: nat, col: nat)
    requires LandsLast(g, i, j, R, C) && row <= g.rows && (row == g.rows ==> col == 0) && col <= g.cols
    requires Before(i, j, row, col)
    ensures SpadAfter(d, ls, addr, g, s, R, C, row, col) == SpadIn(d, ls, addr, i, j)
    decreases row, col
  {
    hide Lands, SpadIn, At;
    if col > 0 {
      if i != row || j != col - 1 { LastStays(d, ls, addr, g, s, i, j, R, C, row, col - 1); }
    } else {
      LastStays(d, ls, addr, g, s, i, j, R, C, row - 1, g.cols);
    }
  }

  /** mvin followed by mvout finds every element where it was put. */
  ghost predicate Returns(ls: LoadState, row: nat, rows: nat, cols: nat) {
    forall i, j :: 0 <= i < rows && 0 <= j < cols ==>
      LandsLast(PatchFor(ls, row, rows, cols), i, j, CellRow(row, i, j), CellCol(j))
  }

  lemma MovableReturns(ls: LoadState, row: nat, rows: nat, cols: nat, i: int, j: int)
    requires Packs(ls, cols) && Movable(ls, rows, cols) && 0 <= i < rows && 0 <= j < cols
    ensures LandsLast(PatchFor(ls, row, rows, cols), i, j, CellRow(row, i, j), CellCol(j))
  {
    hide Hit, SrcRow, SrcCol, Lands;
    var g, R, C := PatchFor(ls, row, rows, cols), CellRow(row, i, j), CellCol(j);
    SameCell(ls, row, rows, cols, i, j);
    LandsIffSource(g, i, j);
    forall i', j' | 0 <= i' < rows && 0 <= j' < cols && Before(i, j, i', j') ensures !Lands(g, i', j', R, C) {
      LandsIffSource(g, i', j');
    }
  }

  /** The first block to the right: element (0, DIM). */
  lemma NextBlockFails(ls: LoadState, row: nat, rows: nat, cols: nat)
    requires Packs(ls, cols) && rows > 0 && cols > DIM && !Movable(ls, rows, cols)
    ensures !LandsLast(PatchFor(ls, row, rows, cols), 0, DIM, CellRow(row, 0, DIM), CellCol(DIM))
    ensures ls.blockStride != DIM ==> !Lands(PatchFor(ls, row, rows, cols), 0, DIM, CellRow(row, 0, DIM), CellCol(DIM))
    ensures ls.blockStride == DIM ==>
              rows > DIM && Lands(PatchFor(ls, row, rows, cols), DIM, 0, CellRow(row, 0, DIM), CellCol(DIM))
  {
    WideIsOnePixel(ls, cols);
    DivUnique(DIM, DIM, 1, 0);
    DivUnique(0, DIM, 0, 0);
    assert Before(0, DIM, DIM, 0);
  }

  /** The exact condition: the round trip works if and only if the columns fit one block, or the blocks are stored DIM
      rows apart and the rows fit between them. */
  lemma ReturnsIffMovable(ls: LoadState, row: nat, rows: nat, cols: nat)
    requires Packs(ls, cols) && rows > 0
    ensures Returns(ls, row, rows, cols) <==> Movable(ls, rows, cols)
  {
    hide LandsLast, Packs;
    if Movable(ls, rows, cols) {
      forall i, j | 0 <= i < rows && 0 <= j < cols
        ensures LandsLast(PatchFor(ls, row, rows, cols), i, j, CellRow(row, i, j), CellCol(j))
      {
        MovableReturns(ls, row, rows, cols, i, j);
      }
    } else {
      NextBlockFails(ls, row, rows, cols);
    }
  }

  // A memory on which it does not.

  /** One at element (0, DIM) of a matrix of elements `size` bytes wide, zero everywhere else. */
  function OneElement(from: int, size: int): Memory { map[from + DIM * size := 1] }

  /** The cell mvout reads element (0, DIM) from is left by other elements: that one lands elsewhere, or is replaced. */
  ghost predicate Passed(ls: LoadState, g: Patch, row: nat, col: nat) {
    && g == PatchFor(ls, g.base, g.rows, g.cols) && Packs(ls, g.cols)
    && g.rows > 0 && g.cols > DIM && !Movable(ls, g.rows, g.cols)
    && row <= g.rows && (row == g.rows ==> col == 0) && col <= g.cols
    && (ls.blockStride == DIM ==> Before(DIM, 0, row, col))
  }

  lemma OnlyOne(ls: LoadState, from: int, rows: int, cols: int, i: int, j: int)
    requires from != 0 && 0 <= i < rows && 0 <= j < cols && DIM < cols
    ensures ls.scale == 1.0 && cols <= ls.stride ==>
              SpadIn(OneElement(from, 1), ls, from, i, j) == if i == 0 && j == DIM then 1 else 0
    ensures !ls.shrunk && 4 * cols <= ls.stride ==>
              AccIn(OneElement(from, 4), ls, from, i, j) == if i == 0 && j == DIM then 1 else 0
  {
    hide Scale;
    if 0 < ls.stride { MulFar(i, ls.stride); }
    ScaleIdentity(LoadElem(OneElement(from, 1), from + i * ls.stride + j));
  }

  /** From a clear scratchpad, that cell stays zero. */
  lemma {:induction false} CellStaysZero(ls: LoadState, from: int, g: Patch, s: Spad, row: nat, col: nat)
    requires Passed(ls, g, row, col) && from != 0 && ls.scale == 1.0 && g.cols <= ls.stride
    requires At(s, CellRow(g.base, 0, DIM), CellCol(DIM)) == 0
    ensures SpadAfter(OneElement(from, 1), ls, from, g, s, CellRow(g.base, 0, DIM), CellCol(DIM), row, col) == 0
    decreases row, col
  {
    hide Lands, SpadIn, At, CellRow, CellCol, Movable, Packs;
    NextBlockFails(ls, g.base, g.rows, g.cols);
    if col > 0 {
      OnlyOne(ls, from, g.rows, g.cols, row, col - 1);
      if !(ls.blockStride == DIM && row == DIM && col == 1) && !(ls.blockStride == DIM && row < DIM) {
        CellStaysZero(ls, from, g, s, row, col - 1);
      }
    } else if row > 0 {
      CellStaysZero(ls, from, g, s, row - 1, g.cols);
    }
  }

  lemma {:induction false} AccCellStaysZero(ls: LoadState, from: int, g: Patch, m: AccMem, row: nat, col: nat)
    requires Passed(ls, g, row, col) && from != 0 && !ls.shrunk && 4 * g.cols <= ls.stride
    requires At(m, CellRow(g.base, 0, DIM), CellCol(DIM)) == 0
    ensures AccAfter(OneElement(from, 4), ls, from, g, false, m, CellRow(g.base, 0, DIM), CellCol(DIM), row, col) == 0
    decreases row, col
  {
    hide Lands, AccIn, At, CellRow, CellCol, Movable, Packs;
    NextBlockFails(ls, g.base, g.rows, g.cols);
    if col > 0 {
      OnlyOne(ls, from, g.rows, g.cols, row, col - 1);
      if !(ls.blockStride == DIM && row == DIM && col == 1) && !(ls.blockStride == DIM && row < DIM) {
        AccCellStaysZero(ls, from, g, m, row, col - 1);
      }
    } else if row > 0 {
      AccCellStaysZero(ls, from, g, m, row - 1, g.cols);
    }
  }

  /** So whenever the condition fails, moving this matrix in and out loses its one non-zero element, through the
      scratchpad and through the accumulator. */
  lemma CopyFails(ls: LoadState, from: int, row: nat, rows: nat, cols: nat, s: Spad, m: AccMem)
    requires from != 0 && Packs(ls, cols) && rows > 0 && !Movable(ls, rows, cols)
    requires At(s, CellRow(row, 0, DIM), CellCol(DIM)) == 0 && At(m, CellRow(row, 0, DIM), CellCol(DIM)) == 0
    ensures DIM < cols
    ensures ls.scale == 1.0 && cols <= ls.stride ==>
              && SpadIn(OneElement(from, 1), ls, from, 0, DIM) == 1
              && SpadAfter(OneElement(from, 1), ls, from, PatchFor(ls, row, rows, cols), s, CellRow(row, 0, DIM),
                           CellCol(DIM), rows, 0) == 0
    ensures !ls.shrunk && 4 * cols <= ls.stride ==>
              && AccIn(OneElement(from, 4), ls, from, 0, DIM) == 1
              && AccAfter(OneElement(from, 4), ls, from, PatchFor(ls, row, rows, cols), false, m, CellRow(row, 0, DIM),
                          CellCol(DIM), rows, 0) == 0
  {
    hide At, SpadIn, SpadAfter, AccIn, AccAfter, Lands, CellRow, CellCol, Packs;
    OnlyOne(ls, from, rows, cols, 0, DIM);
    NextBlockFails(ls, row, rows, cols);
    if ls.scale == 1.0 && cols <= ls.stride {
      CellStaysZero(ls, from, PatchFor(ls, row, rows, cols), s, rows, 0);
    }
    if !ls.shrunk && 4 * cols <= ls.stride {
      AccCellStaysZero(ls, from, PatchFor(ls, row, rows, cols), m, rows, 0);
    }
  }

  /** mvin to the scratchpad at identity scale, then mvout. Source and target may overlap. Every element written is what
      mvin left in its cell, and that is the element itself when the matrix is Movable. */
  method CopyThroughSpad(g: Gemmini, from: int, to: int, row: nat, rows: nat, cols: nat, id: int)
    requires from != 0 && g.cfg.Load(id).scale == 1.0 && g.cfg.pool.stride == 0
    requires OutRows(Source(false, false, RESET, row), rows, cols)
    requires InBounds(PatchFor(g.cfg.Load(id), row, rows, cols), SPAD_ROWS)
    requires rows <= 1 || cols <= g.cfg.storeStride
    modifies g`spad, g`dram, g`norm
    ensures forall i, j :: 0 <= i < rows && 0 <= j < cols ==>
              LoadElem(g.dram, OutAddr(to, g.cfg.storeStride, false, i, j)) ==
              SpadAfter(old(g.dram), g.cfg.Load(id), from, PatchFor(g.cfg.Load(id), row, rows, cols), old(g.spad),
                        CellRow(row, i, j), CellCol(j), rows, 0)
    ensures Movable(g.cfg.Load(id), rows, cols) ==>
              forall i, j :: 0 <= i < rows && 0 <= j < cols ==>
                LoadElem(g.dram, OutAddr(to, g.cfg.storeStride, false, i, j)) ==
                LoadElem(old(g.dram), InAt(g.cfg.Load(id), from, 1, i, j))
    ensures forall x :: !Touched(to, g.cfg.storeStride, false, rows, cols, x) ==>
              Load(g.dram, x) == old(Load(g.dram, x))
  {
    hide At, InBounds, Separate, Hit, SrcRow, SrcCol, LoadElem, OutAddr, Touched, Distinct, Scale, NormRows, Movable,
         OutRows;
    hide SpadAfter, LandsLast, StoredTo, SpadIn, Packs;
    ghost var d, ls, s := g.dram, g.cfg.Load(id), g.spad;
    var patch := PatchFor(g.cfg.Load(id), row, rows, cols);
    assert Packs(ls, cols) by { BoundsPack(ls, row, rows, cols, SPAD_ROWS); }
    g.MvinSpad(from, patch, id);
    StrideKeepsApart(to, g.cfg.storeStride, false, rows, cols);
    g.Mvout(to, Source(false, false, RESET, row), rows, cols);
    forall i, j | 0 <= i < rows && 0 <= j < cols
      ensures LoadElem(g.dram, OutAddr(to, g.cfg.storeStride, false, i, j)) ==
              SpadAfter(d, ls, from, patch, s, CellRow(row, i, j), CellCol(j), rows, 0)
      ensures Movable(ls, rows, cols) ==>
                LoadElem(g.dram, OutAddr(to, g.cfg.storeStride, false, i, j)) == LoadElem(d, InAt(ls, from, 1, i, j))
    {
      CellNat(row, i, j);
      assert Before(i, j, rows, 0);
      assert LoadOut(g.dram, false, OutAddr(to, g.cfg.storeStride, false, i, j))
             == OutCell(g.spad, g.acc, g.cfg, old(g.norm)[g.statId], Source(false, false, RESET, row), i, j);
      if Movable(ls, rows, cols) {
        MovableReturns(ls, row, rows, cols, i, j);
        LastStays(d, ls, from, patch, s, i, j, CellRow(row, i, j), CellCol(j), rows, 0);
        PlainIn(d, ls, from, i, j);
      }
    }
  }

  lemma BoundsPack(ls: LoadState, row: nat, rows: nat, cols: nat, limit: int)
    requires InBounds(PatchFor(ls, row, rows, cols), limit)
    ensures Packs(ls, cols)
  {
  }

  lemma PlainIn(d: Memory, ls: LoadState, from: int, i: int, j: int)
    requires from != 0 && ls.scale == 1.0
    ensures SpadIn(d, ls, from, i, j) == LoadElem(d, InAt(ls, from, 1, i, j))
  {
    hide LoadElem, Scale;
    ScaleIdentity(LoadElem(d, InAt(ls, from, 1, i, j)));
  }

  lemma CellNat(row: nat, i: int, j: int)
    requires 0 <= i && 0 <= j
    ensures 0 <= CellRow(row, i, j) && 0 <= CellCol(j) < DIM
  {
    MulLe(0, j / DIM, DIM);
  }

  lemma {:induction false} LastStaysAcc(d: Memory, ls: LoadState, addr: int, g: Patch, m: AccMem, i: int, j: int,
                                        R: int, C: int, row: nat, col: nat)
    requires LandsLast(g, i, j, R, C) && row <= g.rows && (row == g.rows ==> col == 0) && col <= g.cols
    requires Before(i, j, row, col)
    ensures AccAfter(d, ls, addr, g, false, m, R, C, row, col) == AccIn(d, ls, addr, i, j)
    decreases row, col
  {
    hide Lands, AccIn, At, Wrap32;
    if col > 0 {
      WrapSame(AccIn(d, ls, addr, i, j));
      if i != row || j != col - 1 { LastStaysAcc(d, ls, addr, g, m, i, j, R, C, row, col - 1); }
    } else {
      LastStaysAcc(d, ls, addr, g, m, i, j, R, C, row - 1, g.cols);
    }
  }

  /** mvin to the accumulator at full width, then full-width mvout: every word written is what mvin left in its cell,
      and when the matrix is Movable the four bytes of the element itself. */
  method CopyThroughAcc(g: Gemmini, from: int, to: int, row: nat, rows: nat, cols: nat, id: int)
    requires from != 0 && !g.cfg.Load(id).shrunk && g.cfg.pool.stride == 0
    requires g.cfg.accAct == NONE || g.cfg.accAct == RELU
    requires OutRows(Source(true, true, RESET, row), rows, cols)
    requires InBounds(PatchFor(g.cfg.Load(id), row, rows, cols), ACC_ROWS)
    requires rows <= 1 || cols * 4 <= g.cfg.storeStride
    modifies g`acc, g`dram, g`norm
    ensures forall i, j :: 0 <= i < rows && 0 <= j < cols ==>
              LoadAcc(g.dram, OutAddr(to, g.cfg.storeStride, true, i, j)) ==
              AccAfter(old(g.dram), g.cfg.Load(id), from, PatchFor(g.cfg.Load(id), row, rows, cols), false, old(g.acc),
                       CellRow(row, i, j), CellCol(j), rows, 0)
    ensures Movable(g.cfg.Load(id), rows, cols) ==>
              forall i, j :: 0 <= i < rows && 0 <= j < cols ==>
                SameWord(g.dram, OutAddr(to, g.cfg.storeStride, true, i, j), old(g.dram),
                         InAt(g.cfg.Load(id), from, 4, i, j))
    ensures forall x :: !Touched(to, g.cfg.storeStride, true, rows, cols, x) ==> Load(g.dram, x) == old(Load(g.dram, x))
  {
    hide At, InBounds, Separate, Hit, SrcRow, SrcCol, LoadAcc, Load, OutAddr, Touched, Distinct, NormRows, Movable,
         OutRows, Wrap32, SameWord, AccAfter, LandsLast, StoredTo, Packs;
    ghost var d, ls, m := g.dram, g.cfg.Load(id), g.acc;
    var patch := PatchFor(g.cfg.Load(id), row, rows, cols);
    assert Packs(ls, cols) by { BoundsPack(ls, row, rows, cols, ACC_ROWS); }
    g.MvinAcc(from, patch, false, id);
    StrideKeepsApart(to, g.cfg.storeStride, true, rows, cols);
    g.Mvout(to, Source(true, true, RESET, row), rows, cols);
    forall i, j | 0 <= i < rows && 0 <= j < cols
      ensures LoadAcc(g.dram, OutAddr(to, g.cfg.storeStride, true, i, j)) ==
              AccAfter(d, ls, from, patch, false, m, CellRow(row, i, j), CellCol(j), rows, 0)
      ensures Movable(ls, rows, cols) ==>
                SameWord(g.dram, OutAddr(to, g.cfg.storeStride, true, i, j), d, InAt(ls, from, 4, i, j))
    {
      CellNat(row, i, j);
      assert Before(i, j, rows, 0);
      assert LoadOut(g.dram, true, OutAddr(to, g.cfg.storeStride, true, i, j))
             == OutCell(g.spad, g.acc, g.cfg, old(g.norm)[g.statId], Source(true, true, RESET, row), i, j);
      if Movable(ls, rows, cols) {
        MovableReturns(ls, row, rows, cols, i, j);
        LastStaysAcc(d, ls, from, patch, m, i, j, CellRow(row, i, j), CellCol(j), rows, 0);
        SameBytes(g.dram, OutAddr(to, g.cfg.storeStride, true, i, j), d, InAt(ls, from, 4, i, j));
      }
    }
  }

  /** Four bytes at a and at a' agree. */
  predicate SameWord(d: Memory, a: int, d': Memory, a': int) {
    Load(d, a) == Load(d', a') && Load(d, a + 1) == Load(d', a' + 1) && Load(d, a + 2) == Load(d', a' + 2)
      && Load(d, a + 3) == Load(d', a' + 3)
  }

  function Word(b0: Byte, b1: Byte, b2: Byte, b3: Byte): int { b0 + 0x100 * b1 + 0x1_0000 * b2 + 0x100_0000 * b3 }

  lemma WrapInjective(u: int, v: int)
    requires 0 <= u < 0x1_0000_0000 && 0 <= v < 0x1_0000_0000 && Wrap32(u) == Wrap32(v)
    ensures u == v
  {
  }

  lemma LowByte(b: Byte, c: Byte, x: int, y: int)
    requires b + 0x100 * x == c + 0x100 * y
    ensures b == c && x == y
  {
  }

  lemma WordBytes(b0: Byte, b1: Byte, b2: Byte, b3: Byte, c0: Byte, c1: Byte, c2: Byte, c3: Byte)
    requires Wrap32(Word(b0, b1, b2, b3)) == Wrap32(Word(c0, c1, c2, c3))
    ensures b0 == c0 && b1 == c1 && b2 == c2 && b3 == c3
  {
    hide Wrap32;
    WrapInjective(Word(b0, b1, b2, b3), Word(c0, c1, c2, c3));
    LowByte(b0, c0, b1 + 0x100 * b2 + 0x1_0000 * b3, c1 + 0x100 * c2 + 0x1_0000 * c3);
    LowByte(b1, c1, b2 + 0x100 * b3, c2 + 0x100 * c3);
    LowByte(b2, c2, b3, c3);
  }

  /** An int32 determines its four bytes. */
  lemma SameBytes(d: Memory, a: int, d': Memory, a': int)
    requires LoadAcc(d, a) == LoadAcc(d', a')
    ensures SameWord(d, a, d', a')
  {
    hide Load, Wrap32;
    WordBytes(Load(d, a), Load(d, a + 1), Load(d, a + 2), Load(d, a + 3), Load(d', a'), Load(d', a' + 1),
              Load(d', a' + 2), Load(d', a' + 3));
  }
}
