/** The residual-addition form of loop_ws: C = A + B block by block, possibly in place. */
module LoopWsResadd {
  import opened Params
  import opened Wrap
  import opened Dram
  import opened Grid
  import opened Scaling
  import opened State
  import opened Patches
  import opened Machine
  import opened LoopWsSpec
  import opened LoopWsLayout
  import opened LoopWsSteps
  import opened LoopWs
  import opened LoopWsMatrix
  import opened Outputs

  /** Both operands are addressed as int8 blocks, whatever the transpose flags say. */
  function RAddr(z: Start, i: int, j: int): int { z.p.A + (i * z.p.strideA + j) * DIM }
  function SAddr(z: Start, i: int, j: int): int { z.p.B + (i * z.p.strideB + j) * DIM }

  function Left(z: Start, d: Memory, i: int, j: int, m: int,
                n: int): Acc { AccIn(d, z.cfg.load0, RAddr(z, i, j), m, n) }
  function Right(z: Start, d: Memory, i: int, j: int, m: int,
                 n: int): Acc { AccIn(d, z.cfg.load1, SAddr(z, i, j), m, n) }

  /** The byte or bytes one operand element is read from. */
  predicate Reads(ls: LoadState, addr: int, m: int, n: int, x: int) {
    addr + m * ls.stride + n * Size(!ls.shrunk) <= x < addr + m * ls.stride + n * Size(!ls.shrunk) + Size(!ls.shrunk)
  }

  predicate IsRead(z: Start, i: int, j: int, m: int, n: int, x: int) {
    Reads(z.cfg.load0, RAddr(z, i, j), m, n, x) || Reads(z.cfg.load1, SAddr(z, i, j), m, n, x)
  }

  predicate InCell(z: Start, i: int, j: int, m: int, n: int, x: int) {
    CByteAddr(z, i, j, m, n) <= x < CByteAddr(z, i, j, m, n) + Size(z.p.fullC)
  }

  /** No block is overwritten before it is read, and C's elements are apart. */
  ghost predicate InOrder(z: Start)
    requires z.p.Padded()
  {
    z.p.C != 0 ==>
    && (forall i, j, m, n, i', j', m', n' ::
          z.p.InC(i, j, m, n) && z.p.InC(i', j', m', n') && (i != i' || j != j' || m != m' || n != n') ==>
            Apart(CByteAddr(z, i, j, m, n), Size(z.p.fullC), CByteAddr(z, i', j', m', n'), Size(z.p.fullC)))
    && (forall i, j, m, n, i', j', m', n', x ::
          z.p.InC(i, j, m, n) && z.p.InC(i', j', m', n') && Before(i, j, i', j') && InCell(z, i, j, m, n, x) ==>
            !IsRead(z, i', j', m', n', x))
  }

  predicate ReadyAdd(z: Start) {
    && z.p.Padded() && z.p.Accepted() && !z.p.Norms() && z.cfg.pool.stride == 0
    && z.cfg.load0.pixels == 1 && z.cfg.load1.pixels == 1
  }

  ghost function Added(z: Start, i: int, j: int, m: int, n: int): Acc {
    Wrap32(Left(z, z.d, i, j, m, n) + Right(z, z.d, i, j, m, n))
  }

  /** Bytes outside the C blocks already stored still hold what they held. */
  ghost predicate Behind(z: Start, d: Memory, i: int, j: int)
    requires z.p.Padded()
  {
    forall x :: (forall i', j', m, n :: z.p.InC(i', j', m, n) && Before(i', j', i, j) && z.p.C != 0 ==>
                 !InCell(z, i', j', m, n, x)) ==>
      Load(d, x) == Load(z.d, x)
  }

  ghost predicate AddHeld(z: Start, d: Memory, i: int, j: int)
    requires z.p.Padded()
  {
    forall i', j', m, n :: z.p.InC(i', j', m, n) && Before(i', j', i, j) && z.p.C != 0 ==>
      LoadOut(d, z.p.fullC, CByteAddr(z, i', j', m, n))
        == OutValue(z.cfg, z.norm[z.id], z.p.fullC, Added(z, i', j', m, n))
  }

  lemma SameRead(d: Memory, d': Memory, ls: LoadState, addr: int, m: int, n: int)
    requires forall x :: Reads(ls, addr, m, n, x) ==> Load(d, x) == Load(d', x)
    ensures AccIn(d, ls, addr, m, n) == AccIn(d', ls, addr, m, n)
  {
    hide Load, Scale;
    var a := addr + m * ls.stride + n * Size(!ls.shrunk);
    if ls.shrunk {
      assert Reads(ls, addr, m, n, a);
    } else {
      assert Reads(ls, addr, m, n, a) && Reads(ls, addr, m, n, a + 1) && Reads(ls, addr, m, n, a + 2)
             && Reads(ls, addr, m, n, a + 3);
    }
  }

  /** When block (i, j) is read, its operands are still the originals. */
  lemma StillOriginal(z: Start, d: Memory, i: int, j: int, m: int, n: int)
    requires z.p.Padded() && InOrder(z) && Behind(z, d, i, j) && z.p.InC(i, j, m, n)
    ensures Left(z, d, i, j, m, n) == Left(z, z.d, i, j, m, n) && Right(z, d, i, j, m, n) == Right(z, z.d, i, j, m, n)
  {
    hide Load, AccIn, InCell, Reads, RAddr, SAddr;
    forall x | IsRead(z, i, j, m, n, x) ensures Load(d, x) == Load(z.d, x) {
    }
    SameRead(d, z.d, z.cfg.load0, RAddr(z, i, j), m, n);
    SameRead(d, z.d, z.cfg.load1, SAddr(z, i, j), m, n);
  }

  /** The accumulator block after both operands have arrived. */
  lemma BlockAdded(z: Start, m0: AccMem, m1: AccMem, m2: AccMem, d: Memory, i: int, j: int, r: int, c: int)
    requires z.p.Padded() && z.p.Accepted() && InOrder(z) && Behind(z, d, i, j) && z.p.InC(i, j, r, c)
    requires AccTileIn(m0, m1, z.p.CRow(i, j, 0), z.p.RowsOf(i), z.p.ColsOf(j), d, z.cfg.load0, RAddr(z, i, j), false)
    requires AccTileIn(m1, m2, z.p.CRow(i, j, 0), z.p.RowsOf(i), z.p.ColsOf(j), d, z.cfg.load1, SAddr(z, i, j), true)
    ensures At(m2, z.p.CRow(i, j, r), c) == Added(z, i, j, r, c)
  {
    hide At, AccIn, Call.CRow, Call.Accepted, RAddr, SAddr, Wrap32, InOrder, Behind;
    CApartRows(z.p, i, j);
    CRange(z.p, i, j);
    StillOriginal(z, d, i, j, r, c);
    WrapSame(Left(z, d, i, j, r, c));
    assert At(m1, z.p.CRow(i, j, r), c) == Left(z, d, i, j, r, c);
  }

  lemma AddedCell(z: Start, s: Spad, m: AccMem, stat: NormStat, i: int, j: int, r: int, c: int)
    requires z.p.Padded() && z.p.Accepted() && SameOutputs(stat, z.norm[z.id]) && z.p.InC(i, j, r, c)
    requires At(m, z.p.CRow(i, j, r), c) == Added(z, i, j, r, c)
    ensures OutCell(s, m, z.cfg, stat, SourceC(z, i, j), r, c)
            == OutValue(z.cfg, z.norm[z.id], z.p.fullC, Added(z, i, j, r, c))
  {
    hide At, Call.CRow, OutValue, Call.Accepted, Added;
    CApartRows(z.p, i, j);
    DivUnique(c, DIM, 0, c);
    OutValueSame(z.cfg, stat, z.norm[z.id], z.p.fullC, AccAt(m, z.p.CRow(i, j, r), c));
  }

  lemma OrderIsApart(z: Start)
    requires z.p.Padded() && InOrder(z) && z.p.C != 0
    ensures forall i, j, m, n, i', j', m', n' ::
              z.p.InC(i, j, m, n) && z.p.InC(i', j', m', n') && (i != i' || j != j' || m != m' || n != n') ==>
                Apart(CByteAddr(z, i, j, m, n), Size(z.p.fullC), CByteAddr(z, i', j', m', n'), Size(z.p.fullC))
  {
    hide Apart, CByteAddr, IsRead, InCell;
  }

  /** With its operand addresses cleared, the call meets loop_ws's own condition on C. */
  function StoreOnly(z: Start): Start { z.(p := z.p.(A := 0, B := 0)) }

  lemma StoreOnlyApart(z: Start)
    requires z.p.Padded() && InOrder(z)
    ensures CApart(StoreOnly(z))
  {
    hide Apart, OutAddr, IsRead, InCell;
    if z.p.C != 0 {
      OrderIsApart(z);
      var y := StoreOnly(z);
      forall i, j, m, n ensures CByteAddr(y, i, j, m, n) == CByteAddr(z, i, j, m, n) {
      }
    }
  }

  lemma AddStep(z: Start, s: Spad, m: AccMem, stat: NormStat, d: Memory, d': Memory, i: int, j: int)
    requires ReadyAdd(z) && InOrder(z) && z.p.C != 0 && 0 <= i < z.p.I && 0 <= j < z.p.J
    requires SameOutputs(stat, z.norm[z.id])
    requires forall r, c :: z.p.InC(i, j, r, c) ==> At(m, z.p.CRow(i, j, r), c) == Added(z, i, j, r, c)
    requires AddHeld(z, d, i, j) && Behind(z, d, i, j)
    requires RowsOut(s, m, z.cfg, stat, SourceC(z, i, j), z.p.CAddr(i, j), z.p.ColsOf(j), d', z.p.RowsOf(i), 0)
    requires forall x :: !Touched(z.p.CAddr(i, j), z.cfg.storeStride, z.p.fullC, z.p.RowsOf(i), z.p.ColsOf(j), x) ==>
               Load(d', x) == Load(d, x)
    ensures AddHeld(z, d', i, j + 1)
  {
    hide At, Call.CRow, OutValue, Added, Call.Accepted, LoadOut, Load, Touched, OutCell, OutAddr, InOrder, Behind,
         CApart;
    StoreOnlyApart(z);
    var y := StoreOnly(z);
    forall i', j', r, c | z.p.InC(i', j', r, c) && Before(i', j', i, j + 1)
      ensures LoadOut(d', z.p.fullC, CByteAddr(z, i', j', r, c))
              == OutValue(z.cfg, z.norm[z.id], z.p.fullC, Added(z, i', j', r, c))
    {
      if i' == i && j' == j {
        AddedCell(z, s, m, stat, i, j, r, c);
      } else {
        var a := CByteAddr(z, i', j', r, c);
        assert a == CByteAddr(y, i', j', r, c) && y.p.InC(i', j', r, c);
        forall x | a <= x < a + Size(z.p.fullC) ensures Load(d', x) == Load(d, x) {
          OtherUntouched(y, i, j, i', j', r, c, x);
        }
        LoadOutSame(d', d, z.p.fullC, a);
      }
    }
  }

  lemma BehindStep(z: Start, d: Memory, d': Memory, i: int, j: int)
    requires z.p.Padded() && !z.p.Norms() && z.p.C != 0 && 0 <= i < z.p.I && 0 <= j < z.p.J && Behind(z, d, i, j)
    requires forall x :: !Touched(z.p.CAddr(i, j), z.cfg.storeStride, z.p.fullC, z.p.RowsOf(i), z.p.ColsOf(j), x) ==>
               Load(d', x) == Load(d, x)
    ensures Behind(z, d', i, j + 1)
  {
    hide Load, OutAddr, Call.CAddr;
    forall x | forall i', j', m, n :: z.p.InC(i', j', m, n) && Before(i', j', i, j + 1) ==> !InCell(z, i', j', m, n, x)
      ensures Load(d', x) == Load(z.d, x)
    {
      forall m, n | 0 <= m < z.p.RowsOf(i) && 0 <= n < z.p.ColsOf(j)
        ensures !(OutAddr(z.p.CAddr(i, j), z.cfg.storeStride, z.p.fullC, m, n) <= x
                  < OutAddr(z.p.CAddr(i, j), z.cfg.storeStride, z.p.fullC, m, n) + Size(z.p.fullC))
      {
        assert z.p.InC(i, j, m, n) && !InCell(z, i, j, m, n, x);
      }
      assert forall i', j', m, n :: z.p.InC(i', j', m, n) && Before(i', j', i, j) ==> !InCell(z, i', j', m, n, x);
    }
  }

  /** One block: move A in, add B on top, move the sum out. */
  method AddBlock(g: Gemmini, ghost z: Start, p: Call, i: nat, j: nat)
    requires ReadyAdd(z) && InOrder(z) && p == z.p && g.cfg == z.cfg && g.statId == z.id && i < p.I && j < p.J
    requires SameOutputs(g.norm[z.id], z.norm[z.id]) && AddHeld(z, g.dram, i, j) && Behind(z, g.dram, i, j)
    modifies g`acc, g`dram, g`norm
    ensures NormKept(old(g.norm), g.norm, z.id) && AddHeld(z, g.dram, i, j + 1) && Behind(z, g.dram, i, j + 1)
  {
    hide At, Call.CRow, Call.Accepted, InOrder, Behind, AddHeld, AccTileIn, Added, Touched, Distinct, Load, NormRows,
         RowsOut, OutRows, CApart, RAddr, SAddr;
    CRange(p, i, j);
    ghost var m0, d, stat := g.acc, g.dram, g.norm[z.id];
    MvinAccTile(g, p.A + (i * p.strideA + j) * DIM, p.CRow(i, j, 0), p.RowsOf(i), p.ColsOf(j), false, 0);
    ghost var m1 := g.acc;
    MvinAccTile(g, p.B + (i * p.strideB + j) * DIM, p.CRow(i, j, 0), p.RowsOf(i), p.ColsOf(j), true, 1);
    AddrIs(z, i, j);
    forall r, c | p.InC(i, j, r, c) ensures At(g.acc, p.CRow(i, j, r), c) == Added(z, i, j, r, c) {
      BlockAdded(z, m0, m1, g.acc, d, i, j, r, c);
    }
    if p.C != 0 {
      StoreSum(g, z, p, i, j);
    } else {
      NothingStored(z, g.dram, i, j);
    }
  }

  /** Store a finished block. */
  method StoreSum(g: Gemmini, ghost z: Start, p: Call, i: nat, j: nat)
    requires ReadyAdd(z) && InOrder(z) && p == z.p && g.cfg == z.cfg && g.statId == z.id && i < p.I && j < p.J
    requires p.C != 0
    requires SameOutputs(g.norm[z.id], z.norm[z.id]) && AddHeld(z, g.dram, i, j) && Behind(z, g.dram, i, j)
    requires forall r, c :: p.InC(i, j, r, c) ==> At(g.acc, p.CRow(i, j, r), c) == Added(z, i, j, r, c)
    modifies g`dram, g`norm
    ensures NormKept(old(g.norm), g.norm, z.id) && AddHeld(z, g.dram, i, j + 1) && Behind(z, g.dram, i, j + 1)
  {
    hide At, Call.CRow, Call.Accepted, InOrder, Behind, AddHeld, Added, Touched, Distinct, Load, NormRows, RowsOut,
         OutRows, CApart;
    hide StoredTo;
    CRange(p, i, j);
    ghost var d, stat := g.dram, g.norm[z.id];
    StoreOnlyApart(z);
    BlockDistinct(StoreOnly(z), i, j);
    StoreRows(z, i, j);
    var src := Source(true, p.fullC, RESET, p.CRow(i, j, 0));
    NormRowsReset(stat, g.acc, g.cfg.consts, src.row, p.RowsOf(i), p.ColsOf(j));
    g.Mvout(p.CAddr(i, j), src, p.RowsOf(i), p.ColsOf(j));
    AddStep(z, g.spad, g.acc, stat, d, g.dram, i, j);
    BehindStep(z, d, g.dram, i, j);
  }

  lemma AddrIs(z: Start, i: int, j: int)
    ensures RAddr(z, i, j) == z.p.A + (i * z.p.strideA + j) * DIM
    ensures SAddr(z, i, j) == z.p.B + (i * z.p.strideB + j) * DIM
  {
  }

  lemma NothingStored(z: Start, d: Memory, i: int, j: int)
    requires z.p.Padded() && z.p.C == 0 && Behind(z, d, i, j)
    ensures AddHeld(z, d, i, j + 1) && Behind(z, d, i, j + 1)
  {
    hide Load;
  }

  /** Every byte outside C is kept. */
  ghost predicate OnlyC(z: Start, d: Memory)
    requires z.p.Padded()
  {
    forall x :: (z.p.C != 0 ==> !InCBytes(z, x)) ==> Load(d, x) == Load(z.d, x)
  }

  /** The residual-add branch never looks at the activation field. */
  function Adding(p: Call): (q: Call)
    ensures q.Padded() == p.Padded() && q.Accepted() == p.Accepted()
  {
    p.(act := NONE)
  }

  /** loop_ws with the residual-add flag: C = A + B, even when C is one of its own operands. */
  method Resadd(g: Gemmini, call: Call) returns (ok: bool)
    requires call.Padded()
    requires call.Accepted() ==> ReadyAdd(StartOf(g, Adding(call))) && InOrder(StartOf(g, Adding(call)))
    modifies g`acc, g`dram, g`norm
    ensures ok <==> call.Accepted()
    ensures !ok ==> unchanged(g)
    ensures ok ==>
            AddHeld(old(StartOf(g, Adding(call))), g.dram, call.I, 0) && OnlyC(old(StartOf(g, Adding(call))), g.dram)
    ensures ok ==> NormKept(old(g.norm), g.norm, g.statId) && (AllReset(old(g.norm)) ==> AllReset(g.norm))
  {
    hide Call.Accepted, InOrder, Behind, AddHeld, OnlyC;
    var p := Adding(call);
    if !p.Accepted() {
      return false;
    }
    ghost var z := StartOf(g, p);
    AddStart(z);
    for i := 0 to p.I
      invariant NormKept(old(g.norm), g.norm, z.id) && AddHeld(z, g.dram, i, 0) && Behind(z, g.dram, i, 0)
    {
      for j := 0 to p.J
        invariant NormKept(old(g.norm), g.norm, z.id) && AddHeld(z, g.dram, i, j) && Behind(z, g.dram, i, j)
      {
        AddBlock(g, z, p, i, j);
      }
      AddNextRow(z, g.dram, i);
    }
    AddEnd(z, g.dram);
    return true;
  }

  lemma AddStart(z: Start)
    requires z.p.Padded()
    ensures AddHeld(z, z.d, 0, 0) && Behind(z, z.d, 0, 0)
  {
    hide Load, LoadOut, OutValue, Added, CByteAddr;
  }

  lemma AddNextRow(z: Start, d: Memory, i: int)
    requires z.p.Padded() && AddHeld(z, d, i, z.p.J) && Behind(z, d, i, z.p.J)
    ensures AddHeld(z, d, i + 1, 0) && Behind(z, d, i + 1, 0)
  {
    hide Load, LoadOut, OutValue, Added, CByteAddr, InCell;
    forall x | forall i', j', m, n :: z.p.InC(i', j', m, n) && Before(i', j', i + 1, 0) && z.p.C != 0 ==>
        !InCell(z, i', j', m, n, x)
      ensures Load(d, x) == Load(z.d, x)
    {
      assert forall i', j', m, n :: z.p.InC(i', j', m, n) && Before(i', j', i, z.p.J) && z.p.C != 0 ==>
               !InCell(z, i', j', m, n, x);
    }
  }

  lemma AddEnd(z: Start, d: Memory)
    requires z.p.Padded() && Behind(z, d, z.p.I, 0)
    ensures OnlyC(z, d)
  {
    hide Load, CByteAddr;
    forall x | z.p.C != 0 ==> !InCBytes(z, x) ensures Load(d, x) == Load(z.d, x) {
      assert forall i', j', m, n :: z.p.InC(i', j', m, n) && Before(i', j', z.p.I, 0) && z.p.C != 0 ==>
               !InCell(z, i', j', m, n, x);
    }
  }

  /** C may be the very buffer of A: same address and stride, int8 in and out. */
  predicate InPlaceA(z: Start) {
    z.p.C == z.p.A && z.p.strideC == z.p.strideA && !z.p.fullC && z.cfg.load0.shrunk
      && z.cfg.load0.stride == z.p.strideA
  }

  predicate InPlaceB(z: Start) {
    z.p.C == z.p.B && z.p.strideC == z.p.strideB && !z.p.fullC && z.cfg.load1.shrunk
      && z.cfg.load1.stride == z.p.strideB
  }

  /** Or an operand may lie clear of C altogether. */
  ghost predicate ClearOfC(z: Start, ls: LoadState, base: int, stride: int)
    requires z.p.Padded()
  {
    forall i, j, m, n, x :: z.p.InC(i, j, m, n) && Reads(ls, base + (i * stride + j) * DIM, m, n, x) ==> !InCBytes(z, x)
  }

  lemma InPlaceRead(z: Start, ls: LoadState, base: int, stride: int, i: int, j: int, m: int, n: int, x: int)
    requires z.p.C == base && z.p.strideC == stride && !z.p.fullC && ls.shrunk && ls.stride == stride && !z.p.Norms()
    requires z.cfg.storeStride == stride
    ensures Reads(ls, base + (i * stride + j) * DIM, m, n, x) <==> InCell(z, i, j, m, n, x)
  {
  }

  lemma InPlaceIsInOrder(z: Start)
    requires z.p.Padded() && !z.p.Norms() && z.cfg.storeStride == z.p.strideC * Size(z.p.fullC)
    requires Width(z.p) <= z.p.strideC
    requires InPlaceA(z) || ClearOfC(z, z.cfg.load0, z.p.A, z.p.strideA)
    requires InPlaceB(z) || ClearOfC(z, z.cfg.load1, z.p.B, z.p.strideB)
    ensures InOrder(z)
  {
    hide CByteAddr, Apart, Reads, InCell, Width, InCBytes;
    forall i, j, m, n, i', j', m', n' | z.p.InC(i, j, m, n) && z.p.InC(i', j', m', n')
      && (i != i' || j != j' || m != m' || n != n')
      ensures Apart(CByteAddr(z, i, j, m, n), Size(z.p.fullC), CByteAddr(z, i', j', m', n'), Size(z.p.fullC))
    {
      StoreCellsApart(z, i, j, m, n, i', j', m', n');
    }
    forall i, j, m, n, i', j', m', n', x | z.p.InC(i, j, m, n) && z.p.InC(i', j', m', n') && Before(i, j, i', j')
      && InCell(z, i, j, m, n, x)
      ensures !IsRead(z, i', j', m', n', x)
    {
      StoreCellsApart(z, i, j, m, n, i', j', m', n');
      NotBoth(z, i, j, m, n, i', j', m', n', x);
      if InPlaceA(z) { InPlaceRead(z, z.cfg.load0, z.p.A, z.p.strideA, i', j', m', n', x); }
      if InPlaceB(z) { InPlaceRead(z, z.cfg.load1, z.p.B, z.p.strideB, i', j', m', n', x); }
    }
  }

  lemma NotBoth(z: Start, i: int, j: int, m: int, n: int, i': int, j': int, m': int, n': int, x: int)
    requires z.p.Padded() && z.p.InC(i, j, m, n) && InCell(z, i, j, m, n, x)
    requires Apart(CByteAddr(z, i, j, m, n), Size(z.p.fullC), CByteAddr(z, i', j', m', n'), Size(z.p.fullC))
    ensures !InCell(z, i', j', m', n', x) && InCBytes(z, x)
  {
    hide CByteAddr;
  }

  lemma StoreCellsApart(z: Start, i: int, j: int, m: int, n: int, i': int, j': int, m': int, n': int)
    requires z.p.Padded() && !z.p.Norms() && z.cfg.storeStride == z.p.strideC * Size(z.p.fullC)
    requires Width(z.p) <= z.p.strideC
    requires z.p.InC(i, j, m, n) && z.p.InC(i', j', m', n') && (i != i' || j != j' || m != m' || n != n')
    ensures Apart(CByteAddr(z, i, j, m, n), Size(z.p.fullC), CByteAddr(z, i', j', m', n'), Size(z.p.fullC))
  {
    hide Apart, OutAddr, Width;
    var y := z.(cfg :=
                z.cfg.(load0 := z.cfg.load0.(stride := z.p.strideA), load1 := z.cfg.load1.(stride := z.p.strideB),
                              load2 := z.cfg.load2.(stride := z.p.strideD * Size(!z.p.lowD), shrunk := z.p.lowD)));
    CellsApart(y, i, j, m, n, i', j', m', n');
  }
  // The sum of two row-major int8 matrices.

  /** The load and store strides are those of the matrices, and both operands are int8. */
  predicate Aligned(z: Start) {
    && z.cfg.load0.stride == z.p.strideA && z.cfg.load0.shrunk && z.cfg.load1.stride == z.p.strideB
       && z.cfg.load1.shrunk
    && z.cfg.storeStride == z.p.strideC * Size(z.p.fullC) && z.p.A != 0 && z.p.B != 0
  }

  lemma OperandIs(d: Memory, ls: LoadState, base: Pos, stride: nat, i: int, j: int, m: int, n: int, r: int, e: int)
    requires 0 <= i && 0 <= j && ls.stride == stride && ls.shrunk
    requires NearestProduct(LoadElem(d, base + (i * DIM + m) * stride + (j * DIM + n)), ls.scale, r)
    requires Limits(r, false, e)
    ensures AccIn(d, ls, base + (i * stride + j) * DIM, m, n) == e
  {
    hide LoadElem, Scale, NearestProduct;
    Offset(i, j, stride, 1);
    BlockAddr(i, j, m, n, stride, 1);
    ScaleIsNearest(LoadElem(d, base + (i * DIM + m) * stride + (j * DIM + n)), ls.scale, r);
  }

  lemma SumAddress(z: Start, i: int, j: int, m: int, n: int)
    requires Aligned(z) && !z.p.Norms()
    ensures CByteAddr(z, i, j, m, n) == z.p.C + ((i * DIM + m) * z.p.strideC + (j * DIM + n)) * Size(z.p.fullC)
  {
    BlockAddr(i, j, m, n, z.p.strideC, Size(z.p.fullC));
  }

  /** Element (row, col) of C: both operands scaled, rounded and saturated on their own, added, and the sum scaled,
      rounded, saturated and clipped again. */
  lemma StoresSum(z: Start, d: Memory, i: int, j: int, m: int, n: int, ra: int, a: int, rb: int, b: int, r: int)
    requires z.p.Padded() && !z.p.Norms() && AddHeld(z, d, z.p.I, 0) && z.p.InC(i, j, m, n) && z.p.C != 0 && Aligned(z)
    requires z.cfg.accAct == NONE || z.cfg.accAct == RELU
    requires var row, col := i * DIM + m, j * DIM + n;
             && NearestProduct(LoadElem(z.d, z.p.A + row * z.p.strideA + col), z.cfg.load0.scale, ra)
             && NearestProduct(LoadElem(z.d, z.p.B + row * z.p.strideB + col), z.cfg.load1.scale, rb)
    requires Limits(ra, false, a) && Limits(rb, false, b) && (z.p.fullC || NearestProduct(a + b, z.cfg.accScale, r))
    ensures var row, col := i * DIM + m, j * DIM + n;
            var out := LoadOut(d, z.p.fullC, z.p.C + (row * z.p.strideC + col) * Size(z.p.fullC));
            if z.p.fullC then out == a + b else Limits(r, z.cfg.accAct == RELU, out)
  {
    hide LoadElem, LoadOut, NearestProduct, AccIn, Wrap32, OutValue, CByteAddr;
    assert a + b == Added(z, i, j, m, n) by {
      hide Aligned;
      AlignedLoads(z);
      OperandIs(z.d, z.cfg.load0, z.p.A, z.p.strideA, i, j, m, n, ra, a);
      OperandIs(z.d, z.cfg.load1, z.p.B, z.p.strideB, i, j, m, n, rb, b);
      WrapSame(a + b);
    }
    SumAddress(z, i, j, m, n);
    PlainOut(z.cfg, z.norm[z.id], z.p.fullC, a + b, r);
  }

  lemma AlignedLoads(z: Start)
    requires Aligned(z)
    ensures z.cfg.load0.stride == z.p.strideA && z.cfg.load0.shrunk && z.p.A > 0
    ensures z.cfg.load1.stride == z.p.strideB && z.cfg.load1.shrunk && z.p.B > 0
  {
  }
}
