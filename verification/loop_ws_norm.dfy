/** Layernorm and softmax inside loop_ws: three interleaved passes over up to four rows at a time. */
module LoopWsNorm {
  import opened Params
  import opened Wrap
  import opened Sums
  import opened Dram
  import opened Grid
  import opened State
  import opened Patches
  import opened Norm
  import opened NormPass
  import opened Machine
  import opened LoopWsSpec
  import opened LoopWsLayout

  /** Block row i of the product is complete. */
  ghost predicate RowReady(z: Start, m: AccMem, i: int)
    requires z.p.Padded()
  {
    forall j, r, n :: z.p.InC(i, j, r, n) ==> At(m, z.p.CRow(i, j, r), n) == Final(z, i, j, r, n)
  }

  lemma RowIsReady(z: Start, m: AccMem, i: int)
    requires z.p.Padded() && 0 <= i < z.p.I && z.p.K > 0 && AccHeld(z, m, z.p.K - 1, z.p.J - 1, i + 1)
    ensures RowReady(z, m, i)
  {
    hide At, Partial, Call.CRow, Wrap32;
    forall j, r, n | z.p.InC(i, j, r, n) ensures At(m, z.p.CRow(i, j, r), n) == Final(z, i, j, r, n) {
      assert Done(i, j, z.p.J - 1, i + 1);
      AccRange(m, z.p.CRow(i, j, r), n);
      WrapSame(At(m, z.p.CRow(i, j, r), n));
    }
  }

  /** Where the write passes stand: rows before m0 are out, and the first j0 blocks of row m0. */
  predicate NDone(i': int, j': int, m: int, i: int, m0: int, j0: int) {
    i' < i || (i' == i && (m < m0 || (m == m0 && j' < j0)))
  }

  ghost predicate NHeld(z: Start, d: Memory, i: int, m0: int, j0: int)
    requires z.p.Padded()
  {
    forall i', j', m, n :: z.p.InC(i', j', m, n) && NDone(i', j', m, i, m0, j0) ==>
      LoadOut(d, z.p.fullC, CByteAddr(z, i', j', m, n))
        == OutValue(z.cfg, StatOf(z, i', m), z.p.fullC, Final(z, i', j', m, n))
  }

  /** Slot t's own row in a group of rows that starts at `row`. */
  ghost function SlotRow(z: Start, i: int, row: int, t: int): Row
    requires z.p.Padded()
  {
    FinalRow(z, i, row + t)
  }

  /** Slot t after `pass` full passes and, for the current slot, jj blocks of the next. */
  ghost function SlotAt(z: Start, i: int, row: int, n0: NormStat, t: int, pass: nat, sid: int, jj: nat): NormStat
    requires z.p.Padded()
  {
    var w := SlotRow(z, i, row, t);
    if t < sid then Passes(n0, w, z.p.act, z.cfg.consts, pass + 1)
    else if t == sid then Pass(Passes(n0, w, z.p.act, z.cfg.consts, pass), w, z.p.act, z.cfg.consts, pass, jj)
    else Passes(n0, w, z.p.act, z.cfg.consts, pass)
  }

  ghost predicate Slots(z: Start, i: int, row: int, ids: int, n0: NormBank, n: NormBank, pass: nat, sid: int, jj: nat)
    requires z.p.Padded()
  {
    forall t :: 0 <= t < NORM_STAT_IDS ==>
      n[t] == if t < ids then SlotAt(z, i, row, n0[t], t, pass, sid, jj) else n0[t]
  }

  lemma OneBlock(s: NormStat, m: AccMem, k: NormConsts, row: int, cols: nat, cmd: NormCmd)
    requires 0 < cols <= DIM
    ensures NormRows(s, m, k, row, 1, cols, cmd) == NormStep(s, RowOf(m, row), cols, cmd, k)
  {
    hide NormStep, RowOf;
    DivUnique(cols + DIM - 1, DIM, 1, cols - 1);
    FlatZero(DIM);
    FlatNext(0, DIM);
    assert NormRows(s, m, k, row, 0, cols, cmd) == s;
    assert NormBlocks(s, m, k, row, cols, cmd, 0) == s;
    assert NormBlocks(s, m, k, row, cols, cmd, 1)
           == NormStep(s, RowOf(m, row + Flat(0, DIM, 0)), BlockLen(cols, 0), cmd, k);
  }

  lemma NoBlock(s: NormStat, m: AccMem, k: NormConsts, row: int, cmd: NormCmd)
    ensures NormRows(s, m, k, row, 1, 0, cmd) == s
  {
    DivUnique(DIM - 1, DIM, 0, DIM - 1);
    assert NormRows(s, m, k, row, 0, 0, cmd) == s;
    assert NormBlocks(s, m, k, row, 0, cmd, 0) == s;
  }

  /** A slot after block jj of a pass over its row. */
  ghost function Shown(z: Start, s: NormStat, i: int, jj: int, r: int, pass: nat): NormStat
    requires z.p.Padded()
  {
    var w := FinalRow(z, i, r);
    if w.Len(jj) == 0 then s else NormStep(s, w.b(jj), w.Len(jj), Cmd(z.p.act, pass, jj + 1 == z.p.J), z.cfg.consts)
  }

  /** One mvout of the passes is one step of the row's own statistic. */
  lemma SlotStep(z: Start, m: AccMem, s: NormStat, i: int, jj: int, r: int, pass: nat)
    requires z.p.Padded() && 0 <= i < z.p.I && 0 <= jj < z.p.J && 0 <= r < z.p.RowsOf(i) && RowReady(z, m, i)
    ensures NormRows(s, m, z.cfg.consts, z.p.CRow(i, jj, r), 1, z.p.ColsOf(jj), Cmd(z.p.act, pass, jj + 1 == z.p.J))
            == Shown(z, s, i, jj, r, pass)
  {
    hide At, NormStep, NormRows, Final, Call.CRow;
    var cmd, row, cols := Cmd(z.p.act, pass, jj + 1 == z.p.J), z.p.CRow(i, jj, r), z.p.ColsOf(jj);
    if cols == 0 {
      NoBlock(s, m, z.cfg.consts, row, cmd);
    } else {
      OneBlock(s, m, z.cfg.consts, row, cols, cmd);
      var x, y := RowOf(m, row), FinalRow(z, i, r).b(jj);
      forall n | 0 <= n < cols ensures x(n) == y(n) {
        assert z.p.InC(i, jj, r, n);
      }
      NormStepSame(s, x, y, cols, cmd, z.cfg.consts);
    }
  }

  // The bytes of one output row of one block.

  function RowAddr(z: Start, i: int, j: int, r: int): int { z.p.CAddr(i, j) + r * RowStride(z) }

  lemma RowAddrIs(z: Start, i: int, j: int, r: int, stride: int, n: int)
    ensures OutAddr(RowAddr(z, i, j, r), stride, z.p.fullC, 0, n) == CByteAddr(z, i, j, r, n)
  {
    assert 0 * stride == 0;
  }

  lemma RowDistinct(z: Start, i: int, j: int, r: int, stride: int)
    requires z.p.Padded() && CApart(z) && z.p.C != 0 && 0 <= i < z.p.I && 0 <= j < z.p.J && 0 <= r < z.p.RowsOf(i)
    ensures Distinct(RowAddr(z, i, j, r), stride, z.p.fullC, 1, z.p.ColsOf(j))
  {
    hide OutAddr, CByteAddr, RowAddr, Apart, InCBytes;
    var a, cols := RowAddr(z, i, j, r), z.p.ColsOf(j);
    forall m, n, m', n' | 0 <= m < 1 && 0 <= n < cols && 0 <= m' < 1 && 0 <= n' < cols && (m != m' || n != n')
      ensures Apart(OutAddr(a, stride, z.p.fullC, m, n), Size(z.p.fullC), OutAddr(a, stride, z.p.fullC, m', n'),
                    Size(z.p.fullC))
    {
      RowAddrIs(z, i, j, r, stride, n);
      RowAddrIs(z, i, j, r, stride, n');
      assert z.p.InC(i, j, r, n) && z.p.InC(i, j, r, n');
    }
  }

  lemma RowTouches(z: Start, i: int, j: int, r: int, stride: int, x: int)
    requires z.p.Padded() && 0 <= i < z.p.I && 0 <= j < z.p.J && 0 <= r < z.p.RowsOf(i)
    requires Touched(RowAddr(z, i, j, r), stride, z.p.fullC, 1, z.p.ColsOf(j), x)
    ensures exists n ::
              && z.p.InC(i, j, r, n)
              && CByteAddr(z, i, j, r, n) <= x < CByteAddr(z, i, j, r, n) + Size(z.p.fullC)
  {
    hide OutAddr, CByteAddr, RowAddr;
    var m, n :| 0 <= m < 1 && 0 <= n < z.p.ColsOf(j) && OutAddr(RowAddr(z, i, j, r), stride, z.p.fullC, m, n) <= x
                < OutAddr(RowAddr(z, i, j, r), stride, z.p.fullC, m, n) + Size(z.p.fullC);
    RowAddrIs(z, i, j, r, stride, n);
    assert z.p.InC(i, j, r, n);
  }

  lemma RowFrame(z: Start, d: Memory, d': Memory, i: int, j: int, r: int, stride: int)
    requires z.p.Padded() && 0 <= i < z.p.I && 0 <= j < z.p.J && 0 <= r < z.p.RowsOf(i) && DramFrame(z, d)
    requires forall x :: !Touched(RowAddr(z, i, j, r), stride, z.p.fullC, 1, z.p.ColsOf(j), x) ==>
               Load(d', x) == Load(d, x)
    ensures DramFrame(z, d')
  {
    hide CByteAddr, RowAddr, Touched, Load;
    forall x | !InCBytes(z, x) ensures Load(d', x) == Load(z.d, x) {
      if Touched(RowAddr(z, i, j, r), stride, z.p.fullC, 1, z.p.ColsOf(j), x) { RowTouches(z, i, j, r, stride, x); }
    }
  }

  lemma OtherKept(z: Start, d: Memory, d': Memory, i: int, j: int, r: int, stride: int, i': int, j': int, m: int,
                  n: int)
    requires z.p.Padded() && CApart(z) && z.p.C != 0 && 0 <= i < z.p.I && 0 <= j < z.p.J && 0 <= r < z.p.RowsOf(i)
    requires z.p.InC(i', j', m, n) && (i' != i || j' != j || m != r)
    requires forall x :: !Touched(RowAddr(z, i, j, r), stride, z.p.fullC, 1, z.p.ColsOf(j), x) ==>
               Load(d', x) == Load(d, x)
    ensures LoadOut(d', z.p.fullC, CByteAddr(z, i', j', m, n)) == LoadOut(d, z.p.fullC, CByteAddr(z, i', j', m, n))
  {
    hide CByteAddr, RowAddr, Touched, Load, LoadOut, InCBytes;
    var a := CByteAddr(z, i', j', m, n);
    forall x | a <= x < a + Size(z.p.fullC) ensures Load(d', x) == Load(d, x) {
      if Touched(RowAddr(z, i, j, r), stride, z.p.fullC, 1, z.p.ColsOf(j), x) {
        RowTouches(z, i, j, r, stride, x);
        assert false;
      }
    }
    LoadOutSame(d', d, z.p.fullC, a);
  }

  function RowSource(z: Start, i: int, j: int, r: int, cmd: NormCmd): Source
    requires 0 <= z.p.CRow(i, j, r)
  {
    Source(true, z.p.fullC, cmd, z.p.CRow(i, j, r))
  }

  /** The value written for one element of the row. */
  lemma RowValue(z: Start, s: Spad, m: AccMem, stat: NormStat, i: int, j: int, r: int, n: int)
    requires z.p.Padded() && z.p.InC(i, j, r, n) && RowReady(z, m, i) && 0 <= z.p.CRow(i, j, r)
    requires SameOutputs(stat, StatOf(z, i, r))
    ensures OutCell(s, m, z.cfg, stat, RowSource(z, i, j, r, RESET), 0, n)
            == OutValue(z.cfg, StatOf(z, i, r), z.p.fullC, Final(z, i, j, r, n))
  {
    hide At, Final, Call.CRow, OutValue, StatOf;
    DivUnique(n, DIM, 0, n);
    OutValueSame(z.cfg, stat, StatOf(z, i, r), z.p.fullC, AccAt(m, z.p.CRow(i, j, r), n));
  }

  /** While it writes, a slot keeps the statistics two passes over its row left. */
  lemma SlotStats(z: Start, i: nat, row: nat, n0: NormBank, t: nat, jj: nat)
    requires z.p.Padded() && z.p.Norms() && t < NORM_STAT_IDS && row % NORM_STAT_IDS == 0
    requires n0 == BankAt(z, i, row / NORM_STAT_IDS)
    ensures var w := SlotRow(z, i, row, t);
            SameOutputs(Pass(Passes(n0[t], w, z.p.act, z.cfg.consts, 2), w, z.p.act, z.cfg.consts, 2, jj),
                        StatOf(z, i, row + t))
  {
    hide Final, Pass, Passes, BankAt;
    var w := SlotRow(z, i, row, t);
    assert (row + t) / NORM_STAT_IDS == row / NORM_STAT_IDS && (row + t) % NORM_STAT_IDS == t;
    ResetPass(Passes(n0[t], w, z.p.act, z.cfg.consts, 2), w, z.p.act, z.cfg.consts, jj);
  }

  lemma FinalRowInRange(z: Start, i: int, m: int)
    requires z.p.Padded()
    ensures AccRow(FinalRow(z, i, m))
  {
    hide Row.Pos;
    var w := FinalRow(z, i, m);
    forall n | 0 <= n < w.Pos(w.J) ensures -0x8000_0000 <= RowValues(w)(n) <= 0x7fff_ffff {
      assert RowValues(w)(n) == Final(z, i, n / DIM, m, n % DIM);
    }
  }

  lemma WriteStep(z: Start, s: Spad, m: AccMem, stat: NormStat, d: Memory, d': Memory, i: int, jj: int, r: int,
                  stride: int)
    requires z.p.Padded() && CApart(z) && z.p.C != 0
    requires 0 <= i < z.p.I && 0 <= jj < z.p.J && 0 <= r < z.p.RowsOf(i) && RowReady(z, m, i) && 0 <= z.p.CRow(i, jj, r)
    requires stride == z.cfg.storeStride
    requires SameOutputs(stat, StatOf(z, i, r))
    requires NHeld(z, d, i, r, jj)
    requires RowsOut(s, m, z.cfg, stat, RowSource(z, i, jj, r, RESET), RowAddr(z, i, jj, r), z.p.ColsOf(jj), d', 1, 0)
    requires forall x :: !Touched(RowAddr(z, i, jj, r), stride, z.p.fullC, 1, z.p.ColsOf(jj), x) ==>
               Load(d', x) == Load(d, x)
    ensures NHeld(z, d', i, r, jj + 1)
  {
    hide CByteAddr, RowAddr, Touched, Load, LoadOut, CApart, RowReady, OutValue, StatOf, Final, FinalRow, OutCell,
         Call.CRow, OutAddr;
    forall i', j', m', n | z.p.InC(i', j', m', n) && NDone(i', j', m', i, r, jj + 1)
      ensures LoadOut(d', z.p.fullC, CByteAddr(z, i', j', m', n))
              == OutValue(z.cfg, StatOf(z, i', m'), z.p.fullC, Final(z, i', j', m', n))
    {
      if i' == i && j' == jj && m' == r {
        RowValue(z, s, m, stat, i, jj, r, n);
        RowAddrIs(z, i, jj, r, stride, n);
      } else {
        OtherKept(z, d, d', i, jj, r, stride, i', j', m', n);
      }
    }
  }

  /** What the passes keep. */
  ghost predicate Passing(g: Gemmini, z: Start, p: Call, i: int)
    reads g
  {
    && Ready(z) && p == z.p && p.Norms() && g.cfg == z.cfg && p.C != 0 && CApart(z) && 0 <= i < p.I && 0 < p.J
       && RowReady(z, g.acc, i)
    && DramFrame(z, g.dram)
  }

  /** One pass of one statistic over its row. */
  method RowPass(g: Gemmini, ghost z: Start, p: Call, i: nat, row: nat, ids: nat, pass: nat, sid: nat,
                 ghost n0: NormBank)
    requires Passing(g, z, p, i) && pass < 3 && sid < ids <= NORM_STAT_IDS && row + ids <= p.RowsOf(i)
    requires row % NORM_STAT_IDS == 0 && n0 == BankAt(z, i, row / NORM_STAT_IDS)
    requires Slots(z, i, row, ids, n0, g.norm, pass, sid, 0)
    requires if pass == 2 then NHeld(z, g.dram, i, row + sid, 0) else NHeld(z, g.dram, i, row, 0)
    modifies g`statId, g`norm, g`dram
    ensures Passing(g, z, p, i) && Slots(z, i, row, ids, n0, g.norm, pass, sid + 1, 0)
    ensures if pass == 2 then NHeld(z, g.dram, i, row + sid + 1, 0) else NHeld(z, g.dram, i, row, 0)
  {
    hide RowReady, DramFrame, CApart, NHeld, Pass, Passes, NormRows, Call.Accepted, Call.CRow, Distinct, Touched, Load,
         OutRows, RowsOut, RowAddr, Final, FinalRow, NormStep, StatOf, BankAt, Shown;
    hide StoredTo;
    g.ConfigStat(sid);
    var r := row + sid;
    for jj := 0 to p.J
      invariant Passing(g, z, p, i) && g.statId == sid && Slots(z, i, row, ids, n0, g.norm, pass, sid, jj)
      invariant if pass == 2 then NHeld(z, g.dram, i, r, jj) else NHeld(z, g.dram, i, row, 0)
    {
      ghost var n, d := g.norm, g.dram;
      var cmd := Cmd(p.act, pass, jj + 1 == p.J);
      RowBounds(z, i, jj, r, cmd);
      RowDistinct(z, i, jj, r, z.cfg.storeStride);
      SlotStep(z, g.acc, n[sid], i, jj, r, pass);
      g.Mvout(p.CAddr(i, jj) + r * (p.strideC * Size(p.fullC)), Source(true, p.fullC, cmd, p.CRow(i, jj, r)), 1,
              p.ColsOf(jj));
      RowAddrHere(z, i, jj, r);
      RowFrame(z, d, g.dram, i, jj, r, z.cfg.storeStride);
      SlotsStep(z, i, row, ids, n0, n, g.norm, pass, sid, jj);
      if pass == 2 {
        SlotStats(z, i, row, n0, sid, jj);
        SlotNow(z, i, row, ids, n0, n, sid, jj);
        WriteStep(z, g.spad, g.acc, n[sid], d, g.dram, i, jj, r, z.cfg.storeStride);
      }
    }
    SlotsEnd(z, i, row, ids, n0, g.norm, pass, sid);
    if pass == 2 { RowWritten(z, g.dram, i, r); }
  }

  lemma RowAddrHere(z: Start, i: int, j: int, r: int)
    requires z.p.Norms()
    ensures RowAddr(z, i, j, r) == z.p.CAddr(i, j) + r * (z.p.strideC * Size(z.p.fullC))
  {
  }

  lemma RowBounds(z: Start, i: int, j: int, r: int, cmd: NormCmd)
    requires Ready(z) && z.p.Norms() && 0 <= i < z.p.I && 0 <= j < z.p.J && 0 <= r < z.p.RowsOf(i)
    ensures 0 <= z.p.CRow(i, j, r) && z.p.ColsOf(j) <= DIM
    ensures OutRows(RowSource(z, i, j, r, cmd), 1, z.p.ColsOf(j))
  {
    hide Call.CRow, Call.Accepted;
    CRange(z.p, i, j);
    CApartRows(z.p, i, j);
    if z.p.ColsOf(j) > 0 { DivUnique(z.p.ColsOf(j) - 1, DIM, 0, z.p.ColsOf(j) - 1); }
  }

  lemma SlotsStep(z: Start, i: int, row: int, ids: int, n0: NormBank, n: NormBank, n': NormBank, pass: nat, sid: int,
                  jj: nat)
    requires z.p.Padded() && 0 <= sid < ids <= NORM_STAT_IDS && jj < z.p.J
    requires Slots(z, i, row, ids, n0, n, pass, sid, jj)
    requires n' == n[sid := Shown(z, n[sid], i, jj, row + sid, pass)]
    ensures Slots(z, i, row, ids, n0, n', pass, sid, jj + 1)
  {
    hide NormStep, Final, Passes;
    forall t | 0 <= t < NORM_STAT_IDS
      ensures n'[t] == if t < ids then SlotAt(z, i, row, n0[t], t, pass, sid, jj + 1) else n0[t]
    {
      assert n[t] == if t < ids then SlotAt(z, i, row, n0[t], t, pass, sid, jj) else n0[t];
    }
  }

  lemma SlotNow(z: Start, i: int, row: int, ids: int, n0: NormBank, n: NormBank, sid: int, jj: nat)
    requires z.p.Padded() && 0 <= sid < ids <= NORM_STAT_IDS && Slots(z, i, row, ids, n0, n, 2, sid, jj)
    ensures n[sid]
            == Pass(Passes(n0[sid], SlotRow(z, i, row, sid), z.p.act, z.cfg.consts, 2), SlotRow(z, i, row, sid),
                    z.p.act, z.cfg.consts, 2, jj)
  {
    hide Pass, Passes, FinalRow;
    assert n[sid] == SlotAt(z, i, row, n0[sid], sid, 2, sid, jj);
  }

  lemma SlotsEnd(z: Start, i: int, row: int, ids: int, n0: NormBank, n: NormBank, pass: nat, sid: int)
    requires z.p.Padded() && Slots(z, i, row, ids, n0, n, pass, sid, z.p.J)
    ensures Slots(z, i, row, ids, n0, n, pass, sid + 1, 0)
  {
    hide Final, Pass;
    forall t | 0 <= t < NORM_STAT_IDS
      ensures n[t] == if t < ids then SlotAt(z, i, row, n0[t], t, pass, sid + 1, 0) else n0[t]
    {
      assert n[t] == if t < ids then SlotAt(z, i, row, n0[t], t, pass, sid, z.p.J) else n0[t];
      PassStart(z, i, row, n0[t], t, pass);
    }
  }

  lemma PassStart(z: Start, i: int, row: int, n0: NormStat, t: int, pass: nat)
    requires z.p.Padded()
    ensures Pass(Passes(n0, SlotRow(z, i, row, t), z.p.act, z.cfg.consts, pass), SlotRow(z, i, row, t), z.p.act,
                 z.cfg.consts, pass, 0)
            == Passes(n0, SlotRow(z, i, row, t), z.p.act, z.cfg.consts, pass)
  {
  }

  lemma RowWritten(z: Start, d: Memory, i: int, r: int)
    requires z.p.Padded() && NHeld(z, d, i, r, z.p.J)
    ensures NHeld(z, d, i, r + 1, 0)
  {
    hide LoadOut, CByteAddr, OutValue, StatOf, Final;
  }

  lemma SlotsNextPass(z: Start, i: int, row: int, ids: int, n0: NormBank, n: NormBank, pass: nat)
    requires z.p.Padded() && Slots(z, i, row, ids, n0, n, pass, ids, 0)
    ensures Slots(z, i, row, ids, n0, n, pass + 1, 0, 0)
  {
    hide Pass, Passes, FinalRow;
    forall t | 0 <= t < NORM_STAT_IDS
      ensures n[t] == if t < ids then SlotAt(z, i, row, n0[t], t, pass + 1, 0, 0) else n0[t]
    {
      assert n[t] == if t < ids then SlotAt(z, i, row, n0[t], t, pass, ids, 0) else n0[t];
      PassStart(z, i, row, n0[t], t, pass + 1);
    }
  }

  lemma SlotsStart(z: Start, i: int, row: int, ids: int, n0: NormBank)
    requires z.p.Padded()
    ensures Slots(z, i, row, ids, n0, n0, 0, 0, 0)
  {
  }

  /** After the write pass the slots are where the group's rows leave them. */
  lemma GroupDone(z: Start, i: nat, row: nat, ids: nat, n0: NormBank, n: NormBank)
    requires z.p.Padded() && row % NORM_STAT_IDS == 0 && n0 == BankAt(z, i, row / NORM_STAT_IDS)
    requires ids == if z.p.RowsOf(i) - row > NORM_STAT_IDS then NORM_STAT_IDS else z.p.RowsOf(i) - row
    requires Slots(z, i, row, ids, n0, n, 3, 0, 0)
    ensures n == BankAt(z, i, row / NORM_STAT_IDS + 1)
  {
    hide Pass, Passes, Final, FinalRow;
    var q := row / NORM_STAT_IDS;
    var after := AfterGroup(z, n0, i, q);
    forall t | 0 <= t < NORM_STAT_IDS ensures n[t] == after[t] {
      assert n[t] == if t < ids then SlotAt(z, i, row, n0[t], t, 3, 0, 0) else n0[t];
      PassStart(z, i, row, n0[t], t, 3);
      assert q * NORM_STAT_IDS + t == row + t;
    }
    assert BankAt(z, i, q + 1) == after;
  }

  lemma {:induction false} BankReset(z: Start, i: nat, q: nat)
    requires z.p.Padded() && AllReset(z.norm)
    ensures AllReset(BankAt(z, i, q))
    decreases i, q
  {
    hide Passes, FinalRow;
    if q > 0 {
      BankReset(z, i, q - 1);
      var n := BankAt(z, i, q - 1);
      forall t | 0 <= t < NORM_STAT_IDS ensures BankAt(z, i, q)[t].reset {
        PassesReset(n[t], FinalRow(z, i, (q - 1) * NORM_STAT_IDS + t), z.p.act, z.cfg.consts);
      }
    } else if i > 0 {
      BankReset(z, i - 1, GroupsOf(z.p, i - 1));
    }
  }

  /** Started from reset slots, and with a column left in the last block, every row is written under its own statistics:
      those of the row alone, whatever rows its slot had before. */
  lemma OwnStatistics(z: Start, i: nat, m: nat, v: Acc)
    requires z.p.Padded() && z.p.Norms() && z.cfg.accAct == z.p.act && z.p.padJ < DIM && 0 < z.p.J && AllReset(z.norm)
    ensures OutValue(z.cfg, StatOf(z, i, m), z.p.fullC, v)
            == OutValue(z.cfg, Ideal(FinalRow(z, i, m), z.p.act, z.cfg.consts), z.p.fullC, v)
  {
    hide BankAt, Passes, OutValue, Ideal, Mean, RowInvStddev, RowMax, RowInvSumExp, Final;
    var n := BankAt(z, i, m / NORM_STAT_IDS);
    BankReset(z, i, m / NORM_STAT_IDS);
    FinalRowInRange(z, i, m);
    TwoPasses(n[m % NORM_STAT_IDS], FinalRow(z, i, m), z.p.act, z.cfg.consts);
    IdealOutputs(z.cfg, StatOf(z, i, m), FinalRow(z, i, m), z.p.fullC, v);
  }

  /** Normalise and store up to four rows, their passes interleaved. */
  method RowGroup(g: Gemmini, ghost z: Start, p: Call, i: nat, row: nat, ids: nat)
    requires Passing(g, z, p, i) && row < p.RowsOf(i) && row % NORM_STAT_IDS == 0 && NHeld(z, g.dram, i, row, 0)
    requires ids == if p.RowsOf(i) - row > NORM_STAT_IDS then NORM_STAT_IDS else p.RowsOf(i) - row
    requires g.norm == BankAt(z, i, row / NORM_STAT_IDS)
    modifies g`statId, g`norm, g`dram
    ensures Passing(g, z, p, i) && g.norm == BankAt(z, i, row / NORM_STAT_IDS + 1) && NHeld(z, g.dram, i, row + ids, 0)
  {
    hide Passing, NHeld, Slots, BankAt;
    assert z.p.Padded() && p == z.p && 0 < p.J by { PassingFacts(g, z, p, i); }
    ghost var n0 := g.norm;
    SlotsStart(z, i, row, ids, n0);
    for pass := 0 to 3
      invariant Passing(g, z, p, i) && Slots(z, i, row, ids, n0, g.norm, pass, 0, 0)
      invariant if pass == 3 then NHeld(z, g.dram, i, row + ids, 0) else NHeld(z, g.dram, i, row, 0)
    {
      for sid := 0 to ids
        invariant Passing(g, z, p, i) && Slots(z, i, row, ids, n0, g.norm, pass, sid, 0)
        invariant if pass == 2 then NHeld(z, g.dram, i, row + sid, 0) else NHeld(z, g.dram, i, row, 0)
      {
        RowPass(g, z, p, i, row, ids, pass, sid, n0);
      }
      SlotsNextPass(z, i, row, ids, n0, g.norm, pass);
    }
    GroupDone(z, i, row, ids, n0, g.norm);
  }

  lemma PassingFacts(g: Gemmini, z: Start, p: Call, i: int)
    requires Passing(g, z, p, i)
    ensures z.p.Padded() && p == z.p && 0 < p.J && 0 <= i < p.I
  {
  }

  lemma NextBlockRow(z: Start, i: nat)
    requires z.p.Padded()
    ensures BankAt(z, i + 1, 0) == BankAt(z, i, GroupsOf(z.p, i))
  {
  }

  lemma NextGroup(row: nat, ids: nat, rows: nat)
    requires row < rows && row % NORM_STAT_IDS == 0
    requires ids == if rows - row > NORM_STAT_IDS then NORM_STAT_IDS else rows - row
    ensures (row + NORM_STAT_IDS - 1) / NORM_STAT_IDS == row / NORM_STAT_IDS
    ensures (row + ids + NORM_STAT_IDS - 1) / NORM_STAT_IDS == row / NORM_STAT_IDS + 1
    ensures (row + ids) % NORM_STAT_IDS == 0 || row + ids == rows
  {
  }

  /** Normalise and store block row i, four rows at a time. */
  method StoreNormalised(g: Gemmini, ghost z: Start, p: Call, i: nat)
    requires Passing(g, z, p, i) && g.norm == BankAt(z, i, 0) && NHeld(z, g.dram, i, 0, 0)
    modifies g`statId, g`norm, g`dram
    ensures Passing(g, z, p, i) && g.norm == BankAt(z, i + 1, 0) && NHeld(z, g.dram, i, p.RowsOf(i), 0)
  {
    PassingFacts(g, z, p, i);
    hide Passing, NHeld, BankAt;
    var rows := p.RowsOf(i);
    var row := 0;
    ghost var q := 0;
    while row < rows
      invariant 0 <= row <= rows && (row % NORM_STAT_IDS == 0 || row == rows)
      invariant Passing(g, z, p, i) && NHeld(z, g.dram, i, row, 0)
      invariant q == (row + NORM_STAT_IDS - 1) / NORM_STAT_IDS && g.norm == BankAt(z, i, q)
    {
      var ids := if rows - row > NORM_STAT_IDS then NORM_STAT_IDS else rows - row;
      NextGroup(row, ids, rows);
      RowGroup(g, z, p, i, row, ids);
      row := row + ids;
      q := q + 1;
    }
    NextBlockRow(z, i);
  }

  /** The loop invariant on C before and after block row i is stored. */
  lemma NHeldIsCHeld(z: Start, d: Memory, i: int)
    requires z.p.Padded() && z.p.Norms() && z.p.K > 0 && 0 <= i < z.p.I && z.p.C != 0
    ensures CHeld(z, d, z.p.K - 1, z.p.J - 1, i) ==> NHeld(z, d, i, 0, 0)
    ensures NHeld(z, d, i, z.p.RowsOf(i), 0) ==> CHeld(z, d, z.p.K - 1, z.p.J - 1, i + 1)
  {
    hide LoadOut, CByteAddr, OutValue, StatOf, Final;
  }
}
