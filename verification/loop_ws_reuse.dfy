/** A null operand address in loop_ws: the operand an earlier call left resident, as if it were loaded again. */
module LoopWsReuse {
  import opened Params
  import opened Wrap
  import opened Sums
  import opened Dram
  import opened Grid
  import opened State
  import opened NormPass
  import opened Tiles
  import opened Machine
  import opened LoopWsSpec
  import opened LoopWsLayout
  import opened LoopWsSteps
  import opened LoopWs
  import opened LoopWsMatrix

  /** q reads A blocks of the same shape from the same scratchpad rows as p left them in. */
  predicate SameA(p: Call, q: Call) {
    && p.I == q.I && p.K == q.K && p.padI == q.padI && p.padK == q.padK && p.aT == q.aT
    && (p.aId == 2) == (q.aId == 2)
  }

  predicate SameB(p: Call, q: Call) {
    && p.J == q.J && p.K == q.K && p.padJ == q.padJ && p.padK == q.padK && p.bT == q.bT
    && (p.bId == 2) == (q.bId == 2)
  }

  /** The bytes a call read its operands from hold what they held. */
  ghost predicate AStill(z: Start, d: Memory)
    requires z.p.Padded()
  {
    forall i, k, r, c :: z.p.InA(i, k) && 0 <= r < z.p.ARows(i, k) && 0 <= c < z.p.ACols(i, k) ==>
      Load(d, AByte(z, i, k, r, c)) == Load(z.d, AByte(z, i, k, r, c))
  }

  ghost predicate BStill(z: Start, d: Memory)
    requires z.p.Padded()
  {
    forall k, j, r, c :: z.p.InB(k, j) && 0 <= r < z.p.BRows(k, j) && 0 <= c < z.p.BCols(k, j) ==>
      Load(d, BByte(z, k, j, r, c)) == Load(z.d, BByte(z, k, j, r, c))
  }

  /** A completed call does not write its own operands. */
  lemma OperandsStill(z: Start, s: Spad, m: AccMem, d: Memory)
    requires z.p.Padded() && (z.p.K > 0 ==> Depth(z.p) >= 0) && CApart(z) && Completed(z, s, m, d)
    ensures (z.p.A != 0 ==> AStill(z, d)) && (z.p.B != 0 ==> BStill(z, d))
  {
    hide At, Load, AByte, BByte, InCBytes, Product, Wrap32, AHeld, BHeld, SpadFrame, AccFrame, Apart, CByteAddr, Depth;
    if z.p.C != 0 { OutsideKept(z, s, m, d); }
  }

  lemma OutsideKept(z: Start, s: Spad, m: AccMem, d: Memory)
    requires z.p.Padded() && (z.p.K > 0 ==> Depth(z.p) >= 0) && Completed(z, s, m, d)
    ensures forall x :: !InCBytes(z, x) ==> Load(d, x) == Load(z.d, x)
  {
    hide At, Load, InCBytes, Product, Wrap32, AHeld, BHeld, SpadFrame, AccFrame, CByteAddr, Depth;
  }

  /** z finds resident the A that za loaded, and A is still in main memory too. */
  ghost predicate LeftA(za: Start, z: Start)
    requires z.p.Padded()
  {
    && za.p.Padded() && SameA(za.p, z.p) && za.p.A != 0 && za.p.J > 0 && za.cfg.load0 == z.cfg.load0
    && AHeld(za, z.s, za.p.K, 0, 0) && AStill(za, z.d)
  }

  ghost predicate LeftB(zb: Start, z: Start)
    requires z.p.Padded()
  {
    && zb.p.Padded() && SameB(zb.p, z.p) && zb.p.B != 0 && zb.p.I > 0 && zb.cfg.load1 == z.cfg.load1
    && BHeld(zb, z.s, zb.p.K, 0, 0) && BStill(zb, z.d)
  }

  /** The scratchpad rows a call may change. */
  predicate Loads(p: Call, R: int) {
    (p.A != 0 && p.InARows(R)) || (p.B != 0 && p.InBRows(R))
  }

  /** Any call leaves resident what its own loads do not cover. */
  lemma StaysResident(zr: Start, z: Start, s: Spad, m: AccMem, d: Memory)
    requires zr.p.Padded() && zr.p.Accepted() && z.p.Padded()
    requires (z.p.K > 0 ==> Depth(z.p) >= 0) && Completed(z, s, m, d)
    ensures AHeld(zr, z.s, zr.p.K, 0, 0) && (forall R :: zr.p.InARows(R) ==> !Loads(z.p, R)) ==>
              AHeld(zr, s, zr.p.K, 0, 0)
    ensures BHeld(zr, z.s, zr.p.K, 0, 0) && (forall R :: zr.p.InBRows(R) ==> !Loads(z.p, R)) ==>
              BHeld(zr, s, zr.p.K, 0, 0)
  {
    hide Completed, At, AElem, BElem, Call.ARow, Call.BRow, Call.InARows, Call.InBRows, Call.Accepted;
    assert SpadFrame(z, s) by { FrameOf(z, s, m, d); }
    forall i, k, r | zr.p.InA(i, k) && 0 <= r < DIM ensures zr.p.InARows(zr.p.ARow(i, k, r)) {
      ARange(zr.p, i, k, r);
      RowOfA(zr.p, zr.p.ARow(i, k, r));
    }
    forall k, j, r | zr.p.InB(k, j) && 0 <= r < DIM ensures zr.p.InBRows(zr.p.BRow(k, j, r)) {
      BRange(zr.p, k, j, r);
      RowOfB(zr.p, zr.p.BRow(k, j, r));
    }
  }

  lemma FrameOf(z: Start, s: Spad, m: AccMem, d: Memory)
    requires z.p.Padded() && (z.p.K > 0 ==> Depth(z.p) >= 0) && Completed(z, s, m, d)
    ensures SpadFrame(z, s)
  {
    hide SpadFrame, AHeld, BHeld, AccFrame, DramFrame, At, Product, OutValue, LoadOut, Wrap32, Depth;
  }

  lemma RowOfA(p: Call, R: int)
    requires p.AStart() <= R < p.AStart() + p.ASize()
    ensures p.InARows(R)
  {
  }

  lemma RowOfB(p: Call, R: int)
    requires p.BStart() <= R < p.BStart() + p.BSize()
    ensures p.InBRows(R)
  {
  }

  /** Operand regions are apart when they lie in different halves, or in one half that has room for both. */
  lemma ApartLoads(p: Call, q: Call, R: int)
    requires p.Accepted() && q.Accepted() && Loads(q, R)
    ensures var a := (q.A == 0 || (p.aId == 2) != (q.aId == 2));
            var b := (q.B == 0 || (p.aId == 2) != (q.bId == 2) || p.ASize() + q.BSize() <= SPAD_ROWS / 2);
            a && b ==> !p.InARows(R)
    ensures var b := (q.B == 0 || (p.bId == 2) != (q.bId == 2));
            var a := (q.A == 0 || (p.bId == 2) != (q.aId == 2) || q.ASize() + p.BSize() <= SPAD_ROWS / 2);
            a && b ==> !p.InBRows(R)
  {
    hide Call.ASize, Call.BSize, Call.Accepted;
    HalfSizes(p);
    HalfSizes(q);
  }

  /** So a call that names no A leaves the resident one where it is, and likewise for B. */
  lemma NullKeeps(zr: Start, z: Start, s: Spad, m: AccMem, d: Memory)
    requires zr.p.Padded() && zr.p.Accepted() && z.p.Padded() && z.p.Accepted()
    requires (z.p.K > 0 ==> Depth(z.p) >= 0) && Completed(z, s, m, d)
    ensures z.p.A == 0 && SameA(zr.p, z.p) && AHeld(zr, z.s, zr.p.K, 0, 0) ==> AHeld(zr, s, zr.p.K, 0, 0)
    ensures z.p.B == 0 && SameB(zr.p, z.p) && BHeld(zr, z.s, zr.p.K, 0, 0) ==> BHeld(zr, s, zr.p.K, 0, 0)
  {
    hide Completed, AHeld, BHeld, Call.ASize, Call.BSize, Call.Accepted, Depth, Loads;
    HalfSizes(z.p);
    if z.p.A == 0 && SameA(zr.p, z.p) {
      SameSizes(zr.p, z.p);
      forall R | Loads(z.p, R) ensures !zr.p.InARows(R) { ApartLoads(zr.p, z.p, R); }
    }
    if z.p.B == 0 && SameB(zr.p, z.p) {
      SameSizes(zr.p, z.p);
      forall R | Loads(z.p, R) ensures !zr.p.InBRows(R) { ApartLoads(zr.p, z.p, R); }
    }
    StaysResident(zr, z, s, m, d);
  }

  lemma SameSizes(p: Call, q: Call)
    ensures SameA(p, q) ==> p.ASize() == q.ASize()
    ensures SameB(p, q) ==> p.BSize() == q.BSize()
  {
  }

  /** The call that loads again whatever z found resident. */
  function Reload(za: Start, zb: Start, z: Start): (r: Start)
    ensures r.p.Padded() == z.p.Padded() && r == z.(p := r.p)
    ensures r.p == z.p.(A := r.p.A, strideA := r.p.strideA, B := r.p.B, strideB := r.p.strideB)
  {
    var a := if z.p.A == 0 then z.p.(A := za.p.A, strideA := za.p.strideA) else z.p;
    z.(p := if z.p.B == 0 then a.(B := zb.p.B, strideB := zb.p.strideB) else a)
  }

  ghost predicate Left(za: Start, zb: Start, z: Start)
    requires z.p.Padded()
  {
    (z.p.A == 0 ==> LeftA(za, z)) && (z.p.B == 0 ==> LeftB(zb, z))
  }

  lemma AddrA(za: Start, zb: Start, z: Start, i: int, k: int, r: int)
    requires SameA(za.p, z.p) && z.p.A == 0
    ensures Reload(za, zb, z).p.AAddr(i, k) == za.p.AAddr(i, k) && z.p.ARow(i, k, r) == za.p.ARow(i, k, r)
  {
  }

  lemma AddrB(za: Start, zb: Start, z: Start, k: int, j: int, r: int)
    requires SameB(zb.p, z.p) && z.p.B == 0
    ensures Reload(za, zb, z).p.BAddr(k, j) == zb.p.BAddr(k, j) && z.p.BRow(k, j, r) == zb.p.BRow(k, j, r)
  {
  }

  lemma ReloadedElemA(za: Start, zb: Start, z: Start, i: int, k: int, r: int, c: int)
    requires z.p.Padded() && LeftA(za, z) && z.p.A == 0
    requires z.p.InA(i, k) && 0 <= r < z.p.ARows(i, k) && 0 <= c < z.p.ACols(i, k)
    ensures AElem(Reload(za, zb, z), i, k, r, c) == AElem(z, i, k, r, c)
  {
    hide At, SpadIn, TileRow, Load, Call.AAddr, Call.ARow;
    AddrA(za, zb, z, i, k, r);
    assert At(z.s, za.p.ARow(i, k, r), c) == AElem(za, i, k, r, c);
    assert Load(z.d, AByte(za, i, k, r, c)) == Load(za.d, AByte(za, i, k, r, c));
    SameByte(z.d, za.d, z.cfg.load0, za.p.AAddr(i, k), r, c);
  }

  lemma ReloadedElemB(za: Start, zb: Start, z: Start, k: int, j: int, r: int, c: int)
    requires z.p.Padded() && LeftB(zb, z) && z.p.B == 0
    requires z.p.InB(k, j) && 0 <= r < z.p.BRows(k, j) && 0 <= c < z.p.BCols(k, j)
    ensures BElem(Reload(za, zb, z), k, j, r, c) == BElem(z, k, j, r, c)
  {
    hide At, SpadIn, TileRow, Load, Call.BAddr, Call.BRow;
    AddrB(za, zb, z, k, j, r);
    assert At(z.s, zb.p.BRow(k, j, r), c) == BElem(zb, k, j, r, c);
    assert Load(z.d, BByte(zb, k, j, r, c)) == Load(zb.d, BByte(zb, k, j, r, c));
    SameByte(z.d, zb.d, z.cfg.load1, zb.p.BAddr(k, j), r, c);
  }

  /** An operand the call names itself is not affected by the other one's reloading. */
  lemma NamedElems(za: Start, zb: Start, z: Start, x: int, y: int, r: int, c: int)
    ensures z.p.A != 0 ==> AElem(Reload(za, zb, z), x, y, r, c) == AElem(z, x, y, r, c)
    ensures z.p.B != 0 ==> BElem(Reload(za, zb, z), x, y, r, c) == BElem(z, x, y, r, c)
  {
    hide SpadIn, At, TileRow;
  }

  lemma ReloadedA(za: Start, zb: Start, z: Start, i: int, k: int, m: int, x: int)
    requires z.p.Padded() && Left(za, zb, z) && z.p.InA(i, k) && 0 <= m && 0 <= x
    ensures APad(Reload(za, zb, z), i, k, m, x) == APad(z, i, k, m, x)
  {
    hide AElem, LeftA, LeftB;
    if m < z.p.RowsOf(i) && x < z.p.DepthOf(k) {
      var r, c := if z.p.aT then x else m, if z.p.aT then m else x;
      if z.p.A == 0 { ReloadedElemA(za, zb, z, i, k, r, c); } else { NamedElems(za, zb, z, i, k, r, c); }
    }
  }

  lemma ReloadedB(za: Start, zb: Start, z: Start, k: int, j: int, x: int, n: int)
    requires z.p.Padded() && Left(za, zb, z) && z.p.InB(k, j) && 0 <= x && 0 <= n
    ensures BPad(Reload(za, zb, z), k, j, x, n) == BPad(z, k, j, x, n)
  {
    hide BElem, LeftA, LeftB;
    if x < z.p.DepthOf(k) && n < z.p.ColsOf(j) {
      var r, c := if z.p.bT then n else x, if z.p.bT then x else n;
      if z.p.B == 0 { ReloadedElemB(za, zb, z, k, j, r, c); } else { NamedElems(za, zb, z, k, j, r, c); }
    }
  }

  /** Reusing a resident operand computes the product with that operand loaded again. */
  lemma ReuseIsReload(za: Start, zb: Start, z: Start, i: int, j: int, m: int, n: int)
    requires z.p.Padded() && Depth(z.p) >= 0 && Left(za, zb, z) && z.p.InC(i, j, m, n)
    ensures Product(Reload(za, zb, z), i, j, m, n) == Product(z, i, j, m, n)
  {
    hide APad, BPad, Left, Sum;
    var z' := Reload(za, zb, z);
    var f, g := ProductTerms(z', i, j, m, n), ProductTerms(z, i, j, m, n);
    forall x | 0 <= x < Depth(z.p) ensures f(x) == g(x) {
      DepthIndex(z.p, x);
      ReloadedA(za, zb, z, i, x / DIM, m, x % DIM);
      ReloadedB(za, zb, z, x / DIM, j, x % DIM, n);
    }
    SumSame(Depth(z.p), f, g);
    SameInitial(za, zb, z, i, j, m, n);
  }

  lemma SameInitial(za: Start, zb: Start, z: Start, i: int, j: int, m: int, n: int)
    ensures Initial(Reload(za, zb, z), i, j, m, n) == Initial(z, i, j, m, n)
  {
    hide At, AccIn;
  }

  // Normalised outputs depend on the whole row.

  lemma SameFinal(za: Start, zb: Start, z: Start, i: int, j: int, m: int, n: int)
    requires z.p.Padded() && z.p.K > 0 && Left(za, zb, z) && z.p.InC(i, j, m, n)
    ensures Final(Reload(za, zb, z), i, j, m, n) == Final(z, i, j, m, n)
  {
    hide Final, Product, Left, Wrap32;
    FinalIsProduct(z, i, j, m, n);
    FinalIsProduct(Reload(za, zb, z), i, j, m, n);
    ReuseIsReload(za, zb, z, i, j, m, n);
  }

  lemma SameRow(za: Start, zb: Start, z: Start, s: NormStat, i: int, m: int, n: nat)
    requires z.p.Padded() && z.p.K > 0 && Left(za, zb, z) && 0 <= i < z.p.I && 0 <= m < z.p.RowsOf(i)
    ensures Passes(s, FinalRow(Reload(za, zb, z), i, m), z.p.act, z.cfg.consts, n)
            == Passes(s, FinalRow(z, i, m), z.p.act, z.cfg.consts, n)
  {
    hide Final, Left, Reload, Row.Pos, Pass, Passes;
    var z' := Reload(za, zb, z);
    SameParts(za, zb, z);
    var w, w' := FinalRow(z, i, m), FinalRow(z', i, m);
    forall t, c | 0 <= t < w.J && 0 <= c < w.Len(t) ensures w.b(t)(c) == w'.b(t)(c) {
      SameFinal(za, zb, z, i, t, m, c);
    }
    PassesSame(s, w, w', z.p.act, z.cfg.consts, n);
  }

  lemma {:induction false} SameBank(za: Start, zb: Start, z: Start, i: nat, q: nat)
    requires z.p.Padded() && z.p.K > 0 && Left(za, zb, z) && i <= z.p.I && (q > 0 ==> i < z.p.I)
    ensures BankAt(Reload(za, zb, z), i, q) == BankAt(z, i, q)
    decreases i, q
  {
    hide Final, FinalRow, Left, Reload, Passes;
    var z' := Reload(za, zb, z);
    SameParts(za, zb, z);
    if q > 0 {
      SameBank(za, zb, z, i, q - 1);
      var n := BankAt(z, i, q - 1);
      forall t | 0 <= t < NORM_STAT_IDS ensures BankAt(z', i, q)[t] == BankAt(z, i, q)[t] {
        var m := (q - 1) * NORM_STAT_IDS + t;
        if m < z.p.RowsOf(i) { SameRow(za, zb, z, n[t], i, m, 3); }
      }
    } else if i > 0 {
      SameBank(za, zb, z, i - 1, GroupsOf(z.p, i - 1));
    }
  }

  lemma SameStat(za: Start, zb: Start, z: Start, i: int, m: int)
    requires z.p.Padded() && z.p.K > 0 && Left(za, zb, z) && 0 <= i < z.p.I && 0 <= m < z.p.RowsOf(i)
    ensures StatOf(Reload(za, zb, z), i, m) == StatOf(z, i, m)
  {
    hide FinalRow, Left, Reload, BankAt, Passes;
    SameParts(za, zb, z);
    SameBank(za, zb, z, i, m / NORM_STAT_IDS);
    SameRow(za, zb, z, BankAt(z, i, m / NORM_STAT_IDS)[m % NORM_STAT_IDS], i, m, 2);
  }

  lemma SameParts(za: Start, zb: Start, z: Start)
    requires z.p.Padded()
    ensures var z' := Reload(za, zb, z);
            && z'.p.Padded() && z'.p.act == z.p.act && z'.p.J == z.p.J && z'.p.padJ == z.p.padJ && z'.p.I == z.p.I
            && z'.p.padI == z.p.padI && z'.cfg == z.cfg && z'.norm == z.norm && z'.id == z.id
  {
    hide Call.Padded, Reload;
  }

  /** With null addresses for A, for B or for both, a call leaves the accumulator and the C that reloading them
      would. */
  lemma NullIsReload(za: Start, zb: Start, z: Start, s: Spad, m: AccMem, d: Memory, s': Spad, m': AccMem, d': Memory,
                     i: int, j: int, r: int, c: int)
    requires z.p.Padded() && z.p.K > 0 && Depth(z.p) >= 0 && Left(za, zb, z) && z.p.InC(i, j, r, c)
    requires Completed(z, s, m, d) && Completed(Reload(za, zb, z), s', m', d')
    ensures At(m, z.p.CRow(i, j, r), c) == At(m', z.p.CRow(i, j, r), c)
    ensures z.p.C != 0 ==>
              LoadOut(d, z.p.fullC, CByteAddr(z, i, j, r, c)) == LoadOut(d', z.p.fullC, CByteAddr(z, i, j, r, c))
  {
    hide Left, At, Product, StatOf, OutValue, LoadOut, Wrap32, Completed, Call.CRow, CByteAddr, Reload, Call.InC, Depth;
    ReuseIsReload(za, zb, z, i, j, r, c);
    SameStat(za, zb, z, i, r) by { InBlock(z.p, i, j, r, c); }
    SameShape(za, zb, z, i, j, r, c);
    CompletedCell(z, s, m, d, i, j, r, c);
    CompletedCell(Reload(za, zb, z), s', m', d', i, j, r, c);
  }

  lemma InBlock(p: Call, i: int, j: int, m: int, n: int)
    requires p.Padded() && p.InC(i, j, m, n)
    ensures 0 <= i < p.I && 0 <= m < p.RowsOf(i)
  {
  }

  lemma SameShape(za: Start, zb: Start, z: Start, i: int, j: int, m: int, n: int)
    requires z.p.Padded()
    ensures var z' := Reload(za, zb, z);
            && CByteAddr(z', i, j, m, n) == CByteAddr(z, i, j, m, n) && z'.p.CRow(i, j, m) == z.p.CRow(i, j, m)
            && z'.p.InC(i, j, m, n) == z.p.InC(i, j, m, n) && Depth(z'.p) == Depth(z.p)
            && z'.p.K == z.p.K && z'.p.C == z.p.C && z'.p.fullC == z.p.fullC
  {
  }

  lemma CompletedCell(z: Start, s: Spad, m: AccMem, d: Memory, i: int, j: int, r: int, c: int)
    requires z.p.Padded() && z.p.K > 0 && Depth(z.p) >= 0 && Completed(z, s, m, d) && z.p.InC(i, j, r, c)
    ensures At(m, z.p.CRow(i, j, r), c) == Wrap32(Product(z, i, j, r, c))
    ensures z.p.C != 0 ==> LoadOut(d, z.p.fullC, CByteAddr(z, i, j, r, c)) ==
                           OutValue(z.cfg, StatOf(z, i, r), z.p.fullC, Wrap32(Product(z, i, j, r, c)))
  {
    hide At, Product, StatOf, OutValue, LoadOut, Wrap32, AHeld, BHeld, SpadFrame, AccFrame, DramFrame, Call.CRow,
         CByteAddr, Depth;
  }

  /** Two calls in a row: what the first one loaded is there for the second. */
  lemma LeftByPrevious(za: Start, s: Spad, m: AccMem, d: Memory, z: Start)
    requires za.p.Padded() && z.p.Padded() && (za.p.K > 0 ==> Depth(za.p) >= 0) && CApart(za) && Completed(za, s, m, d)
    requires z.s == s && z.d == d && z.cfg == za.cfg
    ensures SameA(za.p, z.p) && za.p.A != 0 && za.p.J > 0 ==> LeftA(za, z)
    ensures SameB(za.p, z.p) && za.p.B != 0 && za.p.I > 0 ==> LeftB(za, z)
  {
    hide At, Product, AHeld, BHeld, AStill, BStill, CApart, SpadFrame, AccFrame, DramFrame, OutValue, LoadOut;
    OperandsStill(za, s, m, d);
  }
}
