/** tiled_matmul_outer: its loop_ws calls together leave what one call on the whole matrices would. */
module TiledMatmul {
  import opened Params
  import opened Wrap
  import opened Sums
  import opened Dram
  import opened Grid
  import opened State
  import opened Patches
  import opened NormPass
  import opened Tiles
  import opened Machine
  import opened LoopWsSpec
  import opened LoopWs
  import opened LoopWsMatrix
  import opened Tiling
  import LoopWsLayout
  import LoopWsSteps
  import LoopWsReuse
  import LoopWsNorm

  /** z is where call (i0, j0, k0) of the product Z starts. */
  ghost predicate CallOf(job: Job, Z: Start, z: Start, i0: nat, j0: nat, k0: nat) {
    && InTiles(job, i0, j0, k0) && Z.p == job.Whole() && z.p == job.CallAt(i0, j0, k0) && z.cfg == Z.cfg
    && z.p.Padded() && Z.p.Padded()
  }

  // Main memory: tiles are stored one after the other.

  /** Byte x belongs to a C tile that comes before (i0, j0). */
  ghost predicate Written(job: Job, Z: Start, i0: int, j0: int, x: int)
    requires Z.p.Padded()
  {
    exists bi, bj, m, n :: Z.p.InC(bi, bj, m, n) && Before(bi / job.tileI, bj / job.tileJ, i0, j0)
      && CByteAddr(Z, bi, bj, m, n) <= x < CByteAddr(Z, bi, bj, m, n) + Size(Z.p.fullC)
  }

  ghost predicate Kept(job: Job, Z: Start, d: Memory, i0: int, j0: int)
    requires Z.p.Padded()
  {
    forall x :: !Written(job, Z, i0, j0, x) ==> Load(d, x) == Load(Z.d, x)
  }

  lemma WrittenInC(job: Job, Z: Start, i0: int, j0: int, x: int)
    requires Z.p.Padded() && Written(job, Z, i0, j0, x)
    ensures InCBytes(Z, x)
  {
    hide CByteAddr;
  }

  /** Where the bias of element (m, n) of block (bi, bj) is read. */
  function DByte(Z: Start, bi: int, bj: int, m: int, n: int): int {
    Z.p.DAddr(bi, bj) + m * Z.cfg.load2.stride + n * Size(!Z.p.lowD)
  }

  /** No tile overwrites the bias of a later one; C may well be the buffer of D. */
  ghost predicate BiasSafe(job: Job, Z: Start)
    requires Z.p.Padded()
  {
    Z.p.D != 0 ==> forall bi, bj, m, n, x ::
      (Z.p.InC(bi, bj, m, n) && DByte(Z, bi, bj, m, n) <= x < DByte(Z, bi, bj, m, n) + Size(!Z.p.lowD)) ==>
        !Written(job, Z, bi / job.tileI, bj / job.tileJ, x)
  }

  // The scratchpad: tiles that are reused stay resident.

  ghost predicate ATileHeld(job: Job, Z: Start, s: Spad, i0: nat, k0: nat) {
    var p := job.CallAt(i0, 0, k0);
    p.Padded() && forall i, k, r, c :: p.InA(i, k) && 0 <= r < p.ARows(i, k) && 0 <= c < p.ACols(i, k) ==>
      At(s, p.ARow(i, k, r), c) == AElem(Z, BI(job, i0, i), BK(job, k0, k), r, c)
  }

  ghost predicate BTileHeld(job: Job, Z: Start, s: Spad, k0: nat, j0: nat) {
    var p := job.CallAt(0, j0, k0);
    p.Padded() && forall k, j, r, c :: p.InB(k, j) && 0 <= r < p.BRows(k, j) && 0 <= c < p.BCols(k, j) ==>
      At(s, p.BRow(k, j, r), c) == BElem(Z, BK(job, k0, k), BJ(job, j0, j), r, c)
  }

  /** What a call may rely on. */
  ghost predicate Given(job: Job, Z: Start, z: Start, i0: nat, j0: nat, k0: nat) {
    && CallOf(job, Z, z, i0, j0, k0) && job.A != 0 && job.B != 0 && job.C != 0 && CApart(Z) && BiasSafe(job, Z)
    && Matched(Z) && Kept(job, Z, z.d, i0, j0)
    && (z.p.A == 0 ==> ATileHeld(job, Z, z.s, i0, k0)) && (z.p.B == 0 ==> BTileHeld(job, Z, z.s, k0, j0))
  }

  lemma SameRowsA(job: Job, i0: nat, j0: nat, k0: nat, i: int, k: int, r: int)
    ensures var p, q := job.CallAt(i0, j0, k0), job.CallAt(i0, 0, k0);
            p.ARow(i, k, r) == q.ARow(i, k, r) && p.InA(i, k) == q.InA(i, k) && (p.Padded() && q.Padded() ==>
              p.ARows(i, k) == q.ARows(i, k) && p.ACols(i, k) == q.ACols(i, k))
  {
    hide TileRow, SizeAt, PadAt, Job.ATile, Job.BTile, Job.CTile, Job.DTile, Job.ReusesA, Job.ReusesB, Job.K0;
  }

  lemma SameRowsB(job: Job, i0: nat, j0: nat, k0: nat, k: int, j: int, r: int)
    ensures var p, q := job.CallAt(i0, j0, k0), job.CallAt(0, j0, k0);
            p.BRow(k, j, r) == q.BRow(k, j, r) && p.InB(k, j) == q.InB(k, j) && (p.Padded() && q.Padded() ==>
              p.BRows(k, j) == q.BRows(k, j) && p.BCols(k, j) == q.BCols(k, j))
  {
    hide TileRow, SizeAt, PadAt, Job.ATile, Job.BTile, Job.CTile, Job.DTile, Job.ReusesA, Job.ReusesB, Job.K0;
  }

  lemma SameStored(job: Job, i0: nat, j0: nat, k0: nat, i: int, j: int, k: int)
    requires InTiles(job, i0, j0, k0)
    ensures var p, w := job.CallAt(i0, j0, k0), job.Whole();
            && p.Padded() && w.Padded()
            && (p.InA(i, k) ==>
                  && w.InA(BI(job, i0, i), BK(job, k0, k))
                  && p.ARows(i, k) == w.ARows(BI(job, i0, i), BK(job, k0, k))
                  && p.ACols(i, k) == w.ACols(BI(job, i0, i), BK(job, k0, k)))
            && (p.InB(k, j) ==>
                  && w.InB(BK(job, k0, k), BJ(job, j0, j))
                  && p.BRows(k, j) == w.BRows(BK(job, k0, k), BJ(job, j0, j))
                  && p.BCols(k, j) == w.BCols(BK(job, k0, k), BJ(job, j0, j)))
  {
    hide SizeAt, PadAt, Blocks, Padding, Job.ATile, Job.BTile, Job.CTile, Job.DTile, Job.ReusesA, Job.ReusesB, Job.K0;
    SameExtents(job, i0, j0, k0, i, j, k);
  }

  lemma AElemSame(job: Job, Z: Start, z: Start, i0: nat, j0: nat, k0: nat, i: int, k: int, r: int, c: int)
    requires Given(job, Z, z, i0, j0, k0)
    requires z.p.InA(i, k) && 0 <= r < z.p.ARows(i, k) && 0 <= c < z.p.ACols(i, k)
    ensures AElem(z, i, k, r, c) == AElem(Z, BI(job, i0, i), BK(job, k0, k), r, c)
  {
    hide At, Load, SpadIn, Call.ARow, Call.AAddr, InCBytes, Written, BiasSafe, BTileHeld, Job.CallAt, InTiles, Matched;
    SameStored(job, i0, j0, k0, i, 0, k);
    SameRowsA(job, i0, j0, k0, i, k, r);
    if z.p.A != 0 {
      SameAddresses(job, i0, j0, k0, i, 0, k);
      var x := AByte(Z, BI(job, i0, i), BK(job, k0, k), r, c);
      if Written(job, Z, i0, j0, x) { WrittenInC(job, Z, i0, j0, x); }
      LoopWsSteps.SameByte(z.d, Z.d, Z.cfg.load0, z.p.AAddr(i, k), r, c);
    }
  }

  lemma BElemSame(job: Job, Z: Start, z: Start, i0: nat, j0: nat, k0: nat, k: int, j: int, r: int, c: int)
    requires Given(job, Z, z, i0, j0, k0)
    requires z.p.InB(k, j) && 0 <= r < z.p.BRows(k, j) && 0 <= c < z.p.BCols(k, j)
    ensures BElem(z, k, j, r, c) == BElem(Z, BK(job, k0, k), BJ(job, j0, j), r, c)
  {
    hide At, Load, SpadIn, Call.BRow, Call.BAddr, InCBytes, Written, BiasSafe, ATileHeld, Job.CallAt, InTiles, Matched;
    SameStored(job, i0, j0, k0, 0, j, k);
    SameRowsB(job, i0, j0, k0, k, j, r);
    if z.p.B != 0 {
      SameAddresses(job, i0, j0, k0, 0, j, k);
      var x := BByte(Z, BK(job, k0, k), BJ(job, j0, j), r, c);
      if Written(job, Z, i0, j0, x) { WrittenInC(job, Z, i0, j0, x); }
      LoopWsSteps.SameByte(z.d, Z.d, Z.cfg.load1, z.p.BAddr(k, j), r, c);
    }
  }

  lemma PadsSame(job: Job, Z: Start, z: Start, i0: nat, j0: nat, k0: nat, i: int, j: int, k: int, m: int, n: int,
                 x: int)
    requires Given(job, Z, z, i0, j0, k0) && z.p.InC(i, j, m, n) && 0 <= k < z.p.K && 0 <= x
    ensures APad(z, i, k, m, x) == APad(Z, BI(job, i0, i), BK(job, k0, k), m, x)
    ensures BPad(z, k, j, x, n) == BPad(Z, BK(job, k0, k), BJ(job, j0, j), x, n)
  {
    hide AElem, BElem, Kept, CApart, BiasSafe, ATileHeld, BTileHeld, Matched, InTiles, Job.CallAt, BI, BJ, BK;
    SameExtents(job, i0, j0, k0, i, j, k);
    SameTransposes(job, i0, j0, k0);
    if x < z.p.DepthOf(k) {
      AElemSame(job, Z, z, i0, j0, k0, i, k, if z.p.aT then x else m, if z.p.aT then m else x);
      BElemSame(job, Z, z, i0, j0, k0, k, j, if z.p.bT then n else x, if z.p.bT then x else n);
    }
  }

  lemma SameTransposes(job: Job, i0: nat, j0: nat, k0: nat)
    ensures var p, w := job.CallAt(i0, j0, k0), job.Whole();
            p.aT == w.aT && p.bT == w.bT && p.fullC == w.fullC && p.lowD == w.lowD && p.act == w.act
              && p.strideC == w.strideC
  {
  }

  lemma Position(job: Job, k0: int, x: int)
    requires 0 <= x
    ensures (k0 * job.tileK * DIM + x) / DIM == BK(job, k0, x / DIM) && (k0 * job.tileK * DIM + x) % DIM == x % DIM
  {
    var k := x / DIM;
    assert (k0 * job.tileK + k) * DIM == k0 * job.tileK * DIM + k * DIM;
    DivUnique(k0 * job.tileK * DIM + x, DIM, BK(job, k0, k), x % DIM);
  }

  lemma TermSame(job: Job, Z: Start, z: Start, i0: nat, j0: nat, k0: nat, i: int, j: int, m: int, n: int, x: int)
    requires Given(job, Z, z, i0, j0, k0) && z.p.InC(i, j, m, n) && 0 <= x < Depth(z.p)
    ensures ProductTerms(z, i, j, m, n)(x)
            == ProductTerms(Z, BI(job, i0, i), BJ(job, j0, j), m, n)(k0 * job.tileK * DIM + x)
  {
    hide APad, BPad, Given, Call.InC, BI, BJ, BK, Depth;
    assert CallOf(job, Z, z, i0, j0, k0) by { GivenIs(job, Z, z, i0, j0, k0); }
    DepthIndex(z.p, x);
    Position(job, k0, x);
    PadsSame(job, Z, z, i0, j0, k0, i, j, x / DIM, m, n, x % DIM);
  }

  lemma GivenIs(job: Job, Z: Start, z: Start, i0: nat, j0: nat, k0: nat)
    requires Given(job, Z, z, i0, j0, k0)
    ensures CallOf(job, Z, z, i0, j0, k0)
  {
  }

  // The accumulator: each tile's calls add up its products, slice by slice of the inner dimension.

  /** Inner elements multiplied by the first k0 calls of a tile. */
  function Upto(job: Job, k0: nat): nat {
    if k0 == job.K0() then job.dimK else k0 * job.tileK * DIM
  }

  ghost function Running(job: Job, Z: Start, bi: int, bj: int, m: int, n: int, k0: nat): int
    requires Z.p.Padded()
  {
    StartValue(Z, bi, bj, m, n) + Sum(Upto(job, k0), ProductTerms(Z, bi, bj, m, n))
  }

  ghost predicate AccDone(job: Job, Z: Start, a: AccMem, i0: nat, j0: nat, k0: nat)
    requires Z.p.Padded()
  {
    var p := job.CallAt(i0, j0, 0);
    p.Padded() && forall i, j, m, n :: p.InC(i, j, m, n) ==>
      At(a, p.CRow(i, j, m), n) == Wrap32(Running(job, Z, BI(job, i0, i), BJ(job, j0, j), m, n, k0))
  }

  lemma SameRowsC(job: Job, i0: nat, j0: nat, k0: nat, i: int, j: int, m: int, n: int)
    ensures var p, q := job.CallAt(i0, j0, k0), job.CallAt(i0, j0, 0);
            p.CRow(i, j, m) == q.CRow(i, j, m) && (p.Padded() && q.Padded() ==> p.InC(i, j, m, n) == q.InC(i, j, m, n))
  {
    hide TileRow, SizeAt, PadAt, Job.ATile, Job.BTile, Job.CTile, Job.DTile, Job.ReusesA, Job.ReusesB, Job.K0;
  }

  lemma CellSame(job: Job, i0: nat, j0: nat, k0: nat, i: int, j: int, m: int, n: int)
    requires InTiles(job, i0, j0, k0)
    ensures var p, w := job.CallAt(i0, j0, k0), job.Whole();
            && p.Padded() && w.Padded()
            && (p.InC(i, j, m, n) ==>
                  && w.InC(BI(job, i0, i), BJ(job, j0, j), m, n)
                  && BI(job, i0, i) / job.tileI == i0 && BJ(job, j0, j) / job.tileJ == j0)
  {
    hide TilesOf, LastTile, Blocks, Padding, Job.ATile, Job.BTile, Job.CTile, Job.DTile, Job.ReusesA, Job.ReusesB;
    SameExtents(job, i0, j0, k0, i, j, 0);
    if 0 <= i < SizeAt(job.dimI, job.tileI, i0) { TileSpan(job.dimI, job.tileI, i0, i); }
    if 0 <= j < SizeAt(job.dimJ, job.tileJ, j0) { TileSpan(job.dimJ, job.tileJ, j0, j); }
  }

  /** The bias of a tile is still the original when its first call reads it. */
  lemma BiasSame(job: Job, Z: Start, z: Start, i0: nat, j0: nat, i: int, j: int, m: int, n: int)
    requires Given(job, Z, z, i0, j0, 0) && z.p.InC(i, j, m, n) && z.p.D != 0 && Z.p.D != 0
    ensures Initial(z, i, j, m, n) == Initial(Z, BI(job, i0, i), BJ(job, j0, j), m, n)
  {
    hide Load, Written, CApart, ATileHeld, BTileHeld, Job.CallAt, InTiles, BI, BJ, Call.DAddr, At;
    CellSame(job, i0, j0, 0, i, j, m, n);
    SameAddresses(job, i0, j0, 0, i, j, 0);
    var bi, bj := BI(job, i0, i), BJ(job, j0, j);
    var a := DByte(Z, bi, bj, m, n);
    forall x | a <= x < a + Size(!Z.p.lowD) ensures Load(z.d, x) == Load(Z.d, x) {
      assert !Written(job, Z, i0, j0, x);
    }
    AccInSame(z.d, Z.d, Z.cfg.load2, z.p.DAddr(i, j), m, n, !Z.p.lowD);
  }

  lemma AccInSame(d: Memory, d': Memory, ls: LoadState, addr: int, r: int, c: int, wide: bool)
    requires ls.shrunk == !wide
    requires forall x :: addr + r * ls.stride + c * Size(wide) <= x < addr + r * ls.stride + c * Size(wide) + Size(wide)
                         ==> Load(d, x) == Load(d', x)
    ensures AccIn(d, ls, addr, r, c) == AccIn(d', ls, addr, r, c)
  {
    hide Load, Scaling.Scale;
    LoadOutSame(d, d', wide, addr + r * ls.stride + c * Size(wide));
  }

  lemma UptoStep(job: Job, i0: nat, j0: nat, k0: nat)
    requires InTiles(job, i0, j0, k0)
    ensures Upto(job, k0) == k0 * job.tileK * DIM && Upto(job, 0) == 0 && 0 <= Depth(job.CallAt(i0, j0, k0))
    ensures Upto(job, k0 + 1) == Upto(job, k0) + Depth(job.CallAt(i0, j0, k0))
  {
    hide TilesOf, LastTile, Blocks, Padding;
    TileElements(job.dimK, job.tileK, k0);
  }

  /** A call that completes has added its slice. */
  lemma CallSum(job: Job, Z: Start, z: Start, i0: nat, j0: nat, k0: nat, i: int, j: int, m: int, n: int)
    requires Given(job, Z, z, i0, j0, k0) && z.p.InC(i, j, m, n) && (k0 > 0 ==> AccDone(job, Z, z.m, i0, j0, k0))
    ensures Depth(z.p) >= 0
    ensures Wrap32(Product(z, i, j, m, n))
            == Wrap32(Running(job, Z, BI(job, i0, i), BJ(job, j0, j), m, n, k0 + 1))
  {
    hide ProductTerms, Sum, Wrap32, At, Upto, BI, BJ, Job.CallAt, InTiles, Kept, CApart, BiasSafe, ATileHeld, BTileHeld,
         Matched, Initial, Depth, Call.CRow;
    UptoStep(job, i0, j0, k0);
    var bi, bj, off := BI(job, i0, i), BJ(job, j0, j), Upto(job, k0);
    var f, g := ProductTerms(Z, bi, bj, m, n), ProductTerms(z, i, j, m, n);
    forall x | 0 <= x < Depth(z.p) ensures g(x) == f(off + x) {
      TermSame(job, Z, z, i0, j0, k0, i, j, m, n, x);
    }
    SumSplit(off, Depth(z.p), f, g);
    StartSame(job, Z, z, i0, j0, k0, i, j, m, n);
    WrapAdd(StartValue(Z, bi, bj, m, n) + Sum(off, f), Sum(Depth(z.p), g));
  }

  lemma StartSame(job: Job, Z: Start, z: Start, i0: nat, j0: nat, k0: nat, i: int, j: int, m: int, n: int)
    requires Given(job, Z, z, i0, j0, k0) && z.p.InC(i, j, m, n) && (k0 > 0 ==> AccDone(job, Z, z.m, i0, j0, k0))
    ensures var bi, bj := BI(job, i0, i), BJ(job, j0, j);
            if k0 == 0 then StartValue(z, i, j, m, n) == Running(job, Z, bi, bj, m, n, 0)
            else StartValue(z, i, j, m, n) == Wrap32(Running(job, Z, bi, bj, m, n, k0))
  {
    hide Given, AccDone, Running, BI, BJ, Wrap32, Call.InC, StartValue;
    assert CallOf(job, Z, z, i0, j0, k0) by { GivenIs(job, Z, z, i0, j0, k0); }
    if k0 == 0 {
      FirstStart(job, Z, z, i0, j0, i, j, m, n);
    } else {
      NextStart(job, Z, z, i0, j0, k0, i, j, m, n);
    }
  }

  lemma FirstStart(job: Job, Z: Start, z: Start, i0: nat, j0: nat, i: int, j: int, m: int, n: int)
    requires Given(job, Z, z, i0, j0, 0) && z.p.InC(i, j, m, n)
    ensures StartValue(z, i, j, m, n) == Running(job, Z, BI(job, i0, i), BJ(job, j0, j), m, n, 0)
  {
    hide Given, Running, BI, BJ, Call.InC, Initial, Job.CallAt, Job.Whole, InTiles, Upto;
    assert CallOf(job, Z, z, i0, j0, 0) by { GivenIs(job, Z, z, i0, j0, 0); }
    StartFields(job, z, i0, j0, 0);
    UptoStep(job, i0, j0, 0);
    if z.p.D != 0 { BiasSame(job, Z, z, i0, j0, i, j, m, n); }
    RunningStart(job, Z, BI(job, i0, i), BJ(job, j0, j), m, n);
  }

  lemma NextStart(job: Job, Z: Start, z: Start, i0: nat, j0: nat, k0: nat, i: int, j: int, m: int, n: int)
    requires k0 > 0 && CallOf(job, Z, z, i0, j0, k0) && z.p.InC(i, j, m, n) && AccDone(job, Z, z.m, i0, j0, k0)
    ensures StartValue(z, i, j, m, n) == Wrap32(Running(job, Z, BI(job, i0, i), BJ(job, j0, j), m, n, k0))
  {
    hide Running, BI, BJ, Initial, Job.CallAt, Job.Whole, InTiles, Wrap32, Call.CRow, At;
    StartFields(job, z, i0, j0, k0);
    SameRowsC(job, i0, j0, k0, i, j, m, n);
    NoBiasHere(z, i, j, m, n);
  }

  lemma NoBiasHere(z: Start, i: int, j: int, m: int, n: int)
    requires z.p.D == 0
    ensures Initial(z, i, j, m, n) == At(z.m, z.p.CRow(i, j, m), n)
  {
  }

  lemma RunningStart(job: Job, Z: Start, bi: int, bj: int, m: int, n: int)
    requires Z.p.Padded()
    ensures Upto(job, 0) == 0 ==> Running(job, Z, bi, bj, m, n, 0) == StartValue(Z, bi, bj, m, n)
  {
    hide ProductTerms, Initial;
  }

  lemma StartFields(job: Job, z: Start, i0: nat, j0: nat, k0: nat)
    requires z.p == job.CallAt(i0, j0, k0)
    ensures z.p.accumulate == (job.D != 0 || k0 != 0) && (z.p.D != 0 <==> job.D != 0 && k0 == 0)
    ensures job.Whole().accumulate == (job.D != 0) && job.Whole().D == job.D
    ensures z.p.C != 0 ==> k0 == job.K0() - 1
    ensures job.C != 0 && k0 == job.K0() - 1 ==> z.p.C != 0
  {
    hide TilesOf, SizeAt, PadAt, Blocks, Padding, Job.ATile, Job.BTile, Job.CTile, Job.DTile;
  }

  // Stored tiles.

  lemma WholeDepth(job: Job, Z: Start)
    requires Z.p == job.Whole()
    ensures Z.p.Padded() && Depth(Z.p) == job.dimK
  {
    WholeShape(job);
  }

  /** The part of row m of block row bi that column tile j0 holds. */
  ghost function TileRowOf(job: Job, Z: Start, bi: int, j0: int, m: int): Row
    requires Z.p.Padded() && Depth(Z.p) >= 0
  {
    Row((jj: int) => (n: int) => Wrap32(Product(Z, bi, BJ(job, j0, jj), m, n)) as int,
        SizeAt(job.dimJ, job.tileJ, j0), DIM - PadAt(job.dimJ, job.tileJ, j0))
  }

  /** The statistics an element is written under: the selected ones, or those of its row within the tile. */
  ghost function StatAt(job: Job, Z: Start, bi: int, bj: int, m: int): NormStat
    requires Z.p.Padded() && Depth(Z.p) >= 0
  {
    if Z.p.Norms() then Ideal(TileRowOf(job, Z, bi, bj / job.tileJ, m), Z.p.act, Z.cfg.consts) else Z.norm[Z.id]
  }

  ghost predicate CellStored(job: Job, Z: Start, d: Memory, bi: int, bj: int, m: int, n: int)
    requires Z.p.Padded() && Depth(Z.p) >= 0
  {
    LoadOut(d, Z.p.fullC, CByteAddr(Z, bi, bj, m, n))
      == OutValue(Z.cfg, StatAt(job, Z, bi, bj, m), Z.p.fullC, Wrap32(Product(Z, bi, bj, m, n)))
  }

  ghost predicate TilesStored(job: Job, Z: Start, d: Memory, i0: int, j0: int)
    requires Z.p.Padded() && Depth(Z.p) >= 0
  {
    forall bi, bj, m, n :: Z.p.InC(bi, bj, m, n) && Before(bi / job.tileI, bj / job.tileJ, i0, j0) ==>
      CellStored(job, Z, d, bi, bj, m, n)
  }

  /** The statistics between calls: the selected one's outputs kept, or every slot ready for its next row. */
  ghost predicate StatsOk(Z: Start, n: NormBank, id: StatId) {
    if Z.p.Norms() then AllReset(n) else id == Z.id && SameOutputs(Z.norm[Z.id], n[Z.id])
  }

  lemma RunningIsProduct(job: Job, Z: Start, bi: int, bj: int, m: int, n: int)
    requires Z.p == job.Whole()
    ensures Z.p.Padded() && Depth(Z.p) >= 0 && Running(job, Z, bi, bj, m, n, job.K0()) == Product(Z, bi, bj, m, n)
  {
    hide ProductTerms, Initial, Sum;
    WholeDepth(job, Z);
  }

  /** What the last call of a tile leaves. */
  lemma ClosingValue(job: Job, Z: Start, z: Start, i0: nat, j0: nat, k0: nat, i: int, j: int, m: int, n: int)
    requires Given(job, Z, z, i0, j0, k0) && k0 == job.K0() - 1 && z.p.InC(i, j, m, n)
    requires k0 > 0 ==> AccDone(job, Z, z.m, i0, j0, k0)
    ensures Depth(z.p) >= 0 && Depth(Z.p) >= 0
    ensures Wrap32(Product(z, i, j, m, n)) == Wrap32(Product(Z, BI(job, i0, i), BJ(job, j0, j), m, n))
  {
    hide Given, AccDone, Product, Running, Wrap32, Call.InC, BI, BJ, Depth;
    assert CallOf(job, Z, z, i0, j0, k0) by { GivenIs(job, Z, z, i0, j0, k0); }
    CallSum(job, Z, z, i0, j0, k0, i, j, m, n);
    RunningIsProduct(job, Z, BI(job, i0, i), BJ(job, j0, j), m, n);
  }

  lemma ClosingStat(job: Job, Z: Start, z: Start, i0: nat, j0: nat, k0: nat, i: int, j: int, m: int, n: int, v: Acc)
    requires Given(job, Z, z, i0, j0, k0) && k0 == job.K0() - 1 && z.p.InC(i, j, m, n) && Depth(Z.p) >= 0
    requires k0 > 0 ==> AccDone(job, Z, z.m, i0, j0, k0)
    requires StatsOk(Z, z.norm, z.id) && (Z.p.Norms() ==> Z.cfg.accAct == Z.p.act)
    ensures OutValue(z.cfg, StatOf(z, i, m), z.p.fullC, v)
            == OutValue(Z.cfg, StatAt(job, Z, BI(job, i0, i), BJ(job, j0, j), m), Z.p.fullC, v)
  {
    hide Given, AccDone, Product, OutValue, BI, BJ, Depth, Ideal, TileRowOf, FinalRow, BankAt, Passes, SameOutputs,
         AllReset, Job.CallAt, InTiles;
    assert CallOf(job, Z, z, i0, j0, k0) by { GivenIs(job, Z, z, i0, j0, k0); }
    SameTransposes(job, i0, j0, k0);
    CellSame(job, i0, j0, k0, i, j, m, n);
    if Z.p.Norms() {
      CallShape(job, i0, j0, k0);
      LoopWsNorm.OwnStatistics(z, i, m, v);
      SameTileRow(job, Z, z, i0, j0, k0, i, m);
    } else {
      OutValueSame(z.cfg, Z.norm[Z.id], z.norm[z.id], z.p.fullC, v);
    }
  }

  lemma SameTileRow(job: Job, Z: Start, z: Start, i0: nat, j0: nat, k0: nat, i: int, m: int)
    requires Given(job, Z, z, i0, j0, k0) && k0 == job.K0() - 1 && Depth(Z.p) >= 0
    requires 0 <= i < z.p.I && 0 <= m < z.p.RowsOf(i)
    requires k0 > 0 ==> AccDone(job, Z, z.m, i0, j0, k0)
    ensures Ideal(FinalRow(z, i, m), z.p.act, z.cfg.consts)
            == Ideal(TileRowOf(job, Z, BI(job, i0, i), j0, m), z.p.act, z.cfg.consts)
  {
    hide Given, AccDone, Product, BI, BJ, Depth, Ideal, Final, Wrap32, Row.Pos;
    assert CallOf(job, Z, z, i0, j0, k0) by { GivenIs(job, Z, z, i0, j0, k0); }
    CallShape(job, i0, j0, k0);
    var w, w' := FinalRow(z, i, m), TileRowOf(job, Z, BI(job, i0, i), j0, m);
    SameColumns(job, z, i0, j0, k0);
    forall t, c | 0 <= t < w.J && 0 <= c < w.Len(t) ensures w.b(t)(c) == w'.b(t)(c) {
      assert z.p.InC(i, t, m, c);
      FinalIsProduct(z, i, t, m, c);
      ClosingValue(job, Z, z, i0, j0, k0, i, t, m, c);
    }
    SameIdeal(w, w', z.p.act, z.cfg.consts);
  }

  lemma SameColumns(job: Job, z: Start, i0: nat, j0: nat, k0: nat)
    requires z.p == job.CallAt(i0, j0, k0)
    ensures z.p.J == SizeAt(job.dimJ, job.tileJ, j0) && z.p.padJ == PadAt(job.dimJ, job.tileJ, j0)
  {
    hide SizeAt, PadAt, Job.ATile, Job.BTile, Job.CTile, Job.DTile, Job.ReusesA, Job.ReusesB, Job.K0;
  }

  lemma CByteSame(job: Job, Z: Start, z: Start, i0: nat, j0: nat, k0: nat, i: int, j: int, m: int, n: int)
    requires CallOf(job, Z, z, i0, j0, k0) && z.p.C != 0
    ensures CByteAddr(z, i, j, m, n) == CByteAddr(Z, BI(job, i0, i), BJ(job, j0, j), m, n)
  {
    hide Job.CallAt, Job.Whole, BI, BJ, Call.CAddr, InTiles;
    SameAddresses(job, i0, j0, k0, i, j, 0);
    SameTransposes(job, i0, j0, k0);
  }

  /** The bytes a closing call writes are those of its tile. */
  lemma TileBytes(job: Job, Z: Start, z: Start, i0: nat, j0: nat, k0: nat, x: int)
    requires CallOf(job, Z, z, i0, j0, k0) && z.p.C != 0 && InCBytes(z, x)
    ensures exists bi, bj, m, n :: Z.p.InC(bi, bj, m, n) && bi / job.tileI == i0 && bj / job.tileJ == j0
              && CByteAddr(Z, bi, bj, m, n) <= x < CByteAddr(Z, bi, bj, m, n) + Size(Z.p.fullC)
  {
    hide CByteAddr, Job.CallAt, Job.Whole, InTiles, Call.InC, BI, BJ;
    var i, j, m, n :| z.p.InC(i, j, m, n) && CByteAddr(z, i, j, m, n) <= x < CByteAddr(z, i, j, m, n) + Size(z.p.fullC);
    CellSame(job, i0, j0, k0, i, j, m, n);
    CByteSame(job, Z, z, i0, j0, k0, i, j, m, n);
    SameTransposes(job, i0, j0, k0);
    assert Z.p.InC(BI(job, i0, i), BJ(job, j0, j), m, n);
  }

  lemma WrittenMore(job: Job, Z: Start, i0: int, j0: int, x: int)
    requires Z.p.Padded() && !Written(job, Z, i0, j0 + 1, x)
    ensures !Written(job, Z, i0, j0, x)
    ensures forall bi, bj, m, n :: Z.p.InC(bi, bj, m, n) && bi / job.tileI == i0 && bj / job.tileJ == j0 ==>
              !(CByteAddr(Z, bi, bj, m, n) <= x < CByteAddr(Z, bi, bj, m, n) + Size(Z.p.fullC))
  {
    hide CByteAddr, Call.InC;
  }

  lemma KeptMore(job: Job, Z: Start, z: Start, d: Memory, i0: nat, j0: nat, k0: nat)
    requires CallOf(job, Z, z, i0, j0, k0) && z.p.C != 0 && Kept(job, Z, z.d, i0, j0) && DramFrame(z, d)
    ensures Kept(job, Z, d, i0, j0 + 1)
  {
    hide CByteAddr, Call.InC, Written, Load, InCBytes, Job.CallAt, Job.Whole, InTiles;
    forall x | !Written(job, Z, i0, j0 + 1, x) ensures Load(d, x) == Load(Z.d, x) {
      WrittenMore(job, Z, i0, j0, x);
      if InCBytes(z, x) { TileBytes(job, Z, z, i0, j0, k0, x); }
    }
  }

  /** A tile that was stored before is not touched. */
  lemma EarlierCell(job: Job, Z: Start, z: Start, d: Memory, i0: nat, j0: nat, k0: nat, bi: int, bj: int, m: int,
                    n: int)
    requires CallOf(job, Z, z, i0, j0, k0) && z.p.C != 0 && Z.p.C != 0 && CApart(Z) && DramFrame(z, d)
    requires Z.p.InC(bi, bj, m, n) && Before(bi / job.tileI, bj / job.tileJ, i0, j0)
    ensures LoadOut(d, Z.p.fullC, CByteAddr(Z, bi, bj, m, n)) == LoadOut(z.d, Z.p.fullC, CByteAddr(Z, bi, bj, m, n))
  {
    hide CByteAddr, Call.InC, Load, LoadOut, InCBytes, Job.CallAt, InTiles, Job.Whole;
    var a := CByteAddr(Z, bi, bj, m, n);
    forall x | a <= x < a + Size(Z.p.fullC) ensures Load(d, x) == Load(z.d, x) {
      if InCBytes(z, x) {
        TileBytes(job, Z, z, i0, j0, k0, x);
        var bi', bj', m', n' :| Z.p.InC(bi', bj', m', n') && bi' / job.tileI == i0 && bj' / job.tileJ == j0
          && CByteAddr(Z, bi', bj', m', n') <= x < CByteAddr(Z, bi', bj', m', n') + Size(Z.p.fullC);
        assert Apart(a, Size(Z.p.fullC), CByteAddr(Z, bi', bj', m', n'), Size(Z.p.fullC));
      }
    }
    LoadOutSame(d, z.d, Z.p.fullC, a);
  }

  /** Every element of the whole lies in exactly one tile. */
  lemma CellInTile(job: Job, i0: nat, j0: nat, k0: nat, bi: int, bj: int, m: int, n: int)
    requires InTiles(job, i0, j0, k0) && job.Whole().Padded() && job.Whole().InC(bi, bj, m, n)
    requires bi / job.tileI == i0 && bj / job.tileJ == j0
    ensures var p := job.CallAt(i0, j0, k0);
            && p.Padded() && p.InC(bi % job.tileI, bj % job.tileJ, m, n)
            && BI(job, i0, bi % job.tileI) == bi && BJ(job, j0, bj % job.tileJ) == bj
  {
    hide TilesOf, LastTile, Padding, Job.ATile, Job.BTile, Job.CTile, Job.DTile, Job.ReusesA, Job.ReusesB, Blocks;
    TileOf(job.dimI, job.tileI, bi);
    TileOf(job.dimJ, job.tileJ, bj);
    SameExtents(job, i0, j0, k0, bi % job.tileI, bj % job.tileJ, 0);
  }

  /** The closing call of a tile stores it, finished, and leaves the earlier ones. */
  lemma TileStores(job: Job, Z: Start, z: Start, s: Spad, a: AccMem, d: Memory, i0: nat, j0: nat, k0: nat)
    requires Given(job, Z, z, i0, j0, k0) && k0 == job.K0() - 1 && (k0 > 0 ==> AccDone(job, Z, z.m, i0, j0, k0))
    requires Depth(z.p) >= 0 && Depth(Z.p) >= 0 && Completed(z, s, a, d)
    requires StatsOk(Z, z.norm, z.id) && (Z.p.Norms() ==> Z.cfg.accAct == Z.p.act)
    requires TilesStored(job, Z, z.d, i0, j0)
    ensures TilesStored(job, Z, d, i0, j0 + 1)
  {
    hide Given, AccDone, StatsOk, Completed, Depth, CByteAddr, Call.InC, LoadOut, OutValue, StatAt, Product, Wrap32;
    hide DramFrame, CApart, Job.CallAt, Job.Whole, Call.Norms, InTiles;
    assert CallOf(job, Z, z, i0, j0, k0) by { GivenIs(job, Z, z, i0, j0, k0); }
    ClosingFields(job, Z, z, i0, j0, k0);
    assert DramFrame(z, d) by { StoredFrame(z, s, a, d); }
    forall bi, bj, m, n | Z.p.InC(bi, bj, m, n) && Before(bi / job.tileI, bj / job.tileJ, i0, j0 + 1)
      ensures CellStored(job, Z, d, bi, bj, m, n)
    {
      if bi / job.tileI == i0 && bj / job.tileJ == j0 {
        LastCell(job, Z, z, s, a, d, i0, j0, k0, bi, bj, m, n);
      } else {
        EarlierCell(job, Z, z, d, i0, j0, k0, bi, bj, m, n);
        assert CellStored(job, Z, z.d, bi, bj, m, n);
      }
    }
  }

  lemma ClosingFields(job: Job, Z: Start, z: Start, i0: nat, j0: nat, k0: nat)
    requires Given(job, Z, z, i0, j0, k0) && k0 == job.K0() - 1
    ensures z.p.C != 0 && Z.p.C != 0 && CApart(Z) && z.p.K > 0
  {
    hide CApart, BiasSafe, Matched, Kept, ATileHeld, BTileHeld, Job.CallAt, InTiles;
    StartFields(job, z, i0, j0, k0);
    CallShape(job, i0, j0, k0);
  }

  lemma StoredFrame(z: Start, s: Spad, a: AccMem, d: Memory)
    requires z.p.Padded() && (z.p.K > 0 ==> Depth(z.p) >= 0) && Completed(z, s, a, d)
    ensures DramFrame(z, d) && (z.p.C == 0 ==> d == z.d)
  {
    hide DramFrame, AHeld, BHeld, SpadFrame, AccFrame, At, Product, OutValue, LoadOut, Wrap32, Depth;
  }

  lemma LastCell(job: Job, Z: Start, z: Start, s: Spad, a: AccMem, d: Memory, i0: nat, j0: nat, k0: nat,
                 bi: int, bj: int, m: int, n: int)
    requires Given(job, Z, z, i0, j0, k0) && k0 == job.K0() - 1 && (k0 > 0 ==> AccDone(job, Z, z.m, i0, j0, k0))
    requires Depth(z.p) >= 0 && Depth(Z.p) >= 0 && Completed(z, s, a, d)
    requires StatsOk(Z, z.norm, z.id) && (Z.p.Norms() ==> Z.cfg.accAct == Z.p.act)
    requires Z.p.InC(bi, bj, m, n) && bi / job.tileI == i0 && bj / job.tileJ == j0
    ensures CellStored(job, Z, d, bi, bj, m, n)
  {
    hide Given, AccDone, StatsOk, Completed, Depth, CByteAddr, Call.InC, LoadOut, OutValue, StatAt, StatOf, Product,
         Wrap32, CApart, Job.CallAt, Job.Whole, InTiles, BI, BJ;
    assert CallOf(job, Z, z, i0, j0, k0) by { GivenIs(job, Z, z, i0, j0, k0); }
    ClosingFields(job, Z, z, i0, j0, k0);
    SameTransposes(job, i0, j0, k0);
    CellInTile(job, i0, j0, k0, bi, bj, m, n);
    var i, j := bi % job.tileI, bj % job.tileJ;
    LoopWsReuse.CompletedCell(z, s, a, d, i, j, m, n);
    CByteSame(job, Z, z, i0, j0, k0, i, j, m, n);
    ClosingValue(job, Z, z, i0, j0, k0, i, j, m, n);
    ClosingStat(job, Z, z, i0, j0, k0, i, j, m, n, Wrap32(Product(z, i, j, m, n)));
  }

  // Resident tiles.

  predicate LoadedATile(i': int, k': int, i0: int, j0: int, k0: int) { i' < i0 || (i' == i0 && (j0 > 0 || k' < k0)) }

  predicate LoadedBTile(k': int, j': int, i0: int, j0: int, k0: int) { i0 > 0 || j' < j0 || (j' == j0 && k' < k0) }

  ghost predicate ResidentA(job: Job, Z: Start, s: Spad, i0: nat, j0: nat, k0: nat) {
    job.ReusesA() && job.J0() > 0 ==>
      forall i': nat, k': nat :: InTiles(job, i', 0, k') && LoadedATile(i', k', i0, j0, k0) ==>
        ATileHeld(job, Z, s, i', k')
  }

  ghost predicate ResidentB(job: Job, Z: Start, s: Spad, i0: nat, j0: nat, k0: nat) {
    job.ReusesB() && job.I0() > 0 ==>
      forall k': nat, j': nat :: InTiles(job, 0, j', k') && LoadedBTile(k', j', i0, j0, k0) ==>
        BTileHeld(job, Z, s, k', j')
  }

  /** At most two tiles are reused, one in each half of the scratchpad. */
  lemma TwoTiles(x: nat, y: nat, a: nat, b: nat, a': nat, b': nat)
    requires x * y <= 2 && a < x && a' < x && b < y && b' < y && (a != a' || b != b')
    ensures (a + b == 0) != (a' + b' == 0)
  {
    if x >= 2 && y >= 2 { MulLe(2, x, y); }
    if x >= 3 { MulLe(3, x, y); }
    if y >= 3 { MulLe(1, x, y); }
  }

  /** No tile's A rows reach another one's B rows in the same half. */
  lemma SharedHalf(job: Job, i0: nat, j0: nat, k0: nat, i': nat, j': nat, k': nat)
    requires InTiles(job, i0, j0, k0) && InTiles(job, i', j', k') && job.Fits()
    ensures job.CallAt(i0, j0, k0).ASize() + job.CallAt(i', j', k').BSize() <= SPAD_ROWS / 2
  {
    hide Job.CallAt, InTiles;
    CallShape(job, i0, j0, k0);
    CallShape(job, i', j', k');
    var p, q := job.CallAt(i0, j0, k0), job.CallAt(i', j', k');
    ProductLe(p.I, job.tileI, p.K, job.tileK);
    ProductLe(q.K, job.tileK, q.J, job.tileJ);
    MulLe(p.I * p.K, job.tileI * job.tileK, DIM);
    MulLe(q.K * q.J, job.tileK * job.tileJ, DIM);
    assert (job.tileI * job.tileK + job.tileK * job.tileJ) * DIM
           == job.tileI * job.tileK * DIM + job.tileK * job.tileJ * DIM;
  }

  lemma Halves(job: Job, i0: nat, j0: nat, k0: nat)
    ensures var p := job.CallAt(i0, j0, k0);
            && (job.ReusesA() ==> ((p.aId == 2) == (i0 + k0 != 0)))
               && (job.ReusesB() ==> ((p.bId == 2) == (j0 + k0 != 0)))
            && (job.A != 0 ==> (p.A == 0 <==> job.ReusesA() && j0 >= 1))
            && (job.B != 0 ==> (p.B == 0 <==> job.ReusesB() && i0 >= 1))
  {
    hide SizeAt, PadAt, Job.ATile, Job.BTile, Job.CTile, Job.DTile, Job.ReusesA, Job.ReusesB, Job.K0;
  }

  /** A reused A tile other than the call's own stays where it is. */
  lemma OtherAStays(job: Job, Z: Start, z: Start, s: Spad, i0: nat, j0: nat, k0: nat, i': nat, k': nat)
    requires CallOf(job, Z, z, i0, j0, k0) && job.Fits() && job.ReusesA() && SpadFrame(z, s)
    requires InTiles(job, i', 0, k') && (i' != i0 || k' != k0) && ATileHeld(job, Z, z.s, i', k')
    ensures ATileHeld(job, Z, s, i', k')
  {
    hide At, AElem, Call.ARow, Call.InARows, Call.InBRows, Job.CallAt, Job.Fits, Job.I0, Job.J0, Job.K0, Call.Accepted;
    var p, q := z.p, job.CallAt(i', 0, k');
    CallAccepted(job, i0, j0, k0);
    CallAccepted(job, i', 0, k');
    Halves(job, i0, j0, k0);
    Halves(job, i', 0, k');
    TwoTiles(job.I0(), job.K0(), i0, k0, i', k');
    SharedHalf(job, i', 0, k', i0, j0, k0);
    forall i, k, r, c | q.InA(i, k) && 0 <= r < q.ARows(i, k) && 0 <= c < q.ACols(i, k)
      ensures At(s, q.ARow(i, k, r), c) == AElem(Z, BI(job, i', i), BK(job, k', k), r, c)
    {
      LoopWsLayout.ARange(q, i, k, r);
      LoopWsReuse.RowOfA(q, q.ARow(i, k, r));
      if LoopWsReuse.Loads(p, q.ARow(i, k, r)) { LoopWsReuse.ApartLoads(q, p, q.ARow(i, k, r)); }
      assert At(z.s, q.ARow(i, k, r), c) == AElem(Z, BI(job, i', i), BK(job, k', k), r, c);
    }
  }

  lemma OtherBStays(job: Job, Z: Start, z: Start, s: Spad, i0: nat, j0: nat, k0: nat, k': nat, j': nat)
    requires CallOf(job, Z, z, i0, j0, k0) && job.Fits() && job.ReusesB() && SpadFrame(z, s)
    requires InTiles(job, 0, j', k') && (j' != j0 || k' != k0) && BTileHeld(job, Z, z.s, k', j')
    ensures BTileHeld(job, Z, s, k', j')
  {
    hide At, BElem, Call.BRow, Call.InARows, Call.InBRows, Job.CallAt, Job.Fits, Job.I0, Job.J0, Job.K0, Call.Accepted;
    var p, q := z.p, job.CallAt(0, j', k');
    CallAccepted(job, i0, j0, k0);
    CallAccepted(job, 0, j', k');
    Halves(job, i0, j0, k0);
    Halves(job, 0, j', k');
    TwoTiles(job.J0(), job.K0(), j0, k0, j', k');
    SharedHalf(job, i0, j0, k0, 0, j', k');
    forall k, j, r, c | q.InB(k, j) && 0 <= r < q.BRows(k, j) && 0 <= c < q.BCols(k, j)
      ensures At(s, q.BRow(k, j, r), c) == BElem(Z, BK(job, k', k), BJ(job, j', j), r, c)
    {
      LoopWsLayout.BRange(q, k, j, r);
      LoopWsReuse.RowOfB(q, q.BRow(k, j, r));
      if LoopWsReuse.Loads(p, q.BRow(k, j, r)) { LoopWsReuse.ApartLoads(q, p, q.BRow(k, j, r)); }
      assert At(z.s, q.BRow(k, j, r), c) == BElem(Z, BK(job, k', k), BJ(job, j', j), r, c);
    }
  }

  /** The call's own tiles are resident after it. */
  lemma OwnTilesHeld(job: Job, Z: Start, z: Start, s: Spad, i0: nat, j0: nat, k0: nat)
    requires Given(job, Z, z, i0, j0, k0) && AHeld(z, s, z.p.K, 0, 0) && BHeld(z, s, z.p.K, 0, 0)
    ensures ATileHeld(job, Z, s, i0, k0) && BTileHeld(job, Z, s, k0, j0)
  {
    hide Given, At, AElem, BElem, Call.ARow, Call.BRow, Job.CallAt, Job.Whole, BI, BJ, BK;
    assert CallOf(job, Z, z, i0, j0, k0) by { GivenIs(job, Z, z, i0, j0, k0); }
    CallShape(job, i0, j0, k0);
    CallShape(job, i0, 0, k0);
    CallShape(job, 0, j0, k0);
    var p, q := job.CallAt(i0, 0, k0), job.CallAt(0, j0, k0);
    forall i, k, r, c | p.InA(i, k) && 0 <= r < p.ARows(i, k) && 0 <= c < p.ACols(i, k)
      ensures At(s, p.ARow(i, k, r), c) == AElem(Z, BI(job, i0, i), BK(job, k0, k), r, c)
    {
      SameRowsA(job, i0, j0, k0, i, k, r);
      AElemSame(job, Z, z, i0, j0, k0, i, k, r, c);
    }
    forall k, j, r, c | q.InB(k, j) && 0 <= r < q.BRows(k, j) && 0 <= c < q.BCols(k, j)
      ensures At(s, q.BRow(k, j, r), c) == BElem(Z, BK(job, k0, k), BJ(job, j0, j), r, c)
    {
      SameRowsB(job, i0, j0, k0, k, j, r);
      BElemSame(job, Z, z, i0, j0, k0, k, j, r, c);
    }
  }

  lemma ResidentStep(job: Job, Z: Start, z: Start, s: Spad, a: AccMem, d: Memory, i0: nat, j0: nat, k0: nat)
    requires Given(job, Z, z, i0, j0, k0) && job.Fits() && Depth(z.p) >= 0 && Completed(z, s, a, d)
    requires ResidentA(job, Z, z.s, i0, j0, k0) && ResidentB(job, Z, z.s, i0, j0, k0)
    ensures ResidentA(job, Z, s, i0, j0, k0 + 1) && ResidentB(job, Z, s, i0, j0, k0 + 1)
  {
    hide Given, Completed, ATileHeld, BTileHeld, Depth, Job.CallAt, Job.Whole, Job.ReusesA, Job.ReusesB, Job.Fits;
    hide AHeld, BHeld, SpadFrame, InTiles;
    assert CallOf(job, Z, z, i0, j0, k0) by { GivenIs(job, Z, z, i0, j0, k0); }
    CompletedSpad(z, s, a, d);
    OwnTilesHeld(job, Z, z, s, i0, j0, k0);
    forall i': nat, k': nat | InTiles(job, i', 0, k') && LoadedATile(i', k', i0, j0, k0 + 1) && job.ReusesA()
      && job.J0() > 0
      ensures ATileHeld(job, Z, s, i', k')
    {
      if i' != i0 || k' != k0 { OtherAStays(job, Z, z, s, i0, j0, k0, i', k'); }
    }
    forall k': nat, j': nat | InTiles(job, 0, j', k') && LoadedBTile(k', j', i0, j0, k0 + 1) && job.ReusesB()
      && job.I0() > 0
      ensures BTileHeld(job, Z, s, k', j')
    {
      if j' != j0 || k' != k0 { OtherBStays(job, Z, z, s, i0, j0, k0, k', j'); }
    }
  }

  lemma CompletedSpad(z: Start, s: Spad, a: AccMem, d: Memory)
    requires z.p.Padded() && (z.p.K > 0 ==> Depth(z.p) >= 0) && Completed(z, s, a, d)
    ensures AHeld(z, s, z.p.K, 0, 0) && BHeld(z, s, z.p.K, 0, 0) && SpadFrame(z, s)
  {
    hide AHeld, BHeld, SpadFrame, AccFrame, DramFrame, At, Product, OutValue, LoadOut, Wrap32, Depth;
  }
}
