/** tiled_matmul_outer itself: configuration, the three loops, and what C then holds. */
module TiledRun {
  import opened Params
  import opened Wrap
  import opened Dram
  import opened Grid
  import opened Scaling
  import opened State
  import opened NormPass
  import opened Machine
  import opened LoopWsSpec
  import opened LoopWs
  import opened LoopWsMatrix
  import opened Tiling
  import opened TiledMatmul
  import LoopWsReuse

  /** Arguments tiled_matmul lets through to the weight-stationary loops. */
  predicate Valid(job: Job) {
    job.A != 0 && job.B != 0 && job.C != 0 && job.Fits() && !(job.aT && job.bT)
  }

  /** The whole product, from the state the configuration commands leave. */
  ghost function WholeStart(g: Gemmini, job: Job): Start
    reads g
  {
    StartOf(g, job.Whole()).(cfg := job.Configured(g.cfg),
                             id := if job.act == IGELU || job.act == SOFTMAX then 0 else g.statId)
  }

  /** The configuration commands at the head. */
  method Configure(g: Gemmini, job: Job)
    requires !(job.aT && job.bT)
    modifies g`cfg, g`statId
    ensures g.cfg == job.Configured(old(g.cfg))
    ensures g.statId == if job.act == IGELU || job.act == SOFTMAX then 0 else old(g.statId)
  {
    g.ConfigEx(WS, job.Code(), 0, 1, 1, job.aT, job.bT);
    g.ConfigSt(job.strideC * Size(job.fullC), job.Code(), job.scale, NO_POOL);
    g.ConfigLd(0, LoadState(job.strideA, DIM, false, job.scaleA, 1));
    g.ConfigLd(1, LoadState(job.strideB, DIM, false, job.scaleB, 1));
    g.ConfigLd(2, job.DLoad());
    if job.act == IGELU {
      g.ConfigNorm(0, 0, false, false, job.consts.qb, job.consts.qc);
    }
    if job.act == SOFTMAX {
      g.ConfigNorm(0, job.consts.qln2, false, true, job.consts.qb, job.consts.qc);
      g.ConfigNorm(0, job.consts.qln2Inv, true, true, job.consts.qb, job.consts.qc);
    }
  }

  /** Every call runs under the configuration it needs. */
  lemma ConfiguredReady(job: Job, cfg: Config, Z: Start, z: Start, i0: nat, j0: nat, k0: nat)
    requires job.Fits() && CallOf(job, Z, z, i0, j0, k0) && Z.cfg == job.Configured(cfg)
    ensures Ready(z)
  {
    hide Job.CallAt, InTiles, Job.Fits, Call.Accepted;
    CallAccepted(job, i0, j0, k0);
    SameTransposes(job, i0, j0, k0);
  }

  lemma ConfiguredMatches(job: Job, cfg: Config, Z: Start)
    requires Z.p == job.Whole() && Z.cfg == job.Configured(cfg)
    ensures Matched(Z) && (Z.p.Norms() ==> Z.cfg.accAct == Z.p.act)
  {
    hide Blocks, Padding;
  }

  /** Calls inherit the separation of the whole matrices. */
  lemma CallApart(job: Job, Z: Start, z: Start, i0: nat, j0: nat, k0: nat)
    requires CallOf(job, Z, z, i0, j0, k0) && Z.p.A != 0 && Z.p.B != 0 && Z.p.C != 0 && CApart(Z)
    ensures CApart(z)
  {
    hide CByteAddr, AByte, BByte, InCBytes, Apart, Job.CallAt, Job.Whole, InTiles, Call.InC;
    if z.p.C != 0 {
      SameTransposes(job, i0, j0, k0);
      forall i, j, m, n, i', j', m', n' | z.p.InC(i, j, m, n) && z.p.InC(i', j', m', n')
        && (i != i' || j != j' || m != m' || n != n')
        ensures Apart(CByteAddr(z, i, j, m, n), Size(z.p.fullC), CByteAddr(z, i', j', m', n'), Size(z.p.fullC))
      {
        CellSame(job, i0, j0, k0, i, j, m, n);
        CellSame(job, i0, j0, k0, i', j', m', n');
        CByteSame(job, Z, z, i0, j0, k0, i, j, m, n);
        CByteSame(job, Z, z, i0, j0, k0, i', j', m', n');
      }
      forall x | InCBytes(z, x) ensures InCBytes(Z, x) { BytesOfWhole(job, Z, z, i0, j0, k0, x); }
      forall i, k, r, c | z.p.A != 0 && z.p.InA(i, k) && 0 <= r < z.p.ARows(i, k) && 0 <= c < z.p.ACols(i, k)
        ensures !InCBytes(z, AByte(z, i, k, r, c))
      {
        AByteSame(job, Z, z, i0, j0, k0, i, k, r, c);
      }
      forall k, j, r, c | z.p.B != 0 && z.p.InB(k, j) && 0 <= r < z.p.BRows(k, j) && 0 <= c < z.p.BCols(k, j)
        ensures !InCBytes(z, BByte(z, k, j, r, c))
      {
        BByteSame(job, Z, z, i0, j0, k0, k, j, r, c);
      }
    }
  }

  lemma BytesOfWhole(job: Job, Z: Start, z: Start, i0: nat, j0: nat, k0: nat, x: int)
    requires CallOf(job, Z, z, i0, j0, k0) && z.p.C != 0 && InCBytes(z, x)
    ensures InCBytes(Z, x)
  {
    hide CByteAddr, Call.InC, Job.CallAt, Job.Whole, InTiles;
    TileBytes(job, Z, z, i0, j0, k0, x);
  }

  lemma AByteSame(job: Job, Z: Start, z: Start, i0: nat, j0: nat, k0: nat, i: int, k: int, r: int, c: int)
    requires CallOf(job, Z, z, i0, j0, k0) && z.p.A != 0
    requires z.p.InA(i, k) && 0 <= r < z.p.ARows(i, k) && 0 <= c < z.p.ACols(i, k)
    ensures var bi, bk := BI(job, i0, i), BK(job, k0, k);
            && AByte(z, i, k, r, c) == AByte(Z, bi, bk, r, c)
            && Z.p.InA(bi, bk) && 0 <= r < Z.p.ARows(bi, bk) && 0 <= c < Z.p.ACols(bi, bk)
  {
    hide Job.CallAt, Job.Whole, InTiles, Call.AAddr;
    SameStored(job, i0, j0, k0, i, 0, k);
    SameAddresses(job, i0, j0, k0, i, 0, k);
  }

  lemma BByteSame(job: Job, Z: Start, z: Start, i0: nat, j0: nat, k0: nat, k: int, j: int, r: int, c: int)
    requires CallOf(job, Z, z, i0, j0, k0) && z.p.B != 0
    requires z.p.InB(k, j) && 0 <= r < z.p.BRows(k, j) && 0 <= c < z.p.BCols(k, j)
    ensures var bk, bj := BK(job, k0, k), BJ(job, j0, j);
            && BByte(z, k, j, r, c) == BByte(Z, bk, bj, r, c)
            && Z.p.InB(bk, bj) && 0 <= r < Z.p.BRows(bk, bj) && 0 <= c < Z.p.BCols(bk, bj)
  {
    hide Job.CallAt, Job.Whole, InTiles, Call.BAddr;
    SameStored(job, i0, j0, k0, 0, j, k);
    SameAddresses(job, i0, j0, k0, 0, j, k);
  }

  /** Everything is stored under the right statistics: always, except that normalising slots must start reset. */
  ghost predicate Sound(job: Job, Z: Start) {
    job.dimK > 0 && (Z.p.Norms() ==> AllReset(Z.norm))
  }

  /** What the job was given. */
  ghost predicate Prepared(job: Job, Z: Start, cfg: Config) {
    && Valid(job) && Z.p == job.Whole() && Z.cfg == job.Configured(cfg) && Z.p.Padded() && Depth(Z.p) == job.dimK
    && CApart(Z) && BiasSafe(job, Z) && Matched(Z) && (Z.p.Norms() ==> Z.cfg.accAct == Z.p.act)
  }

  /** Before call (i0, j0, k0); after the last call of a tile, the tile counts as stored. */
  ghost predicate Midway(job: Job, Z: Start, g: Gemmini, i0: nat, j0: nat, k0: nat)
    requires Z.p.Padded() && Depth(Z.p) >= 0
    reads g
  {
    var next := if 0 < k0 == job.K0() then j0 + 1 else j0;
    && g.cfg == Z.cfg && Kept(job, Z, g.dram, i0, next) && (job.dimK == 0 ==> g.dram == Z.d)
    && ResidentA(job, Z, g.spad, i0, j0, k0) && ResidentB(job, Z, g.spad, i0, j0, k0)
    && (0 < k0 < job.K0() ==> AccDone(job, Z, g.acc, i0, j0, k0))
    && (Sound(job, Z) ==> StatsOk(Z, g.norm, g.statId) && TilesStored(job, Z, g.dram, i0, next))
  }

  lemma CallGiven(job: Job, Z: Start, z: Start, cfg: Config, i0: nat, j0: nat, k0: nat)
    requires Prepared(job, Z, cfg) && InTiles(job, i0, j0, k0) && z.p == job.CallAt(i0, j0, k0) && z.cfg == Z.cfg
    requires Kept(job, Z, z.d, i0, j0) && ResidentA(job, Z, z.s, i0, j0, k0) && ResidentB(job, Z, z.s, i0, j0, k0)
    ensures Given(job, Z, z, i0, j0, k0) && Ready(z) && CApart(z) && Depth(z.p) >= 0
  {
    hide Job.CallAt, CApart, BiasSafe, Matched, Kept, ATileHeld, BTileHeld, Ready, Job.Configured, Job.ReusesA,
         Job.ReusesB, Job.Fits;
    CallShape(job, i0, j0, k0);
    Halves(job, i0, j0, k0);
    assert InTiles(job, i0, 0, k0) && InTiles(job, 0, j0, k0);
    ConfiguredReady(job, cfg, Z, z, i0, j0, k0);
    CallApart(job, Z, z, i0, j0, k0);
    UptoStep(job, i0, j0, k0);
  }

  lemma AccStep(job: Job, Z: Start, z: Start, s: Spad, a: AccMem, d: Memory, i0: nat, j0: nat, k0: nat)
    requires Given(job, Z, z, i0, j0, k0) && (k0 > 0 ==> AccDone(job, Z, z.m, i0, j0, k0))
    requires Depth(z.p) >= 0 && Completed(z, s, a, d)
    ensures AccDone(job, Z, a, i0, j0, k0 + 1)
  {
    hide Given, Completed, Depth, At, Call.CRow, Running, Product, Wrap32, Job.CallAt, Job.Whole, BI, BJ;
    assert CallOf(job, Z, z, i0, j0, k0) by { GivenIs(job, Z, z, i0, j0, k0); }
    CallShape(job, i0, j0, k0);
    CallShape(job, i0, j0, 0);
    var p := job.CallAt(i0, j0, 0);
    forall i, j, m, n | p.InC(i, j, m, n)
      ensures At(a, p.CRow(i, j, m), n) == Wrap32(Running(job, Z, BI(job, i0, i), BJ(job, j0, j), m, n, k0 + 1))
    {
      SameRowsC(job, i0, j0, k0, i, j, m, n);
      CallSum(job, Z, z, i0, j0, k0, i, j, m, n);
      LoopWsReuse.CompletedCell(z, s, a, d, i, j, m, n);
    }
  }

  lemma StatsStep(Z: Start, z: Start, n: NormBank, id: StatId)
    requires z.p.act == Z.p.act && z.p.Padded() && StatsOk(Z, z.norm, z.id)
    requires NormInv(z, n, id, z.p.K, 0, 0) && (AllReset(z.norm) ==> AllReset(n))
    ensures StatsOk(Z, n, id)
  {
    hide BankAt, AllReset, StoredRows;
  }

  /** Iteration (i0, j0, k0). */
  method Step(g: Gemmini, job: Job, ghost Z: Start, ghost cfg: Config, i0: nat, j0: nat, k0: nat)
    requires Prepared(job, Z, cfg) && InTiles(job, i0, j0, k0) && Midway(job, Z, g, i0, j0, k0)
    modifies g`spad, g`pre, g`pe, g`acc, g`dram, g`norm, g`statId
    ensures Midway(job, Z, g, i0, j0, k0 + 1)
  {
    hide Prepared, Kept, ResidentA, ResidentB, AccDone, StatsOk, TilesStored, Job.CallAt, Job.K0, NormInv, AllReset;
    hide Given, Completed, Ready, CApart, Call.Accepted, Depth, InTiles, DramFrame;
    ghost var z := StartOf(g, job.CallAt(i0, j0, k0));
    Positive(job, i0, j0, k0);
    assert Z.p.Padded() && Depth(Z.p) >= 0 && Z.p == job.Whole() by { WholeFields(job, Z, cfg); }
    CallGiven(job, Z, z, cfg, i0, j0, k0);
    assert CallOf(job, Z, z, i0, j0, k0) by { GivenIs(job, Z, z, i0, j0, k0); }
    StartFields(job, z, i0, j0, k0);
    SameTransposes(job, i0, j0, k0);
    var ok := LoopWs.LoopWs(g, job.CallAt(i0, j0, k0));
    assert ok by { CallFits(job, Z, cfg, i0, j0, k0); }
    ResidentStep(job, Z, z, g.spad, g.acc, g.dram, i0, j0, k0) by { WholeFields(job, Z, cfg); }
    AccStep(job, Z, z, g.spad, g.acc, g.dram, i0, j0, k0);
    StoredFrame(z, g.spad, g.acc, g.dram);
    if k0 == job.K0() - 1 {
      assert z.p.C != 0 by { WholeFields(job, Z, cfg); }
      KeptMore(job, Z, z, g.dram, i0, j0, k0);
    }
    if Sound(job, Z) {
      StatsStep(Z, z, g.norm, g.statId);
      if k0 == job.K0() - 1 {
        TileStores(job, Z, z, g.spad, g.acc, g.dram, i0, j0, k0) by { WholeFields(job, Z, cfg); }
      }
    }
  }

  lemma WholeFields(job: Job, Z: Start, cfg: Config)
    requires Prepared(job, Z, cfg)
    ensures Valid(job) && Z.p == job.Whole() && Z.p.Padded() && Depth(Z.p) == job.dimK >= 0
    ensures Z.p.Norms() ==> Z.cfg.accAct == Z.p.act
  {
    hide CApart, BiasSafe, Matched, Depth, Job.Configured, Job.Whole;
  }

  lemma Positive(job: Job, i0: nat, j0: nat, k0: nat)
    requires InTiles(job, i0, j0, k0)
    ensures k0 < job.K0() && job.dimK > 0
  {
    hide TilesOf;
    NoTiles(job.dimK, job.tileK);
  }

  lemma CallFits(job: Job, Z: Start, cfg: Config, i0: nat, j0: nat, k0: nat)
    requires Prepared(job, Z, cfg) && InTiles(job, i0, j0, k0)
    ensures job.CallAt(i0, j0, k0).Accepted()
  {
    hide CApart, BiasSafe, Matched, Depth, Job.Configured, Job.Whole, Job.CallAt, Job.Fits, InTiles, Call.Accepted;
    CallAccepted(job, i0, j0, k0);
  }

  // From one tile, and one row of tiles, to the next.

  lemma NextTile(job: Job, Z: Start, g: Gemmini, i0: nat, j0: nat)
    requires Z.p.Padded() && Depth(Z.p) >= 0 && i0 < job.I0() && j0 < job.J0()
    requires Midway(job, Z, g, i0, j0, job.K0())
    ensures Midway(job, Z, g, i0, j0 + 1, 0)
  {
    hide TilesStored, StatsOk, ATileHeld, BTileHeld, AccDone, Written, Load, Depth, TilesOf;
    NoTiles(job.dimK, job.tileK);
    forall x | !Written(job, Z, i0, j0 + 1, x) ensures !Written(job, Z, i0, j0, x) { WrittenMore(job, Z, i0, j0, x); }
  }

  lemma NextTileRow(job: Job, Z: Start, g: Gemmini, i0: nat)
    requires Z.p == job.Whole() && Z.p.Padded() && Depth(Z.p) >= 0 && i0 < job.I0()
    requires Midway(job, Z, g, i0, job.J0(), 0)
    ensures Midway(job, Z, g, i0 + 1, 0, 0)
  {
    hide StatsOk, ATileHeld, BTileHeld, AccDone, CellStored, Load, Depth, TilesOf, CByteAddr, Call.InC, Blocks;
    forall x | Written(job, Z, i0, job.J0(), x) ensures Written(job, Z, i0 + 1, 0, x) { }
    hide Written;
    if Sound(job, Z) {
      forall bi, bj, m, n | Z.p.InC(bi, bj, m, n) && Before(bi / job.tileI, bj / job.tileJ, i0 + 1, 0)
        ensures CellStored(job, Z, g.dram, bi, bj, m, n)
      {
        ColumnTile(job, bi, bj, m, n);
      }
    }
  }

  lemma ColumnTile(job: Job, bi: int, bj: int, m: int, n: int)
    requires job.Whole().Padded() && job.Whole().InC(bi, bj, m, n)
    ensures 0 <= bj / job.tileJ < job.J0() && 0 <= bi / job.tileI < job.I0()
  {
    hide TilesOf, LastTile, Blocks, Padding;
    TileOf(job.dimI, job.tileI, bi);
    TileOf(job.dimJ, job.tileJ, bj);
  }

  lemma Begins(job: Job, Z: Start, g: Gemmini)
    requires Z.p == job.Whole() && Z.p.Padded() && Depth(Z.p) >= 0
    requires g.cfg == Z.cfg && g.dram == Z.d && g.norm == Z.norm && g.statId == Z.id
    ensures Midway(job, Z, g, 0, 0, 0)
  {
    hide ATileHeld, BTileHeld, CellStored, Load, Depth, TilesOf, CByteAddr, Call.InC, Job.Whole;
    forall bi, bj, m, n | Z.p.InC(bi, bj, m, n) ensures !Before(bi / job.tileI, bj / job.tileJ, 0, 0) {
      ColumnTile(job, bi, bj, m, n);
    }
  }

  /** Every element of C is the activated product. */
  ghost predicate Stores(job: Job, Z: Start, d: Memory)
    requires Z.p.Padded() && Depth(Z.p) >= 0
  {
    forall bi, bj, m, n :: Z.p.InC(bi, bj, m, n) ==> CellStored(job, Z, d, bi, bj, m, n)
  }

  lemma Ends(job: Job, Z: Start, g: Gemmini)
    requires Z.p == job.Whole() && Z.p.Padded() && Depth(Z.p) >= 0 && Midway(job, Z, g, job.I0(), 0, 0)
    ensures Sound(job, Z) ==> Stores(job, Z, g.dram)
    ensures DramFrame(Z, g.dram) && (job.dimK == 0 ==> g.dram == Z.d)
  {
    hide ATileHeld, BTileHeld, CellStored, Load, Depth, TilesOf, CByteAddr, Call.InC, Written, InCBytes;
    forall x | Written(job, Z, job.I0(), 0, x) ensures InCBytes(Z, x) { WrittenInC(job, Z, job.I0(), 0, x); }
    forall bi, bj, m, n | Z.p.InC(bi, bj, m, n) ensures bi / job.tileI < job.I0() { ColumnTile(job, bi, bj, m, n); }
  }

  /** tiled_matmul_outer, weight stationary: configure, then one loop_ws call per tile of the product and slice of the
      inner dimension. C ends as one call on the whole matrices would leave it, were there one large enough. */
  method TiledMatmulOuter(g: Gemmini, job: Job) returns (ghost Z: Start)
    requires Valid(job) && job.Whole().Padded()
    requires CApart(WholeStart(g, job)) && BiasSafe(job, WholeStart(g, job))
    modifies g`cfg, g`spad, g`pre, g`pe, g`acc, g`dram, g`norm, g`statId
    ensures Z == old(WholeStart(g, job)) && g.cfg == Z.cfg && Z.p.Padded() && Depth(Z.p) == job.dimK
    ensures job.dimK > 0 && (Z.p.Norms() ==> AllReset(Z.norm)) ==> Stores(job, Z, g.dram)
    ensures DramFrame(Z, g.dram) && (job.dimK == 0 ==> g.dram == Z.d)
  {
    hide CApart, BiasSafe, Midway, Stores, DramFrame, Depth, Job.Fits, Job.Configured, Matched, Prepared, AllReset;
    hide Job.I0, Job.J0, Job.K0, Job.Whole;
    ghost var cfg := g.cfg;
    Z := WholeStart(g, job);
    Configure(g, job);
    WholeDepth(job, Z);
    assert Prepared(job, Z, cfg) by { Prepare(job, Z, cfg); }
    Begins(job, Z, g);
    for i0 := 0 to job.I0()
      invariant Midway(job, Z, g, i0, 0, 0)
    {
      for j0 := 0 to job.J0()
        invariant Midway(job, Z, g, i0, j0, 0)
      {
        for k0 := 0 to job.K0()
          invariant Midway(job, Z, g, i0, j0, k0)
        {
          Step(g, job, Z, cfg, i0, j0, k0);
        }
        NextTile(job, Z, g, i0, j0);
      }
      NextTileRow(job, Z, g, i0);
    }
    Ends(job, Z, g);
    assert g.cfg == Z.cfg by { ConfigKept(job, Z, g); }
  }

  lemma ConfigKept(job: Job, Z: Start, g: Gemmini)
    requires Z.p.Padded() && Depth(Z.p) >= 0 && Midway(job, Z, g, job.I0(), 0, 0)
    ensures g.cfg == Z.cfg
  {
    hide Kept, ResidentA, ResidentB, AccDone, TilesStored, StatsOk, Depth;
  }

  lemma Prepare(job: Job, Z: Start, cfg: Config)
    requires Valid(job) && Z.p == job.Whole() && Z.cfg == job.Configured(cfg) && Z.p.Padded()
    requires Depth(Z.p) == job.dimK && CApart(Z) && BiasSafe(job, Z)
    ensures Prepared(job, Z, cfg)
  {
    hide CApart, BiasSafe, Depth, Job.Configured, Job.Whole, Matched, Job.Fits;
    ConfiguredMatches(job, cfg, Z);
  }
}
