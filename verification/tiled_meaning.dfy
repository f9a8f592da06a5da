/** What tiled_matmul_outer leaves in C, in the terms of its own arguments. */
module TiledMeaning {
  import opened Params
  import opened Wrap
  import opened Sums
  import opened Dram
  import opened Scaling
  import opened State
  import opened Norm
  import opened NormPass
  import opened Outputs
  import opened LoopWsSpec
  import opened LoopWs
  import opened LoopWsMatrix
  import opened Tiling
  import opened TiledMatmul
  import opened TiledRun
  import LoopWsMeaning
  import ReferenceLoops

  /** The configuration the calls run under is the one the arguments ask for. */
  lemma ArgumentsInForce(job: Job, cfg: Config)
    ensures var c := job.Configured(cfg);
            && c.load0.scale == job.scaleA && c.load1.scale == job.scaleB && c.load2.scale == job.scaleD
            && c.accScale == job.scale && c.load0.stride == job.strideA && c.load1.stride == job.strideB
            && (job.act == SOFTMAX ==> c.consts == job.consts)
            && (job.act == IGELU ==> c.consts.qb == job.consts.qb && c.consts.qc == job.consts.qc)
  {
  }

  /** A finished job, seen at element (m, n) of block (bi, bj). */
  ghost predicate DoneAt(job: Job, cfg: Config, Z: Start, d: Memory, bi: int, bj: int, m: int, n: int) {
    && Z.p == job.Whole() && Z.cfg == job.Configured(cfg) && Z.p.Padded() && Depth(Z.p) >= 0 && Stores(job, Z, d)
    && Z.p.InC(bi, bj, m, n) && job.A != 0 && job.B != 0 && job.C != 0 && job.dimK > 0
  }

  function CElement(job: Job, row: int, col: int): int { job.C + (row * job.strideC + col) * Size(job.fullC) }

  // The product of the matrices in main memory.

  ghost function JobTerms(job: Job, d: Memory, row: int, col: int): int -> int {
    k => Scale(LoadElem(d, job.A + if job.aT then k * job.strideA + row else row * job.strideA + k), job.scaleA)
       * Scale(LoadElem(d, job.B + if job.bT then col * job.strideB + k else k * job.strideB + col), job.scaleB)
  }

  function JobBias(job: Job, d: Memory, row: int, col: int): int {
    var at := (if job.repeating then 0 else row) * job.strideD + col;
    if job.D == 0 then 0
    else if job.lowD then Scale(LoadElem(d, job.D + at), job.scaleD)
    else LoadAcc(d, job.D + 4 * at)
  }

  /** Element (row, col) of the product the arguments describe, as an int32. */
  ghost function JobValue(job: Job, d: Memory, row: int, col: int): Acc {
    Wrap32(JobBias(job, d, row, col) + Sum(job.dimK, JobTerms(job, d, row, col)))
  }

  lemma ProductIsJob(job: Job, cfg: Config, Z: Start, bi: int, bj: int, m: int, n: int)
    requires Z.p == job.Whole() && Z.cfg == job.Configured(cfg) && Z.p.Padded() && Z.p.InC(bi, bj, m, n)
    requires job.A != 0 && job.B != 0
    ensures Depth(Z.p) == job.dimK >= 0
    ensures Wrap32(Product(Z, bi, bj, m, n)) == JobValue(job, Z.d, bi * DIM + m, bj * DIM + n)
    ensures CByteAddr(Z, bi, bj, m, n) == CElement(job, bi * DIM + m, bj * DIM + n)
  {
    hide Product, Scale, LoadElem, LoadAcc, CByteAddr, Call.InC, Depth, Wrap32, Blocks, Padding, Matched, Sum;
    var row, col := bi * DIM + m, bj * DIM + n;
    WholeDepth(job, Z);
    ConfiguredMatches(job, cfg, Z);
    ProductIsMatMul(Z, bi, bj, m, n);
    var f, g := MatTerms(Z, row, col), JobTerms(job, Z.d, row, col);
    forall k ensures f(k) == g(k) { }
    SumSame(job.dimK, f, g);
    BiasIs(job, cfg, Z, row, col);
  }

  lemma BiasIs(job: Job, cfg: Config, Z: Start, row: int, col: int)
    requires Z.p == job.Whole() && Z.cfg == job.Configured(cfg)
    ensures (if !Z.p.accumulate then 0 else DMat(Z, row, col)) == JobBias(job, Z.d, row, col)
    ensures Z.p.accumulate ==> Z.p.D != 0
  {
    hide Scale, LoadElem, LoadAcc, Blocks, Padding;
    assert row * 0 == 0;
  }

  lemma StoredCell(job: Job, cfg: Config, Z: Start, d: Memory, bi: int, bj: int, m: int, n: int)
    requires DoneAt(job, cfg, Z, d, bi, bj, m, n)
    ensures Z.p.Padded() && Depth(Z.p) >= 0
    ensures LoadOut(d, job.fullC, CElement(job, bi * DIM + m, bj * DIM + n))
            == OutValue(Z.cfg, StatAt(job, Z, bi, bj, m), job.fullC, JobValue(job, Z.d, bi * DIM + m, bj * DIM + n))
  {
    hide Product, CByteAddr, Call.InC, Depth, StatAt, OutValue, LoadOut, JobValue, CElement, Blocks, Padding, Wrap32;
    assert CellStored(job, Z, d, bi, bj, m, n);
    ProductIsJob(job, cfg, Z, bi, bj, m, n);
  }

  /** No activation, or ReLU, unless "no activation" follows a softmax: the product scaled, rounded to nearest,
      saturated and clipped, or at full width the product itself. */
  lemma StoresPlain(job: Job, cfg: Config, Z: Start, d: Memory, bi: int, bj: int, m: int, n: int, v: int, r: int)
    requires DoneAt(job, cfg, Z, d, bi, bj, m, n) && v == JobValue(job, Z.d, bi * DIM + m, bj * DIM + n)
    requires (job.act == NONE || job.act == RELU) && !(job.act == NONE && cfg.accAct == SOFTMAX)
    requires job.fullC || NearestProduct(v, job.scale, r)
    ensures var out := LoadOut(d, job.fullC, CElement(job, bi * DIM + m, bj * DIM + n));
            if job.fullC then out == v else Limits(r, job.act == RELU, out)
  {
    hide StatAt, OutValue, LoadOut, JobValue, CElement, NearestProduct, Limits, Job.Configured, Job.Whole;
    StoredCell(job, cfg, Z, d, bi, bj, m, n);
    ArgumentsInForce(job, cfg);
    ActivationInForce(job, cfg);
    PlainOut(job.Configured(cfg), StatAt(job, Z, bi, bj, m), job.fullC, v, r);
  }

  /** GELU of the product, with c its magnitude limited to -qb. */
  lemma StoresGelu(job: Job, cfg: Config, Z: Start, d: Memory, bi: int, bj: int, m: int, n: int, v: int, a: int, c: int,
                   p: int, r: int)
    requires DoneAt(job, cfg, Z, d, bi, bj, m, n) && v == JobValue(job, Z.d, bi * DIM + m, bj * DIM + n)
    requires job.act == IGELU && 0 <= a && (a == v || a == 0 - v)
    requires c <= a && c <= 0 - job.consts.qb && (c == a || c == 0 - job.consts.qb)
    requires p == GeluValue(v, c, job.consts) && (job.fullC || NearestProduct(p, job.scale, r))
    ensures var out := LoadOut(d, job.fullC, CElement(job, bi * DIM + m, bj * DIM + n));
            if job.fullC then out == p else Limits(r, false, out)
  {
    hide StatAt, OutValue, LoadOut, JobValue, CElement, NearestProduct, Limits, Job.Configured, Job.Whole;
    StoredCell(job, cfg, Z, d, bi, bj, m, n);
    ArgumentsInForce(job, cfg);
    ActivationInForce(job, cfg);
    GeluOut(job.Configured(cfg), StatAt(job, Z, bi, bj, m), job.fullC, v, a, c, p, r);
  }

  // Normalised rows.

  /** With a single column tile, layernorm and softmax see whole rows of the product, under the job's own constants. */
  lemma WholeRows(job: Job, cfg: Config, Z: Start, bi: int, bj: int, m: int, n: int)
    requires Z.p == job.Whole() && Z.cfg == job.Configured(cfg) && Z.p.Padded() && Depth(Z.p) >= 0 && job.dimK > 0
    requires job.J0() == 1 && Z.p.InC(bi, bj, m, n) && Z.p.Norms()
    ensures StatAt(job, Z, bi, bj, m) == Ideal(FinalRow(Z, bi, m), job.act, job.consts)
  {
    hide Product, Final, Wrap32, Depth, Row.Pos, TilesOf, LastTile, Blocks, Padding, Mean, RowInvStddev, RowMax,
         RowInvSumExp, Job.Configured;
    ColumnTile(job, bi, bj, m, n);
    NoTiles(job.dimJ, job.tileJ);
    NoTiles(job.dimK, job.tileK);
    TilesCover(job.dimJ, job.tileJ);
    ArgumentsInForce(job, cfg);
    var w, w' := TileRowOf(job, Z, bi, 0, m), FinalRow(Z, bi, m);
    forall t, c | 0 <= t < w.J && 0 <= c < w.Len(t) ensures w.b(t)(c) == w'.b(t)(c) {
      assert BJ(job, 0, t) == t;
      FinalIsProduct(Z, bi, t, m, c);
    }
    SameIdeal(w, w', Z.p.act, Z.cfg.consts);
  }

  /** x are the elements of a row of the product. */
  ghost predicate JobRow(job: Job, d: Memory, row: int, x: int -> int) {
    forall t :: 0 <= t < job.dimJ ==> x(t) == JobValue(job, d, row, t)
  }

  lemma RowHolds(job: Job, cfg: Config, Z: Start, bi: int, bj: int, m: int, n: int, x: int -> int)
    requires Z.p == job.Whole() && Z.cfg == job.Configured(cfg) && Z.p.Padded() && Z.p.InC(bi, bj, m, n)
    requires job.A != 0 && job.B != 0 && job.dimK > 0 && JobRow(job, Z.d, bi * DIM + m, x)
    ensures 0 <= bj * DIM + n < job.dimJ && Holds(FinalRow(Z, bi, m), job.dimJ, x)
  {
    hide JobRow, JobValue, Wrap32, Product, Depth, Job.Configured, Job.Whole, FinalRow, Holds, Call.InC, Call.Padded;
    WholeDepth(job, Z);
    WholeWidth(job);
    LoopWsMeaning.ColumnIndex(Z, bi, bj, m, n);
    assert Z.p.J > 0 by { HasBlock(Z, bi, bj, m, n); }
    forall t | 0 <= t < job.dimJ ensures x(t) == Wrap32(Product(Z, bi, t / DIM, m, t % DIM)) {
      ColumnInC(Z, bi, bj, m, n, t);
      RowElement(job, cfg, Z, bi, m, x, t);
    }
    LoopWsMeaning.RowHolds(Z, bi, m, job.dimJ, x);
  }

  lemma RowElement(job: Job, cfg: Config, Z: Start, bi: int, m: int, x: int -> int, t: int)
    requires Z.p == job.Whole() && Z.cfg == job.Configured(cfg) && Z.p.Padded() && Z.p.InC(bi, t / DIM, m, t % DIM)
    requires job.A != 0 && job.B != 0 && JobRow(job, Z.d, bi * DIM + m, x) && 0 <= t < job.dimJ
    ensures Depth(Z.p) >= 0 && x(t) == Wrap32(Product(Z, bi, t / DIM, m, t % DIM))
  {
    hide JobValue, Wrap32, Product, Depth, Job.Configured, Job.Whole, Call.InC, Call.Padded;
    ProductIsJob(job, cfg, Z, bi, t / DIM, m, t % DIM);
    assert t / DIM * DIM + t % DIM == t;
  }

  lemma WholeWidth(job: Job)
    ensures var w := job.Whole();
            && w.J * DIM - w.padJ == job.dimJ && w.padJ < DIM && (job.dimK > 0 ==> w.K > 0)
  {
    hide TilesOf;
    NoTiles(job.dimK, 1);
  }

  lemma HasBlock(Z: Start, bi: int, bj: int, m: int, n: int)
    requires Z.p.Padded() && Z.p.InC(bi, bj, m, n)
    ensures Z.p.J > 0
  {
  }

  lemma ColumnInC(Z: Start, bi: int, bj: int, m: int, n: int, t: int)
    requires Z.p.Padded() && Z.p.InC(bi, bj, m, n) && 0 <= t < Z.p.J * DIM - Z.p.padJ
    ensures Z.p.InC(bi, t / DIM, m, t % DIM)
  {
    var q := t / DIM;
    assert t == q * DIM + t % DIM;
    assert Z.p.J * DIM == (Z.p.J - 1) * DIM + DIM;
    if q >= Z.p.J { Patches.MulLe(Z.p.J, q, DIM); }
  }

  lemma NormalisedCell(job: Job, cfg: Config, Z: Start, d: Memory, bi: int, bj: int, m: int, n: int, x: int -> int)
    requires DoneAt(job, cfg, Z, d, bi, bj, m, n) && job.J0() == 1 && IsNorm(job.act)
    requires JobRow(job, Z.d, bi * DIM + m, x)
    ensures Z.p.Padded() && 0 <= bj * DIM + n < job.dimJ && Holds(FinalRow(Z, bi, m), job.dimJ, x)
    ensures -0x8000_0000 <= x(bj * DIM + n) <= 0x7fff_ffff && Z.cfg.accAct == job.act && Z.cfg.accScale == job.scale
    ensures job.act == SOFTMAX ==> Z.cfg.consts == job.consts
    ensures LoadOut(d, job.fullC, CElement(job, bi * DIM + m, bj * DIM + n))
            == OutValue(Z.cfg, Ideal(FinalRow(Z, bi, m), job.act, Z.cfg.consts), job.fullC, x(bj * DIM + n))
  {
    hide JobValue, OutValue, LoadOut, CElement, Job.Configured, FinalRow, Holds, Mean, RowInvStddev, RowMax,
         RowInvSumExp, Stores, Depth, StatAt, Call.InC, Job.J0;
    assert Z.p.act == job.act by { hide Blocks, Padding; }
    StoredCell(job, cfg, Z, d, bi, bj, m, n);
    WholeRows(job, cfg, Z, bi, bj, m, n);
    RowHolds(job, cfg, Z, bi, bj, m, n, x);
    HeldInRange(FinalRow(Z, bi, m), job.dimJ, x, bj * DIM + n);
    ArgumentsInForce(job, cfg);
    ActivationInForce(job, cfg);
  }

  /** Layernorm of whole rows: the difference to the mean, divided by the deviation toward zero, then scaled. */
  lemma StoresLayernorm(job: Job, cfg: Config, Z: Start, d: Memory, bi: int, bj: int, m: int, n: int, x: int -> int,
                        dev: int -> int, mean: int, variance: int, sd: int, p: int, r: int)
    requires DoneAt(job, cfg, Z, d, bi, bj, m, n) && job.J0() == 1 && job.act == LAYERNORM
    requires JobRow(job, Z.d, bi * DIM + m, x) && Moments(job.dimJ, x, dev, mean, variance, sd)
    requires TowardZero(x(bj * DIM + n) - mean, sd, p) && (job.fullC || NearestProduct(p, job.scale, r))
    ensures var out := LoadOut(d, job.fullC, CElement(job, bi * DIM + m, bj * DIM + n));
            if job.fullC then out == p else Limits(r, false, out)
  {
    hide DoneAt, JobRow, OutValue, LoadOut, CElement, Holds, Moments, TowardZero, NearestProduct, Limits, Ideal,
         FinalRow, Job.J0;
    NormalisedCell(job, cfg, Z, d, bi, bj, m, n, x);
    LayernormOut(Z.cfg, FinalRow(Z, bi, m), job.dimJ, x, dev, mean, variance, sd, job.fullC, bj * DIM + n, p, r);
  }

  /** Softmax of whole rows under the job's own constants: the exponential's share of 127, rounded and saturated, then
      scaled. */
  lemma StoresSoftmax(job: Job, cfg: Config, Z: Start, d: Memory, bi: int, bj: int, m: int, n: int, x: int -> int,
                      e: int -> int, halvings: int -> int, max: int, share: real, u: int, p: int, r: int)
    requires DoneAt(job, cfg, Z, d, bi, bj, m, n) && job.J0() == 1 && job.act == SOFTMAX
    requires JobRow(job, Z.d, bi * DIM + m, x) && Exponentials(job.dimJ, x, e, halvings, max, job.consts)
    requires share * Sum(job.dimJ, e) as real == 127.0 && NearestProduct(e(bj * DIM + n), share, u)
    requires Limits(u, false, p) && (job.fullC || NearestProduct(p, job.scale, r))
    ensures var out := LoadOut(d, job.fullC, CElement(job, bi * DIM + m, bj * DIM + n));
            if job.fullC then out == p else Limits(r, false, out)
  {
    hide DoneAt, JobRow, OutValue, LoadOut, CElement, Holds, Exponentials, NearestProduct, Limits, Ideal, FinalRow, Sum,
         Job.J0;
    NormalisedCell(job, cfg, Z, d, bi, bj, m, n, x);
    SoftmaxOut(Z.cfg, FinalRow(Z, bi, m), job.dimJ, x, e, halvings, max, share, job.fullC, bj * DIM + n, u, p, r);
  }

  // The test programs' reference.

  /** At unit operand scales C is full_matmul with its bias, then full_matscale and (for ReLU) full_matrelu. */
  lemma StoresFullMatmul(job: Job, cfg: Config, Z: Start, d: Memory, bi: int, bj: int, m: int, n: int, r: int)
    requires DoneAt(job, cfg, Z, d, bi, bj, m, n) && !job.fullC && job.scaleA == 1.0 && job.scaleB == 1.0
    requires (job.act == NONE || job.act == RELU) && !(job.act == NONE && cfg.accAct == SOFTMAX)
    requires NearestProduct(Wrap32(ReferenceLoops.FullOf(Z, bi * DIM + m, bj * DIM + n)), job.scale, r)
    ensures Limits(r, job.act == RELU, LoadElem(d, job.C + (bi * DIM + m) * job.strideC + (bj * DIM + n)))
  {
    hide Product, Wrap32, LoadElem, Call.InC, Depth, ReferenceLoops.FullOf, NearestProduct, Limits, JobValue, Stores,
         Job.Configured, Job.Whole;
    JobCompared(job, cfg, Z);
    ReferenceLoops.ProductIsFull(Z, bi, bj, m, n);
    ProductIsJob(job, cfg, Z, bi, bj, m, n);
    StoresPlain(job, cfg, Z, d, bi, bj, m, n, JobValue(job, Z.d, bi * DIM + m, bj * DIM + n), r);
  }

  lemma JobCompared(job: Job, cfg: Config, Z: Start)
    requires Z.p == job.Whole() && Z.cfg == job.Configured(cfg) && Z.p.Padded() && Depth(Z.p) >= 0
    requires job.A != 0 && job.B != 0 && job.C != 0 && job.dimK > 0 && !job.fullC && job.scaleA == 1.0
    requires job.scaleB == 1.0 && (job.act == NONE || job.act == RELU) && !(job.act == NONE && cfg.accAct == SOFTMAX)
    ensures ReferenceLoops.Compared(Z) && Z.cfg.accScale == job.scale && Z.p.C == job.C && Z.p.strideC == job.strideC
    ensures !Z.p.fullC && Z.cfg.accAct == job.act
  {
    hide Blocks, Padding, Matched, Depth;
    ConfiguredMatches(job, cfg, Z);
    NoTiles(job.dimK, 1);
    ActivationInForce(job, cfg);
  }

  lemma PlainOutput(cfg: Config, stat: NormStat, v: Acc)
    requires cfg.accAct == NONE || cfg.accAct == RELU
    ensures OutValue(cfg, stat, false, v) == Activate(Scale(v, cfg.accScale), cfg.accAct)
  {
    hide Scale;
  }

  /** Without an activation, or with ReLU, what is written does not depend on the statistics and is the scaled value,
      if and only if "no activation" does not follow a softmax: that one stays in force. */
  lemma PlainIffNoSoftmax(job: Job, cfg: Config)
    requires (job.act == NONE || job.act == RELU) && job.scale == 1.0
    ensures (forall stat: NormStat, v: Acc ::
               OutValue(job.Configured(cfg), stat, false, v) == Activate(Scale(v, job.scale), job.act))
            <==> !(job.act == NONE && cfg.accAct == SOFTMAX)
  {
    hide Scale, IExp, Job.Configured;
    ActivationInForce(job, cfg);
    ArgumentsInForce(job, cfg);
    var c := job.Configured(cfg);
    if job.act == NONE && cfg.accAct == SOFTMAX {
      ScaleByZero(IExp(Wrap32(1 - STAT0.max), c.consts));
      ScaleIdentity(0);
      ScaleIdentity(1);
      assert OutValue(c, STAT0, false, 1) != Activate(Scale(1, job.scale), job.act);
    } else {
      forall stat: NormStat, v: Acc
        ensures OutValue(c, stat, false, v) == Activate(Scale(v, job.scale), job.act)
      {
        PlainOutput(c, stat, v);
      }
    }
  }

  lemma ScaleByZero(v: int)
    ensures Scale(v, 0.0) == 0
  {
    assert v as real * 0.0 == 0.0;
  }
}
