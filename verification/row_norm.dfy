/** A whole accumulator row normalised by three multi-block moves out. */
module RowNorm {
  import opened Params
  import opened Sums
  import opened Dram
  import opened Grid
  import opened Scaling
  import opened State
  import opened Patches
  import opened Norm
  import opened NormPass
  import opened Machine
  import opened Outputs

  /** The row of `cols` columns that starts at accumulator row `row`, in blocks DIM rows apart. */
  ghost function BlocksAt(m: AccMem, row: int, cols: Pos): Row {
    LastBlock(cols);
    Row((jj: int) => RowOf(m, row + Flat(jj, DIM, 0)), BlockCount(cols), cols - Flat(BlockCount(cols) - 1, DIM, 0))
  }

  lemma LastBlock(cols: Pos)
    ensures 0 < BlockCount(cols) && 0 < cols - Flat(BlockCount(cols) - 1, DIM, 0) <= DIM
  {
    var q := BlockCount(cols) - 1;
    DivUnique(cols + DIM - 1, DIM, (cols - 1) / DIM + 1, (cols - 1) % DIM);
    assert cols - 1 == q * DIM + (cols - 1) % DIM;
  }

  lemma BlockIs(cols: Pos, n: nat)
    requires 0 < n <= BlockCount(cols)
    ensures var last := cols - Flat(BlockCount(cols) - 1, DIM, 0);
            && BlockLen(cols, n - 1) == (if n == BlockCount(cols) then last else DIM) > 0
            && (cols <= Flat(n, DIM, 0) <==> n == BlockCount(cols))
  {
    hide BlockCount;
    LastBlock(cols);
    var q := BlockCount(cols) - 1;
    assert Flat(n, DIM, 0) == Flat(n - 1, DIM, 0) + DIM;
    MulLe(n - 1, q, DIM);
    if n <= q { MulLe(n, q, DIM); }
  }

  /** Between its blocks a finishing command is issued as the gathering one. */
  lemma Gathering(act: Activation, pass: nat)
    requires IsNorm(act) && pass < 3
    ensures NonTerminating(Cmd(act, pass, true)) == Cmd(act, pass, false)
  {
  }

  /** One move out of a whole row is one pass over its blocks. */
  lemma {:induction false} MoveIsPass(s: NormStat, m: AccMem, k: NormConsts, row: int, cols: Pos, act: Activation,
                                      pass: nat, n: nat)
    requires IsNorm(act) && pass < 3 && n <= BlockCount(cols)
    ensures NormBlocks(s, m, k, row, cols, Cmd(act, pass, true), n)
            == Pass(s, BlocksAt(m, row, cols), act, k, pass, n)
  {
    hide NormStep, RowOf, Flat, BlockCount, BlockLen, Cmd, NonTerminating;
    if n > 0 {
      MoveIsPass(s, m, k, row, cols, act, pass, n - 1);
      BlockIs(cols, n);
      Gathering(act, pass);
    }
  }

  lemma RowMove(s: NormStat, m: AccMem, k: NormConsts, row: int, cols: Pos, act: Activation, pass: nat)
    requires IsNorm(act) && pass < 3
    ensures NormRows(s, m, k, row, 1, cols, Cmd(act, pass, true))
            == Pass(s, BlocksAt(m, row, cols), act, k, pass, BlocksAt(m, row, cols).J)
  {
    hide NormStep, Cmd, BlockCount, Pass, NormBlocks;
    assert NormRows(s, m, k, row, 0, cols, Cmd(act, pass, true)) == s;
    MoveIsPass(s, m, k, row, cols, act, pass, BlockCount(cols));
  }

  lemma AccValues(m: AccMem, row: int, cols: Pos)
    ensures AccRow(BlocksAt(m, row, cols))
  {
    var w := BlocksAt(m, row, cols);
    forall n | 0 <= n < w.Pos(w.J) ensures -0x8000_0000 <= RowValues(w)(n) <= 0x7fff_ffff {
      AccRange(m, row + Flat(n / DIM, DIM, 0), n % DIM);
    }
  }

  /** Two moves with the finishing commands leave a reset slot with the statistics of the row, and the third, which
      writes, leaves it reset. */
  lemma ThreeMoves(s: NormStat, m: AccMem, k: NormConsts, row: int, cols: Pos, act: Activation)
    requires IsNorm(act) && s.reset
    ensures var s1 := NormRows(s, m, k, row, 1, cols, Cmd(act, 0, true));
            var s2 := NormRows(s1, m, k, row, 1, cols, Cmd(act, 1, true));
            Own(s2, BlocksAt(m, row, cols), act, k) && NormRows(s2, m, k, row, 1, cols, RESET).reset
  {
    hide NormRows, Pass, Own, Flat;
    var w := BlocksAt(m, row, cols);
    LastBlock(cols);
    AccValues(m, row, cols);
    RowMove(s, m, k, row, cols, act, 0);
    var s1 := NormRows(s, m, k, row, 1, cols, Cmd(act, 0, true));
    RowMove(s1, m, k, row, cols, act, 1);
    var s2 := NormRows(s1, m, k, row, 1, cols, Cmd(act, 1, true));
    RowMove(s2, m, k, row, cols, act, 2);
    assert Passes(s, w, act, k, 0) == s && Passes(s, w, act, k, 1) == s1 && Passes(s, w, act, k, 2) == s2;
    TwoPasses(s, w, act, k);
    ResetPass(s2, w, act, k, w.J);
  }

  /** Normalise one accumulator row in place of the loop instruction: mean and deviation, or maximum and exponentials,
      then the stores. */
  method NormaliseRow(g: Gemmini, addr: int, row: nat, cols: Pos, act: Activation, full: bool)
    requires IsNorm(act) && g.cfg.accAct == act && g.cfg.pool.stride == 0 && g.norm[g.statId].reset
    requires OutRows(Source(true, full, RESET, row), 1, cols)
    modifies g`dram, g`norm
    ensures forall c :: 0 <= c < cols ==>
              LoadOut(g.dram, full, addr + c * Size(full)) ==
              OutValue(g.cfg, Ideal(BlocksAt(g.acc, row, cols), act, g.cfg.consts), full,
                       AccAt(g.acc, row + c / DIM * DIM, c % DIM))
    ensures forall x :: !(addr <= x < addr + cols * Size(full)) ==> Load(g.dram, x) == old(Load(g.dram, x))
    ensures g.norm[g.statId].reset && forall t :: 0 <= t < NORM_STAT_IDS && t != g.statId ==>
              g.norm[t] == old(g.norm[t])
  {
    hide NormRows, LoadOut, OutValue, Own, Ideal, StoredTo, Touched, Load, Distinct, BlocksAt, At;
    ghost var s := g.norm[g.statId];
    ThreeMoves(s, g.acc, g.cfg.consts, row, cols, act);
    g.Mvout(addr, Source(true, full, Cmd(act, 0, true), row), 1, cols);
    g.Mvout(addr, Source(true, full, Cmd(act, 1, true), row), 1, cols);
    ghost var t := g.norm[g.statId];
    StrideKeepsApart(addr, g.cfg.storeStride, full, 1, cols);
    g.Mvout(addr, Source(true, full, RESET, row), 1, cols);
    forall c | 0 <= c < cols
      ensures LoadOut(g.dram, full, addr + c * Size(full)) ==
              OutValue(g.cfg, Ideal(BlocksAt(g.acc, row, cols), act, g.cfg.consts), full,
                       AccAt(g.acc, row + c / DIM * DIM, c % DIM))
    {
      assert Before(0, c, 1, 0);
      IdealOutputs(g.cfg, t, BlocksAt(g.acc, row, cols), full, AccAt(g.acc, row + c / DIM * DIM, c % DIM));
    }
    OneRowTouched(addr, g.cfg.storeStride, full, cols);
  }

  lemma OneRowTouched(addr: int, stride: int, full: bool, cols: nat)
    ensures forall x :: !(addr <= x < addr + cols * Size(full)) ==> !Touched(addr, stride, full, 1, cols, x)
  {
    forall j | 0 <= j < cols ensures j * Size(full) + Size(full) <= cols * Size(full) {
      MulLe(j + 1, cols, Size(full));
    }
  }

  /** The row those statistics are of, as plain values. */
  lemma RowIsHeld(m: AccMem, row: int, cols: Pos, x: int -> int)
    requires forall c :: 0 <= c < cols ==> x(c) == At(m, row + c / DIM * DIM, c % DIM)
    ensures Holds(BlocksAt(m, row, cols), cols, x)
  {
    hide At;
    LastBlock(cols);
    forall c | 0 <= c < cols ensures -0x8000_0000 <= x(c) <= 0x7fff_ffff { AccRange(m, row + c / DIM * DIM, c % DIM); }
  }
  /** What NormaliseRow stores with layernorm, from the accumulator values x of the row. */
  lemma RowLayernorm(cfg: Config, m: AccMem, row: int, cols: Pos, x: int -> int, dev: int -> int, mean: int,
                     variance: int, s: int, full: bool, c: int, p: int, r: int)
    requires forall t :: 0 <= t < cols ==> x(t) == At(m, row + t / DIM * DIM, t % DIM)
    requires cfg.accAct == LAYERNORM && Moments(cols, x, dev, mean, variance, s) && 0 <= c < cols
    requires TowardZero(x(c) - mean, s, p) && (full || NearestProduct(p, cfg.accScale, r))
    ensures var v := AccAt(m, row + c / DIM * DIM, c % DIM);
            var out := OutValue(cfg, Ideal(BlocksAt(m, row, cols), LAYERNORM, cfg.consts), full, v);
            if full then out == p else Limits(r, false, out)
  {
    hide At, Moments, TowardZero, NearestProduct, Limits, Ideal, BlocksAt, OutValue, Holds;
    RowIsHeld(m, row, cols, x);
    LayernormOut(cfg, BlocksAt(m, row, cols), cols, x, dev, mean, variance, s, full, c, p, r);
  }

  /** And with softmax. */
  lemma RowSoftmax(cfg: Config, m: AccMem, row: int, cols: Pos, x: int -> int, e: int -> int, z: int -> int, max: int,
                   share: real, full: bool, c: int, u: int, p: int, r: int)
    requires forall t :: 0 <= t < cols ==> x(t) == At(m, row + t / DIM * DIM, t % DIM)
    requires cfg.accAct == SOFTMAX && Exponentials(cols, x, e, z, max, cfg.consts) && 0 <= c < cols
    requires share * Sum(cols, e) as real == 127.0 && NearestProduct(e(c), share, u) && Limits(u, false, p)
    requires full || NearestProduct(p, cfg.accScale, r)
    ensures var v := AccAt(m, row + c / DIM * DIM, c % DIM);
            var out := OutValue(cfg, Ideal(BlocksAt(m, row, cols), SOFTMAX, cfg.consts), full, v);
            if full then out == p else Limits(r, false, out)
  {
    hide At, Exponentials, NearestProduct, Limits, Ideal, BlocksAt, OutValue, Holds, Sum;
    RowIsHeld(m, row, cols, x);
    SoftmaxOut(cfg, BlocksAt(m, row, cols), cols, x, e, z, max, share, full, c, u, p, r);
  }
}
