/** Three passes over a row of blocks leave the statistics of the whole row. */
module NormPass {
  import opened Params
  import opened Wrap
  import opened Sums
  import opened Scaling
  import opened State
  import opened Patches
  import opened Norm

  /** The row a pass walks over: J blocks, the last one `last` wide. */
  datatype Row = Row(b: int -> int -> int, J: nat, last: nat)
  {
    function Len(jj: int): nat { if jj == J - 1 then last else DIM }

    /** Columns before block jj. */
    function Pos(jj: int): int { if jj >= J && J > 0 then (J - 1) * DIM + last else jj * DIM }

    function At(n: int): int { b(n / DIM)(n % DIM) }
  }

  predicate IsNorm(act: Activation) { act == LAYERNORM || act == SOFTMAX }

  /** The command tables: per pass, one command for all but the last block and one for the last. */
  function Cmd(act: Activation, pass: nat, final: bool): NormCmd {
    if act == LAYERNORM then
      if pass == 0 then (if final then MEAN else SUM)
      else if pass == 1 then (if final then INV_STDDEV else VARIANCE)
      else RESET
    else
      if pass == 0 then MAX
      else if pass == 1 then (if final then INV_SUM_EXP else SUM_EXP)
      else RESET
  }

  /** A statistic slot after the first jj blocks of a pass over its row; a block without columns shows it nothing. */
  ghost function Pass(s: NormStat, w: Row, act: Activation, k: NormConsts, pass: nat, jj: nat): NormStat {
    if jj == 0 then s
    else
      var t := Pass(s, w, act, k, pass, jj - 1);
      if w.Len(jj - 1) == 0 then t else NormStep(t, w.b(jj - 1), w.Len(jj - 1), Cmd(act, pass, jj == w.J), k)
  }

  ghost function Passes(s: NormStat, w: Row, act: Activation, k: NormConsts, n: nat): NormStat {
    if n == 0 then s else Pass(Passes(s, w, act, k, n - 1), w, act, k, n - 1, w.J)
  }

  // What the statistics of the whole row should be.

  ghost function RowValues(w: Row): int -> int { n => w.At(n) }

  ghost function Mean(w: Row): Acc {
    Wrap32(TruncDiv(Wrap32(Sum(w.Pos(w.J), RowValues(w))), Wrap32(w.Pos(w.J))))
  }

  ghost function RowInvStddev(w: Row): real {
    InvStddev(TruncDiv(Wrap32(Sum(w.Pos(w.J), Deviations(RowValues(w), Mean(w)))), Wrap32(w.Pos(w.J))))
  }

  ghost function RowMax(w: Row): Acc {
    Wrap32(MaxFrom(ACC_MIN, w.Pos(w.J), RowValues(w)))
  }

  ghost function RowInvSumExp(w: Row, k: NormConsts): real {
    InvSumExp(Wrap32(Sum(w.Pos(w.J), Exps(RowValues(w), RowMax(w), k))))
  }

  /** The statistics of one row on its own. */
  ghost function Ideal(w: Row, act: Activation, k: NormConsts): NormStat {
    if act == LAYERNORM then NormStat(0, 0, 0, 0, Mean(w), RowInvStddev(w), 0.0, true)
    else NormStat(0, 0, RowMax(w), 0, 0, 0.0, RowInvSumExp(w, k), true)
  }

  /** The slot holds what outputs of its own row are computed with. */
  ghost predicate Own(t: NormStat, w: Row, act: Activation, k: NormConsts) {
    if act == LAYERNORM then t.mean == Mean(w) && t.invStddev == RowInvStddev(w)
    else t.max == RowMax(w) && t.invSumExp == RowInvSumExp(w, k)
  }

  lemma PosStep(w: Row, jj: nat)
    requires jj < w.J
    ensures 0 <= w.Pos(jj) && w.Pos(jj + 1) == w.Pos(jj) + w.Len(jj) && w.Pos(0) == 0
  {
    MulLe(0, jj, DIM);
    assert (jj + 1) * DIM == jj * DIM + DIM;
  }

  lemma LenPositive(w: Row, jj: int)
    requires 0 < w.last || jj < w.J - 1
    ensures 0 < w.Len(jj)
  {
  }

  lemma PosNat(w: Row, jj: nat)
    ensures 0 <= w.Pos(jj) && (w.J > 0 ==> w.Pos(0) == 0)
  {
    MulLe(0, jj, DIM);
    if w.J > 0 { MulLe(0, w.J - 1, DIM); }
  }

  lemma BlockAt(w: Row, jj: nat, n: int)
    requires w.last <= DIM && jj < w.J && 0 <= n < w.Len(jj)
    ensures RowValues(w)(w.Pos(jj) + n) == w.b(jj)(n)
  {
    DivUnique(jj * DIM + n, DIM, jj, n);
  }

  /** A per-element sum over the row grows block by block. */
  lemma SumBlock(w: Row, jj: nat, f: int -> int, g: int -> int)
    requires w.last <= DIM && jj < w.J && 0 <= w.Pos(jj)
    requires forall n :: 0 <= n < w.Len(jj) ==> g(n) == f(w.Pos(jj) + n)
    ensures 0 <= w.Pos(jj + 1) && Sum(w.Pos(jj + 1), f) == Sum(w.Pos(jj), f) + Sum(w.Len(jj), g)
  {
    hide Row.Pos, Row.Len, Sum;
    PosStep(w, jj);
    SumSplit(w.Pos(jj), w.Len(jj), f, g);
  }

  lemma {:induction false} MaxSplit(start: int, n: nat, m: nat, f: int -> int, g: int -> int)
    requires forall i :: 0 <= i < m ==> g(i) == f(n + i)
    ensures MaxFrom(start, n + m, f) == MaxFrom(MaxFrom(start, n, f), m, g)
  {
    if m > 0 {
      MaxSplit(start, n, m - 1, f, g);
      assert g(m - 1) == f(n + (m - 1));
    }
  }

  ghost predicate AccRow(w: Row) {
    forall n :: 0 <= n < w.Pos(w.J) ==> -0x8000_0000 <= RowValues(w)(n) <= 0x7fff_ffff
  }

  lemma {:induction false} MaxInRange(start: Acc, n: nat, f: int -> int)
    requires forall i :: 0 <= i < n ==> -0x8000_0000 <= f(i) <= 0x7fff_ffff
    ensures -0x8000_0000 <= MaxFrom(start, n, f) <= 0x7fff_ffff
  {
    if n > 0 { MaxInRange(start, n - 1, f); }
  }

  /** First layernorm pass: running sum and count, then the mean. */
  lemma {:induction false} MeanPass(s: NormStat, w: Row, k: NormConsts, jj: nat)
    requires s.reset && 0 < jj <= w.J && 0 < w.last <= DIM
    ensures 0 <= w.Pos(jj)
    ensures var t := Pass(s, w, LAYERNORM, k, 0, jj);
            && t.sum == Wrap32(Sum(w.Pos(jj), RowValues(w))) && t.count == Wrap32(w.Pos(jj)) && (t.reset <==> jj == w.J)
            && (jj == w.J ==> t.mean == Mean(w))
  {
    hide Wrap32, TruncDiv, Row.Pos, Row.Len, RowValues, Sum, ExpTerm, InvStddev, InvSumExp;
    var f, g := RowValues(w), w.b(jj - 1);
    LenPositive(w, jj - 1);
    PosNat(w, jj - 1);
    PosStep(w, jj - 1);
    forall n | 0 <= n < w.Len(jj - 1) ensures g(n) == f(w.Pos(jj - 1) + n) { BlockAt(w, jj - 1, n); }
    SumBlock(w, jj - 1, f, g);
    if jj == 1 {
      SumEnds(0, f);
    } else {
      MeanPass(s, w, k, jj - 1);
      WrapAdd(Sum(w.Pos(jj - 1), f), Sum(w.Len(jj - 1), g));
      WrapAdd(w.Pos(jj - 1), w.Len(jj - 1));
    }
  }

  /** Second layernorm pass: squared deviations from the mean of the first. */
  lemma {:induction false} StddevPass(s: NormStat, w: Row, k: NormConsts, jj: nat)
    requires s.reset && 0 < jj <= w.J && 0 < w.last <= DIM
    ensures 0 <= w.Pos(jj)
    ensures var t := Pass(s, w, LAYERNORM, k, 1, jj);
            && t.sum == Wrap32(Sum(w.Pos(jj), Deviations(RowValues(w), s.mean))) && t.count == Wrap32(w.Pos(jj))
               && (t.reset <==> jj == w.J)
            && t.mean == s.mean
            && (jj == w.J ==> t.invStddev == InvStddev(TruncDiv(t.sum, t.count)))
  {
    hide Wrap32, TruncDiv, Row.Pos, Row.Len, RowValues, Sum, ExpTerm, InvStddev, InvSumExp, Deviations;
    var f, g := Deviations(RowValues(w), s.mean), Deviations(w.b(jj - 1), s.mean);
    LenPositive(w, jj - 1);
    PosNat(w, jj - 1);
    PosStep(w, jj - 1);
    forall n | 0 <= n < w.Len(jj - 1) ensures g(n) == f(w.Pos(jj - 1) + n) {
      BlockAt(w, jj - 1, n);
      SameDeviation(w.b(jj - 1), RowValues(w), s.mean, n, w.Pos(jj - 1) + n);
    }
    SumBlock(w, jj - 1, f, g);
    if jj == 1 {
      SumEnds(0, f);
    } else {
      StddevPass(s, w, k, jj - 1);
      WrapAdd(Sum(w.Pos(jj - 1), f), Sum(w.Len(jj - 1), g));
      WrapAdd(w.Pos(jj - 1), w.Len(jj - 1));
    }
  }

  /** First softmax pass: the running maximum; the sum is cleared and stays clear. */
  lemma {:induction false} MaxPass(s: NormStat, w: Row, k: NormConsts, jj: nat)
    requires s.reset && 0 < jj <= w.J && w.last <= DIM && (0 < w.last || jj < w.J) && AccRow(w)
    ensures 0 <= w.Pos(jj)
    ensures var t := Pass(s, w, SOFTMAX, k, 0, jj);
            t.runningMax == MaxFrom(ACC_MIN, w.Pos(jj), RowValues(w)) && t.sum == 0 && !t.reset
  {
    hide Wrap32, TruncDiv, Row.Len, RowValues, ExpTerm, InvStddev, InvSumExp, AccRow, Row.Pos, MaxFrom, Sum;
    var f, g := RowValues(w), w.b(jj - 1);
    LenPositive(w, jj - 1);
    PosNat(w, jj - 1);
    PosStep(w, jj - 1);
    forall n | 0 <= n < w.Len(jj - 1) ensures g(n) == f(w.Pos(jj - 1) + n) { BlockAt(w, jj - 1, n); }
    MaxSplit(ACC_MIN, w.Pos(jj - 1), w.Len(jj - 1), f, g);
    MaxPrefixInRange(w, jj);
    WrapSame(MaxFrom(ACC_MIN, w.Pos(jj), f));
    if jj == 1 {
      MaxNothing(ACC_MIN, f);
    } else {
      MaxPass(s, w, k, jj - 1);
    }
  }

  lemma MaxNothing(start: int, f: int -> int)
    ensures MaxFrom(start, 0, f) == start
  {
  }

  lemma PosMonotone(w: Row, jj: nat)
    requires jj <= w.J && w.last <= DIM
    ensures 0 <= w.Pos(jj) <= w.Pos(w.J)
    decreases w.J - jj
  {
    PosNat(w, jj);
    if jj < w.J {
      PosStep(w, jj);
      PosMonotone(w, jj + 1);
    }
  }

  lemma MaxPrefixInRange(w: Row, jj: nat)
    requires AccRow(w) && jj <= w.J && w.last <= DIM
    ensures 0 <= w.Pos(jj) && -0x8000_0000 <= MaxFrom(ACC_MIN, w.Pos(jj), RowValues(w)) <= 0x7fff_ffff
  {
    hide Row.Pos, RowValues;
    PosMonotone(w, jj);
    MaxInRange(ACC_MIN, w.Pos(jj), RowValues(w));
  }

  /** Second softmax pass: exponentials relative to the maximum of the first. */
  lemma {:induction false} ExpPass(s: NormStat, w: Row, k: NormConsts, jj: nat)
    requires !s.reset && s.sum == 0 && 0 < jj <= w.J && w.last <= DIM && (0 < w.last || jj < w.J)
    ensures 0 <= w.Pos(jj)
    ensures var t := Pass(s, w, SOFTMAX, k, 1, jj);
            && t.sum == Wrap32(Sum(w.Pos(jj), Exps(RowValues(w), s.runningMax, k))) && t.max == s.runningMax && !t.reset
            && (jj < w.J ==> t.runningMax == s.runningMax)
            && (jj == w.J ==> t.invSumExp == InvSumExp(t.sum))
  {
    hide Wrap32, TruncDiv, Row.Pos, Row.Len, RowValues, Sum, ExpTerm, InvStddev, InvSumExp, Exps;
    var f, g := Exps(RowValues(w), s.runningMax, k), Exps(w.b(jj - 1), s.runningMax, k);
    LenPositive(w, jj - 1);
    PosNat(w, jj - 1);
    PosStep(w, jj - 1);
    forall n | 0 <= n < w.Len(jj - 1) ensures g(n) == f(w.Pos(jj - 1) + n) {
      BlockAt(w, jj - 1, n);
      ExpsAt(RowValues(w), s.runningMax, k, w.Pos(jj - 1) + n);
      ExpsAt(w.b(jj - 1), s.runningMax, k, n);
    }
    SumBlock(w, jj - 1, f, g);
    if jj == 1 {
      SumEnds(0, f);
    } else {
      ExpPass(s, w, k, jj - 1);
      WrapAdd(Sum(w.Pos(jj - 1), f), Sum(w.Len(jj - 1), g));
    }
  }

  /** The write pass disturbs no output and leaves the slot ready for its next row. */
  lemma {:induction false} ResetPass(s: NormStat, w: Row, act: Activation, k: NormConsts, jj: nat)
    ensures SameOutputs(s, Pass(s, w, act, k, 2, jj))
    ensures s.reset || (0 < jj && (w.J > 1 || w.last > 0)) ==> Pass(s, w, act, k, 2, jj).reset
  {
    if jj > 0 { ResetPass(s, w, act, k, jj - 1); }
  }

  /** Two passes give a slot the statistics of its own row, whatever it held before. */
  lemma TwoPasses(s: NormStat, w: Row, act: Activation, k: NormConsts)
    requires IsNorm(act) && s.reset && 0 < w.J && 0 < w.last <= DIM && AccRow(w)
    ensures Own(Passes(s, w, act, k, 2), w, act, k)
  {
    hide Wrap32, TruncDiv, Row.Pos, Row.Len, RowValues, Sum, ExpTerm, InvStddev, InvSumExp, Exps, AccRow, MaxFrom,
         Deviations, NormStep;
    var s1 := Passes(s, w, act, k, 1);
    assert s1 == Pass(Passes(s, w, act, k, 0), w, act, k, 0, w.J);
    assert Passes(s, w, act, k, 2) == Pass(s1, w, act, k, 1, w.J);
    if act == LAYERNORM {
      MeanPass(s, w, k, w.J);
      StddevPass(s1, w, k, w.J);
    } else {
      MaxPass(s, w, k, w.J);
      MaxPrefixInRange(w, w.J);
      WrapSame(MaxFrom(ACC_MIN, w.Pos(w.J), RowValues(w)));
      ExpPass(s1, w, k, w.J);
    }
  }

  // Rows whose last block is all padding.

  /** The finishing commands are issued with the last block only, so neither pass finishes. */
  lemma {:induction false} NoFinish(s: NormStat, w: Row, act: Activation, k: NormConsts, pass: nat, jj: nat)
    requires IsNorm(act) && w.last == 0 && jj <= w.J && pass < 2
    ensures var t := Pass(s, w, act, k, pass, jj);
            && t.mean == s.mean && t.invStddev == s.invStddev && t.invSumExp == s.invSumExp
            && (act == LAYERNORM || w.J == 1 || pass == 0 ==> t.max == s.max)
  {
    hide Sum, MaxFrom, ExpTerm, Wrap32, TruncDiv, InvStddev, InvSumExp, Deviations, Exps;
    if jj > 0 { NoFinish(s, w, act, k, pass, jj - 1); }
  }

  /** The mean, the deviation and the exponential sum stay those of whatever row came before; only the softmax maximum
      is the row's own, once it has a block at all. */
  lemma EmptyLastBlock(s: NormStat, w: Row, act: Activation, k: NormConsts)
    requires IsNorm(act) && s.reset && 0 < w.J && w.last == 0 && AccRow(w)
    ensures var t := Passes(s, w, act, k, 2);
            && t.mean == s.mean && t.invStddev == s.invStddev && t.invSumExp == s.invSumExp
            && t.max == if act == SOFTMAX && w.J > 1 then RowMax(w) else s.max
  {
    hide Wrap32, TruncDiv, Row.Len, RowValues, Sum, ExpTerm, InvStddev, InvSumExp, Exps, AccRow, MaxFrom, Deviations,
         NormStep, Pass;
    var s1 := Pass(s, w, act, k, 0, w.J);
    assert Passes(s, w, act, k, 1) == s1 by { assert Passes(s, w, act, k, 0) == s; }
    NoFinish(s, w, act, k, 0, w.J);
    NoFinish(s1, w, act, k, 1, w.J);
    if act == SOFTMAX && w.J > 1 {
      LastShowsNothing(s, w, act, k, 0);
      LastShowsNothing(s1, w, act, k, 1);
      MaxPass(s, w, k, w.J - 1);
      MaxPrefixInRange(w, w.J);
      WrapSame(MaxFrom(ACC_MIN, w.Pos(w.J), RowValues(w)));
      ExpPass(s1, w, k, w.J - 1);
    }
  }

  lemma LastShowsNothing(s: NormStat, w: Row, act: Activation, k: NormConsts, pass: nat)
    requires 0 < w.J && w.last == 0
    ensures Pass(s, w, act, k, pass, w.J) == Pass(s, w, act, k, pass, w.J - 1)
  {
    hide NormStep;
  }

  /** Two passes give every reset slot the statistics of its own row if and only if the last block has a column. */
  lemma OwnIffLastBlock(w: Row, act: Activation, k: NormConsts)
    requires IsNorm(act) && 0 < w.J && w.last <= DIM && AccRow(w)
    ensures (forall s: NormStat :: s.reset ==> Own(Passes(s, w, act, k, 2), w, act, k)) <==> 0 < w.last
  {
    hide AccRow, Mean, RowInvStddev, RowMax, RowInvSumExp, Passes;
    if w.last == 0 {
      var other: Acc := if Mean(w) == 0 then 1 else 0;
      var s := NormStat(0, 0, 0, 0, other, 0.0, RowInvSumExp(w, k) + 1.0, true);
      EmptyLastBlock(s, w, act, k);
      assert !Own(Passes(s, w, act, k, 2), w, act, k);
    } else {
      forall s: NormStat | s.reset ensures Own(Passes(s, w, act, k, 2), w, act, k) {
        TwoPasses(s, w, act, k);
      }
    }
  }

  // What that does to an output: one column of ones, then a longer row of zeros with an empty last block.

  function Constant(v: Acc, J: nat, last: nat): Row { Row((jj: int) => (n: int) => v as int, J, last) }

  lemma {:induction false} SumConstant(n: nat, f: int -> int, v: int)
    requires forall i :: 0 <= i < n ==> f(i) == v
    ensures Sum(n, f) == n * v
  {
    if n > 0 {
      SumConstant(n - 1, f, v);
      assert n * v == (n - 1) * v + v;
    }
  }

  lemma {:induction false} MaxConstant(n: nat, f: int -> int, v: Acc)
    requires n > 0 && forall i :: 0 <= i < n ==> f(i) == v
    ensures MaxFrom(ACC_MIN, n, f) == v
  {
    if n > 1 { MaxConstant(n - 1, f, v); } else { assert MaxFrom(ACC_MIN, 0, f) == ACC_MIN; }
  }

  lemma ConstantRow(v: Acc, J: nat, last: nat)
    ensures AccRow(Constant(v, J, last)) && forall n :: RowValues(Constant(v, J, last))(n) == v
  {
  }

  /** A row of one column passed through a reset slot leaves that column's statistics, reset again. */
  lemma OneColumn(s: NormStat, v: Acc, act: Activation, k: NormConsts)
    requires IsNorm(act) && s.reset
    ensures var w, t := Constant(v, 1, 1), Passes(s, Constant(v, 1, 1), act, k, 3);
            t.reset && Own(t, w, act, k)
  {
    hide AccRow, Mean, RowInvStddev, RowMax, RowInvSumExp, Pass;
    var w := Constant(v, 1, 1);
    ConstantRow(v, 1, 1);
    TwoPasses(s, w, act, k);
    ResetPass(Passes(s, w, act, k, 2), w, act, k, w.J);
  }

  lemma ConstantMoments(v: Acc, J: nat, last: nat)
    requires 0 < Constant(v, J, last).Pos(J) && (v == 0 || Constant(v, J, last).Pos(J) == 1)
    ensures Mean(Constant(v, J, last)) == v && RowInvStddev(Constant(v, J, last)) == 1.0
  {
    hide Row.Pos, RowValues, Sum, TruncDiv, Wrap32, InvStddev, Deviations;
    var w := Constant(v, J, last);
    var n, f := w.Pos(J), RowValues(w);
    ConstantRow(v, J, last);
    SumConstant(n, f, v);
    ConstantQuotients(v, n);
    forall i | 0 <= i < n ensures Deviations(f, v)(i) == 0 { NoDeviation(f, v, i); }
    SumConstant(n, Deviations(f, v), 0);
  }

  lemma NoDeviation(f: int -> int, v: int, i: int)
    requires f(i) == v
    ensures Deviations(f, v)(i) == 0
  {
  }

  lemma ConstantQuotients(v: Acc, n: nat)
    requires 0 < n && (v == 0 || n == 1)
    ensures Wrap32(TruncDiv(Wrap32(n * v), Wrap32(n))) == v
    ensures InvStddev(TruncDiv(Wrap32(n * 0), Wrap32(n))) == 1.0
  {
    WrapSame(v);
    WrapSame(0);
    assert TruncDiv(0, Wrap32(n)) == 0;
  }

  /** Layernorm: zero is written as -1 where its own row would make it 0. */
  lemma StaleLayernorm(cfg: Config, s: NormStat, full: bool)
    requires cfg.accAct == LAYERNORM && s.reset && (full || cfg.accScale == 1.0)
    ensures var before, w := Passes(s, Constant(1, 1, 1), LAYERNORM, cfg.consts, 3), Constant(0, 2, 0);
            && before.reset
            && OutValue(cfg, Passes(before, w, LAYERNORM, cfg.consts, 2), full, 0) == -1
            && OutValue(cfg, Ideal(w, LAYERNORM, cfg.consts), full, 0) == 0
  {
    hide Passes, AccRow, Mean, RowInvStddev, RowMax, RowInvSumExp, Constant, Scale;
    var w, before := Constant(0, 2, 0), Passes(s, Constant(1, 1, 1), LAYERNORM, cfg.consts, 3);
    OneColumn(s, 1, LAYERNORM, cfg.consts);
    ConstantRow(0, 2, 0);
    Positions();
    ConstantMoments(1, 1, 1);
    ConstantMoments(0, 2, 0);
    EmptyLastBlock(before, w, LAYERNORM, cfg.consts);
    NormalisedByOne(0, 1);
    NormalisedByOne(0, 0);
    ScaleIdentity(-1);
    ScaleIdentity(0);
  }

  lemma Positions()
    ensures Constant(1, 1, 1).Pos(1) == 1 && Constant(0, 1, 1).Pos(1) == 1
    ensures Constant(0, 2, 0).Pos(2) == DIM && Constant(0, 3, 0).Pos(3) == 2 * DIM
    ensures Constant(0, 2, 0).J == 2 && Constant(0, 2, 0).last == 0 && Constant(0, 3, 0).J == 3
    ensures Constant(0, 3, 0).last == 0
  {
  }

  lemma NormalisedByOne(v: Acc, mean: Acc)
    requires -1 <= v - mean <= 0
    ensures Normalised(v, mean, 1.0) == v - mean
  {
    WrapSame(v - mean);
  }

  /** Constants under which the exponential of zero is one. */
  const UNIT_EXP := NormConsts(0, 1, 0, 0)

  lemma ConstantExps(J: nat, last: nat)
    requires 0 < Constant(0, J, last).Pos(J)
    ensures RowMax(Constant(0, J, last)) == 0
    ensures RowInvSumExp(Constant(0, J, last), UNIT_EXP) == InvSumExp(Wrap32(Constant(0, J, last).Pos(J)))
  {
    hide Row.Pos, RowValues, InvSumExp;
    var w := Constant(0, J, last);
    var n, f := w.Pos(J), RowValues(w);
    ConstantRow(0, J, last);
    MaxConstant(n, f, 0);
    WrapSame(0);
    ExpOfZero();
    forall i | 0 <= i < n ensures Exps(f, 0, UNIT_EXP)(i) == 1 { ExpsAt(f, 0, UNIT_EXP, i); }
    SumConstant(n, Exps(f, 0, UNIT_EXP), 1);
  }

  lemma ExpOfZero()
    ensures ExpTerm(0, 0, UNIT_EXP) == 1 && IExp(Wrap32(0), UNIT_EXP) == 1
  {
    WrapSame(0);
    WrapSame(1);
  }

  /** Softmax: each of a row of equal values is written as the whole 127 where its own row would give it a share. */
  lemma StaleSoftmax(cfg: Config, s: NormStat, full: bool)
    requires cfg.accAct == SOFTMAX && cfg.consts == UNIT_EXP && s.reset && (full || cfg.accScale == 1.0)
    ensures var before, w := Passes(s, Constant(0, 1, 1), SOFTMAX, cfg.consts, 3), Constant(0, 3, 0);
            && before.reset
            && OutValue(cfg, Passes(before, w, SOFTMAX, cfg.consts, 2), full, 0) == 127
            && OutValue(cfg, Ideal(w, SOFTMAX, cfg.consts), full, 0) <= 64
  {
    hide Passes, AccRow, Mean, RowInvStddev, RowMax, RowInvSumExp, Constant, Scale, IExp, InvSumExp;
    var w, before := Constant(0, 3, 0), Passes(s, Constant(0, 1, 1), SOFTMAX, cfg.consts, 3);
    OneColumn(s, 0, SOFTMAX, cfg.consts);
    ConstantRow(0, 3, 0);
    Positions();
    ConstantExps(1, 1);
    ConstantExps(3, 0);
    EmptyLastBlock(before, w, SOFTMAX, cfg.consts);
    ExpOfZero();
    WholeAndShare();
    ScaleIdentity(127);
    ScaleIdentity(Scale(1, InvSumExp(Wrap32(2 * DIM))));
  }

  lemma WholeAndShare()
    ensures Scale(1, InvSumExp(Wrap32(1))) == 127 && Scale(1, InvSumExp(Wrap32(2 * DIM))) <= 64
  {
    WrapSame(1);
    ScaleIdentity(127);
    assert 1 as real * 127.0 == 127 as real * 1.0;
    var n := Wrap32(2 * DIM);
    assert n % 2 == 0;
    var x := InvSumExp(n);
    assert x <= 63.5 by {
      if n >= 2 { assert 127.0 / n as real <= 127.0 / 2.0; }
    }
    assert 1 as real * x == x;
    RoundIsNearest(x);
  }

  /** A pass looks only at the columns of its row. */
  lemma {:induction false} PassSame(s: NormStat, w: Row, w': Row, act: Activation, k: NormConsts, pass: nat, jj: nat)
    requires w.J == w'.J && w.last == w'.last && jj <= w.J
    requires forall t, n :: 0 <= t < jj && 0 <= n < w.Len(t) ==> w.b(t)(n) == w'.b(t)(n)
    ensures Pass(s, w, act, k, pass, jj) == Pass(s, w', act, k, pass, jj)
  {
    hide NormStep;
    if jj > 0 {
      PassSame(s, w, w', act, k, pass, jj - 1);
      var t := Pass(s, w, act, k, pass, jj - 1);
      NormStepSame(t, w.b(jj - 1), w'.b(jj - 1), w.Len(jj - 1), Cmd(act, pass, jj == w.J), k);
    }
  }

  lemma {:induction false} PassesSame(s: NormStat, w: Row, w': Row, act: Activation, k: NormConsts, n: nat)
    requires w.J == w'.J && w.last == w'.last
    requires forall t, c :: 0 <= t < w.J && 0 <= c < w.Len(t) ==> w.b(t)(c) == w'.b(t)(c)
    ensures Passes(s, w, act, k, n) == Passes(s, w', act, k, n)
  {
    hide Pass;
    if n > 0 {
      PassesSame(s, w, w', act, k, n - 1);
      PassSame(Passes(s, w, act, k, n - 1), w, w', act, k, n - 1, w.J);
    }
  }

  lemma ColumnOf(w: Row, n: int)
    requires 0 < w.J && w.last <= DIM && 0 <= n < w.Pos(w.J)
    ensures 0 <= n / DIM < w.J && 0 <= n % DIM < w.Len(n / DIM)
  {
    var q := n / DIM;
    assert n == q * DIM + n % DIM;
    assert w.J * DIM == (w.J - 1) * DIM + DIM;
    if q >= w.J { MulLe(w.J, q, DIM); }
  }

  /** Rows of the same values have the same statistics. */
  lemma SameIdeal(w: Row, w': Row, act: Activation, k: NormConsts)
    requires w.J == w'.J && w.last == w'.last <= DIM && 0 < w.J
    requires forall t, c :: 0 <= t < w.J && 0 <= c < w.Len(t) ==> w.b(t)(c) == w'.b(t)(c)
    ensures Ideal(w, act, k) == Ideal(w', act, k)
  {
    hide Sum, MaxFrom, ExpTerm, Wrap32, TruncDiv, InvStddev, InvSumExp, Deviations, Exps, Row.Len;
    PosNat(w, w.J);
    var n, x, y := w.Pos(w.J), RowValues(w), RowValues(w');
    forall i | 0 <= i < n ensures x(i) == y(i) { ColumnOf(w, i); }
    hide RowValues;
    SumSame(n, x, y);
    MaxFromSame(ACC_MIN, n, x, y);
    forall i | 0 <= i < n ensures Deviations(x, Mean(w))(i) == Deviations(y, Mean(w))(i) {
      SameDeviation(x, y, Mean(w), i, i);
    }
    SumSame(n, Deviations(x, Mean(w)), Deviations(y, Mean(w)));
    forall i | 0 <= i < n ensures Exps(x, RowMax(w), k)(i) == Exps(y, RowMax(w), k)(i) {
      ExpsAt(x, RowMax(w), k, i);
      ExpsAt(y, RowMax(w), k, i);
    }
    SumSame(n, Exps(x, RowMax(w), k), Exps(y, RowMax(w), k));
  }

  /** All three passes leave a slot that was reset reset. */
  lemma PassesReset(s: NormStat, w: Row, act: Activation, k: NormConsts)
    requires s.reset
    ensures Passes(s, w, act, k, 3).reset
  {
    hide Pass;
    var s2 := Passes(s, w, act, k, 2);
    assert Passes(s, w, act, k, 3) == Pass(s2, w, act, k, 2, w.J);
    ResetPass(s2, w, act, k, w.J);
    if w.J == 0 || (w.J == 1 && w.last == 0) {
      NothingShown(s, w, act, k, 0);
      NothingShown(s, w, act, k, 1);
      assert Passes(s, w, act, k, 1) == Pass(Passes(s, w, act, k, 0), w, act, k, 0, w.J);
      assert s2 == Pass(Passes(s, w, act, k, 1), w, act, k, 1, w.J);
    }
  }

  lemma NothingShown(s: NormStat, w: Row, act: Activation, k: NormConsts, pass: nat)
    requires w.J == 0 || (w.J == 1 && w.last == 0)
    ensures Pass(s, w, act, k, pass, w.J) == s
  {
    assert Pass(s, w, act, k, pass, 0) == s;
  }

  /** Values written under the row's own statistics. */
  lemma IdealOutputs(cfg: Config, t: NormStat, w: Row, full: bool, v: Acc)
    requires IsNorm(cfg.accAct)
    requires Own(t, w, cfg.accAct, cfg.consts)
    ensures OutValue(cfg, t, full, v) == OutValue(cfg, Ideal(w, cfg.accAct, cfg.consts), full, v)
  {
    hide Wrap32, Mean, RowInvStddev, RowMax, RowInvSumExp, Normalised, IExp, Scale;
  }
}
