/** The row-addressed memories: scratchpad, accumulator and the array's own registers. */
module Grid {
  import opened Params

  predicate Rect<T>(m: seq<seq<T>>, rows: nat) {
    |m| == rows && forall r :: 0 <= r < rows ==> |m[r]| == DIM
  }

  type Spad = m: seq<seq<Elem>> | Rect(m, SPAD_ROWS) witness seq(SPAD_ROWS, _ => seq(DIM, _ => 0))
  type AccMem = m: seq<seq<Acc>> | Rect(m, ACC_ROWS) witness seq(ACC_ROWS, _ => seq(DIM, _ => 0))
  type PeGrid = m: seq<seq<Acc>> | Rect(m, DIM) witness seq(DIM, _ => seq(DIM, _ => 0))

  /** Reads are total so that they can appear under quantifiers: outside the memory they give 0. */
  function At(m: seq<seq<int>>, r: int, c: int): int {
    if 0 <= r < |m| && 0 <= c < |m[r]| then m[r][c] else 0
  }

  lemma SpadRange(m: Spad, r: int, c: int)
    ensures -128 <= At(m, r, c) <= 127
  {
  }

  lemma AccRange(m: seq<seq<Acc>>, r: int, c: int)
    ensures -0x8000_0000 <= At(m, r, c) <= 0x7fff_ffff
  {
  }

  lemma OutsideSpad(m: Spad, r: int, c: int)
    requires !(0 <= r && 0 <= c < DIM)
    ensures At(m, r, c) == 0
  {
  }

  lemma OutsideAcc(m: AccMem, r: int, c: int)
    requires !(0 <= r && 0 <= c < DIM)
    ensures At(m, r, c) == 0
  {
  }

  function AccAt(m: AccMem, r: int, c: int): (v: Acc)
    ensures v == At(m, r, c)
  {
    AccRange(m, r, c);
    At(m, r, c)
  }

  function SpadAt(m: Spad, r: int, c: int): (v: Elem)
    ensures v == At(m, r, c)
  {
    SpadRange(m, r, c);
    At(m, r, c)
  }

  function SetSpad(m: Spad, r: int, c: int, v: Elem): (m': Spad)
    requires 0 <= r < SPAD_ROWS && 0 <= c < DIM
    ensures forall R, C :: At(m', R, C) == if R == r && C == c then v else At(m, R, C)
  {
    var row: seq<Elem> := m[r][c := v];
    m[r := row]
  }

  function SetAcc(m: AccMem, r: int, c: int, v: Acc): (m': AccMem)
    requires 0 <= r < ACC_ROWS && 0 <= c < DIM
    ensures forall R, C :: At(m', R, C) == if R == r && C == c then v else At(m, R, C)
  {
    var row: seq<Acc> := m[r][c := v];
    m[r := row]
  }

  function SetPe(m: PeGrid, r: int, c: int, v: Acc): (m': PeGrid)
    requires 0 <= r < DIM && 0 <= c < DIM
    ensures forall R, C :: At(m', R, C) == if R == r && C == c then v else At(m, R, C)
  {
    var row: seq<Acc> := m[r][c := v];
    m[r := row]
  }
}

/** Configuration registers and normalisation statistics. */
module State {
  import opened Params
  import opened Wrap
  import opened Scaling

  datatype Option<+T> = None | Some(value: T)

  datatype Dataflow = OS | WS

  datatype NormCmd = RESET | SUM | MEAN | VARIANCE | INV_STDDEV | MAX | SUM_EXP | INV_SUM_EXP

  datatype LoadState = LoadState(stride: nat, blockStride: nat, shrunk: bool, scale: real, pixels: Pos)

  datatype PoolRegs = PoolRegs(stride: nat, size: nat, outDim: nat, porows: nat, pocols: nat,
                               orows: nat, ocols: nat, lpad: nat, upad: nat)

  const NO_POOL := PoolRegs(0, 0, 0, 0, 0, 0, 0, 0, 0)

  datatype NormConsts = NormConsts(qb: Acc, qc: Acc, qln2: Acc, qln2Inv: Acc)

  datatype NormStat = NormStat(sum: Acc, runningMax: Acc, max: Acc, count: Acc, mean: Acc,
                               invStddev: real, invSumExp: real, reset: bool)

  type StatId = x: int | 0 <= x < NORM_STAT_IDS
  const STAT0 := NormStat(0, 0, 0, 0, 0, 0.0, 0.0, true)
  type NormBank = s: seq<NormStat> | |s| == NORM_STAT_IDS witness [STAT0, STAT0, STAT0, STAT0]

  datatype Config = Config(
    mode: Dataflow, sysAct: Activation, accAct: Activation, sysShift: nat,
    aTranspose: bool, bTranspose: bool, aStride: nat, cStride: nat,
    load0: LoadState, load1: LoadState, load2: LoadState,
    storeStride: nat, accScale: real, pool: PoolRegs, consts: NormConsts)
  {
    function Load(id: int): LoadState {
      if id == 0 then load0 else if id == 1 then load1 else load2
    }

    /** A two-bit activation code; code 0 keeps an earlier softmax of the store pipeline. */
    function Coded(code: int): Activation {
      if code == 0 then (if accAct == SOFTMAX then SOFTMAX else NONE)
      else if code == 1 then RELU else if code == 2 then LAYERNORM else IGELU
    }

    /** config_mvout. */
    function WithStore(stride: nat, act: int, scale: real, regs: PoolRegs): Config {
      this.(storeStride := stride, accScale := scale, pool := regs, accAct := Coded(act))
    }

    /** config_ex in full. */
    function WithExecute(flow: Dataflow, act: int, shift: nat, a: nat, c: nat, aT: bool, bT: bool): Config {
      this.(mode := flow, sysAct := Coded(act), sysShift := shift, aStride := a, cStride := c, aTranspose := aT,
            bTranspose := bT)
    }

    /** config_norm: the constants, one of the two logarithms, and the top bit of the store activation. */
    function WithNorm(q: Acc, inverse: bool, softmax: bool, qb: Acc, qc: Acc): Config {
      this.(consts := NormConsts(qb, qc, if inverse then consts.qln2 else q, if inverse then q else consts.qln2Inv),
            accAct := if softmax then SOFTMAX else accAct)
    }

    function WithLoad(id: int, ls: LoadState): Config {
      if id == 0 then this.(load0 := ls) else if id == 1 then this.(load1 := ls) else this.(load2 := ls)
    }
  }

  /** Setting one load state changes that one and nothing else. */
  lemma LoadStatesIndependent(c: Config, id: int, ls: LoadState, k: int)
    requires 0 <= id < 3 && 0 <= k < 3
    ensures var c' := c.WithLoad(id, ls);
            && c'.Load(k) == (if k == id then ls else c.Load(k))
            && c' == c.(load0 := c'.load0, load1 := c'.load1, load2 := c'.load2)
  {
  }

  /** config_ex sets its seven fields, each from its own argument, and nothing else; what it is given it keeps when the
      strides alone are set again. */
  lemma ExecuteFields(c: Config, flow: Dataflow, act: int, shift: nat, a: nat, b: nat, aT: bool, bT: bool)
    ensures var e := c.WithExecute(flow, act, shift, a, b, aT, bT);
            && e.mode == flow && (e.sysAct == RELU <==> act == 1) && (e.sysAct == LAYERNORM <==> act == 2)
            && e.sysShift == shift && e.aStride == a && e.cStride == b
            && e.aTranspose == aT && e.bTranspose == bT && e.load0 == c.load0 && e.load1 == c.load1
            && e.load2 == c.load2 && e.storeStride == c.storeStride && e.accScale == c.accScale && e.pool == c.pool
            && e.consts == c.consts && e.accAct == c.accAct
  {
  }

  /** Code 0 means "no activation" except after softmax, which it leaves in force: of two store configurations only the
      second one counts if and only if the first did not end a softmax that the second would have kept. */
  lemma SoftmaxSticks(c: Config, stride: nat, act: int, scale: real, regs: PoolRegs,
                      stride': nat, act': int, scale': real, regs': PoolRegs)
    ensures c.WithStore(stride, act, scale, regs).accAct == SOFTMAX <==> c.accAct == SOFTMAX && act == 0
    ensures var both, second := c.WithStore(stride, act, scale, regs).WithStore(stride', act', scale', regs'),
                                c.WithStore(stride', act', scale', regs');
            both == second <==> !(c.accAct == SOFTMAX && act != 0 && act' == 0)
  {
  }

  /** A decoded local address: which memory, overwrite or accumulate, and the row. */
  datatype Dest = Dest(accumulator: bool, accumulate: bool, row: nat)

  /** What mvout reads: the accumulator (int8 or full width, after a norm command) or the scratchpad. */
  datatype Source = Source(accumulator: bool, full: bool, cmd: NormCmd, row: nat)
  {
    predicate Wide() { accumulator && full }
  }

  /** What the next compute is told about its preloaded operand and its output. */
  datatype PreloadRegs = PreloadRegs(src: Option<nat>, rows: nat, cols: nat,
                                     out: Option<Dest>, outRows: nat, outCols: nat)

  function IGelu(q: Acc, qb: Acc, qc: Acc): Acc {
    var absQ := if q < 0 then 0 - q else q;
    var clipped := if absQ > 0 - qb then 0 - qb else absQ;
    var poly := (clipped + qb) * (clipped + qb) + qc;
    Wrap32(q * ((if q < 0 then -poly else poly) + qc))
  }

  /** The integer exponential; shift amounts the C++ leaves undefined give 0 here. */
  function IExp(q: Acc, k: NormConsts): Acc {
    var z := Wrap32((0 - q) * k.qln2Inv) / 0x1_0000;
    var qp := q + z * k.qln2;
    var e := Wrap32((qp + k.qb) * (qp + k.qb) + k.qc);
    if 0 <= z < 32 then Wrap32(e / Pow2(z)) else 0
  }

  /** An integer times a real, converted back to an integer. */
  function Truncated(d: int, factor: real): int { Trunc(d as real * factor) }

  function Normalised(v: Acc, mean: Acc, invStddev: real): Acc {
    Wrap32(Truncated(Wrap32(v - mean), invStddev))
  }

  function PreActivate(cfg: Config, stat: NormStat, v: Acc): Acc {
    match cfg.accAct
    case IGELU => IGelu(v, cfg.consts.qb, cfg.consts.qc)
    case LAYERNORM => Normalised(v, stat.mean, stat.invStddev)
    case SOFTMAX => Scale(IExp(Wrap32(v - stat.max), cfg.consts), stat.invSumExp)
    case _ => v
  }

  /** The statistics that later values depend on. */
  predicate SameOutputs(s: NormStat, t: NormStat) {
    s.mean == t.mean && s.invStddev == t.invStddev && s.max == t.max && s.invSumExp == t.invSumExp
  }

  /** Only the selected statistic may have moved, none of its outputs has, and a slot that was reset still is. */
  predicate NormKept(n: NormBank, n': NormBank, id: StatId) {
    && SameOutputs(n[id], n'[id]) && (n[id].reset ==> n'[id].reset)
    && forall t :: 0 <= t < NORM_STAT_IDS && t != id ==> n'[t] == n[t]
  }

  /** Every slot is ready for its next row. */
  predicate AllReset(n: NormBank) {
    forall t :: 0 <= t < NORM_STAT_IDS ==> n[t].reset
  }

  /** A call that only stores keeps every slot ready, so a normalising call may follow it. */
  lemma ResetKept(n: NormBank, n': NormBank, id: StatId)
    requires NormKept(n, n', id) && AllReset(n)
    ensures AllReset(n')
  {
  }

  lemma OutValueSame(cfg: Config, s: NormStat, t: NormStat, full: bool, v: Acc)
    requires SameOutputs(s, t)
    ensures OutValue(cfg, s, full, v) == OutValue(cfg, t, full, v)
  {
    hide Scale, IExp, IGelu, Wrap32, Normalised;
  }

  /** What mvout writes for an accumulator value. */
  function OutValue(cfg: Config, stat: NormStat, full: bool, v: Acc): (r: Acc)
    ensures !full ==> -128 <= r <= 127
  {
    var p := PreActivate(cfg, stat, v);
    if full then p else Activate(Scale(p, cfg.accScale), cfg.accAct)
  }
}
