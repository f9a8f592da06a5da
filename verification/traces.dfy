/** The two dataflows agree, and whole preload/compute traces equal their recursive gold definitions. */
module Traces {
  import opened Params
  import opened Wrap
  import opened Sums
  import opened Grid
  import opened Scaling
  import opened State
  import opened Patches
  import opened Machine

  // One matrix multiplication, both ways.

  predicate SameSettings(c: Config, c': Config) {
    c.aTranspose == c'.aTranspose && c.bTranspose == c'.bTranspose && c.aStride == c'.aStride
  }

  /** Preloading D and streaming B gives what preloading B and streaming D gives, for every shape and transpose. */
  lemma DataflowsAgree(s: Spad, os: Config, ws: Config, a: Operand, b: Operand, d: Operand, preD: PreloadRegs,
                       preB: PreloadRegs, peD: PeGrid, peB: PeGrid, i: int, j: int)
    requires os.mode == OS && ws.mode == WS && SameSettings(os, ws) && 0 <= i < DIM && 0 <= j < DIM
    requires preD.src == d.src && preD.rows == d.rows && preD.cols == d.cols
    requires preB.src == b.src && preB.rows == b.rows && preB.cols == b.cols
    requires forall x, y :: 0 <= x < DIM && 0 <= y < DIM ==> At(peD, x, y) == PreloadCell(s, preD, false, x, y)
    requires forall x, y :: 0 <= x < DIM && 0 <= y < DIM ==> At(peB, x, y) == PreloadCell(s, preB, ws.bTranspose, x, y)
    ensures OsResult(s, peD, os, a, b, i, j) == WsResult(s, peB, ws, a, d, i, j)
  {
    hide At, Wrap32, RowAt;
    var f, g := OsTerms(s, os, a, b, i, j), WsTerms(s, peB, ws, a, i, j);
    forall k | 0 <= k < DIM ensures f(k) == g(k) {
      assert At(peB, k, j) == BCell(s, os, b, k, j);
      assert ACell(s, os, a, i, k) == ACell(s, ws, a, i, k);
    }
    SumSame(DIM, f, g);
  }

  // Operations and the scratchpad cells they declare.

  /** One preload/compute pair: a new array block or the previous one, and a destination in either memory or none. */
  datatype Op = Op(a: Operand, bd: Operand, preload: bool, pre: Operand, out: Option<Dest>, rows: nat, cols: nat)

  function PreloadOf(op: Op): PreloadRegs {
    PreloadRegs(if op.preload then op.pre.src else None, op.pre.rows, op.pre.cols, op.out, op.rows, op.cols)
  }

  function Turned(cfg: Config): bool { cfg.mode == WS && cfg.bTranspose }

  predicate InA(cfg: Config, a: Operand, R: int, C: int) {
    && a.src.Some? && Strided(a.src.value, cfg.aStride, if cfg.aTranspose then a.cols else a.rows, R)
    && 0 <= C < if cfg.aTranspose then a.rows else a.cols
  }

  /** Cell (R, C) of a block of rows by columns, stored plainly or turned. */
  predicate InBlock(b: Operand, turned: bool, R: int, C: int) {
    && b.src.Some? && 0 <= R - b.src.value < (if turned then b.cols else b.rows)
    && 0 <= C < if turned then b.rows else b.cols
  }

  /** The operation declares cell (R, C) as part of an operand. */
  predicate Declares(op: Op, cfg: Config, R: int, C: int) {
    || InA(cfg, op.a, R, C) || InBlock(op.bd, cfg.mode == OS && cfg.bTranspose, R, C)
    || (op.preload && InBlock(op.pre, Turned(cfg), R, C))
  }

  ghost predicate Agree(op: Op, cfg: Config, s: Spad, s': Spad) {
    forall R, C :: Declares(op, cfg, R, C) ==> At(s', R, C) == At(s, R, C)
  }

  lemma StridedAt(base: int, stride: nat, n: int, x: int)
    requires 0 <= x < n
    ensures Strided(base, stride, n, RowAt(base, stride, x))
  {
    if stride > 0 { DivUnique(stride * x, stride, x, 0); }
  }

  /** What an operation reads is determined by the cells it declares. */
  lemma DeclaredDecide(op: Op, cfg: Config, s: Spad, s': Spad, i: int, j: int, k: int)
    requires Agree(op, cfg, s, s') && 0 <= i && 0 <= j && 0 <= k
    ensures ACell(s', cfg, op.a, i, k) == ACell(s, cfg, op.a, i, k)
    ensures cfg.mode == WS ==> DCell(s', op.bd, i, j) == DCell(s, op.bd, i, j)
    ensures cfg.mode == OS ==> BCell(s', cfg, op.bd, k, j) == BCell(s, cfg, op.bd, k, j)
    ensures op.preload ==>
            PreloadCell(s', PreloadOf(op), Turned(cfg), i, j) == PreloadCell(s, PreloadOf(op), Turned(cfg), i, j)
  {
    hide At, Strided, RowAt;
    if op.a.src.Some? && i < op.a.rows && k < op.a.cols {
      var x, c := if cfg.aTranspose then k else i, if cfg.aTranspose then i else k;
      StridedAt(op.a.src.value, cfg.aStride, if cfg.aTranspose then op.a.cols else op.a.rows, x);
      assert Declares(op, cfg, RowAt(op.a.src.value, cfg.aStride, x), c);
    }
    if op.bd.src.Some? {
      var bT := cfg.mode == OS && cfg.bTranspose;
      if i < op.bd.rows && j < op.bd.cols && cfg.mode == WS { assert Declares(op, cfg, op.bd.src.value + i, j); }
      if k < op.bd.rows && j < op.bd.cols && cfg.mode == OS {
        assert Declares(op, cfg, op.bd.src.value + (if bT then j else k), if bT then k else j);
      }
    }
    if op.preload && op.pre.src.Some? && i < op.pre.rows && j < op.pre.cols {
      assert Declares(op, cfg, op.pre.src.value + (if Turned(cfg) then j else i), if Turned(cfg) then i else j);
    }
  }

  /** Scratchpad contents outside the declared rows and columns never matter: preload and compute leave the same
      results and the same array, in either dataflow. */
  lemma StaleContentsIgnored(op: Op, cfg: Config, s: Spad, s': Spad, pe: PeGrid, loaded: PeGrid, loaded': PeGrid,
                             after: PeGrid, after': PeGrid, values: PeGrid, values': PeGrid, i: int, j: int)
    requires Agree(op, cfg, s, s') && 0 <= i < DIM && 0 <= j < DIM
    requires Loaded(cfg, PreloadOf(op), op.preload, s, pe, loaded)
    requires Multiplied(cfg, op.a, op.bd, s, loaded, after, values)
    requires Loaded(cfg, PreloadOf(op), op.preload, s', pe, loaded')
    requires Multiplied(cfg, op.a, op.bd, s', loaded', after', values')
    ensures At(values, i, j) == At(values', i, j) && At(after, i, j) == At(after', i, j)
  {
    hide At, Wrap32, ACell, BCell, DCell, PreloadCell, Agree;
    forall x, y | 0 <= x < DIM && 0 <= y < DIM ensures At(loaded, x, y) == At(loaded', x, y) {
      DeclaredDecide(op, cfg, s, s', x, y, 0);
    }
    DeclaredDecide(op, cfg, s, s', i, j, 0);
    if cfg.mode == WS {
      var f, g := WsTerms(s, loaded, cfg, op.a, i, j), WsTerms(s', loaded', cfg, op.a, i, j);
      forall k | 0 <= k < DIM ensures f(k) == g(k) { DeclaredDecide(op, cfg, s, s', i, j, k); }
      SumSame(DIM, f, g);
    } else {
      var f, g := OsTerms(s, cfg, op.a, op.bd, i, j), OsTerms(s', cfg, op.a, op.bd, i, j);
      forall k | 0 <= k < DIM ensures f(k) == g(k) { DeclaredDecide(op, cfg, s, s', i, j, k); }
      SumSame(DIM, f, g);
    }
  }

  // Traces.

  /** What a trace starts from. */
  datatype Run = Run(cfg: Config, ops: seq<Op>, s: Spad, pe: PeGrid, m: AccMem)

  predicate OpFits(op: Op, cfg: Config) {
    && ABounds(cfg, op.a) && BDBounds(cfg, op.bd)
    && PreloadBounds(cfg, PreloadOf(op)) && OutBounds(cfg, PreloadOf(op))
  }

  /** Output cell (R, C) belongs to the operation. */
  predicate Writes(op: Op, cfg: Config, R: int, C: int) {
    op.out.Some? && Strided(op.out.value.row, cfg.cStride, op.rows, R) && 0 <= C < op.cols
  }

  /** Outputs to the scratchpad do not overwrite operands declared later. */
  ghost predicate Trace(ops: seq<Op>, cfg: Config) {
    && (forall n :: 0 <= n < |ops| ==> OpFits(ops[n], cfg))
    && (forall g, n, R, C ::
          0 <= g < n < |ops| && ToSpad(ops[g]) && Writes(ops[g], cfg, R, C) ==> !Declares(ops[n], cfg, R, C))
  }

  /** The array as step n multiplies with it: its own preload, or what the steps before it left. */
  ghost function LoadedGold(z: Run, n: nat, i: int, j: int): int
    requires n < |z.ops|
    decreases n, 1
  {
    if z.ops[n].preload then PreloadCell(z.s, PreloadOf(z.ops[n]), Turned(z.cfg), i, j) else ArrayGold(z, n, i, j)
  }

  /** The array after n steps: the last preloaded block (WS), the running sum (OS). */
  ghost function ArrayGold(z: Run, n: nat, i: int, j: int): int
    requires n <= |z.ops|
    decreases n, 0
  {
    if n == 0 then At(z.pe, i, j)
    else if z.cfg.mode == WS then LoadedGold(z, n - 1, i, j)
    else Gold(z, n - 1, i, j)
  }

  ghost function WsGoldTerms(z: Run, n: nat, i: int, j: int): int -> int
    requires n < |z.ops|
    decreases n, 2
  {
    k => ACell(z.s, z.cfg, z.ops[n].a, i, k) * LoadedGold(z, n, k, j)
  }

  ghost function OsGoldTerms(z: Run, n: nat, i: int, j: int): int -> int
    requires n < |z.ops|
  {
    k => ACell(z.s, z.cfg, z.ops[n].a, i, k) * BCell(z.s, z.cfg, z.ops[n].bd, k, j)
  }

  /** The gold value of step n: A times the array on top of D (WS), or A times B on top of the array (OS). */
  ghost function Gold(z: Run, n: nat, i: int, j: int): Acc
    requires n < |z.ops|
    decreases n, 3
  {
    if z.cfg.mode == WS then Wrap32(DCell(z.s, z.ops[n].bd, i, j) + Sum(DIM, WsGoldTerms(z, n, i, j)))
    else Wrap32(LoadedGold(z, n, i, j) + Sum(DIM, OsGoldTerms(z, n, i, j)))
  }

  /** The results of step n. */
  ghost predicate IsGold(z: Run, n: nat, values: PeGrid)
    requires n < |z.ops|
  {
    forall i, j :: 0 <= i < DIM && 0 <= j < DIM ==> At(values, i, j) == Gold(z, n, i, j)
  }

  predicate ToAcc(op: Op) { op.out.Some? && op.out.value.accumulator }
  predicate ToSpad(op: Op) { op.out.Some? && !op.out.value.accumulator }

  /** Accumulator cell (R, C) after the first i result rows of step n, and after n whole steps. */
  ghost function AccRowGold(z: Run, n: nat, R: int, C: int, i: nat): int
    requires n < |z.ops| && z.ops[n].out.Some?
    decreases n, 5, i
  {
    if i == 0 then AccGold(z, n, R, C)
    else
      var op, was := z.ops[n], AccRowGold(z, n, R, C, i - 1);
      if R == RowAt(op.out.value.row, z.cfg.cStride, i - 1) && C < op.cols
      then Landed(was, Gold(z, n, i - 1, C), op.out.value.accumulate) else was
  }

  ghost function AccGold(z: Run, n: nat, R: int, C: int): int
    requires n <= |z.ops|
    decreases n, 4, 0
  {
    if n == 0 then At(z.m, R, C)
    else if ToAcc(z.ops[n - 1]) then AccRowGold(z, n - 1, R, C, z.ops[n - 1].rows)
    else AccGold(z, n - 1, R, C)
  }

  ghost function SpadRowGold(z: Run, n: nat, R: int, C: int, i: nat): int
    requires n < |z.ops| && z.ops[n].out.Some?
    decreases n, 5, i
  {
    if i == 0 then SpadGold(z, n, R, C)
    else if R == RowAt(z.ops[n].out.value.row, z.cfg.cStride, i - 1) && C < z.ops[n].cols
    then SysOut(z.cfg, Gold(z, n, i - 1, C))
    else SpadRowGold(z, n, R, C, i - 1)
  }

  ghost function SpadGold(z: Run, n: nat, R: int, C: int): int
    requires n <= |z.ops|
    decreases n, 4, 0
  {
    if n == 0 then At(z.s, R, C)
    else if ToSpad(z.ops[n - 1]) then SpadRowGold(z, n - 1, R, C, z.ops[n - 1].rows)
    else SpadGold(z, n - 1, R, C)
  }

  /** The machine stands where the gold definitions do after n steps. */
  ghost predicate ArrayHeld(z: Run, n: nat, pe: PeGrid)
    requires n <= |z.ops|
  {
    forall i, j :: 0 <= i < DIM && 0 <= j < DIM ==> At(pe, i, j) == ArrayGold(z, n, i, j)
  }

  ghost predicate AccHeld(z: Run, n: nat, m: AccMem)
    requires n <= |z.ops|
  {
    forall R, C :: 0 <= R && 0 <= C < DIM ==> At(m, R, C) == AccGold(z, n, R, C)
  }

  ghost predicate SpadHeld(z: Run, n: nat, s: Spad)
    requires n <= |z.ops|
  {
    forall R, C :: 0 <= R && 0 <= C < DIM ==> At(s, R, C) == SpadGold(z, n, R, C)
  }

  lemma {:induction false} RowsUntouched(z: Run, n: nat, R: int, C: int, i: nat)
    requires n < |z.ops| && z.ops[n].out.Some? && i <= z.ops[n].rows && 0 <= C && !Writes(z.ops[n], z.cfg, R, C)
    ensures SpadRowGold(z, n, R, C, i) == SpadGold(z, n, R, C) && AccRowGold(z, n, R, C, i) == AccGold(z, n, R, C)
  {
    hide SpadGold, AccGold, Gold, Strided, RowAt, Landed;
    if i > 0 {
      RowsUntouched(z, n, R, C, i - 1);
      StridedAt(z.ops[n].out.value.row, z.cfg.cStride, z.ops[n].rows, i - 1);
    }
  }

  /** Cells that step n declares are still the originals. */
  lemma {:induction false} StillOriginal(z: Run, n: nat, t: nat, R: int, C: int)
    requires Trace(z.ops, z.cfg) && t <= n < |z.ops| && Declares(z.ops[n], z.cfg, R, C)
    ensures SpadGold(z, t, R, C) == At(z.s, R, C)
  {
    hide At, OpFits, Declares, SpadRowGold, Writes;
    if t > 0 {
      StillOriginal(z, n, t - 1, R, C);
      if ToSpad(z.ops[t - 1]) {
        DeclaredColumn(z.ops[n], z.cfg, R, C);
        RowsUntouched(z, t - 1, R, C, z.ops[t - 1].rows);
      }
    }
  }

  lemma DeclaredColumn(op: Op, cfg: Config, R: int, C: int)
    requires Declares(op, cfg, R, C)
    ensures 0 <= C
  {
    hide Strided;
  }

  lemma OperandsAgree(z: Run, n: nat, s: Spad)
    requires Trace(z.ops, z.cfg) && n < |z.ops| && SpadHeld(z, n, s)
    ensures Agree(z.ops[n], z.cfg, z.s, s)
  {
    hide At, Trace, Declares, SpadGold;
    forall R, C | Declares(z.ops[n], z.cfg, R, C) ensures At(s, R, C) == At(z.s, R, C) {
      if 0 <= R && 0 <= C < DIM {
        StillOriginal(z, n, n, R, C);
      } else {
        OutsideSpad(s, R, C);
        OutsideSpad(z.s, R, C);
      }
    }
  }

  lemma LoadedIsGold(z: Run, n: nat, s: Spad, pe: PeGrid, loaded: PeGrid, i: int, j: int)
    requires n < |z.ops| && Agree(z.ops[n], z.cfg, z.s, s) && ArrayHeld(z, n, pe) && 0 <= i < DIM && 0 <= j < DIM
    requires Loaded(z.cfg, PreloadOf(z.ops[n]), z.ops[n].preload, s, pe, loaded)
    ensures At(loaded, i, j) == LoadedGold(z, n, i, j)
  {
    hide At, PreloadCell, ArrayGold, Agree, PreloadOf;
    DeclaredDecide(z.ops[n], z.cfg, z.s, s, i, j, 0);
  }

  lemma ResultIsGold(z: Run, n: nat, s: Spad, pe: PeGrid, loaded: PeGrid, after: PeGrid, values: PeGrid, i: int, j: int)
    requires n < |z.ops| && Agree(z.ops[n], z.cfg, z.s, s) && ArrayHeld(z, n, pe) && 0 <= i < DIM && 0 <= j < DIM
    requires Loaded(z.cfg, PreloadOf(z.ops[n]), z.ops[n].preload, s, pe, loaded)
    requires Multiplied(z.cfg, z.ops[n].a, z.ops[n].bd, s, loaded, after, values)
    ensures At(values, i, j) == Gold(z, n, i, j)
  {
    hide At, ACell, BCell, DCell, Wrap32, LoadedGold, Agree, ArrayHeld, PreloadOf, Loaded;
    var op := z.ops[n];
    DeclaredDecide(op, z.cfg, z.s, s, i, j, 0);
    if z.cfg.mode == WS {
      var f, g := WsTerms(s, loaded, z.cfg, op.a, i, j), WsGoldTerms(z, n, i, j);
      forall k | 0 <= k < DIM ensures f(k) == g(k) {
        DeclaredDecide(op, z.cfg, z.s, s, i, j, k);
        LoadedIsGold(z, n, s, pe, loaded, k, j);
      }
      SumSame(DIM, f, g);
    } else {
      LoadedIsGold(z, n, s, pe, loaded, i, j);
      var f, g := OsTerms(s, z.cfg, op.a, op.bd, i, j), OsGoldTerms(z, n, i, j);
      forall k | 0 <= k < DIM ensures f(k) == g(k) { DeclaredDecide(op, z.cfg, z.s, s, i, j, k); }
      SumSame(DIM, f, g);
    }
  }

  lemma {:induction false} AccRowIsGold(z: Run, n: nat, values: PeGrid, m: AccMem, R: int, C: int, i: nat)
    requires n < |z.ops| && ToAcc(z.ops[n]) && IsGold(z, n, values) && AccHeld(z, n, m)
    requires 0 <= R && 0 <= C < DIM && i <= z.ops[n].rows && (z.ops[n].cols > 0 ==> z.ops[n].rows <= DIM)
    ensures AccRows(z.cfg, PreloadOf(z.ops[n]), values, m, R, C, i) == AccRowGold(z, n, R, C, i)
  {
    hide At, Gold, Landed, RowAt, AccGold;
    if i > 0 { AccRowIsGold(z, n, values, m, R, C, i - 1); }
  }

  lemma {:induction false} SpadRowIsGold(z: Run, n: nat, values: PeGrid, s: Spad, R: int, C: int, i: nat)
    requires n < |z.ops| && ToSpad(z.ops[n]) && IsGold(z, n, values) && SpadHeld(z, n, s)
    requires 0 <= R && 0 <= C < DIM && i <= z.ops[n].rows && (z.ops[n].cols > 0 ==> z.ops[n].rows <= DIM)
    ensures SpadRows(z.cfg, PreloadOf(z.ops[n]), values, s, R, C, i) == SpadRowGold(z, n, R, C, i)
  {
    hide At, Gold, SysOut, RowAt, SpadGold;
    if i > 0 { SpadRowIsGold(z, n, values, s, R, C, i - 1); }
  }

  lemma AccStep(z: Run, n: nat, values: PeGrid, m: AccMem, m': AccMem)
    requires n < |z.ops| && OpFits(z.ops[n], z.cfg) && IsGold(z, n, values) && AccHeld(z, n, m)
    requires WrittenAcc(z.cfg, PreloadOf(z.ops[n]), values, m, m')
    ensures AccHeld(z, n + 1, m')
  {
    hide At, IsGold, ABounds, BDBounds, PreloadBounds, RowAt, Strided, IndexOf, Landed, AccRows, AccRowGold;
    forall R, C | 0 <= R && 0 <= C < DIM ensures At(m', R, C) == AccGold(z, n + 1, R, C) {
      if ToAcc(z.ops[n]) { AccRowIsGold(z, n, values, m, R, C, z.ops[n].rows); }
    }
  }

  lemma SpadStep(z: Run, n: nat, values: PeGrid, s: Spad, s': Spad)
    requires n < |z.ops| && OpFits(z.ops[n], z.cfg) && IsGold(z, n, values) && SpadHeld(z, n, s)
    requires WrittenSpad(z.cfg, PreloadOf(z.ops[n]), values, s, s')
    ensures SpadHeld(z, n + 1, s')
  {
    hide At, IsGold, ABounds, BDBounds, PreloadBounds, RowAt, Strided, IndexOf, SysOut, SpadRows, SpadRowGold;
    forall R, C | 0 <= R && 0 <= C < DIM ensures At(s', R, C) == SpadGold(z, n + 1, R, C) {
      if ToSpad(z.ops[n]) { SpadRowIsGold(z, n, values, s, R, C, z.ops[n].rows); }
    }
  }

  lemma ArrayStep(z: Run, n: nat, s: Spad, pe: PeGrid, loaded: PeGrid, after: PeGrid, values: PeGrid)
    requires n < |z.ops| && Agree(z.ops[n], z.cfg, z.s, s) && ArrayHeld(z, n, pe) && IsGold(z, n, values)
    requires Loaded(z.cfg, PreloadOf(z.ops[n]), z.ops[n].preload, s, pe, loaded)
    requires Multiplied(z.cfg, z.ops[n].a, z.ops[n].bd, s, loaded, after, values)
    ensures ArrayHeld(z, n + 1, after)
  {
    hide At, Gold, LoadedGold, Agree, PreloadOf, Loaded, WsResult, OsResult;
    forall i, j | 0 <= i < DIM && 0 <= j < DIM ensures At(after, i, j) == ArrayGold(z, n + 1, i, j) {
      LoadedIsGold(z, n, s, pe, loaded, i, j);
    }
  }

  method RunOp(g: Gemmini, ghost z: Run, ops: seq<Op>, n: nat)
    requires Trace(ops, g.cfg) && z.ops == ops && z.cfg == g.cfg && n < |ops|
    requires ArrayHeld(z, n, g.pe) && AccHeld(z, n, g.acc) && SpadHeld(z, n, g.spad)
    modifies g`pre, g`pe, g`acc, g`spad
    ensures ArrayHeld(z, n + 1, g.pe) && AccHeld(z, n + 1, g.acc) && SpadHeld(z, n + 1, g.spad)
  {
    var op := ops[n];
    assert OpFits(op, g.cfg);
    hide At, Trace, ArrayHeld, AccHeld, SpadHeld, ABounds, BDBounds, PreloadBounds, OutBounds, Gold;
    hide Loaded, Multiplied, WrittenAcc, WrittenSpad, Agree;
    ghost var s, m, pe := g.spad, g.acc, g.pe;
    OperandsAgree(z, n, s);
    g.Preload(if op.preload then op.pre.src else None, op.pre.rows, op.pre.cols, op.out, op.rows, op.cols);
    g.Compute(op.a, op.bd, op.preload);
    ghost var loaded: PeGrid, values: PeGrid :|
      && Multiplied(g.cfg, op.a, op.bd, s, loaded, g.pe, values)
      && Loaded(g.cfg, PreloadOf(op), op.preload, s, pe, loaded)
      && WrittenAcc(g.cfg, PreloadOf(op), values, m, g.acc)
      && WrittenSpad(g.cfg, PreloadOf(op), values, s, g.spad);
    forall i, j | 0 <= i < DIM && 0 <= j < DIM ensures At(values, i, j) == Gold(z, n, i, j) {
      ResultIsGold(z, n, s, pe, loaded, g.pe, values, i, j);
    }
    AccStep(z, n, values, m, g.acc);
    SpadStep(z, n, values, s, g.spad);
    ArrayStep(z, n, s, pe, loaded, g.pe, values);
  }

  lemma GoldStart(z: Run)
    ensures ArrayHeld(z, 0, z.pe) && AccHeld(z, 0, z.m) && SpadHeld(z, 0, z.s)
  {
  }

  /** Run any trace, in either dataflow, with any destinations and strides: array, accumulator and scratchpad end at
      their gold values. */
  method RunTrace(g: Gemmini, ops: seq<Op>) returns (ghost z: Run)
    requires Trace(ops, g.cfg)
    modifies g`pre, g`pe, g`acc, g`spad
    ensures z == old(Run(g.cfg, ops, g.spad, g.pe, g.acc))
    ensures ArrayHeld(z, |ops|, g.pe) && AccHeld(z, |ops|, g.acc) && SpadHeld(z, |ops|, g.spad)
  {
    hide Trace, ArrayHeld, AccHeld, SpadHeld;
    z := Run(g.cfg, ops, g.spad, g.pe, g.acc);
    GoldStart(z);
    for n := 0 to |ops|
      invariant ArrayHeld(z, n, g.pe) && AccHeld(z, n, g.acc) && SpadHeld(z, n, g.spad)
    {
      RunOp(g, z, ops, n);
    }
  }

  // The gold definitions of the test programs.

  /** The step whose block is in the array at step n: the last one that preloaded. */
  function LastPreload(ops: seq<Op>, n: nat): (g: nat)
    requires n < |ops|
    ensures g <= n && (ops[n].preload ==> g == n)
  {
    if ops[n].preload || n == 0 then n else LastPreload(ops, n - 1)
  }

  /** In the weight-stationary dataflow every step multiplies with the last preloaded weights. */
  lemma {:induction false} LastWeights(z: Run, n: nat, k: int, j: int)
    requires n < |z.ops| && z.cfg.mode == WS && z.ops[LastPreload(z.ops, n)].preload
    ensures LoadedGold(z, n, k, j) == PreloadCell(z.s, PreloadOf(z.ops[LastPreload(z.ops, n)]), z.cfg.bTranspose, k, j)
  {
    hide PreloadCell, PreloadOf;
    if !z.ops[n].preload { LastWeights(z, n - 1, k, j); }
  }

  /** In the output-stationary dataflow a step without a preload continues the sum of the step before it. */
  lemma RunningSum(z: Run, n: nat, i: int, j: int)
    requires 0 < n < |z.ops| && z.cfg.mode == OS && !z.ops[n].preload
    ensures Gold(z, n, i, j) == Wrap32(Gold(z, n - 1, i, j) + Sum(DIM, OsGoldTerms(z, n, i, j)))
  {
    hide Sum, Wrap32, OsGoldTerms;
    assert LoadedGold(z, n, i, j) == ArrayGold(z, n, i, j) == Gold(z, n - 1, i, j);
  }

  /** Accumulation chains: an accumulating step continues the block of the step before it, any other step starts a block
      of its own. */
  ghost predicate Chains(ops: seq<Op>, cfg: Config) {
    && cfg.cStride > 0 && (|ops| > 0 ==> ops[0].out.Some? ==> !ops[0].out.value.accumulate)
    && (forall n :: 0 <= n < |ops| ==> ToAcc(ops[n]))
    && (forall n :: 0 < n < |ops| && ops[n].out.value.accumulate ==> SameBlock(ops[n], ops[n - 1]))
    && (forall g, n, R, C :: 0 <= g < n < |ops| && !ops[n].out.value.accumulate && Writes(ops[g], cfg, R, C) ==>
          !Writes(ops[n], cfg, R, C))
  }

  predicate SameBlock(x: Op, y: Op) {
    x.out.Some? && y.out.Some? && x.out.value.row == y.out.value.row && x.rows == y.rows && x.cols == y.cols
  }

  /** The gold value of a chain: each step's own value on top of the chain so far. */
  ghost function ChainGold(z: Run, n: nat, i: int, j: int): Acc
    requires n < |z.ops|
  {
    if n > 0 && z.ops[n].out.Some? && z.ops[n].out.value.accumulate
    then Wrap32(Gold(z, n, i, j) + ChainGold(z, n - 1, i, j))
    else Gold(z, n, i, j)
  }

  /** Step g's value is final so far: the next step, if any, starts a new block. */
  predicate Ended(ops: seq<Op>, n: nat, g: nat)
    requires n <= |ops|
  {
    g < n && (g + 1 == n || (ops[g + 1].out.Some? && !ops[g + 1].out.value.accumulate))
  }

  // What is in the scratchpad after a trace.

  lemma {:induction false} SpadOwnRow(z: Run, n: nat, i: int, j: int, t: nat)
    requires n < |z.ops| && ToSpad(z.ops[n]) && 0 <= i < t <= z.ops[n].rows && 0 <= j < z.ops[n].cols
    requires z.cfg.cStride > 0 || i == z.ops[n].rows - 1
    ensures SpadRowGold(z, n, RowAt(z.ops[n].out.value.row, z.cfg.cStride, i), j, t) == SysOut(z.cfg, Gold(z, n, i, j))
  {
    hide SpadGold, Gold, SysOut, RowAt;
    if i < t - 1 {
      SpadOwnRow(z, n, i, j, t - 1);
      SameIndex(z.ops[n].out.value.row, z.cfg.cStride, i, t - 1);
    }
  }

  lemma {:induction false} StaysWritten(z: Run, n: nat, t: nat, R: int, C: int)
    requires n <= t <= |z.ops| && 0 <= C
    requires forall u :: n <= u < t && ToSpad(z.ops[u]) ==> !Writes(z.ops[u], z.cfg, R, C)
    ensures SpadGold(z, t, R, C) == SpadGold(z, n, R, C)
    decreases t
  {
    hide SpadRowGold, Writes;
    if t > n {
      StaysWritten(z, n, t - 1, R, C);
      if ToSpad(z.ops[t - 1]) { RowsUntouched(z, t - 1, R, C, z.ops[t - 1].rows); }
    }
  }

  /** After a trace, a scratchpad result that was not overwritten is the gold value of its step: divided by two to the
      shift, rounded to nearest (output stationary) or as it is (weight stationary), saturated, clipped by ReLU. */
  lemma SpadResult(z: Run, s: Spad, n: nat, i: int, j: int, r: int)
    requires SpadHeld(z, |z.ops|, s) && n < |z.ops| && ToSpad(z.ops[n])
    requires 0 <= i < z.ops[n].rows && 0 <= j < z.ops[n].cols && j < DIM
    requires z.cfg.cStride > 0 || i == z.ops[n].rows - 1
    requires forall u :: n < u < |z.ops| && ToSpad(z.ops[u]) ==>
               !Writes(z.ops[u], z.cfg, RowAt(z.ops[n].out.value.row, z.cfg.cStride, i), j)
    ensures var cell := At(s, RowAt(z.ops[n].out.value.row, z.cfg.cStride, i), j);
            && (z.cfg.mode == OS && NearestQuotient(Gold(z, n, i, j), Pow2(z.cfg.sysShift), r) ==>
                  Limits(r, z.cfg.sysAct == RELU, cell))
            && (z.cfg.mode == WS ==> Limits(Gold(z, n, i, j), z.cfg.sysAct == RELU, cell))
  {
    hide At, Gold, SysOut, RowAt, Writes, NearestQuotient, Pow2, Limits, SpadRowGold;
    var R, v := RowAt(z.ops[n].out.value.row, z.cfg.cStride, i), Gold(z, n, i, j);
    RowAtLe(z.ops[n].out.value.row, z.cfg.cStride, i, i);
    StaysWritten(z, n + 1, |z.ops|, R, j);
    SpadOwnRow(z, n, i, j, z.ops[n].rows);
    assert At(s, R, j) == SysOut(z.cfg, v);
    if z.cfg.mode == WS {
      Unshifted(v);
      SysOutIs(z.cfg, v, v);
    } else if NearestQuotient(v, Pow2(z.cfg.sysShift), r) {
      SysOutIs(z.cfg, v, r);
    }
  }

  lemma Unshifted(v: int)
    ensures NearestQuotient(v, Pow2(0), v)
  {
  }

  /** Step n on its own block, and away from it. */
  lemma OwnRow(z: Run, n: nat, i: int, j: int, t: nat)
    requires n < |z.ops| && ToAcc(z.ops[n]) && z.cfg.cStride > 0 && 0 <= i && 0 <= j < z.ops[n].cols
    requires t <= z.ops[n].rows
    ensures var op := z.ops[n];
            var R := RowAt(op.out.value.row, z.cfg.cStride, i);
            AccRowGold(z, n, R, j, t) ==
            if i < t then Landed(AccGold(z, n, R, j), Gold(z, n, i, j), op.out.value.accumulate)
            else AccGold(z, n, R, j)
  {
    hide AccGold, Gold, Landed, RowAt;
    if t > 0 {
      OwnRow(z, n, i, j, t - 1);
      SameIndex(z.ops[n].out.value.row, z.cfg.cStride, i, t - 1);
    }
  }

  lemma SameIndex(base: int, stride: nat, i: int, j: int)
    requires stride > 0
    ensures RowAt(base, stride, i) == RowAt(base, stride, j) <==> i == j
  {
    if i != j { MulFar(i - j, stride); }
    assert (i - j) * stride == stride * i - stride * j;
  }

  lemma {:induction false} EndedApart(z: Run, n: nat, g: nat, R: int, C: int)
    requires Chains(z.ops, z.cfg) && n < |z.ops| && g < n && Ended(z.ops, n + 1, g) && Writes(z.ops[g], z.cfg, R, C)
    ensures !Writes(z.ops[n], z.cfg, R, C)
  {
    hide Strided;
    if z.ops[n].out.value.accumulate {
      assert g < n - 1 && SameBlock(z.ops[n], z.ops[n - 1]);
      EndedApart(z, n - 1, g, R, C);
    }
  }

  /** Every finished chain is in the accumulator at its gold value. */
  lemma {:induction false} ChainsAreGold(z: Run, n: nat, g: nat, i: int, j: int)
    requires Chains(z.ops, z.cfg) && n <= |z.ops| && Ended(z.ops, n, g) && 0 <= i < z.ops[g].rows
    requires 0 <= j < z.ops[g].cols
    ensures AccGold(z, n, RowAt(z.ops[g].out.value.row, z.cfg.cStride, i), j) == ChainGold(z, g, i, j)
    decreases n
  {
    hide Gold, RowAt, Wrap32, AccRowGold, Writes;
    var t := n - 1;
    var R := RowAt(z.ops[g].out.value.row, z.cfg.cStride, i);
    if g == t {
      OwnRow(z, t, i, j, z.ops[t].rows);
      if t > 0 && z.ops[t].out.value.accumulate { ChainsAreGold(z, t, t - 1, i, j); }
      ChainStep(z, t, i, j);
    } else {
      ChainsAreGold(z, t, g, i, j);
      WritesOwn(z.ops[g], z.cfg, i, j);
      EndedApart(z, t, g, R, j);
      RowsUntouched(z, t, R, j, z.ops[t].rows);
    }
  }

  lemma WritesOwn(op: Op, cfg: Config, i: int, j: int)
    requires op.out.Some? && 0 <= i < op.rows && 0 <= j < op.cols
    ensures Writes(op, cfg, RowAt(op.out.value.row, cfg.cStride, i), j)
  {
    StridedAt(op.out.value.row, cfg.cStride, op.rows, i);
  }

  lemma ChainStep(z: Run, n: nat, i: int, j: int)
    requires n < |z.ops| && (n == 0 ==> !(z.ops[n].out.Some? && z.ops[n].out.value.accumulate))
    ensures var acc := z.ops[n].out.Some? && z.ops[n].out.value.accumulate;
            ChainGold(z, n, i, j) == Wrap32((if acc then ChainGold(z, n - 1, i, j) else 0) + Gold(z, n, i, j))
  {
    hide Gold, Wrap32;
    WrapSame(Gold(z, n, i, j));
  }
}
