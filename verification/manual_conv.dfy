/** The hand-written convolution: a patch matrix wider than the array, multiplied in an overwriting and an
    accumulating step. */
module ManualConv {
  import opened Params
  import opened Wrap
  import opened Sums
  import opened Dram
  import opened Grid
  import opened Scaling
  import opened State
  import opened Patches
  import opened Machine
  import opened Traces
  import Im2col
  import Tensors

  /** Address of element (i, k) of a row-major matrix. */
  function Place(addr: int, stride: int, i: int, k: int): int { addr + i * stride + k }

  /** Sizes and addresses: C (I by J) = A (I by K0 + K1) times B (K0 + K1 by J), all row by row. */
  datatype Job = Job(a: int, b: int, c: int, I: nat, J: nat, K0: nat, K1: nat)
  {
    function K(): nat { K0 + K1 }

    predicate Fits() {
      a > 0 && b > 0 && I <= DIM && J <= DIM && K0 <= DIM && K1 <= DIM && 2 * I + K() <= SPAD_ROWS && I <= ACC_ROWS
    }

    function A(d: Memory, i: int, k: int): int { LoadElem(d, Place(a, K(), i, k)) }
    function B(d: Memory, k: int, j: int): int { LoadElem(d, Place(b, J, k, j)) }
  }

  ghost function Terms(t: Job, d: Memory, i: int, j: int): int -> int {
    k => t.A(d, i, k) * t.B(d, k, j)
  }

  ghost function Product(t: Job, d: Memory, i: int, j: int): int {
    Sum(t.K(), Terms(t, d, i, j))
  }

  ghost predicate InSpad(s: Spad, row: int, rows: int, cols: int, d: Memory, addr: int, stride: int) {
    forall i, k :: 0 <= i < rows && 0 <= k < cols ==> At(s, row + i, k) == LoadElem(d, Place(addr, stride, i, k))
  }

  /** mvin of one block of at most DIM columns. */
  method LoadBlock(g: Gemmini, addr: int, row: nat, rows: nat, cols: nat)
    requires addr != 0 && cols <= DIM && row + rows <= SPAD_ROWS && g.cfg.load0.scale == 1.0 && g.cfg.load0.pixels == 1
    modifies g`spad
    ensures InSpad(g.spad, row, rows, cols, g.dram, addr, g.cfg.load0.stride)
    ensures forall R, C :: !(row <= R < row + rows) ==> At(g.spad, R, C) == old(At(g.spad, R, C))
  {
    hide At, Hit, SrcRow, SrcCol, LoadElem, Scale;
    var patch := Patch(row, rows, cols, g.cfg.load0.blockStride, 1);
    ghost var s := g.spad;
    forall i, k | 0 <= i < rows && 0 <= k < cols ensures LandRow(patch, i, k) < SPAD_ROWS { DivUnique(k, DIM, 0, k); }
    g.MvinSpad(addr, patch, 0);
    forall i, k | 0 <= i < rows && 0 <= k < cols
      ensures At(g.spad, row + i, k) == LoadElem(g.dram, Place(addr, g.cfg.load0.stride, i, k))
    {
      PlainPatch(patch, row + i, k);
      ScaleIdentity(LoadElem(g.dram, Place(addr, g.cfg.load0.stride, i, k)));
    }
    forall R, C | !(row <= R < row + rows) ensures At(g.spad, R, C) == At(s, R, C) {
      PlainPatch(patch, R, C);
      if !(0 <= R && 0 <= C < DIM) {
        OutsideSpad(s, R, C);
        OutsideSpad(g.spad, R, C);
      }
    }
  }

  /** The four blocks side by side in the scratchpad. */
  ghost predicate BlocksIn(t: Job, s: Spad, d: Memory) {
    && InSpad(s, 0, t.I, t.K0, d, t.a, t.K()) && InSpad(s, t.I, t.I, t.K1, d, t.a + t.K0, t.K())
    && InSpad(s, 2 * t.I, t.K0, t.J, d, t.b, t.J) && InSpad(s, 2 * t.I + t.K0, t.K1, t.J, d, t.b + t.K0 * t.J, t.J)
  }

  lemma StillIn(s: Spad, s': Spad, row: int, rows: int, cols: int, d: Memory, addr: int, stride: int, from: int,
                to: int)
    requires InSpad(s, row, rows, cols, d, addr, stride) && (row + rows <= from || to <= row)
    requires forall R, C :: !(from <= R < to) ==> At(s', R, C) == At(s, R, C)
    ensures InSpad(s', row, rows, cols, d, addr, stride)
  {
    hide At, LoadElem;
    forall i, k | 0 <= i < rows && 0 <= k < cols ensures At(s', row + i, k) == LoadElem(d, Place(addr, stride, i, k)) {
    }
  }

  method LoadBlocks(g: Gemmini, t: Job)
    requires t.Fits()
    modifies g`spad, g`cfg
    ensures BlocksIn(t, g.spad, g.dram) && g.cfg == old(g.cfg).WithLoad(0, LoadState(t.J, DIM, false, 1.0, 1))
  {
    hide At, InSpad;
    var n, K := t.I, t.K();
    ghost var d := g.dram;
    g.ConfigLd(0, LoadState(K, DIM, false, 1.0, 1));
    LoadBlock(g, t.a, 0, n, t.K0);
    ghost var s0 := g.spad;
    LoadBlock(g, t.a + t.K0, n, n, t.K1);
    ghost var s1 := g.spad;
    StillIn(s0, s1, 0, n, t.K0, d, t.a, K, n, 2 * n);
    g.ConfigLd(0, LoadState(t.J, DIM, false, 1.0, 1));
    LoadBlock(g, t.b, 2 * n, t.K0, t.J);
    ghost var s2 := g.spad;
    StillIn(s1, s2, 0, n, t.K0, d, t.a, K, 2 * n, 2 * n + t.K0);
    StillIn(s1, s2, n, n, t.K1, d, t.a + t.K0, K, 2 * n, 2 * n + t.K0);
    MulLe(0, t.K0, t.J);
    LoadBlock(g, t.b + t.K0 * t.J, 2 * n + t.K0, t.K1, t.J);
    StillIn(s2, g.spad, 0, n, t.K0, d, t.a, K, 2 * n + t.K0, 2 * n + K);
    StillIn(s2, g.spad, n, n, t.K1, d, t.a + t.K0, K, 2 * n + t.K0, 2 * n + K);
    StillIn(s2, g.spad, 2 * n, t.K0, t.J, d, t.b, t.J, 2 * n + t.K0, 2 * n + K);
  }

  /** Step 1 overwrites with A0 B0; step 2 preloads B1 and accumulates A1 B1. */
  function Steps(t: Job): seq<Op> {
    var c := Operand(None, t.I, t.J);
    [Op(Operand(Some(0), t.I, t.K0), c, true, Operand(Some(2 * t.I), t.K0, t.J), Some(Dest(true, false, 0)), t.I, t.J),
     Op(Operand(Some(t.I), t.I, t.K1), c, true, Operand(Some(2 * t.I + t.K0), t.K1, t.J), Some(Dest(true, true, 0)),
        t.I, t.J)]
  }

  predicate Plain(cfg: Config) {
    cfg.mode == WS && !cfg.aTranspose && !cfg.bTranspose && cfg.aStride == 1 && cfg.cStride == 1
  }

  lemma StepsRun(t: Job, cfg: Config)
    requires t.Fits() && Plain(cfg)
    ensures Trace(Steps(t), cfg) && Chains(Steps(t), cfg)
  {
    hide Strided;
  }

  /** One step's product, when its operands are in place. */
  lemma StepIs(z: Run, n: nat, i: int, j: int, f: int -> int)
    requires n < |z.ops| && z.ops[n].preload && Plain(z.cfg)
    requires var a, b := z.ops[n].a, z.ops[n].pre;
             && a.cols <= DIM && a.src.Some? && b.src.Some? && b.rows == a.cols && 0 <= i < a.rows && 0 <= j < b.cols
             && forall k :: 0 <= k < a.cols ==> f(k) == At(z.s, a.src.value + i, k) * At(z.s, b.src.value + k, j)
    ensures Sum(DIM, WsGoldTerms(z, n, i, j)) == Sum(z.ops[n].a.cols, f)
  {
    hide At, Sum;
    var a, b, h := z.ops[n].a, z.ops[n].pre, WsGoldTerms(z, n, i, j);
    forall k | a.cols <= k < DIM ensures h(k) == 0 { ZeroTimes(ACell(z.s, z.cfg, a, i, k), LoadedGold(z, n, k, j)); }
    forall k | 0 <= k < a.cols ensures h(k) == f(k) {
      assert ACell(z.s, z.cfg, a, i, k) == At(z.s, a.src.value + i, k);
      assert LoadedGold(z, n, k, j) == At(z.s, b.src.value + k, j);
    }
    SumTrim(a.cols, DIM, h);
    SumSame(a.cols, h, f);
  }

  lemma ZeroTimes(x: int, y: int)
    ensures x == 0 ==> x * y == 0
  {
  }

  ghost function TermsFrom(t: Job, d: Memory, i: int, j: int): int -> int {
    k => Terms(t, d, i, j)(t.K0 + k)
  }

  lemma FirstStep(t: Job, z: Run, d: Memory, i: int, j: int)
    requires t.Fits() && Plain(z.cfg) && z.ops == Steps(t) && BlocksIn(t, z.s, d) && 0 <= i < t.I && 0 <= j < t.J
    ensures Sum(DIM, WsGoldTerms(z, 0, i, j)) == Sum(t.K0, Terms(t, d, i, j))
  {
    hide At, LoadElem, WsGoldTerms, Sum, Place;
    var f := Terms(t, d, i, j);
    forall k | 0 <= k < t.K0 ensures f(k) == At(z.s, 0 + i, k) * At(z.s, 2 * t.I + k, j) {
      assert At(z.s, 0 + i, k) == LoadElem(d, Place(t.a, t.K(), i, k)) == t.A(d, i, k);
      assert At(z.s, 2 * t.I + k, j) == LoadElem(d, Place(t.b, t.J, k, j)) == t.B(d, k, j);
    }
    StepIs(z, 0, i, j, f);
  }

  lemma SecondPlace(t: Job, i: int, j: int, k: int)
    ensures Place(t.a + t.K0, t.K(), i, k) == Place(t.a, t.K(), i, t.K0 + k)
    ensures Place(t.b + t.K0 * t.J, t.J, k, j) == Place(t.b, t.J, t.K0 + k, j)
  {
    assert (t.K0 + k) * t.J == t.K0 * t.J + k * t.J;
  }

  lemma SecondStep(t: Job, z: Run, d: Memory, i: int, j: int)
    requires t.Fits() && Plain(z.cfg) && z.ops == Steps(t) && BlocksIn(t, z.s, d) && 0 <= i < t.I && 0 <= j < t.J
    ensures Sum(DIM, WsGoldTerms(z, 1, i, j)) == Sum(t.K1, TermsFrom(t, d, i, j))
  {
    hide At, LoadElem, WsGoldTerms, Sum;
    var f := TermsFrom(t, d, i, j);
    forall k | 0 <= k < t.K1 ensures f(k) == At(z.s, t.I + i, k) * At(z.s, 2 * t.I + t.K0 + k, j) {
      SecondPlace(t, i, j, k);
      assert At(z.s, t.I + i, k) == LoadElem(d, Place(t.a + t.K0, t.K(), i, k));
      assert At(z.s, 2 * t.I + t.K0 + k, j) == LoadElem(d, Place(t.b + t.K0 * t.J, t.J, k, j));
      var e := Terms(t, d, i, j);
      assert f(k) == e(t.K0 + k) == t.A(d, i, t.K0 + k) * t.B(d, t.K0 + k, j);
    }
    StepIs(z, 1, i, j, f);
  }

  /** Splitting the inner dimension at any point gives the whole product. */
  lemma SplitIsWhole(t: Job, z: Run, d: Memory, i: int, j: int)
    requires t.Fits() && Plain(z.cfg) && z.ops == Steps(t) && BlocksIn(t, z.s, d) && 0 <= i < t.I && 0 <= j < t.J
    ensures ChainGold(z, 1, i, j) == Wrap32(Product(t, d, i, j))
  {
    hide BlocksIn, WsGoldTerms, Wrap32, Terms, Sum;
    FirstStep(t, z, d, i, j);
    SecondStep(t, z, d, i, j);
    var p0, p1 := Sum(t.K0, Terms(t, d, i, j)), Sum(t.K1, TermsFrom(t, d, i, j));
    SumSplit(t.K0, t.K1, Terms(t, d, i, j), TermsFrom(t, d, i, j));
    assert Gold(z, 0, i, j) == Wrap32(p0) && Gold(z, 1, i, j) == Wrap32(p1);
    assert ChainGold(z, 0, i, j) == Gold(z, 0, i, j);
    WrapAdd2(p1, p0);
    WrapAdd(p1, Wrap32(p0));
  }

  /** Load the blocks, run both steps, move the result out. */
  method SplitMultiply(g: Gemmini, t: Job)
    requires t.Fits() && Plain(g.cfg) && g.cfg.accAct != SOFTMAX
    modifies g`spad, g`acc, g`pe, g`pre, g`dram, g`norm, g`cfg
    ensures forall i, j :: 0 <= i < t.I && 0 <= j < t.J ==>
              LoadElem(g.dram, OutAddr(t.c, t.J, false, i, j)) == Clamp(Wrap32(Product(t, old(g.dram), i, j)))
    ensures forall x :: !Touched(t.c, t.J, false, t.I, t.J, x) ==> Load(g.dram, x) == old(Load(g.dram, x))
  {
    hide At, BlocksIn, LoadElem, OutAddr, Touched, Distinct, Wrap32, Product, Clamp, Scale, NormRows, Job.Fits,
         ChainGold, Trace, Chains, AccGold, ArrayHeld, SpadHeld, OutCell, LoadOut;
    hide StoredTo;
    ghost var d := g.dram;
    LoadBlocks(g, t);
    StepsRun(t, g.cfg);
    ghost var z := RunTrace(g, Steps(t));
    g.ConfigSt(t.J, 0, 1.0, NO_POOL);
    StrideKeepsApart(t.c, t.J, false, t.I, t.J);
    assert OutRows(Source(true, false, RESET, 0), t.I, t.J) by { OneBlockOut(t); }
    g.Mvout(t.c, Source(true, false, RESET, 0), t.I, t.J);
    forall i, j | 0 <= i < t.I && 0 <= j < t.J
      ensures LoadElem(g.dram, OutAddr(t.c, t.J, false, i, j)) == Clamp(Wrap32(Product(t, d, i, j)))
    {
      ChainsAreGold(z, 2, 1, i, j);
      SplitIsWhole(t, z, d, i, j);
      OneColumn(t, j);
      assert At(g.acc, i, j) == ChainGold(z, 1, i, j);
      assert Before(i, j, t.I, 0);
      OutPlain(g.spad, g.acc, g.cfg, old(g.norm)[g.statId], g.dram, t, i, j);
    }
  }

  lemma OutPlain(s: Spad, m: AccMem, cfg: Config, stat: NormStat, d: Memory, t: Job, i: int, j: int)
    requires t.Fits() && 0 <= i && 0 <= j < t.J && cfg.accScale == 1.0 && cfg.accAct == NONE
    requires LoadOut(d, false, OutAddr(t.c, t.J, false, i, j))
             == OutCell(s, m, cfg, stat, Source(true, false, RESET, 0), i, j)
    ensures LoadElem(d, OutAddr(t.c, t.J, false, i, j)) == Clamp(At(m, i, j))
  {
    hide At, LoadElem, OutAddr, Clamp, Scale;
    OneColumn(t, j);
    ScaleIdentity(At(m, i, j));
  }

  lemma OneColumn(t: Job, j: int)
    requires t.Fits() && 0 <= j < t.J
    ensures j / DIM == 0 && j % DIM == j
  {
    DivUnique(j, DIM, 0, j);
  }

  lemma OneBlockOut(t: Job)
    requires t.Fits()
    ensures OutRows(Source(true, false, RESET, 0), t.I, t.J)
  {
    if t.J > 0 { DivUnique(t.J - 1, DIM, 0, t.J - 1); }
  }

  /** With unrolled patches as A and flattened weights as B, each element of the product is the direct convolution. */
  lemma ProductIsConv(t: Job, d: Memory, s: Im2col.Shape, x: Tensors.Tensor, w: Tensors.Tensor, b: int, r: int, c: int,
                      och: int)
    requires t.K() == s.PatchSize() && 0 <= r < s.outRows && 0 <= c < s.outCols
    requires forall q :: 0 <= q < t.K() ==>
               t.A(d, s.PatchOf(b, r, c), q) == Im2col.Entry(s, x, s.PatchOf(b, r, c), q)
                 && t.B(d, q, och) == Im2col.WeightEntry(s, w, q, och)
    ensures Product(t, d, s.PatchOf(b, r, c), och) == Im2col.Direct(s, x, w, b, r, c, och)
  {
    hide Im2col.Entry, Im2col.WeightEntry, Sum, Job.A, Job.B, Flat, Im2col.Direct;
    var p := s.PatchOf(b, r, c);
    var f, g := Terms(t, d, p, och), Im2col.MatTerms(s, x, w, p, och);
    forall q | 0 <= q < t.K() ensures f(q) == g(q) { }
    SumSame(t.K(), f, g);
    Im2col.ProductIsDirect(s, x, w, b, r, c, och);
  }
}
