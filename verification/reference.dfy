/** The naive loops the repository's tests compare against, and what they have to do with the instructions. */
module ReferenceLoops {
  import opened Params
  import opened Wrap
  import opened Sums
  import opened Dram
  import opened Scaling
  import opened Patches
  import opened Machine
  import opened Norm
  import ConvSpec
  import ConvStore
  import ConvPool
  import ConvMeaning
  import LoopWsSpec
  import LoopWsMatrix
  import LoopWsMeaning
  import LoopWs
  import Grid
  import opened Tensors

  // full_matmul and its transposed variants.

  type Matrix = (int, int) -> int

  function Factors(A: Matrix, B: Matrix, aT: bool, bT: bool, r: int, c: int, k: int): int {
    (if aT then A(k, r) else A(r, k)) * (if bT then B(c, k) else B(k, c))
  }

  ghost function MatTerms(A: Matrix, B: Matrix, aT: bool, bT: bool, r: int, c: int): int -> int {
    k => Factors(A, B, aT, bT, r, c, k)
  }

  /** Bias plus the first n products. */
  ghost function FullValue(A: Matrix, B: Matrix, D: Matrix, aT: bool, bT: bool, repeating: bool, r: int, c: int,
                           n: nat): int {
    D(if repeating then 0 else r, c) + Sum(n, MatTerms(A, B, aT, bT, r, c))
  }

  ghost predicate Multiplied(A: Matrix, B: Matrix, D: Matrix, aT: bool, bT: bool, repeating: bool, K: nat,
                             C: array2<int>, r: int, c: int)
    reads C
  {
    forall r', c' :: 0 <= r' < C.Length0 && 0 <= c' < C.Length1 && Before(r', c', r, c) ==>
      C[r', c'] == FullValue(A, B, D, aT, bT, repeating, r', c', K)
  }

  /** C accumulates the bias and the products in place. */
  method FullMatmul(A: Matrix, B: Matrix, D: Matrix, aT: bool, bT: bool, repeating: bool, K: nat, C: array2<int>)
    modifies C
    ensures forall r, c :: 0 <= r < C.Length0 && 0 <= c < C.Length1 ==>
              C[r, c] == FullValue(A, B, D, aT, bT, repeating, r, c, K)
  {
    hide FullValue, Factors, Sum, MatTerms;
    for r := 0 to C.Length0
      invariant Multiplied(A, B, D, aT, bT, repeating, K, C, r, 0)
    {
      for c := 0 to C.Length1
        invariant Multiplied(A, B, D, aT, bT, repeating, K, C, r, c)
      {
        C[r, c] := D(if repeating then 0 else r, c);
        FullStep(A, B, D, aT, bT, repeating, r, c, 0);
        for k := 0 to K
          invariant C[r, c] == FullValue(A, B, D, aT, bT, repeating, r, c, k)
          invariant Multiplied(A, B, D, aT, bT, repeating, K, C, r, c)
        {
          FullStep(A, B, D, aT, bT, repeating, r, c, k);
          C[r, c] := C[r, c] + Factors(A, B, aT, bT, r, c, k);
        }
      }
    }
  }

  lemma FullStep(A: Matrix, B: Matrix, D: Matrix, aT: bool, bT: bool, repeating: bool, r: int, c: int, k: nat)
    ensures FullValue(A, B, D, aT, bT, repeating, r, c, 0) == D(if repeating then 0 else r, c)
    ensures FullValue(A, B, D, aT, bT, repeating, r, c, k + 1)
            == FullValue(A, B, D, aT, bT, repeating, r, c, k) + Factors(A, B, aT, bT, r, c, k)
  {
    hide Factors;
    SumEnds(k, MatTerms(A, B, aT, bT, r, c));
  }

  /** The stored bytes of A and B as the test program sees them. */
  function StoredA(z: LoopWsSpec.Start): Matrix { (x, y) => LoadElem(z.d, z.p.A + x * z.p.strideA + y) }
  function StoredB(z: LoopWsSpec.Start): Matrix { (x, y) => LoadElem(z.d, z.p.B + x * z.p.strideB + y) }

  /** At identity load scale, loop_ws sums the products full_matmul sums, for every choice of transposes. */
  lemma LoopSumsFullMatmul(z: LoopWsSpec.Start, row: int, col: int, n: nat)
    requires z.cfg.load0.scale == 1.0 && z.cfg.load1.scale == 1.0
    ensures Sum(n, LoopWsMatrix.MatTerms(z, row, col))
            == Sum(n, MatTerms(StoredA(z), StoredB(z), z.p.aT, z.p.bT, row, col))
  {
    hide Scale, LoadElem, Sum;
    var f, g := LoopWsMatrix.MatTerms(z, row, col), MatTerms(StoredA(z), StoredB(z), z.p.aT, z.p.bT, row, col);
    forall k | 0 <= k < n ensures f(k) == g(k) {
      ElementOfA(z, row, k);
      ElementOfB(z, k, col);
    }
    SumSame(n, f, g);
  }

  /** The scaled matrix before (r, c): every element times the scale, rounded to nearest and saturated. */
  ghost predicate ScaledTo(full: array2<int>, scale: real, out: array2<Elem>, r: int, c: int)
    reads full, out
  {
    forall r', c', q :: 0 <= r' < full.Length0 && 0 <= c' < full.Length1 && r' < out.Length0 && c' < out.Length1
                        && Before(r', c', r, c) && NearestProduct(full[r', c'], scale, q) ==>
      Limits(q, false, out[r', c'])
  }

  /** full_matscale. */
  method FullMatscale(full: array2<int>, scale: real, out: array2<Elem>)
    requires out.Length0 == full.Length0 && out.Length1 == full.Length1
    modifies out
    ensures forall r, c, q :: 0 <= r < full.Length0 && 0 <= c < full.Length1 && NearestProduct(full[r, c], scale, q) ==>
              Limits(q, false, out[r, c])
  {
    hide Scale, NearestProduct, Limits;
    for r := 0 to out.Length0
      invariant ScaledTo(full, scale, out, r, 0)
    {
      for c := 0 to out.Length1
        invariant ScaledTo(full, scale, out, r, c)
      {
        out[r, c] := Scale(full[r, c], scale);
        forall q | NearestProduct(full[r, c], scale, q) ensures Limits(q, false, out[r, c]) {
          ScaleIsNearest(full[r, c], scale, q);
        }
      }
    }
  }

  /** full_matrelu, possibly in place. */
  method FullMatrelu(x: array2<Elem>, out: array2<Elem>)
    requires out.Length0 == x.Length0 && out.Length1 == x.Length1
    modifies out
    ensures forall r, c :: 0 <= r < out.Length0 && 0 <= c < out.Length1 ==>
              out[r, c] == if old(x[r, c]) > 0 then old(x[r, c]) else 0
  {
    for r := 0 to out.Length0
      invariant forall r', c' :: 0 <= r' < out.Length0 && 0 <= c' < out.Length1 && Before(r', c', r, 0) ==>
                  out[r', c'] == (if old(x[r', c']) > 0 then old(x[r', c']) else 0)
      invariant forall r', c' :: r <= r' < out.Length0 && 0 <= c' < out.Length1 ==> x[r', c'] == old(x[r', c'])
    {
      for c := 0 to out.Length1
        invariant forall r', c' :: 0 <= r' < out.Length0 && 0 <= c' < out.Length1 && Before(r', c', r, c) ==>
                    out[r', c'] == (if old(x[r', c']) > 0 then old(x[r', c']) else 0)
        invariant forall r', c' :: 0 <= r' < out.Length0 && 0 <= c' < out.Length1 && !Before(r', c', r, c) ==>
                    x[r', c'] == old(x[r', c'])
      {
        out[r, c] := if x[r, c] > 0 then x[r, c] else 0;
      }
    }
  }

  /** The bias a call adds: D while accumulating, nothing otherwise. */
  function StoredD(z: LoopWsSpec.Start): Matrix { (r, c) => if z.p.accumulate then LoopWsMatrix.DMat(z, r, c) else 0 }

  /** Everything under which the test programs compare a call with the reference. */
  ghost predicate Compared(z: LoopWsSpec.Start) {
    && LoopWsMatrix.Matched(z) && z.p.Padded() && z.p.K > 0 && LoopWs.Depth(z.p) >= 0 && !z.p.Norms()
    && z.p.A != 0 && z.p.B != 0 && z.p.C != 0 && !z.p.fullC && (z.p.accumulate ==> z.p.D != 0)
    && z.cfg.load0.scale == 1.0 && z.cfg.load1.scale == 1.0 && (z.cfg.accAct == NONE || z.cfg.accAct == RELU)
  }

  ghost function FullOf(z: LoopWsSpec.Start, row: int, col: int): int
    requires LoopWs.Depth(z.p) >= 0
  {
    FullValue(StoredA(z), StoredB(z), StoredD(z), z.p.aT, z.p.bT, false, row, col, LoopWs.Depth(z.p))
  }

  lemma ProductIsFull(z: LoopWsSpec.Start, i: int, j: int, m: int, n: int)
    requires Compared(z) && z.p.InC(i, j, m, n)
    ensures LoopWs.Product(z, i, j, m, n) == FullOf(z, i * DIM + m, j * DIM + n)
    ensures LoopWsSpec.CByteAddr(z, i, j, m, n) == z.p.C + (i * DIM + m) * z.p.strideC + (j * DIM + n)
  {
    hide LoopWs.Product, Sum, MatTerms, LoopWsMatrix.MatTerms, LoopWsMatrix.DMat, LoopWsSpec.CByteAddr;
    LoopWsMatrix.ProductIsMatMul(z, i, j, m, n);
    LoopSumsFullMatmul(z, i * DIM + m, j * DIM + n, LoopWs.Depth(z.p));
  }

  /** The stored C is full_matmul with its bias, as an int32, then what full_matscale and (for ReLU) full_matrelu make
      of it: scaled, rounded to nearest, saturated, clipped at zero. */
  lemma StoresFullMatmul(z: LoopWsSpec.Start, s: Grid.Spad, a: Grid.AccMem, d: Memory, i: int, j: int, m: int, n: int,
                         r: int)
    requires Compared(z) && LoopWs.Completed(z, s, a, d) && z.p.InC(i, j, m, n)
    requires NearestProduct(Wrap32(FullOf(z, i * DIM + m, j * DIM + n)), z.cfg.accScale, r)
    ensures Limits(r, z.cfg.accAct == RELU, LoadElem(d, z.p.C + (i * DIM + m) * z.p.strideC + (j * DIM + n)))
  {
    hide LoopWs.Completed, LoopWs.Product, FullOf, LoadElem, Wrap32, NearestProduct, Limits, LoopWsSpec.CByteAddr;
    hide LoopWsMatrix.Matched, LoopWs.Depth;
    ProductIsFull(z, i, j, m, n);
    LoopWsMeaning.StoresPlain(z, s, a, d, i, j, m, n, Wrap32(LoopWs.Product(z, i, j, m, n)), r);
  }

  /** And with the shipped scratchpad and a bias below 2^31 - 2^26 nothing wraps: the full int64 value is the int32
      one. */
  lemma FullIsExact(z: LoopWsSpec.Start, i: int, j: int, m: int, n: int)
    requires Compared(z) && z.p.Accepted() && z.p.InC(i, j, m, n) && SPAD_ROWS == 16384
    requires 0x400_0000 - 0x8000_0000 <= StoredD(z)(i * DIM + m, j * DIM + n) < 0x8000_0000 - 0x400_0000
    ensures Wrap32(FullOf(z, i * DIM + m, j * DIM + n)) == FullOf(z, i * DIM + m, j * DIM + n)
  {
    hide Sum, MatTerms, LoopWsSpec.Call.Accepted, LoopWs.ProductTerms, LoopWsMatrix.MatTerms, LoopWsMatrix.DMat, Wrap32;
    hide LoopWsSpec.Initial, FullOf;
    ProductIsFull(z, i, j, m, n);
    if z.p.accumulate { LoopWsMatrix.InitialIsMatrix(z, i, j, m, n); }
    LoopWsMatrix.SumRange(z, i, j, m, n, LoopWs.Depth(z.p));
    WrapSame(FullOf(z, i * DIM + m, j * DIM + n));
  }

  lemma ElementOfA(z: LoopWsSpec.Start, row: int, k: int)
    requires z.cfg.load0.scale == 1.0
    ensures LoopWsMatrix.AMat(z, row, k) == if z.p.aT then StoredA(z)(k, row) else StoredA(z)(row, k)
  {
    hide Scale, LoadElem;
    ScaleIdentity(LoadElem(z.d, z.p.A + (if z.p.aT then k * z.p.strideA + row else row * z.p.strideA + k)));
  }

  lemma ElementOfB(z: LoopWsSpec.Start, k: int, col: int)
    requires z.cfg.load1.scale == 1.0
    ensures LoopWsMatrix.BMat(z, k, col) == if z.p.bT then StoredB(z)(col, k) else StoredB(z)(k, col)
  {
    hide Scale, LoadElem;
    ScaleIdentity(LoadElem(z.d, z.p.B + (if z.p.bT then col * z.p.strideB + k else k * z.p.strideB + col)));
  }

  // pool.

  datatype PoolShape = PoolShape(inRows: nat, inCols: nat, window: nat, stride: nat, padTop: nat, padLeft: nat)

  function PoolPixel(s: PoolShape, x: Tensor, b: int, row: int, col: int, ch: int): Elem {
    if row < 0 || row >= s.inRows || col < 0 || col >= s.inCols then 0 else x(b, row, col, ch)
  }

  ghost function PoolRow(s: PoolShape, x: Tensor, b: int, r: int, c: int, ch: int, wr: int): int -> int {
    wc => PoolPixel(s, x, b, r * s.stride + wr - s.padTop, c * s.stride + wc - s.padLeft, ch)
  }

  /** The running maximum after n rows of a window. */
  ghost function PoolValue(s: PoolShape, x: Tensor, b: int, r: int, c: int, ch: int, n: nat): int {
    if n == 0 then -128 else MaxFrom(PoolValue(s, x, b, r, c, ch, n - 1), s.window, PoolRow(s, x, b, r, c, ch, n - 1))
  }

  ghost predicate Pooled(s: PoolShape, x: Tensor, out: array4<Elem>, b: int, r: int, c: int, ch: int)
    reads out
  {
    forall b', r', c', ch' :: 0 <= b' < out.Length0 && 0 <= r' < out.Length1 && 0 <= c' < out.Length2
                              && 0 <= ch' < out.Length3
                              && Earlier(b', r', c', ch', b, r, c, ch) ==>
      out[b', r', c', ch'] == PoolValue(s, x, b', r', c', ch', s.window)
  }

  lemma PoolStep(s: PoolShape, x: Tensor, b: int, r: int, c: int, ch: int, n: nat)
    ensures PoolValue(s, x, b, r, c, ch, 0) == -128
    ensures PoolValue(s, x, b, r, c, ch, n + 1)
            == MaxFrom(PoolValue(s, x, b, r, c, ch, n), s.window, PoolRow(s, x, b, r, c, ch, n))
  {
  }

  /** One window: the output cell itself is the running maximum. */
  method PoolWindow(s: PoolShape, x: Tensor, out: array4<Elem>, b: nat, r: nat, c: nat, ch: nat)
    requires b < out.Length0 && r < out.Length1 && c < out.Length2 && ch < out.Length3 && Pooled(s, x, out, b, r, c, ch)
    modifies out
    ensures Pooled(s, x, out, b, r, c, ch + 1)
  {
    hide PoolPixel, PoolValue;
    out[b, r, c, ch] := -128;
    PoolStep(s, x, b, r, c, ch, 0);
    for wr := 0 to s.window
      invariant Pooled(s, x, out, b, r, c, ch) && out[b, r, c, ch] == PoolValue(s, x, b, r, c, ch, wr)
    {
      ghost var start, f := out[b, r, c, ch], PoolRow(s, x, b, r, c, ch, wr);
      PoolStep(s, x, b, r, c, ch, wr);
      for wc := 0 to s.window
        invariant Pooled(s, x, out, b, r, c, ch) && out[b, r, c, ch] == MaxFrom(start, wc, f)
      {
        var pixel := PoolPixel(s, x, b, r * s.stride + wr - s.padTop, c * s.stride + wc - s.padLeft, ch);
        assert f(wc) == pixel;
        if pixel > out[b, r, c, ch] {
          out[b, r, c, ch] := pixel;
        }
      }
    }
  }

  method Pool(s: PoolShape, x: Tensor, out: array4<Elem>)
    modifies out
    ensures forall b, r, c, ch :: 0 <= b < out.Length0 && 0 <= r < out.Length1 && 0 <= c < out.Length2
                                  && 0 <= ch < out.Length3 ==>
              out[b, r, c, ch] == PoolValue(s, x, b, r, c, ch, s.window)
  {
    hide PoolValue;
    for b := 0 to out.Length0
      invariant Pooled(s, x, out, b, 0, 0, 0)
    {
      for r := 0 to out.Length1
        invariant Pooled(s, x, out, b, r, 0, 0)
      {
        for c := 0 to out.Length2
          invariant Pooled(s, x, out, b, r, c, 0)
        {
          for ch := 0 to out.Length3
            invariant Pooled(s, x, out, b, r, c, ch)
          {
            PoolWindow(s, x, out, b, r, c, ch);
          }
        }
      }
    }
  }

  function ShapeOf(z: ConvSpec.Start): PoolShape {
    PoolShape(z.p.orows, z.p.ocols, z.p.poolSize, z.p.poolStride, z.p.pupad, z.p.plpad)
  }

  lemma PoolPixelIs(z: ConvSpec.Start, x: Tensor, ob: int, b: int, n: int, r: int, c: int)
    requires var cfg := ConvPool.PoolConfig(z.p, z.cfg);
             0 <= r < z.p.orows && 0 <= c < z.p.ocols ==>
               x(b, r, c, ob * DIM + n)
                 == Activate(Scale(ConvStore.Value(z, ConvSpec.Cell(ob, b, r, c, n)), cfg.accScale), cfg.accAct)
    ensures ConvPool.ConvElem(z, ob, b, n, r, c) == PoolPixel(ShapeOf(z), x, b, r, c, ob * DIM + n)
  {
    hide Scale, Activate, ConvStore.Value, ConvPool.PoolConfig;
  }

  /** What a pooled loop_conv_ws stores is the reference pool of its own un-pooled outputs. */
  lemma {:induction false} StoresReferencePool(z: ConvSpec.Start, x: Tensor, ob: int, b: int, n: int, pr: int, pc: int,
                                               k: nat)
    requires var cfg := ConvPool.PoolConfig(z.p, z.cfg);
             forall r, c :: 0 <= r < z.p.orows && 0 <= c < z.p.ocols ==>
               x(b, r, c, ob * DIM + n)
                 == Activate(Scale(ConvStore.Value(z, ConvSpec.Cell(ob, b, r, c, n)), cfg.accScale), cfg.accAct)
    ensures ConvPool.ConvMax(z, ob, b, n, pr, pc, k) == PoolValue(ShapeOf(z), x, b, pr, pc, ob * DIM + n, k)
  {
    hide Scale, Activate, ConvStore.Value, ConvPool.PoolConfig, ConvPool.ConvElem, PoolPixel;
    if k > 0 {
      StoresReferencePool(z, x, ob, b, n, pr, pc, k - 1);
      var f, g := ConvPool.ConvWindowRow(z, ob, b, n, pr, pc, k - 1),
        PoolRow(ShapeOf(z), x, b, pr, pc, ob * DIM + n, k - 1);
      forall wc | 0 <= wc < z.p.poolSize ensures f(wc) == g(wc) {
        PoolPixelIs(z, x, ob, b, n, pr * z.p.poolStride + (k - 1) - z.p.pupad, pc * z.p.poolStride + wc - z.p.plpad);
      }
      MaxFromSame(ConvPool.ConvMax(z, ob, b, n, pr, pc, k - 1), z.p.poolSize, f, g);
    }
  }

  // The zero-dilated image.

  datatype ImageShape = ImageShape(rows: Pos, cols: Pos, chs: nat, dilation: Pos)
  {
    function Rows(): int { Flat(rows - 1, dilation, 0) + 1 }
    function Cols(): int { Flat(cols - 1, dilation, 0) + 1 }

    /** Place of a pixel in the contiguous input. */
    function Index(b: int, y: int, x: int, ch: int): int { Flat(Flat(Flat(b, rows, y), cols, x), chs, ch) }
  }

  function Read(input: seq<Elem>, i: int): Elem { if 0 <= i < |input| then input[i] else 0 }

  function DilatedPixel(s: ImageShape, input: seq<Elem>, b: int, v: int, u: int, ch: int): Elem {
    if v % s.dilation == 0 && u % s.dilation == 0 then Read(input, s.Index(b, v / s.dilation, u / s.dilation, ch))
    else 0
  }

  predicate Shaped(s: ImageShape, out: array4<Elem>) {
    out.Length1 == s.Rows() && out.Length2 == s.Cols() && out.Length3 == s.chs
  }

  /** Cells before (b, v, u, ch) hold the dilated image, the others zero. */
  ghost predicate DilatedTo(s: ImageShape, input: seq<Elem>, out: array4<Elem>, b: int, v: int, u: int, ch: int)
    reads out
  {
    forall b', v', u', ch' :: 0 <= b' < out.Length0 && 0 <= v' < out.Length1 && 0 <= u' < out.Length2
                              && 0 <= ch' < out.Length3 ==>
      out[b', v', u', ch'] == if Earlier(b', v', u', ch', b, v, u, ch) then DilatedPixel(s, input, b', v', u', ch')
      else 0
  }

  ghost predicate ClearTo(out: array4<Elem>, b: int, v: int, u: int, ch: int)
    reads out
  {
    forall b', v', u', ch' :: 0 <= b' < out.Length0 && 0 <= v' < out.Length1 && 0 <= u' < out.Length2
                              && 0 <= ch' < out.Length3
                              && Earlier(b', v', u', ch', b, v, u, ch) ==>
      out[b', v', u', ch'] == 0
  }

  method Clear(out: array4<Elem>)
    modifies out
    ensures ClearTo(out, out.Length0, 0, 0, 0)
  {
    for b := 0 to out.Length0
      invariant ClearTo(out, b, 0, 0, 0)
    {
      for v := 0 to out.Length1
        invariant ClearTo(out, b, v, 0, 0)
      {
        for u := 0 to out.Length2
          invariant ClearTo(out, b, v, u, 0)
        {
          for ch := 0 to out.Length3
            invariant ClearTo(out, b, v, u, ch)
          {
            out[b, v, u, ch] := 0;
          }
        }
      }
    }
  }

  lemma OnGrid(k: int, d: Pos)
    ensures Flat(k, d, 0) % d == 0 && Flat(k, d, 0) / d == k && Flat(k, d, 0) + d == Flat(k + 1, d, 0)
    ensures forall t :: Flat(k, d, 0) < t < Flat(k + 1, d, 0) ==> t % d != 0
  {
    DivUnique(Flat(k, d, 0), d, k, 0);
    forall t | Flat(k, d, 0) < t < Flat(k + 1, d, 0) ensures t % d != 0 { DivUnique(t, d, k, t - Flat(k, d, 0)); }
  }

  lemma GridEnd(k: int, n: int, d: Pos)
    ensures 0 <= k < n ==> 0 <= Flat(k, d, 0) <= Flat(n - 1, d, 0)
    ensures k >= n ==> Flat(k, d, 0) >= Flat(n, d, 0)
  {
    if 0 <= k < n { MulLe(0, k, d); MulLe(k, n - 1, d); }
    if k >= n { MulLe(n, k, d); }
  }

  /** Place every input element, in order, `dilation` apart. */
  method Dilate(s: ImageShape, input: seq<Elem>, out: array4<Elem>)
    requires Shaped(s, out) && |input| == s.Index(out.Length0, 0, 0, 0)
    modifies out
    ensures forall b, v, u, ch :: 0 <= b < out.Length0 && 0 <= v < out.Length1 && 0 <= u < out.Length2
                                  && 0 <= ch < out.Length3 ==>
              out[b, v, u, ch] == DilatedPixel(s, input, b, v, u, ch)
  {
    hide Flat, DilatedPixel;
    Clear(out);
    var idx := 0;
    IndexSteps(s, 0, 0, 0);
    for b := 0 to out.Length0
      invariant idx == s.Index(b, 0, 0, 0) && DilatedTo(s, input, out, b, 0, 0, 0)
    {
      idx := DilateImage(s, input, out, b, idx);
      IndexSteps(s, b, 0, 0);
    }
  }

  lemma IndexSteps(s: ImageShape, b: int, y: int, x: int)
    ensures s.Index(0, 0, 0, 0) == 0 && s.Index(b, s.rows, 0, 0) == s.Index(b + 1, 0, 0, 0)
    ensures s.Index(b, y, s.cols, 0) == s.Index(b, y + 1, 0, 0) && s.Index(b, y, x, s.chs) == s.Index(b, y, x + 1, 0)
    ensures forall ch :: s.Index(b, y, x, ch + 1) == s.Index(b, y, x, ch) + 1
  {
    assert Flat(b, s.rows, s.rows) == Flat(b + 1, s.rows, 0);
    assert Flat(Flat(b, s.rows, y), s.cols, s.cols) == Flat(Flat(b, s.rows, y) + 1, s.cols, 0);
    var t := Flat(Flat(b, s.rows, y), s.cols, x);
    assert Flat(t, s.chs, s.chs) == Flat(t + 1, s.chs, 0);
  }

  lemma IndexRange(s: ImageShape, b: int, y: int, x: int, ch: int, n: int)
    requires 0 <= b < n && 0 <= y < s.rows && 0 <= x < s.cols && 0 <= ch < s.chs
    ensures 0 <= s.Index(b, y, x, ch) < s.Index(n, 0, 0, 0)
  {
    FlatIn(b, n, s.rows, y);
    FlatIn(Flat(b, s.rows, y), Flat(n, s.rows, 0), s.cols, x);
    FlatIn(Flat(Flat(b, s.rows, y), s.cols, x), Flat(Flat(n, s.rows, 0), s.cols, 0), s.chs, ch);
  }

  lemma FlatIn(a: int, n: int, m: int, j: int)
    requires 0 <= a < n && 0 <= j < m
    ensures 0 <= Flat(a, m, j) < Flat(n, m, 0)
  {
    MulLe(a + 1, n, m);
    MulLe(0, a, m);
    assert (a + 1) * m == a * m + m;
  }

  /** One image, row by row and column by column of the dilated grid. */
  method DilateImage(s: ImageShape, input: seq<Elem>, out: array4<Elem>, b: nat, start: nat) returns (idx: nat)
    requires Shaped(s, out) && |input| == s.Index(out.Length0, 0, 0, 0)
    requires b < out.Length0 && start == s.Index(b, 0, 0, 0) && DilatedTo(s, input, out, b, 0, 0, 0)
    modifies out
    ensures idx == s.Index(b, s.rows, 0, 0) && DilatedTo(s, input, out, b + 1, 0, 0, 0)
  {
    hide Flat, Read;
    idx := start;
    var irow := 0;
    ghost var y := 0;
    FlatZero(s.dilation);
    GridEnd(s.rows, s.rows, s.dilation);
    while irow < out.Length1
      invariant 0 <= y <= s.rows && irow == Flat(y, s.dilation, 0) && idx == s.Index(b, y, 0, 0)
      invariant DilatedTo(s, input, out, b, irow, 0, 0)
      decreases s.rows - y
    {
      OnGrid(y, s.dilation);
      GridRow(s, y);
      idx := DilateRow(s, input, out, b, irow, y, idx);
      IndexSteps(s, b, y, 0);
      NextGridRow(s, input, out, b, irow, y);
      irow := irow + s.dilation;
      y := y + 1;
    }
    GridRow(s, y);
  }

  lemma GridRow(s: ImageShape, y: int)
    requires 0 <= y <= s.rows
    ensures Flat(y, s.dilation, 0) < s.Rows() <==> y < s.rows
    ensures 0 <= Flat(y, s.dilation, 0)
  {
    GridEnd(y, s.rows, s.dilation);
    OnGrid(s.rows - 1, s.dilation);
    MulLe(0, y, s.dilation);
  }

  lemma GridCol(s: ImageShape, x: int)
    requires 0 <= x <= s.cols
    ensures Flat(x, s.dilation, 0) < s.Cols() <==> x < s.cols
    ensures 0 <= Flat(x, s.dilation, 0)
  {
    GridEnd(x, s.cols, s.dilation);
    OnGrid(s.cols - 1, s.dilation);
    MulLe(0, x, s.dilation);
  }

  /** The rows between two grid rows are zero, as they should be. */
  lemma NextGridRow(s: ImageShape, input: seq<Elem>, out: array4<Elem>, b: int, irow: int, y: int)
    requires irow == Flat(y, s.dilation, 0) && DilatedTo(s, input, out, b, irow + 1, 0, 0)
    ensures DilatedTo(s, input, out, b, irow + s.dilation, 0, 0)
  {
    hide Flat, Read;
    OnGrid(y, s.dilation);
  }

  lemma NextGridCol(s: ImageShape, input: seq<Elem>, out: array4<Elem>, b: int, irow: int, icol: int, x: int)
    requires icol == Flat(x, s.dilation, 0) && DilatedTo(s, input, out, b, irow, icol + 1, 0)
    ensures DilatedTo(s, input, out, b, irow, icol + s.dilation, 0)
  {
    hide Flat, Read;
    OnGrid(x, s.dilation);
  }

  method DilateRow(s: ImageShape, input: seq<Elem>, out: array4<Elem>, b: nat, irow: nat, ghost y: nat, start: nat)
    returns (idx: nat)
    requires Shaped(s, out) && |input| == s.Index(out.Length0, 0, 0, 0) && b < out.Length0 && y < s.rows
    requires irow == Flat(y, s.dilation, 0) < out.Length1
    requires start == s.Index(b, y, 0, 0) && DilatedTo(s, input, out, b, irow, 0, 0)
    modifies out
    ensures idx == s.Index(b, y, s.cols, 0) && DilatedTo(s, input, out, b, irow + 1, 0, 0)
  {
    hide Flat, Read, DilatedPixel;
    idx := start;
    var icol := 0;
    ghost var x := 0;
    FlatZero(s.dilation);
    while icol < out.Length2
      invariant 0 <= x <= s.cols && icol == Flat(x, s.dilation, 0) && idx == s.Index(b, y, x, 0)
      invariant DilatedTo(s, input, out, b, irow, icol, 0)
      decreases s.cols - x
    {
      GridCol(s, x);
      OnGrid(x, s.dilation);
      for ch := 0 to s.chs
        invariant idx == s.Index(b, y, x, ch) && DilatedTo(s, input, out, b, irow, icol, ch)
      {
        IndexRange(s, b, y, x, ch, out.Length0);
        GridValue(s, input, b, y, x, ch);
        out[b, irow, icol, ch] := Read(input, idx);
        IndexSteps(s, b, y, x);
        idx := idx + 1;
      }
      IndexSteps(s, b, y, x);
      NextGridCol(s, input, out, b, irow, icol, x);
      icol := icol + s.dilation;
      x := x + 1;
    }
    GridCol(s, x);
  }

  lemma GridValue(s: ImageShape, input: seq<Elem>, b: int, y: int, x: int, ch: int)
    ensures DilatedPixel(s, input, b, Flat(y, s.dilation, 0), Flat(x, s.dilation, 0), ch)
            == Read(input, s.Index(b, y, x, ch))
  {
    hide Flat, Read;
    OnGrid(y, s.dilation);
    OnGrid(x, s.dilation);
  }

  /** The image loop_conv_ws convolves with input_dilated set is the reference's dilated image. */
  lemma ConvolvesDilatedImage(z: ConvSpec.Start, s: ImageShape, input: seq<Elem>, b: int, v: int, u: int, ch: int)
    requires z.p.inputDilated && s.dilation == 2 && z.p.URows() == s.Rows() && z.p.UCols() == s.Cols()
    requires 0 <= v < s.Rows() && 0 <= u < s.Cols()
    requires forall y, x :: 0 <= y < s.rows && 0 <= x < s.cols ==>
               LoadElem(z.d, z.p.InAddr(b, y, x, ch)) == Read(input, s.Index(b, y, x, ch))
    ensures ConvMeaning.DilatedImage(z, b, v, u, ch) == DilatedPixel(s, input, b, v, u, ch)
  {
    hide LoadElem, ConvSpec.Call.InAddr, ConvSpec.Call.URows, ConvSpec.Call.UCols, Read, ImageShape.Index;
    assert v / 2 < s.rows && u / 2 < s.cols;
  }
}
