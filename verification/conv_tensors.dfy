/** What loop_conv_ws leaves in main memory, in terms of tensors stored there contiguously. */
module ConvTensors {
  import opened Params
  import opened Wrap
  import opened Sums
  import opened Dram
  import opened Grid
  import opened Scaling
  import opened State
  import opened Norm
  import opened Outputs
  import opened Tensors
  import opened ConvSpec
  import opened ConvStore
  import opened ConvPool
  import opened ConvMeaning
  import opened ConvResult
  import opened LoopConvWs
  import ConvSequence

  /** Element (a, b, c, d) of a contiguous array whose last three dimensions are n1, n2 and n3. */
  function Index(a: int, n1: int, b: int, n2: int, c: int, n3: int, d: int): int { ((a * n1 + b) * n2 + c) * n3 + d }

  // Rows and columns of the image under the kernel, inserted zeros included.

  function Height(p: Call): int {
    p.orows * p.stride + p.krows + (p.kernelDilation - 1) * (p.krows - 1) - 1 - p.upad - p.dpad
  }

  function Width(p: Call): int {
    p.ocols * p.stride + p.kcols + (p.kernelDilation - 1) * (p.kcols - 1) - 1 - p.lpad - p.rpad
  }

  /** Main memory holds the image X: batch, row, column, channel, or, for trans_input_3120, channel, row, column,
      batch. */
  ghost predicate ImageStored(p: Call, d: Memory, X: Tensor) {
    var rows := if p.inputDilated then (Height(p) + 1) / 2 else Height(p);
    var cols := if p.inputDilated then (Width(p) + 1) / 2 else Width(p);
    forall b, y, x, ch :: 0 <= b < p.batches && 0 <= y < rows && 0 <= x < cols && 0 <= ch < p.kchs ==>
      LoadElem(d, p.input + ImageIndex(p, b, y, x, ch)) == X(b, y, x, ch)
  }

  function ImageIndex(p: Call, b: int, y: int, x: int, ch: int): int {
    if p.transInput3120 then Index(ch, p.inRowDim, y, p.inColDim, x, p.batchSize, b)
    else Index(b, p.inRowDim, y, p.inColDim, x, p.inStride, ch)
  }

  /** Main memory holds the kernels W: kernel row, kernel column, input channel, output channel; for trans_weight_1203
      the input channel first, for trans_weight_0132 it last. */
  ghost predicate WeightsStored(p: Call, d: Memory, W: Tensor) {
    forall kr, kc, ch, och :: 0 <= kr < p.krows && 0 <= kc < p.kcols && 0 <= ch < p.kchs && 0 <= och < p.ochs ==>
      LoadElem(d, p.weights + WeightIndex(p, kr, kc, ch, och)) == W(kr, kc, ch, och)
  }

  function WeightIndex(p: Call, kr: int, kc: int, ch: int, och: int): int {
    if p.transWeight1203 then Index(ch, p.kernelDim, kr, p.kernelDim, kc, p.outChannels, och)
    else if p.transWeight0132 then Index(kr, p.kernelDim, kc, p.outChannels, och, p.inChannels, ch)
    else Index(kr, p.kernelDim, kc, p.inChannels, ch, p.weightStride, och)
  }

  /** Where output (b, r, c, och) goes: batch, row, column, channel, or, for trans_output_1203, row, column, batch,
      channel. */
  function OutIndex(p: Call, b: int, r: int, c: int, och: int): int {
    if p.transOutput1203 then Index(r, p.outColDim, c, p.batchSize, b, p.outChannels, och)
    else Index(b, p.outRowDim, r, p.outColDim, c, p.outStride, och)
  }

  lemma Horner(a: int, n1: int, b: int, n2: int, c: int, n3: int, d: int)
    ensures Index(a, n1, b, n2, c, n3, d) == (a * n1 * n2 + b * n2 + c) * n3 + d
  {
    assert (a * n1 + b) * n2 == a * n1 * n2 + b * n2;
  }

  lemma ImageAddress(p: Call, b: int, y: int, x: int, ch: int)
    ensures p.InAddr(b, y, x, ch) == p.input + ImageIndex(p, b, y, x, ch)
  {
    Horner(ch, p.inRowDim, y, p.inColDim, x, p.batchSize, b);
    Horner(b, p.inRowDim, y, p.inColDim, x, p.inStride, ch);
  }

  lemma WeightAddress(p: Call, kr: int, kc: int, ch: int, och: int)
    ensures p.WAddr(kr, kc, ch, och) == p.weights + WeightIndex(p, kr, kc, ch, och)
  {
    Horner(ch, p.kernelDim, kr, p.kernelDim, kc, p.outChannels, och);
    Horner(kr, p.kernelDim, kc, p.outChannels, och, p.inChannels, ch);
    Horner(kr, p.kernelDim, kc, p.inChannels, ch, p.weightStride, och);
  }

  lemma OutputAddress(p: Call, b: int, r: int, c: int, och: int)
    ensures p.OutAddr(b, r, c, och) == p.output + OutIndex(p, b, r, c, och)
  {
    Horner(r, p.outColDim, c, p.batchSize, b, p.outChannels, och);
    Horner(b, p.outRowDim, r, p.outColDim, c, p.outStride, och);
  }

  // The convolution of X with W.

  /** Pixel (v, u) of the image with its padding, and with a zero after every row and column if the input is dilated. */
  function Pixel(p: Call, X: Tensor, b: int, v: int, u: int, ch: int): int {
    if v < 0 || v >= Height(p) || u < 0 || u >= Width(p) then 0
    else if !p.inputDilated then X(b, v, u, ch)
    else if v % 2 == 0 && u % 2 == 0 then X(b, v / 2, u / 2, ch)
    else 0
  }

  /** The kernel, turned by 180 degrees on request. */
  function Tap(p: Call, W: Tensor, kr: int, kc: int, ch: int, och: int): int {
    if p.wrot180 then W(p.krows - 1 - kr, p.kcols - 1 - kc, ch, och) else W(kr, kc, ch, och)
  }

  ghost function ChannelTerms(p: Call, X: Tensor, W: Tensor, b: int, r: int, c: int, och: int, kr: int,
                              kc: int): int -> int {
    ch => Pixel(p, X, b, r * p.stride + kr * p.kernelDilation - p.upad, c * p.stride + kc * p.kernelDilation - p.lpad,
                ch)
        * Tap(p, W, kr, kc, ch, och)
  }

  ghost function ColumnTerms(p: Call, X: Tensor, W: Tensor, b: int, r: int, c: int, och: int, kr: int): int -> int {
    kc => Sum(p.kchs, ChannelTerms(p, X, W, b, r, c, och, kr, kc))
  }

  ghost function RowTerms(p: Call, X: Tensor, W: Tensor, b: int, r: int, c: int, och: int): int -> int {
    kr => Sum(p.kcols, ColumnTerms(p, X, W, b, r, c, och, kr))
  }

  ghost function Convolution(p: Call, X: Tensor, W: Tensor, b: int, r: int, c: int, och: int): int {
    Sum(p.krows, RowTerms(p, X, W, b, r, c, och))
  }

  lemma SameSize(p: Call)
    ensures p.URows() == Height(p) && p.UCols() == Width(p)
  {
  }

  lemma PixelIs(z: Start, X: Tensor, b: int, v: int, u: int, ch: int)
    requires ImageStored(z.p, z.d, X) && 0 <= b < z.p.batches && 0 <= ch < z.p.kchs
    ensures DilatedImage(z, b, v, u, ch) == Pixel(z.p, X, b, v, u, ch)
  {
    hide LoadElem, Call.InAddr, ImageIndex, Height, Width, Call.URows, Call.UCols;
    SameSize(z.p);
    ImageAddress(z.p, b, v, u, ch);
    ImageAddress(z.p, b, v / 2, u / 2, ch);
  }

  lemma TapIs(z: Start, W: Tensor, kr: int, kc: int, ch: int, och: int)
    requires WeightsStored(z.p, z.d, W) && 0 <= kr < z.p.krows && 0 <= kc < z.p.kcols && 0 <= ch < z.p.kchs
    requires 0 <= och < z.p.ochs
    ensures Weight(z, kr, kc, ch, och) == Tap(z.p, W, kr, kc, ch, och)
  {
    hide LoadElem, Call.WAddr, WeightIndex;
    WeightAddress(z.p, kr, kc, ch, och);
    WeightAddress(z.p, z.p.krows - 1 - kr, z.p.kcols - 1 - kc, ch, och);
  }

  lemma TermIs(z: Start, X: Tensor, W: Tensor, b: int, r: int, c: int, och: int, kr: int, kc: int, ch: int)
    requires ImageStored(z.p, z.d, X) && WeightsStored(z.p, z.d, W) && 0 <= b < z.p.batches && 0 <= och < z.p.ochs
    requires 0 <= kr < z.p.krows && 0 <= kc < z.p.kcols && 0 <= ch < z.p.kchs
    ensures DirectTerms(z, b, r, c, och, kr, kc)(ch) == ChannelTerms(z.p, X, W, b, r, c, och, kr, kc)(ch)
  {
    hide DilatedImage, Weight, Pixel, Tap, ImageStored, WeightsStored;
    PixelIs(z, X, b, r * z.p.stride + kr * z.p.kernelDilation - z.p.upad,
            c * z.p.stride + kc * z.p.kernelDilation - z.p.lpad, ch);
    TapIs(z, W, kr, kc, ch, och);
  }

  /** The direct convolution reads its operands where they are stored. */
  lemma DirectIsConvolution(z: Start, X: Tensor, W: Tensor, b: int, r: int, c: int, och: int)
    requires ImageStored(z.p, z.d, X) && WeightsStored(z.p, z.d, W) && 0 <= b < z.p.batches && 0 <= och < z.p.ochs
    ensures Direct(z, b, r, c, och) == Convolution(z.p, X, W, b, r, c, och)
  {
    hide DirectTerms, ChannelTerms, ImageStored, WeightsStored, Sum;
    forall kr | 0 <= kr < z.p.krows
      ensures DirectRows(z, b, r, c, och)(kr) == RowTerms(z.p, X, W, b, r, c, och)(kr)
    {
      forall kc | 0 <= kc < z.p.kcols
        ensures DirectTaps(z, b, r, c, och, kr)(kc) == ColumnTerms(z.p, X, W, b, r, c, och, kr)(kc)
      {
        var f, g := DirectTerms(z, b, r, c, och, kr, kc), ChannelTerms(z.p, X, W, b, r, c, och, kr, kc);
        forall ch | 0 <= ch < z.p.kchs ensures f(ch) == g(ch) { TermIs(z, X, W, b, r, c, och, kr, kc, ch); }
        SumSame(z.p.kchs, f, g);
      }
      SumSame(z.p.kcols, DirectTaps(z, b, r, c, och, kr), ColumnTerms(z.p, X, W, b, r, c, och, kr));
    }
    SumSame(z.p.krows, DirectRows(z, b, r, c, och), RowTerms(z.p, X, W, b, r, c, och));
  }

  // What a completed call stores.

  /** Bias of an output channel: an int32 in main memory, or none. */
  function Bias(p: Call, d: Memory, och: int): Acc { if p.noBias then 0 else LoadAcc(d, p.bias + 4 * och) }

  /** A call that loads image, kernels and bias itself, and stores. */
  ghost predicate WholeCall(z: Start, s: Spad, m: AccMem, d: Memory, X: Tensor, W: Tensor) {
    && Ready(z) && Completed(z, s, m, d) && ImageStored(z.p, z.d, X) && WeightsStored(z.p, z.d, W)
    && z.p.input != 0 && z.p.weights != 0 && z.p.bias != 0 && z.dRow == z.cRow && z.p.output != 0
  }

  ghost function ConvValue(z: Start, X: Tensor, W: Tensor, b: int, r: int, c: int, och: int): Acc {
    Wrap32(Bias(z.p, z.d, och) + Convolution(z.p, X, W, b, r, c, och))
  }

  function CellOf(b: int, r: int, c: int, och: int): Cell { Cell(och / DIM, b, r, c, och % DIM) }

  lemma CellIndex(b: int, r: int, c: int, och: nat)
    ensures var e := CellOf(b, r, c, och);
            e.ob * DIM + e.n == och && 0 <= e.ob && 0 <= e.n < DIM && e.b == b && e.r == r && e.c == c
  {
  }

  lemma ValueIsConvolution(z: Start, X: Tensor, W: Tensor, e: Cell)
    requires Ready(z) && ImageStored(z.p, z.d, X) && WeightsStored(z.p, z.d, W) && InC(z, e)
    requires z.p.input != 0 && z.p.weights != 0 && z.p.bias != 0 && z.dRow == z.cRow
    ensures Value(z, e) == ConvValue(z, X, W, e.b, e.r, e.c, e.ob * DIM + e.n)
  {
    hide ImageStored, WeightsStored, Total, Direct, Convolution, Wrap32, Call.Fits, Packed, LoadAcc;
    TotalIsDirect(z, z.cRow, e);
    ChannelRange(z, e);
    DirectIsConvolution(z, X, W, e.b, e.r, e.c, e.ob * DIM + e.n);
  }

  /** The byte of output (b, r, c, och): bias plus the convolution of X with W, scaled, rounded to nearest, saturated
      and clipped, at its own place in the output tensor. */
  lemma StoresConvolution(z: Start, s: Spad, m: AccMem, d: Memory, X: Tensor, W: Tensor, b: int, r: int, c: int,
                          och: int, v: int, q: int)
    requires WholeCall(z, s, m, d, X, W) && z.p.noPool && (z.cfg.accAct == NONE || z.cfg.accAct == RELU)
    requires 0 <= b < z.p.batches && 0 <= r < z.p.orows && 0 <= c < z.p.ocols && 0 <= och < z.p.ochs
    requires v == Wrap32(Bias(z.p, z.d, och) + Convolution(z.p, X, W, b, r, c, och))
    requires NearestProduct(v, z.cfg.accScale, q)
    ensures Limits(q, z.cfg.accAct == RELU, LoadElem(d, z.p.output + OutIndex(z.p, b, r, c, och)))
  {
    hide Ready, Completed, ImageStored, WeightsStored, Convolution, Wrap32, Bias, Value, OutValue, LoadElem,
         NearestProduct, Limits, OutIndex, Call.OutAddr, CellOf;
    var e := CellOf(b, r, c, och);
    CellIndex(b, r, c, och);
    CompletedStore(z, s, m, d, e);
    ValueIsConvolution(z, X, W, e);
    OutputAddress(z.p, b, r, c, och);
    PlainOut(z.cfg, z.stat, false, v, q);
  }

  /** The accumulator of a call that only adds: what it held plus the convolution. */
  lemma SumsConvolution(z: Start, s: Spad, m: AccMem, d: Memory, X: Tensor, W: Tensor, e: Cell)
    requires Ready(z) && Completed(z, s, m, d) && ImageStored(z.p, z.d, X) && WeightsStored(z.p, z.d, W) && InC(z, e)
    requires z.p.input != 0 && z.p.weights != 0 && z.p.bias == 0
    ensures At(m, CRow(z, e), e.n)
            == Wrap32(At(z.m, CRow(z, e), e.n) + Convolution(z.p, X, W, e.b, e.r, e.c, e.ob * DIM + e.n))
  {
    hide ImageStored, WeightsStored, Total, Direct, Convolution, Wrap32, Call.Fits, Packed, Completed, CRow, At;
    CompletedStore(z, s, m, d, e);
    TotalIsDirect(z, z.cRow, e);
    ChannelRange(z, e);
    DirectIsConvolution(z, X, W, e.b, e.r, e.c, e.ob * DIM + e.n);
  }

  // Pooled stores.

  /** Where pooled pixel (b, pr, pc, och) goes. */
  function PooledIndex(p: Call, b: int, pr: int, pc: int, och: int): int {
    Index(b, p.poolOutRowDim, pr, p.poolOutColDim, pc, p.outStride, och)
  }

  lemma PooledAddress(p: Call, b: int, pr: int, pc: int, och: int)
    ensures PooledAddr(p, b, pr, pc, och) == p.output + PooledIndex(p, b, pr, pc, och)
  {
    Horner(b, p.poolOutRowDim, pr, p.poolOutColDim, pc, p.outStride, och);
  }

  /** Y are the un-pooled outputs: scaled, rounded to nearest, saturated and, if the call activates, clipped. */
  ghost predicate Unpooled(z: Start, X: Tensor, W: Tensor, Y: Tensor) {
    forall b, r, c, och, q :: 0 <= b < z.p.batches && 0 <= r < z.p.orows && 0 <= c < z.p.ocols && 0 <= och < z.p.ochs
                              && NearestProduct(ConvValue(z, X, W, b, r, c, och), z.cfg.accScale, q) ==>
      Limits(q, z.p.activation, Y(b, r, c, och))
  }

  /** Position (wr, wc) of window (pr, pc): zero in the padding around the outputs. */
  function Windowed(p: Call, Y: Tensor, b: int, pr: int, pc: int, och: int, wr: int, wc: int): int {
    var r, c := pr * p.poolStride + wr - p.pupad, pc * p.poolStride + wc - p.plpad;
    if 0 <= r < p.orows && 0 <= c < p.ocols then Y(b, r, c, och) else 0
  }

  lemma UnpooledIs(z: Start, X: Tensor, W: Tensor, Y: Tensor, b: int, r: int, c: int, och: int)
    requires Unpooled(z, X, W, Y)
    requires 0 <= b < z.p.batches && 0 <= r < z.p.orows && 0 <= c < z.p.ocols && 0 <= och < z.p.ochs
    ensures var cfg := PoolConfig(z.p, z.cfg);
            Activate(Scale(ConvValue(z, X, W, b, r, c, och), cfg.accScale), cfg.accAct) == Y(b, r, c, och)
  {
    hide ConvValue, Scale, Activate, NearestProduct;
    var v, cfg := ConvValue(z, X, W, b, r, c, och), PoolConfig(z.p, z.cfg);
    var q := HasNearest(v, z.cfg.accScale);
    ScaleIsNearest(v, z.cfg.accScale, q);
    ActivateIsClip(q, Scale(v, z.cfg.accScale), cfg.accAct);
  }

  lemma ElemIs(z: Start, X: Tensor, W: Tensor, Y: Tensor, q: ConvPool.Pixel, wr: int, wc: int)
    requires Ready(z) && ImageStored(z.p, z.d, X) && WeightsStored(z.p, z.d, W) && InP(z, q) && Unpooled(z, X, W, Y)
    requires z.p.input != 0 && z.p.weights != 0 && z.p.bias != 0 && z.dRow == z.cRow
    ensures ConvElem(z, q.ob, q.b, q.n, q.pr * z.p.poolStride + wr - z.p.pupad, q.pc * z.p.poolStride + wc - z.p.plpad)
            == Windowed(z.p, Y, q.b, q.pr, q.pc, q.ob * DIM + q.n, wr, wc)
  {
    hide Ready, ImageStored, WeightsStored, Unpooled, Value, ConvValue, Scale, Activate, PoolConfig;
    var r, c := q.pr * z.p.poolStride + wr - z.p.pupad, q.pc * z.p.poolStride + wc - z.p.plpad;
    if 0 <= r < z.p.orows && 0 <= c < z.p.ocols {
      var e := Cell(q.ob, q.b, r, c, q.n);
      ChannelRange(z, e);
      ValueIsConvolution(z, X, W, e);
      UnpooledIs(z, X, W, Y, q.b, r, c, q.ob * DIM + q.n);
    }
  }

  predicate InWindow(n: int, size: int, wr: int, wc: int) { 0 <= wr < n && 0 <= wc < size }

  lemma {:induction false} MaxIsMaximum(z: Start, X: Tensor, W: Tensor, Y: Tensor, q: ConvPool.Pixel, k: nat)
    requires Ready(z) && ImageStored(z.p, z.d, X) && WeightsStored(z.p, z.d, W) && InP(z, q) && Unpooled(z, X, W, Y)
    requires z.p.input != 0 && z.p.weights != 0 && z.p.bias != 0 && z.dRow == z.cRow
    ensures var max, och := ConvMax(z, q.ob, q.b, q.n, q.pr, q.pc, k), q.ob * DIM + q.n;
            && -128 <= max
            && (forall wr, wc :: InWindow(k, z.p.poolSize, wr, wc) ==>
                  Windowed(z.p, Y, q.b, q.pr, q.pc, och, wr, wc) <= max)
            && (max == -128 ||
                exists wr, wc ::
                  InWindow(k, z.p.poolSize, wr, wc) && Windowed(z.p, Y, q.b, q.pr, q.pc, och, wr, wc) == max)
  {
    hide Ready, ImageStored, WeightsStored, Unpooled, ConvElem, Windowed;
    if k > 0 {
      MaxIsMaximum(z, X, W, Y, q, k - 1);
      var start, f :=
        ConvMax(z, q.ob, q.b, q.n, q.pr, q.pc, k - 1), ConvWindowRow(z, q.ob, q.b, q.n, q.pr, q.pc, k - 1);
      var max, och := ConvMax(z, q.ob, q.b, q.n, q.pr, q.pc, k), q.ob * DIM + q.n;
      MaxFromBounds(start, z.p.poolSize, f);
      forall wr, wc | InWindow(k, z.p.poolSize, wr, wc)
        ensures Windowed(z.p, Y, q.b, q.pr, q.pc, och, wr, wc) <= max
      {
        if wr == k - 1 {
          ElemIs(z, X, W, Y, q, wr, wc);
          assert f(wc) == Windowed(z.p, Y, q.b, q.pr, q.pc, och, wr, wc);
        } else {
          assert InWindow(k - 1, z.p.poolSize, wr, wc);
        }
      }
      if max != start {
        var wc :| 0 <= wc < z.p.poolSize && f(wc) == max;
        ElemIs(z, X, W, Y, q, k - 1, wc);
        assert InWindow(k, z.p.poolSize, k - 1, wc);
      } else if max != -128 {
        var wr, wc :| InWindow(k - 1, z.p.poolSize, wr, wc) && Windowed(z.p, Y, q.b, q.pr, q.pc, och, wr, wc) == start;
        assert InWindow(k, z.p.poolSize, wr, wc);
      }
    }
  }

  /** A pooled call stores, at its place in the pooled tensor, the largest of the outputs under each window. */
  lemma StoresPooled(z: Start, s: Spad, m: AccMem, d: Memory, X: Tensor, W: Tensor, Y: Tensor, b: int, pr: int, pc: int,
                     och: int)
    requires WholeCall(z, s, m, d, X, W) && !z.p.noPool && Unpooled(z, X, W, Y)
    requires 0 <= b < z.p.batches && 0 <= pr < z.p.porows && 0 <= pc < z.p.pocols && 0 <= och < z.p.ochs
    ensures var out := LoadElem(d, z.p.output + PooledIndex(z.p, b, pr, pc, och));
            && (forall wr, wc :: InWindow(z.p.poolSize, z.p.poolSize, wr, wc) ==>
                  Windowed(z.p, Y, b, pr, pc, och, wr, wc) <= out)
            && (z.p.poolSize > 0 ==>
                  exists wr, wc ::
                    InWindow(z.p.poolSize, z.p.poolSize, wr, wc) && Windowed(z.p, Y, b, pr, pc, och, wr, wc) == out)
  {
    hide Ready, Completed, ImageStored, WeightsStored, Unpooled, ConvMax, Windowed, LoadElem, PooledIndex, PooledAddr;
    var q := ConvPool.Pixel(och / DIM, b, pr, pc, och % DIM);
    CellIndex(b, pr, pc, och);
    CompletedPool(z, s, m, d, q);
    PooledAddress(z.p, b, pr, pc, och);
    MaxIsMaximum(z, X, W, Y, q, z.p.poolSize);
    var out := LoadElem(d, z.p.output + PooledIndex(z.p, b, pr, pc, och));
    if z.p.poolSize > 0 && out == -128 {
      assert InWindow(z.p.poolSize, z.p.poolSize, 0, 0);
      LowestPixel(z.p, Y, b, pr, pc, och, 0, 0);
    }
  }

  lemma LowestPixel(p: Call, Y: Tensor, b: int, pr: int, pc: int, och: int, wr: int, wc: int)
    ensures -128 <= Windowed(p, Y, b, pr, pc, och, wr, wc)
  {
  }

  // Channel-split groups.

  /** Calls that split the channels of one convolution store what one call over all of them would. */
  lemma GroupStoresConvolution(z: Start, zs: seq<Start>, d: Memory, X: Tensor, W: Tensor, b: int, r: int, c: int,
                               och: int, v: int, q: int)
    requires |zs| > 0 && ConvSequence.GroupStored(zs, d) && zs[|zs| - 1].p.noPool
    requires ConvSequence.Slices(z, zs) && ConvSequence.Channels(zs) == z.p.kchs
    requires ImageStored(z.p, z.d, X) && WeightsStored(z.p, z.d, W)
    requires 0 <= b < z.p.batches && 0 <= r < z.p.orows && 0 <= c < z.p.ocols && 0 <= och < z.p.ochs
    requires v == Wrap32(Bias(zs[0].p, zs[0].d, och) + Convolution(z.p, X, W, b, r, c, och))
    requires zs[|zs| - 1].cfg.accAct == NONE || zs[|zs| - 1].cfg.accAct == RELU
    requires NearestProduct(v, zs[|zs| - 1].cfg.accScale, q)
    ensures var last := zs[|zs| - 1];
            Limits(q, last.cfg.accAct == RELU, LoadElem(d, last.p.output + OutIndex(last.p, b, r, c, och)))
  {
    hide ConvSequence.GroupStored, ConvSequence.Slices, ImageStored, WeightsStored, Convolution, Wrap32, LoadAcc,
         OutValue, LoadElem, NearestProduct, Limits, OutIndex, Call.OutAddr, Direct, CellOf;
    var last, e := zs[|zs| - 1], CellOf(b, r, c, och);
    CellIndex(b, r, c, och);
    ConvSequence.StoredIsWhole(z, zs, d, e);
    DirectIsConvolution(z, X, W, b, r, c, och);
    OutputAddress(last.p, b, r, c, och);
    PlainOut(last.cfg, last.stat, false, v, q);
  }
}
