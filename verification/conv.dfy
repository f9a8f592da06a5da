/** The tiled convolution instruction loop_conv_ws: its registers, layouts and meaning. */
module ConvSpec {
  import opened Params
  import opened Sums
  import opened Dram
  import opened Grid
  import opened State
  import opened Layouts
  import opened Machine

  datatype Call = Call(
    batchSize: nat, inRowDim: nat, inColDim: nat, inChannels: nat, outChannels: nat,
    inStride: nat, weightStride: nat, outStride: nat, outRowDim: nat, outColDim: nat,
    stride: nat, kernelDim: nat, kernelDilation: nat,
    batches: nat, ochs: nat, krows: nat, kcols: nat, kchs: nat,
    lpad: nat, rpad: nat, upad: nat, dpad: nat, orows: nat, ocols: nat,
    weights: nat, output: nat, bias: nat, input: nat,
    noBias: bool, wrot180: bool, transOutput1203: bool, transWeight1203: bool, transWeight0132: bool,
    transInput3120: bool, inputDilated: bool, aId: nat, bId: nat, pixels: Pos,
    noPool: bool, activation: bool, poolSize: nat, poolStride: nat, poolOutRowDim: nat, poolOutColDim: nat,
    porows: nat, pocols: nat, plpad: nat, pupad: nat)
  {
    /** Coordinates in the zero-inserted image, halved when the input is dilated. */
    function Undilated(x: int): int { if inputDilated then (x + 1) / 2 else x }

    /** Output columns and input columns advance together by these steps. */
    function OutStep(): Pos { if inputDilated then 2 else 1 }
    function InStep(): nat { if inputDilated then 1 else stride }

    function DilatedKRows(): int { krows + (kernelDilation - 1) * (krows - 1) }
    function DilatedKCols(): int { kcols + (kernelDilation - 1) * (kcols - 1) }

    /** Rows and columns of image data, before and after removing the inserted zeros. */
    function URows(): int { orows * stride + DilatedKRows() - 1 - upad - dpad }
    function UCols(): int { ocols * stride + DilatedKCols() - 1 - lpad - rpad }
    function IRowsU(): int { if inputDilated then (URows() + 1) / 2 else URows() }
    function IColsU(): int { if inputDilated then (UCols() + 1) / 2 else UCols() }

    /** The padded tile held in the scratchpad. */
    function IRows(): int { IRowsU() + Undilated(upad) + Undilated(dpad) }
    function ICols(): int { IColsU() + Undilated(lpad) + Undilated(rpad) }

    function KBlocks(): nat { BlockCount(kchs) }
    function OBlocks(): nat { BlockCount(ochs) }

    function AStart(): int { if aId == 2 then SPAD_ROWS / 2 else 0 }
    /** Input is stored by channel block with a row per image and pixel, or, transposed, by block of images with a
        row per channel and pixel. */
    function ALayout(): Layout {
      if transInput3120 then Layout(AStart(), BlockCount(batches), kchs, IRows(), ICols())
      else Layout(AStart(), KBlocks(), batches, IRows(), ICols())
    }

    /** Weights are stored by output-channel block, or by input-channel block when transposed. */
    function BShape(start: int): Layout {
      if transWeight0132 then Layout(start, KBlocks(), krows, kcols, ochs)
      else Layout(start, OBlocks(), krows, kcols, kchs)
    }
    function BStart(): int { (if bId == 2 then SPAD_ROWS else SPAD_ROWS / 2) - BShape(0).Rows() }
    function BLayout(): Layout { BShape(BStart()) }

    function CLayout(row: int): Layout { Layout(row, OBlocks(), batches, orows, ocols) }

    /** First-layer packing: several neighbouring pixels share a scratchpad row. */
    predicate Packable() {
      pixels * kchs <= DIM && kchs > 0 && kernelDilation == 1 && !wrot180 && !inputDilated && AStart() == 0
        && !transWeight0132
    }

    /** Kernel columns multiplied at once from column kc on. */
    function PixelsAt(kc: int): int { Min(pixels, kcols - kc) }

    /** How far apart the rows of neighbouring channels (transposed input) and of neighbouring images (sums) are. */
    function ChannelRows(): int { IRows() * ICols() }
    function ImageRows(): nat { orows * ocols }

    /** Images and output columns taken by one group: DIM pixels of one image, or one pixel of DIM images. */
    function BatchStep(): Pos { if transInput3120 then DIM else 1 }
    function ColStep(): Pos { if transInput3120 then 1 else DIM * OutStep() }

    // Main-memory addresses.

    function InAddr(b: int, y: int, x: int, ch: int): int {
      if transInput3120 then input + (ch * inRowDim * inColDim + y * inColDim + x) * batchSize + b
      else input + (b * inRowDim * inColDim + y * inColDim + x) * inStride + ch
    }

    function InRowStride(): nat { if transInput3120 then batchSize else inStride }

    function WAddr(kr: int, kc: int, kch: int, och: int): int {
      if transWeight1203 then weights + (kch * kernelDim * kernelDim + kr * kernelDim + kc) * outChannels + och
      else if transWeight0132 then weights + (kr * kernelDim * outChannels + kc * outChannels + och) * inChannels + kch
      else weights + (kr * kernelDim * inChannels + kc * inChannels + kch) * weightStride + och
    }

    function OutAddr(b: int, r: int, c: int, och: int): int {
      if transOutput1203 then output + (r * outColDim * batchSize + c * batchSize + b) * outChannels + och
      else output + (b * outRowDim * outColDim + r * outColDim + c) * outStride + och
    }

    function OutRowStride(): int { if transOutput1203 then batchSize * outChannels else outStride }

    /** The part of the tile the program keeps to: A and B side by side, C within the accumulator. */
    predicate Fits(row: int) {
      && stride > 0 && URows() >= 0 && UCols() >= 0
      && 0 <= BStart() && AStart() + ALayout().Rows() <= SPAD_ROWS
      && (AStart() + ALayout().Rows() <= BStart() || BStart() + BLayout().Rows() <= AStart())
      && 0 <= row && row + CLayout(row).Rows() <= ACC_ROWS
    }
  }

  /** Everything a call starts from. */
  datatype Start = Start(p: Call, cfg: Config, stat: NormStat, s: Spad, m: AccMem, d: Memory, dRow: nat, cRow: nat)

  ghost predicate Ready(z: Start) {
    && z.p.Fits(z.dRow) && z.p.Fits(z.cRow)
    && (z.p.inputDilated ==> z.p.stride == 1)
    && !(z.p.transWeight1203 && z.p.transWeight0132)
    && z.cfg.mode == WS && z.cfg.aTranspose == z.p.transInput3120 && z.cfg.bTranspose == z.p.transWeight0132
    && (if z.p.transInput3120 then z.p.pixels == 1 else z.cfg.aStride == z.p.InStep() && z.cfg.cStride == z.p.OutStep())
    && (z.p.pixels > 1 ==> z.p.Packable() && (z.p.input == 0 ==> Packed(z, z.s)))
    && (z.dRow == z.cRow || z.dRow + z.p.CLayout(0).Rows() <= z.cRow || z.cRow + z.p.CLayout(0).Rows() <= z.dRow)
  }

  /** For transposed input the call itself sets the strides of A and C. */
  predicate Restrided(z: Start) {
    z.p.transInput3120 ==> z.cfg.aStride == z.p.ChannelRows() && z.cfg.cStride == z.p.ImageRows()
  }

  /** The padded image tile: data inside, zero in the padding. */
  function Image(z: Start, b: int, y: int, x: int, ch: int): int {
    var v, u := y - z.p.Undilated(z.p.upad), x - z.p.Undilated(z.p.lpad);
    if 0 <= v < z.p.IRowsU() && 0 <= u < z.p.IColsU() then LoadElem(z.d, z.p.InAddr(b, v, u, ch)) else 0
  }

  /** Channel c of block kb at pixel (b, y, x) of the tile. */
  function AElem(z: Start, kb: int, b: int, y: int, x: int, c: int): int {
    if z.p.input != 0 then Image(z, b, y, x, kb * DIM + c)
    else if z.p.transInput3120 then At(z.s, z.p.ALayout().Row(b / DIM, kb * DIM + c, y, x), b % DIM)
    else At(z.s, z.p.ALayout().Row(kb, b, y, x), c)
  }

  /** Row (b, y, x) of a packed tile holds its own pixel and the next pixels - 1 to its right. */
  ghost predicate Packed(z: Start, s: Spad) {
    forall b, y, x, px, c :: z.p.ALayout().In(0, b, y, x) && 0 <= px < z.p.pixels && x + px < z.p.ICols()
                             && 0 <= c < z.p.kchs ==>
      At(s, z.p.ALayout().Row(0, b, y, x), Flat(px, z.p.kchs, c)) == AElem(z, 0, b, y, x + px, c)
  }

  function BElem(z: Start, kr: int, kc: int, kch: int, och: int): int {
    if z.p.weights != 0 then LoadElem(z.d, z.p.WAddr(kr, kc, kch, och))
    else if z.p.transWeight0132 then At(z.s, z.p.BLayout().Row(kch / DIM, kr, kc, och), kch % DIM)
    else At(z.s, z.p.BLayout().Row(och / DIM, kr, kc, kch), och % DIM)
  }

  function BiasElem(z: Start, och: int): Acc {
    if z.p.noBias then 0 else LoadAcc(z.d, z.p.bias + 4 * och)
  }

  /** An accumulator cell: channel block ob, pixel (b, r, c), column n. */
  datatype Cell = Cell(ob: int, b: int, r: int, c: int, n: int)

  predicate InC(z: Start, e: Cell) {
    0 <= e.ob && 0 <= e.b < z.p.batches && 0 <= e.r < z.p.orows && 0 <= e.c < z.p.ocols && 0 <= e.n < DIM
    && e.ob * DIM + e.n < z.p.ochs
  }

  function CRow(z: Start, e: Cell): int {
    z.p.CLayout(z.cRow).Row(e.ob, e.b, e.r, e.c)
  }

  function Base(z: Start, e: Cell): int {
    if z.p.bias != 0 && z.dRow == z.cRow then BiasElem(z, e.ob * DIM + e.n) else At(z.m, CRow(z, e), e.n)
  }

  // The meaning: a sum over kernel rows, kernel columns, channel blocks and channels.

  /** Coordinates in the zero-inserted, padded image that tap (kr, kc) of output (r, c) looks at. */
  function TapRow(p: Call, kr: int, r: int): int { r * p.stride + kr * p.kernelDilation }
  function TapCol(p: Call, kc: int, c: int): int { c * p.stride + kc * p.kernelDilation }

  /** The tap falls on data rather than on an inserted zero. */
  predicate OnData(p: Call, pos: int, pad: int) {
    p.inputDilated ==> (pos - pad) % 2 == 0
  }

  function XPad(z: Start, e: Cell, kr: int, kc: int, kb: int, x: int): int {
    if kb * DIM + x < z.p.kchs && OnData(z.p, TapRow(z.p, kr, e.r), z.p.upad)
      && OnData(z.p, TapCol(z.p, kc, e.c), z.p.lpad)
    then AElem(z, kb, e.b, z.p.Undilated(TapRow(z.p, kr, e.r)), z.p.Undilated(TapCol(z.p, kc, e.c)), x)
    else 0
  }

  function Rot(p: Call, k: int, n: int): int { if p.wrot180 then n - k - 1 else k }

  function WPad(z: Start, ob: int, kr: int, kc: int, kb: int, x: int, n: int): int {
    if kb * DIM + x < z.p.kchs && ob * DIM + n < z.p.ochs
    then BElem(z, Rot(z.p, kr, z.p.krows), Rot(z.p, kc, z.p.kcols), kb * DIM + x, ob * DIM + n)
    else 0
  }

  ghost function ChTerms(z: Start, e: Cell, kr: int, kc: int, kb: int): int -> int {
    x => XPad(z, e, kr, kc, kb, x) * WPad(z, e.ob, kr, kc, kb, x, e.n)
  }

  ghost function BlockSum(z: Start, e: Cell, kr: int, kc: int, kb: int): int {
    Sum(DIM, ChTerms(z, e, kr, kc, kb))
  }

  /** What one compute multiplies: a channel block of one tap, or all channels of several packed taps. */
  function StepX(z: Start, e: Cell, kr: int, kc: int, kb: int, x: int): int {
    if z.p.pixels == 1 || z.p.kchs == 0 then XPad(z, e, kr, kc, kb, x)
    else if x < z.p.PixelsAt(kc) * z.p.kchs then XPad(z, e, kr, kc + x / z.p.kchs, 0, x % z.p.kchs)
    else 0
  }

  function StepW(z: Start, ob: int, kr: int, kc: int, kb: int, x: int, n: int): int {
    if z.p.pixels == 1 || z.p.kchs == 0 then WPad(z, ob, kr, kc, kb, x, n)
    else if x < z.p.PixelsAt(kc) * z.p.kchs then WPad(z, ob, kr, kc + x / z.p.kchs, 0, x % z.p.kchs, n)
    else 0
  }

  ghost function StepTerms(z: Start, e: Cell, kr: int, kc: int, kb: int): int -> int {
    x => StepX(z, e, kr, kc, kb, x) * StepW(z, e.ob, kr, kc, kb, x, e.n)
  }

  ghost function StepSum(z: Start, e: Cell, kr: int, kc: int, kb: int): int {
    Sum(DIM, StepTerms(z, e, kr, kc, kb))
  }

  ghost function BlockSums(z: Start, e: Cell, kr: int, kc: int): int -> int {
    kb => BlockSum(z, e, kr, kc, kb)
  }

  ghost function TapSums(z: Start, e: Cell, kr: int): int -> int {
    kc => Sum(z.p.KBlocks(), BlockSums(z, e, kr, kc))
  }

  ghost function KRowSums(z: Start, e: Cell): int -> int {
    kr => Sum(z.p.kcols, TapSums(z, e, kr))
  }

  /** The products in before tap (kr, kc), block kb. */
  ghost function Prefix(z: Start, e: Cell, kr: nat, kc: nat, kb: nat): int {
    Sum(kr, KRowSums(z, e)) + Sum(kc, TapSums(z, e, kr)) + Sum(kb, BlockSums(z, e, kr, kc))
  }

  ghost function Total(z: Start, e: Cell): int {
    Sum(z.p.krows, KRowSums(z, e))
  }
}
