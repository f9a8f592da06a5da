/** The tiled matrix multiplication instruction loop_ws. */
module LoopWsSpec {
  import opened Params
  import opened Wrap
  import opened Sums
  import opened Dram
  import opened Grid
  import opened State
  import opened Tiles
  import opened Machine
  import opened Scaling
  import opened NormPass

  /** The registers and flags of one loop_ws call; sizes are in blocks of DIM. */
  datatype Call = Call(
    I: nat, J: nat, K: nat, padI: nat, padJ: nat, padK: nat,
    A: nat, B: nat, D: nat, C: nat, strideA: nat, strideB: nat, strideD: nat, strideC: nat,
    accumulate: bool, fullC: bool, lowD: bool, aT: bool, bT: bool, aId: nat, bId: nat, act: Activation)
  {
    predicate Norms() { IsNorm(act) }

    predicate Padded() { padI <= DIM && padJ <= DIM && padK <= DIM }

    function RowsOf(i: int): nat requires Padded() { if i == I - 1 then DIM - padI else DIM }
    function ColsOf(j: int): nat requires Padded() { if j == J - 1 then DIM - padJ else DIM }
    function DepthOf(k: int): nat requires Padded() { if k == K - 1 then DIM - padK else DIM }

    /** The bounds check at the head of the instruction. */
    predicate Accepted() {
      (I * K + K * J) * DIM <= SPAD_ROWS / 2 && I * J * DIM <= ACC_ROWS / 2
    }

    /** The same check at the int width it is computed in. */
    predicate Tested() {
      Wrap32((I * K + K * J) * DIM) <= SPAD_ROWS / 2 && Wrap32(I * J * DIM) <= ACC_ROWS / 2
    }

    function ASize(): int { I * K * DIM }
    function BSize(): int { K * J * DIM }

    function AStart(): int { if aId == 2 then SPAD_ROWS / 2 else 0 }
    function BStart(): int { (if bId == 2 then SPAD_ROWS else SPAD_ROWS / 2) - BSize() }

    predicate InARows(R: int) { AStart() <= R < AStart() + ASize() }
    predicate InBRows(R: int) { BStart() <= R < BStart() + BSize() }

    function ARow(i: int, k: int, r: int): int {
      if aT then TileRow(AStart(), k, I, i, r) else TileRow(AStart(), i, K, k, r)
    }
    function BRow(k: int, j: int, r: int): int {
      if bT then TileRow(BStart(), j, K, k, r) else TileRow(BStart(), k, J, j, r)
    }
    function CRow(i: int, j: int, r: int): int { TileRow(0, i, J, j, r) }

    function AAddr(i: int, k: int): int { A + ((if aT then k else i) * strideA + (if aT then i else k)) * DIM }
    function BAddr(k: int, j: int): int { B + ((if bT then j else k) * strideB + (if bT then k else j)) * DIM }
    function DAddr(i: int, j: int): int { D + (i * strideD + j) * DIM * Size(!lowD) }
    function CAddr(i: int, j: int): int { C + (i * strideC + j) * DIM * Size(fullC) }

    /** The stored shapes of the A and B blocks. */
    function ARows(i: int, k: int): nat requires Padded() { if aT then DepthOf(k) else RowsOf(i) }
    function ACols(i: int, k: int): nat requires Padded() { if aT then RowsOf(i) else DepthOf(k) }
    function BRows(k: int, j: int): nat requires Padded() { if bT then ColsOf(j) else DepthOf(k) }
    function BCols(k: int, j: int): nat requires Padded() { if bT then DepthOf(k) else ColsOf(j) }

    predicate InA(i: int, k: int) { 0 <= i < I && 0 <= k < K }
    predicate InB(k: int, j: int) { 0 <= k < K && 0 <= j < J }
    predicate InC(i: int, j: int, m: int, n: int)
      requires Padded()
    {
      0 <= i < I && 0 <= j < J && 0 <= m < RowsOf(i) && 0 <= n < ColsOf(j)
    }
  }

  /** Everything a call starts from: its registers and the memories on entry. */
  datatype Start = Start(p: Call, cfg: Config, id: StatId, norm: NormBank, s: Spad, m: AccMem, d: Memory)

  predicate Ready(z: Start) {
    && z.p.Padded() && z.p.Accepted()
    && z.cfg.mode == WS && z.cfg.aTranspose == z.p.aT && z.cfg.bTranspose == z.p.bT
    && z.cfg.aStride == 1 && z.cfg.cStride == 1 && z.cfg.pool.stride == 0
    && z.cfg.load0.pixels == 1 && z.cfg.load1.pixels == 1 && z.cfg.load2.pixels == 1
  }

  /** Element (r, c) of the stored A block (i, k): from main memory, or already resident. */
  function AElem(z: Start, i: int, k: int, r: int, c: int): int {
    if z.p.A != 0 then SpadIn(z.d, z.cfg.load0, z.p.AAddr(i, k), r, c) else At(z.s, z.p.ARow(i, k, r), c)
  }

  function BElem(z: Start, k: int, j: int, r: int, c: int): int {
    if z.p.B != 0 then SpadIn(z.d, z.cfg.load1, z.p.BAddr(k, j), r, c) else At(z.s, z.p.BRow(k, j, r), c)
  }

  /** A and B as the array sees them: transposition undone, zero outside the matrix. */
  function APad(z: Start, i: int, k: int, m: int, x: int): int
    requires z.p.Padded()
  {
    if m < z.p.RowsOf(i) && x < z.p.DepthOf(k)
    then if z.p.aT then AElem(z, i, k, x, m) else AElem(z, i, k, m, x)
    else 0
  }

  function BPad(z: Start, k: int, j: int, x: int, n: int): int
    requires z.p.Padded()
  {
    if x < z.p.DepthOf(k) && n < z.p.ColsOf(j)
    then if z.p.bT then BElem(z, k, j, n, x) else BElem(z, k, j, x, n)
    else 0
  }

  ghost function BlockTerms(z: Start, i: int, j: int, m: int, n: int, k: int): int -> int
    requires z.p.Padded()
  {
    x => APad(z, i, k, m, x) * BPad(z, k, j, x, n)
  }

  /** What the accumulator cell holds before the first product. */
  function Initial(z: Start, i: int, j: int, m: int, n: int): int {
    if z.p.D != 0 then AccIn(z.d, z.cfg.load2, z.p.DAddr(i, j), m, n) else At(z.m, z.p.CRow(i, j, m), n)
  }

  /** The accumulator cell after k block products. */
  ghost function Partial(z: Start, i: int, j: int, m: int, n: int, k: nat): int
    requires z.p.Padded()
  {
    if k == 0 then Initial(z, i, j, m, n)
    else Landed(Partial(z, i, j, m, n, k - 1), Wrap32(Sum(DIM, BlockTerms(z, i, j, m, n, k - 1))),
                z.p.accumulate || k > 1)
  }

  ghost function Final(z: Start, i: int, j: int, m: int, n: int): Acc
    requires z.p.Padded()
  {
    Wrap32(Partial(z, i, j, m, n, z.p.K))
  }

  /** Normalised rows are stored one by one, by the loop's own stride. */
  function RowStride(z: Start): int {
    if z.p.Norms() then z.p.strideC * Size(z.p.fullC) else z.cfg.storeStride
  }

  function CByteAddr(z: Start, i: int, j: int, m: int, n: int): int {
    OutAddr(z.p.CAddr(i, j), RowStride(z), z.p.fullC, m, n)
  }

  /** Row m of block row i of the finished product, as the normalisation passes see it. */
  ghost function FinalRow(z: Start, i: int, m: int): Row
    requires z.p.Padded()
  {
    Row((jj: int) => (n: int) => Final(z, i, jj, m, n) as int, z.p.J, DIM - z.p.padJ)
  }

  // Normalised rows go through the four statistic slots in groups, one row per slot.

  function GroupsOf(p: Call, i: int): nat
    requires p.Padded()
  {
    (p.RowsOf(i) + NORM_STAT_IDS - 1) / NORM_STAT_IDS
  }

  /** The slots after all passes over group q of block row i. */
  ghost function AfterGroup(z: Start, n: NormBank, i: int, q: int): NormBank
    requires z.p.Padded()
  {
    seq(NORM_STAT_IDS, t requires 0 <= t < NORM_STAT_IDS =>
      var m := q * NORM_STAT_IDS + t;
      if m < z.p.RowsOf(i) then Passes(n[t], FinalRow(z, i, m), z.p.act, z.cfg.consts, 3) else n[t])
  }

  /** The slots before group q of block row i. */
  ghost function BankAt(z: Start, i: nat, q: nat): NormBank
    requires z.p.Padded()
    decreases i, q
  {
    if q > 0 then AfterGroup(z, BankAt(z, i, q - 1), i, q - 1)
    else if i > 0 then BankAt(z, i - 1, GroupsOf(z.p, i - 1))
    else z.norm
  }

  /** The statistics an output is written under: the selected ones, or what two passes over its own row left in its
      slot. */
  ghost function StatOf(z: Start, i: int, m: int): NormStat
    requires z.p.Padded()
  {
    if z.p.Norms() && 0 <= i && 0 <= m
    then Passes(BankAt(z, i, m / NORM_STAT_IDS)[m % NORM_STAT_IDS], FinalRow(z, i, m), z.p.act, z.cfg.consts, 2)
    else z.norm[z.id]
  }

  /** Byte x belongs to the C matrix. */
  ghost predicate InCBytes(z: Start, x: int)
    requires z.p.Padded()
  {
    exists i, j, m, n :: z.p.InC(i, j, m, n)
      && CByteAddr(z, i, j, m, n) <= x < CByteAddr(z, i, j, m, n) + Size(z.p.fullC)
  }

  /** C's elements do not overlap each other, nor the operands that are still to be read. */
  ghost predicate CApart(z: Start)
    requires z.p.Padded()
  {
    z.p.C != 0 ==>
    && (forall i, j, m, n, i', j', m', n' ::
          z.p.InC(i, j, m, n) && z.p.InC(i', j', m', n') && (i != i' || j != j' || m != m' || n != n') ==>
            Apart(CByteAddr(z, i, j, m, n), Size(z.p.fullC), CByteAddr(z, i', j', m', n'), Size(z.p.fullC)))
    && (z.p.A != 0 ==> forall i, k, r, c :: z.p.InA(i, k) && 0 <= r < z.p.ARows(i, k) && 0 <= c < z.p.ACols(i, k) ==>
          !InCBytes(z, AByte(z, i, k, r, c)))
    && (z.p.B != 0 ==> forall k, j, r, c :: z.p.InB(k, j) && 0 <= r < z.p.BRows(k, j) && 0 <= c < z.p.BCols(k, j) ==>
          !InCBytes(z, BByte(z, k, j, r, c)))
  }

  function AByte(z: Start, i: int, k: int, r: int, c: int): int {
    z.p.AAddr(i, k) + r * z.cfg.load0.stride + c
  }

  function BByte(z: Start, k: int, j: int, r: int, c: int): int {
    z.p.BAddr(k, j) + r * z.cfg.load1.stride + c
  }

  // What the loops keep, before iteration (k, j, i).

  predicate LoadedA(k': int, i': int, k: int, j: int, i: int) {
    k' < k || (k' == k && (j > 0 || i' < i))
  }

  predicate LoadedB(k': int, j': int, k: int, j: int, i: int) {
    k' < k || (k' == k && (j' < j || (j' == j && i > 0)))
  }

  predicate Done(i': int, j': int, j: int, i: int) {
    j' < j || (j' == j && i' < i)
  }

  ghost predicate AHeld(z: Start, s: Spad, k: int, j: int, i: int)
    requires z.p.Padded()
  {
    z.p.J > 0 ==>
      forall i', k', r, c :: z.p.InA(i', k') && 0 <= r < z.p.ARows(i', k') && 0 <= c < z.p.ACols(i', k')
                             && (z.p.A == 0 || LoadedA(k', i', k, j, i)) ==>
        At(s, z.p.ARow(i', k', r), c) == AElem(z, i', k', r, c)
  }

  ghost predicate BHeld(z: Start, s: Spad, k: int, j: int, i: int)
    requires z.p.Padded()
  {
    z.p.I > 0 ==>
      forall k', j', r, c :: z.p.InB(k', j') && 0 <= r < z.p.BRows(k', j') && 0 <= c < z.p.BCols(k', j')
                             && (z.p.B == 0 || LoadedB(k', j', k, j, i)) ==>
        At(s, z.p.BRow(k', j', r), c) == BElem(z, k', j', r, c)
  }

  /** Only the rows of operands that are loaded change. */
  ghost predicate SpadFrame(z: Start, s: Spad) {
    forall R, C :: !(z.p.A != 0 && z.p.InARows(R)) && !(z.p.B != 0 && z.p.InBRows(R)) ==> At(s, R, C) == At(z.s, R, C)
  }

  /** The array holds block (k, j) of B. */
  ghost predicate WeightsHeld(z: Start, pe: PeGrid, k: int, j: int)
    requires z.p.Padded()
  {
    forall x, n :: 0 <= x < DIM && 0 <= n < DIM ==> At(pe, x, n) == BPad(z, k, j, x, n)
  }

  ghost predicate AccHeld(z: Start, m: AccMem, k: nat, j: int, i: int)
    requires z.p.Padded()
  {
    forall i', j', r, c :: z.p.InC(i', j', r, c) ==>
      At(m, z.p.CRow(i', j', r), c) == Partial(z, i', j', r, c, if Done(i', j', j, i) then k + 1 else k)
  }

  ghost predicate AccFrame(z: Start, m: AccMem) {
    forall R, C :: z.p.I * z.p.J * DIM <= R ==> At(m, R, C) == At(z.m, R, C)
  }

  predicate Stored(z: Start, i': int, j': int, k: int, j: int, i: int) {
    && z.p.C != 0 && z.p.K > 0
    && (k >= z.p.K
        || (k == z.p.K - 1 && if z.p.Norms() then j >= z.p.J || (j == z.p.J - 1 && i' < i) else Done(i', j', j, i)))
  }

  ghost predicate CHeld(z: Start, d: Memory, k: int, j: int, i: int)
    requires z.p.Padded()
  {
    forall i', j', m, n :: z.p.InC(i', j', m, n) && Stored(z, i', j', k, j, i) ==>
      LoadOut(d, z.p.fullC, CByteAddr(z, i', j', m, n))
        == OutValue(z.cfg, StatOf(z, i', m), z.p.fullC, Final(z, i', j', m, n))
  }

  ghost predicate DramFrame(z: Start, d: Memory)
    requires z.p.Padded()
  {
    forall x :: !InCBytes(z, x) ==> Load(d, x) == Load(z.d, x)
  }
}
