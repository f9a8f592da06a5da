/** The compute phase of loop_conv_ws adds exactly one channel block of one kernel tap to every output. */
module ConvTaps {
  import opened Params
  import opened Wrap
  import opened Sums
  import opened Grid
  import opened Patches
  import opened Layouts
  import opened Machine
  import opened ConvSpec

  ghost predicate PlainHeld(z: Start, s: Spad) {
    forall kb, b, y, x, c :: z.p.ALayout().In(kb, b, y, x) && 0 <= c < DIM && kb * DIM + c < z.p.kchs ==>
      At(s, z.p.ALayout().Row(kb, b, y, x), c) == AElem(z, kb, b, y, x, c)
  }

  /** Transposed input: column C of block a is image a * DIM + C. */
  ghost predicate TransHeld(z: Start, s: Spad) {
    forall a, ch, y, x, C :: z.p.ALayout().In(a, ch, y, x) && 0 <= C < DIM && a * DIM + C < z.p.batches ==>
      At(s, z.p.ALayout().Row(a, ch, y, x), C) == ImageAt(z, a, ch, y, x, C)
  }

  function ImageAt(z: Start, a: int, ch: int, y: int, x: int, C: int): int {
    AElem(z, ch / DIM, a * DIM + C, y, x, ch % DIM)
  }

  ghost predicate AHeld(z: Start, s: Spad) {
    if z.p.transInput3120 then TransHeld(z, s) else if z.p.pixels == 1 then PlainHeld(z, s) else Packed(z, s)
  }

  function BValue(z: Start, a: int, kr: int, kc: int, d: int, C: int): int {
    if z.p.transWeight0132 then BElem(z, kr, kc, a * DIM + C, d) else BElem(z, kr, kc, d, a * DIM + C)
  }

  ghost predicate BHeld(z: Start, s: Spad) {
    forall a, kr, kc, d, C :: z.p.BLayout().In(a, kr, kc, d) && 0 <= C < DIM
                              && a * DIM + C < (if z.p.transWeight0132 then z.p.kchs else z.p.ochs) ==>
      At(s, z.p.BLayout().Row(a, kr, kc, d), C) == BValue(z, a, kr, kc, d, C)
  }

  ghost predicate WeightsHeld(z: Start, pe: PeGrid, ob: int, kr: int, kc: int, kb: int) {
    forall x, n :: 0 <= x < DIM && 0 <= n < DIM ==> At(pe, x, n) == StepW(z, ob, kr, kc, kb, x, n)
  }

  /** The cell lies before position (b, r, c) of the loops over blocks of images, rows and columns. */
  predicate CellDone(p: Call, e: Cell, b: int, r: int, c: int) {
    e.b < b || (e.b < b + p.BatchStep() && (e.r < r || (e.r == r && e.c < c)))
  }

  /** The sum of products cell e has received when the loops stand at (ob, kr, kc, kb). */
  ghost function Progress(z: Start, e: Cell, ob: int, kr: nat, kc: nat, kb: nat, done: bool): int {
    if e.ob < ob then Total(z, e)
    else if e.ob > ob then 0
    else Prefix(z, e, kr, kc, kb) + (if done then StepSum(z, e, kr, kc, kb) else 0)
  }

  ghost predicate AccHeld(z: Start, m: AccMem, ob: int, kr: nat, kc: nat, kb: nat, b: int, r: int, c: int) {
    forall e :: InC(z, e) ==>
      At(m, CRow(z, e), e.n) == Wrap32(Base(z, e) + Progress(z, e, ob, kr, kc, kb, CellDone(z.p, e, b, r, c)))
  }

  // Geometry of the taps.

  /** Removing inserted zeros from a padded coordinate. */
  lemma PadSplit(pos: int, u: int, pl: int, pr: int)
    requires 0 <= pos < u + pl + pr && 0 <= u && 0 <= pl && 0 <= pr && (pos - pl) % 2 == 0
    ensures 0 <= (pos + 1) / 2 < (u + 1) / 2 + (pl + 1) / 2 + (pr + 1) / 2
    ensures (pos + 1) / 2 - (pl + 1) / 2 == (pos - pl) / 2
  {
  }

  lemma TapRange(n: int, stride: int, k: int, kd: int, r: int, kr: int)
    requires 0 <= r < n && 0 < stride && 0 <= kr < k && 0 <= kd
    ensures 0 <= r * stride + kr * kd < n * stride + (k + (kd - 1) * (k - 1)) - 1
  {
    MulLe(r + 1, n, stride);
    MulLe(0, r, stride);
    MulLe(kr, k - 1, kd);
    MulLe(0, kr, kd);
    assert (r + 1) * stride == r * stride + stride;
    assert (k - 1) * kd == (kd - 1) * (k - 1) + (k - 1);
  }

  /** Every row the array reads lies inside the loaded tile. */
  lemma TapInTile(p: Call, row: int, kr: int, kc: int, r: int, c: int)
    requires p.Fits(row) && 0 <= kr < p.krows && 0 <= kc < p.kcols && 0 <= r < p.orows && 0 <= c < p.ocols
    requires OnData(p, TapRow(p, kr, r), p.upad) && OnData(p, TapCol(p, kc, c), p.lpad)
    ensures 0 <= p.Undilated(TapRow(p, kr, r)) < p.IRows() && 0 <= p.Undilated(TapCol(p, kc, c)) < p.ICols()
  {
    hide Layout.Rows, TapRow, TapCol;
    assert 0 <= TapRow(p, kr, r) < p.URows() + p.upad + p.dpad by {
      TapRange(p.orows, p.stride, p.krows, p.kernelDilation, r, kr);
      TapRowDef(p, kr, r);
    }
    assert 0 <= TapCol(p, kc, c) < p.UCols() + p.lpad + p.rpad by {
      TapRange(p.ocols, p.stride, p.kcols, p.kernelDilation, c, kc);
      TapColDef(p, kc, c);
    }
    hide Call.URows, Call.UCols;
    if p.inputDilated {
      PadSplit(TapRow(p, kr, r), p.URows(), p.upad, p.dpad);
      PadSplit(TapCol(p, kc, c), p.UCols(), p.lpad, p.rpad);
    }
  }

  lemma TapRowDef(p: Call, kr: int, r: int)
    ensures TapRow(p, kr, r) == r * p.stride + kr * p.kernelDilation
  {
  }

  lemma TapColDef(p: Call, kc: int, c: int)
    ensures TapCol(p, kc, c) == c * p.stride + kc * p.kernelDilation
  {
  }

  /** Along a group, output columns advance by OutStep while scratchpad rows advance by InStep. */
  lemma TapColStep(p: Call, kc: int, c: int, i: int)
    requires p.inputDilated ==> p.stride == 1
    ensures OnData(p, TapCol(p, kc, c + p.OutStep() * i), p.lpad) <==> OnData(p, TapCol(p, kc, c), p.lpad)
    ensures p.Undilated(TapCol(p, kc, c + p.OutStep() * i)) == p.Undilated(TapCol(p, kc, c)) + p.InStep() * i
  {
    if p.inputDilated {
      assert TapCol(p, kc, c + 2 * i) == TapCol(p, kc, c) + 2 * i;
    } else {
      assert (c + i) * p.stride == c * p.stride + i * p.stride;
    }
  }

  /** Columns between the group's own fall on inserted zeros. */
  lemma BetweenIsZero(p: Call, kc: int, c: int, t: int)
    requires p.inputDilated ==> p.stride == 1
    requires OnData(p, TapCol(p, kc, c), p.lpad) && t % p.OutStep() != 0
    ensures !OnData(p, TapCol(p, kc, c + t), p.lpad)
  {
    assert p.inputDilated && TapCol(p, kc, c + t) == TapCol(p, kc, c) + t;
  }

  /** A tap on an inserted zero contributes nothing. */
  lemma SkippedIsZero(z: Start, e: Cell, kr: int, kc: int, kb: int)
    requires !OnData(z.p, TapRow(z.p, kr, e.r), z.p.upad) || !OnData(z.p, TapCol(z.p, kc, e.c), z.p.lpad)
    requires z.p.pixels > 1 ==> z.p.Packable()
    ensures StepSum(z, e, kr, kc, kb) == 0
  {
    hide WPad, AElem, TapRow, TapCol, StepW;
    SumZero(DIM, StepTerms(z, e, kr, kc, kb));
  }

  // One group: up to DIM output pixels of one row.

  function GroupRows(p: Call, b: int, c: int): int {
    if p.transInput3120 then Min(DIM, p.batches - b) else p.Undilated(Min(p.ocols - c, DIM * p.OutStep()))
  }

  /** Output cell i of the group at (b, r, c): the next output pixel, or the same pixel of the next image. */
  function Member(p: Call, ob: int, b: int, r: int, c: int, i: int, n: int): Cell {
    if p.transInput3120 then Cell(ob, b + i, r, c, n) else Cell(ob, b, r, c + p.OutStep() * i, n)
  }

  /** Cell e is in the group at (b, r, c). */
  predicate InSpan(p: Call, ob: int, b: int, r: int, c: int, e: Cell) {
    e.ob == ob && e.r == r &&
    if p.transInput3120 then b <= e.b < b + DIM && e.c == c
    else e.b == b && c <= e.c < c + DIM * p.OutStep() && (e.c - c) % p.OutStep() == 0
  }

  function GroupCols(p: Call, ob: int): int { Min(DIM, p.ochs - ob * DIM) }
  function GroupDepth(p: Call, kc: int, kb: int): int { p.PixelsAt(kc) * Min(DIM, p.kchs - kb * DIM) }

  predicate InGroup(z: Start, ob: int, kr: int, kc: int, kb: int, b: int, r: int, c: int) {
    && 0 <= ob && 0 <= ob * DIM < z.p.ochs && 0 <= kr < z.p.krows && 0 <= kc < z.p.kcols && 0 <= kb
       && 0 <= kb * DIM < z.p.kchs
    && 0 <= b < z.p.batches && 0 <= r < z.p.orows && 0 <= c < z.p.ocols
    && OnData(z.p, TapRow(z.p, kr, r), z.p.upad) && OnData(z.p, TapCol(z.p, kc, c), z.p.lpad)
    && Restrided(z) && (z.p.transInput3120 ==> b % DIM == 0)
  }

  lemma BlockInRange(ch: int, chs: nat)
    requires 0 <= ch && ch * DIM < chs
    ensures ch < BlockCount(chs)
  {
    var q := (chs - 1) / DIM;
    DivUnique(ch * DIM, DIM, ch, 0);
    DivMono(ch * DIM, chs - 1);
    DivUnique(chs + DIM - 1, DIM, q + 1, (chs - 1) % DIM);
  }

  lemma BlockStarts(chs: nat, n: nat)
    requires n < BlockCount(chs)
    ensures 0 <= n * DIM < chs
  {
    var q := BlockCount(chs);
    MulLe(0, n, DIM);
    MulLe(n + 1, q, DIM);
    assert (n + 1) * DIM == n * DIM + DIM;
    assert q * DIM <= chs + DIM - 1;
  }

  lemma GroupRowsOk(p: Call, b: int, c: int, i: int)
    requires 0 <= c < p.ocols && 0 <= i && 0 <= b < p.batches
    ensures 0 < GroupRows(p, b, c) <= DIM
    ensures !p.transInput3120 ==> (i < GroupRows(p, b, c) <==> p.OutStep() * i < Min(p.ocols - c, DIM * p.OutStep()))
  {
  }

  function ARowOf(z: Start, kr: int, kc: int, kb: int, b: int, r: int, c: int): int {
    var y, x := z.p.Undilated(TapRow(z.p, kr, r)), z.p.Undilated(TapCol(z.p, kc, c));
    if z.p.transInput3120 then z.p.ALayout().Row(b / DIM, kb * DIM, y, x) else z.p.ALayout().Row(kb, b, y, x)
  }

  /** Row i of the group's A operand is the scratchpad row of output pixel c + OutStep * i. */
  lemma GroupARow(z: Start, ob: int, kr: int, kc: int, kb: int, b: int, r: int, c: int, i: int)
    requires Ready(z) && InGroup(z, ob, kr, kc, kb, b, r, c) && 0 <= i < GroupRows(z.p, b, c) && !z.p.transInput3120
    ensures RowAt(ARowOf(z, kr, kc, kb, b, r, c), z.cfg.aStride, i)
            == ARowOf(z, kr, kc, kb, b, r, c + z.p.OutStep() * i)
    ensures c + z.p.OutStep() * i < z.p.ocols
    ensures OnData(z.p, TapCol(z.p, kc, c + z.p.OutStep() * i), z.p.lpad)
    ensures z.p.ALayout().In(kb, b, z.p.Undilated(TapRow(z.p, kr, r)),
                             z.p.Undilated(TapCol(z.p, kc, c + z.p.OutStep() * i)))
    ensures 0 <= ARowOf(z, kr, kc, kb, b, r, c + z.p.OutStep() * i) < SPAD_ROWS
  {
    hide Layout.Row, Layout.Rows, Call.Fits, Call.IRows, Call.ICols, Call.Undilated, TapRow, TapCol, OnData, GroupRows;
    var p := z.p;
    GroupRowsOk(p, b, c, i);
    TapColStep(p, kc, c, i);
    TapInTile(p, z.cRow, kr, kc, r, c + p.OutStep() * i);
    BlockInRange(kb, p.kchs);
    RowStep(p.ALayout(), kb, b, p.Undilated(TapRow(p, kr, r)), p.Undilated(TapCol(p, kc, c)), p.InStep() * i);
    RowBounds(p.ALayout(), kb, b, p.Undilated(TapRow(p, kr, r)), p.Undilated(TapCol(p, kc, c + p.OutStep() * i)));
    ARegion(p, z.cRow);
  }

  /** Transposed: row k of the operand is channel k of the block, its columns are the images of block b / DIM. */
  lemma TransARow(z: Start, ob: int, kr: int, kc: int, kb: int, b: int, r: int, c: int, k: int)
    requires Ready(z) && InGroup(z, ob, kr, kc, kb, b, r, c) && 0 <= k && kb * DIM + k < z.p.kchs && z.p.transInput3120
    ensures var y, x := z.p.Undilated(TapRow(z.p, kr, r)), z.p.Undilated(TapCol(z.p, kc, c));
            && z.p.ALayout().In(b / DIM, kb * DIM + k, y, x)
            && RowAt(ARowOf(z, kr, kc, kb, b, r, c), z.cfg.aStride, k) == z.p.ALayout().Row(b / DIM, kb * DIM + k, y, x)
    ensures 0 <= RowAt(ARowOf(z, kr, kc, kb, b, r, c), z.cfg.aStride, k) < SPAD_ROWS
  {
    hide Layout.Row, Layout.Rows, Call.Fits, Call.IRows, Call.ICols, Call.Undilated, TapRow, TapCol, OnData, BlockCount;
    var p := z.p;
    var y, x := p.Undilated(TapRow(p, kr, r)), p.Undilated(TapCol(p, kc, c));
    TapInTile(p, z.cRow, kr, kc, r, c);
    BlockOfImage(b, 0, p.batches);
    RowJump(p.ALayout(), b / DIM, kb * DIM, y, x, k);
    RowBounds(p.ALayout(), b / DIM, kb * DIM + k, y, x);
    ARegion(p, z.cRow);
  }

  /** Steps along the second index of a layout. */
  lemma RowJump(l: Layout, a: int, b: int, c: int, d: int, i: int)
    ensures l.Row(a, b + i, c, d) == l.Row(a, b, c, d) + l.n2 * l.n3 * i
  {
    var q := a * l.n1 + b;
    assert (q + i) * l.n2 + c == (q * l.n2 + c) + i * l.n2;
    assert ((q * l.n2 + c) + i * l.n2) * l.n3 == (q * l.n2 + c) * l.n3 + i * l.n2 * l.n3;
    assert l.n2 * l.n3 * i == i * l.n2 * l.n3;
  }

  /** Image b + i of the block that starts at b. */
  lemma BlockOfImage(b: int, i: int, batches: nat)
    requires 0 <= b < batches && b % DIM == 0 && 0 <= i < DIM
    ensures (b + i) / DIM == b / DIM && (b + i) % DIM == i && 0 <= b / DIM < BlockCount(batches) && b / DIM * DIM == b
  {
    DivUnique(b + i, DIM, b / DIM, i);
    MulFar(b / DIM, DIM);
    BlockInRange(b / DIM, batches);
  }

  lemma ARegion(p: Call, row: int)
    requires p.Fits(row)
    ensures 0 <= p.ALayout().start && p.ALayout().start + p.ALayout().Rows() <= SPAD_ROWS
    ensures 0 <= p.BLayout().start && p.BLayout().start + p.BLayout().Rows() <= SPAD_ROWS
    ensures 0 <= row && row + p.CLayout(row).Rows() <= ACC_ROWS
  {
    assert p.BLayout().Rows() == p.BShape(0).Rows();
  }
}
