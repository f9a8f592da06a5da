/** One group of the compute phase: up to DIM output cells that share a preload and a compute. */
module ConvGroups {
  import opened Params
  import opened Wrap
  import opened Sums
  import opened Grid
  import opened State
  import opened Patches
  import opened Layouts
  import opened Machine
  import opened ConvSpec
  import opened ConvTaps
  import opened Chunks

  /** Scratchpad row of the weights a tap preloads. */
  function BRowOf(p: Call, ob: int, kr: int, kc: int, kb: int): int {
    var kr', kc' := Rot(p, kr, p.krows), Rot(p, kc, p.kcols);
    if p.transWeight0132 then p.BLayout().Row(kb, kr', kc', ob * DIM) else p.BLayout().Row(ob, kr', kc', kb * DIM)
  }

  /** Packed taps come with all their channels, so a group is never deeper than the array. */
  lemma DepthOk(z: Start, kc: int, kb: int)
    requires Ready(z) && 0 <= kc < z.p.kcols && 0 <= kb && 0 <= kb * DIM < z.p.kchs
    ensures 0 < GroupDepth(z.p, kc, kb) <= DIM
    ensures z.p.pixels == 1 ==> GroupDepth(z.p, kc, kb) == Min(DIM, z.p.kchs - kb * DIM)
    ensures z.p.pixels > 1 ==> kb == 0 && z.p.kchs <= DIM && GroupDepth(z.p, kc, kb) == z.p.PixelsAt(kc) * z.p.kchs
  {
    hide Call.Fits, Packed;
    var p := z.p;
    if p.pixels > 1 {
      MulLe(1, p.pixels, p.kchs);
      MulFar(kb, DIM);
      MulLe(p.PixelsAt(kc), p.pixels, p.kchs);
      MulLe(1, p.PixelsAt(kc), p.kchs);
    }
  }

  /** Channel t of kernel column kc, carried over into the following columns. */
  lemma RowCarry(l: Layout, a: int, b: int, c: int, t: int)
    requires 0 < l.n3
    ensures l.Row(a, b, c, t) == l.Row(a, b, c + t / l.n3, t % l.n3)
  {
    var q := (a * l.n1 + b) * l.n2 + c;
    assert (q + t / l.n3) * l.n3 == q * l.n3 + t / l.n3 * l.n3;
  }

  /** Column t of a packed group belongs to the (t / kchs)-th of its kernel columns. */
  lemma PackedColumn(p: Call, kc: int, t: int)
    requires 0 < p.kchs && 0 <= kc < p.kcols && 0 <= t < p.PixelsAt(kc) * p.kchs
    ensures 0 <= t / p.kchs < p.PixelsAt(kc) && 0 <= t % p.kchs < p.kchs && t == Flat(t / p.kchs, p.kchs, t % p.kchs)
  {
    DivMod(t, p.kchs);
    if t / p.kchs >= p.PixelsAt(kc) { MulLe(p.PixelsAt(kc), t / p.kchs, p.kchs); }
  }

  lemma DivMod(t: int, n: Pos)
    requires 0 <= t
    ensures 0 <= t / n && 0 <= t % n < n && t == Flat(t / n, n, t % n)
  {
  }

  /** Where the array column t of a preload comes from in the weight tile. */
  predicate BPlace(z: Start, ob: int, kr: int, kc: int, kb: int, t: int) {
    var p := z.p;
    var l, kr', kc' := p.BLayout(), Rot(p, kr, p.krows), Rot(p, kc, p.kcols);
    if p.transWeight0132
    then l.In(kb, kr', kc', ob * DIM + t) && BRowOf(p, ob, kr, kc, kb) + t == l.Row(kb, kr', kc', ob * DIM + t)
    else if p.pixels == 1 || p.kchs == 0
    then l.In(ob, kr', kc', kb * DIM + t) && BRowOf(p, ob, kr, kc, kb) + t == l.Row(ob, kr', kc', kb * DIM + t)
    else && l.In(ob, kr, kc + t / p.kchs, t % p.kchs)
         && BRowOf(p, ob, kr, kc, kb) + t == l.Row(ob, kr, kc + t / p.kchs, t % p.kchs)
  }

  /** The preloaded weights, column by column, are inside the weight region. */
  lemma GroupBRow(z: Start, ob: int, kr: int, kc: int, kb: int, t: int)
    requires Ready(z) && 0 <= ob && 0 <= ob * DIM < z.p.ochs && 0 <= kb && 0 <= kb * DIM < z.p.kchs
    requires 0 <= kr < z.p.krows && 0 <= kc < z.p.kcols
    requires 0 <= t < if z.p.transWeight0132 then GroupCols(z.p, ob) else GroupDepth(z.p, kc, kb)
    ensures BPlace(z, ob, kr, kc, kb, t) && 0 <= BRowOf(z.p, ob, kr, kc, kb) + t < SPAD_ROWS
  {
    hide Layout.Row, Layout.Rows, Call.Fits, Call.BStart, Packed, GroupDepth;
    var p := z.p;
    var kr', kc' := Rot(p, kr, p.krows), Rot(p, kc, p.kcols);
    DepthOk(z, kc, kb);
    BlockInRange(kb, p.kchs);
    BlockInRange(ob, p.ochs);
    ARegion(p, z.cRow);
    if p.transWeight0132 {
      RowStep(p.BLayout(), kb, kr', kc', ob * DIM, t);
      RowBounds(p.BLayout(), kb, kr', kc', ob * DIM + t);
    } else if p.pixels == 1 {
      RowStep(p.BLayout(), ob, kr', kc', kb * DIM, t);
      RowBounds(p.BLayout(), ob, kr', kc', kb * DIM + t);
    } else {
      PackedColumn(p, kc, t);
      RowStep(p.BLayout(), ob, kr, kc, 0, t);
      RowCarry(p.BLayout(), ob, kr, kc, t);
      RowBounds(p.BLayout(), ob, kr, kc + t / p.kchs, t % p.kchs);
    }
  }

  /** Row i of the group's output is the accumulator row of its cell i. */
  lemma GroupCRow(z: Start, ob: int, b: int, r: int, c: int, i: int)
    requires Ready(z) && Restrided(z) && 0 <= ob && ob * DIM < z.p.ochs && 0 <= b < z.p.batches && 0 <= r < z.p.orows
    requires 0 <= c < z.p.ocols
    requires 0 <= i < GroupRows(z.p, b, c)
    ensures var e := Member(z.p, ob, b, r, c, i, 0);
            && RowAt(CRow(z, Cell(ob, b, r, c, 0)), z.cfg.cStride, i) == CRow(z, e)
            && e.b < z.p.batches && e.c < z.p.ocols && z.p.CLayout(z.cRow).In(e.ob, e.b, e.r, e.c)
               && 0 <= CRow(z, e) < ACC_ROWS
  {
    hide Layout.Row, Layout.Rows, Call.Fits, GroupRows, Packed;
    var p := z.p;
    GroupRowsOk(p, b, c, i);
    BlockInRange(ob, p.ochs);
    ARegion(p, z.cRow);
    if p.transInput3120 {
      ImagesLeft(p, b, c);
      RowJump(p.CLayout(z.cRow), ob, b, r, c, i);
    } else {
      RowStep(p.CLayout(z.cRow), ob, b, r, c, p.OutStep() * i);
    }
    var e := Member(p, ob, b, r, c, i, 0);
    RowBounds(p.CLayout(z.cRow), ob, e.b, r, e.c);
  }

  lemma ImagesLeft(p: Call, b: int, c: int)
    requires p.transInput3120
    ensures GroupRows(p, b, c) == Min(DIM, p.batches - b)
  {
  }

  lemma RowsNat(z: Start, ob: int, kr: int, kc: int, kb: int, b: int, r: int, c: int)
    requires Ready(z) && InGroup(z, ob, kr, kc, kb, b, r, c)
    ensures 0 <= ARowOf(z, kr, kc, kb, b, r, c) && 0 <= BRowOf(z.p, ob, kr, kc, kb)
    ensures 0 <= CRow(z, Cell(ob, b, r, c, 0))
    ensures 0 < GroupRows(z.p, b, c) <= DIM && 0 < GroupCols(z.p, ob) <= DIM && 0 < GroupDepth(z.p, kc, kb) <= DIM
  {
    hide Layout.Row, Layout.Rows, Call.Fits, ARowOf, BRowOf, CRow, GroupRows, GroupDepth, Packed, TapRow, TapCol;
    GroupRowsOk(z.p, b, c, 0);
    DepthOk(z, kc, kb);
    if z.p.transInput3120 { TransARow(z, ob, kr, kc, kb, b, r, c, 0); }
    else { GroupARow(z, ob, kr, kc, kb, b, r, c, 0); }
    GroupBRow(z, ob, kr, kc, kb, 0);
    GroupCRow(z, ob, b, r, c, 0);
  }

  function OperandFor(z: Start, ob: int, kr: int, kc: int, kb: int, b: int, r: int, c: int): Operand
    requires 0 <= ARowOf(z, kr, kc, kb, b, r, c) && 0 <= GroupRows(z.p, b, c) && 0 <= GroupDepth(z.p, kc, kb)
  {
    Operand(Some(ARowOf(z, kr, kc, kb, b, r, c)), GroupRows(z.p, b, c), GroupDepth(z.p, kc, kb))
  }

  function ZeroFor(z: Start, ob: int, b: int, c: int): Operand
    requires 0 <= GroupRows(z.p, b, c) && 0 <= GroupCols(z.p, ob)
  {
    Operand(None, GroupRows(z.p, b, c), GroupCols(z.p, ob))
  }

  function PreloadFor(z: Start, ob: int, kr: int, kc: int, kb: int, b: int, r: int, c: int, fresh': bool): PreloadRegs
    requires 0 <= BRowOf(z.p, ob, kr, kc, kb) && 0 <= CRow(z, Cell(ob, b, r, c, 0))
    requires 0 <= GroupRows(z.p, b, c) && 0 <= GroupCols(z.p, ob) && 0 <= GroupDepth(z.p, kc, kb)
  {
    PreloadRegs(if fresh' then Some(BRowOf(z.p, ob, kr, kc, kb)) else None, GroupDepth(z.p, kc, kb), GroupCols(z.p, ob),
                Some(Dest(true, true, CRow(z, Cell(ob, b, r, c, 0)))), GroupRows(z.p, b, c), GroupCols(z.p, ob))
  }

  lemma GroupBounds(z: Start, ob: int, kr: int, kc: int, kb: int, b: int, r: int, c: int, fresh': bool)
    requires Ready(z) && InGroup(z, ob, kr, kc, kb, b, r, c)
    requires 0 <= ARowOf(z, kr, kc, kb, b, r, c) && 0 <= BRowOf(z.p, ob, kr, kc, kb)
    requires 0 <= CRow(z, Cell(ob, b, r, c, 0))
    requires 0 < GroupRows(z.p, b, c) <= DIM && 0 < GroupCols(z.p, ob) <= DIM && 0 < GroupDepth(z.p, kc, kb) <= DIM
    ensures ABounds(z.cfg, OperandFor(z, ob, kr, kc, kb, b, r, c)) && BDBounds(z.cfg, ZeroFor(z, ob, b, c))
    ensures OutBounds(z.cfg, PreloadFor(z, ob, kr, kc, kb, b, r, c, fresh'))
    ensures PreloadBounds(z.cfg, PreloadFor(z, ob, kr, kc, kb, b, r, c, fresh'))
  {
    hide Layout.Row, Layout.Rows, Call.Fits, ARowOf, BRowOf, CRow, GroupRows, GroupCols, GroupDepth, RowAt, TapRow,
         TapCol, Packed;
    var I := GroupRows(z.p, b, c);
    if z.p.transInput3120 {
      DepthOk(z, kc, kb);
      TransARow(z, ob, kr, kc, kb, b, r, c, GroupDepth(z.p, kc, kb) - 1);
    } else {
      GroupARow(z, ob, kr, kc, kb, b, r, c, I - 1);
    }
    GroupCRow(z, ob, b, r, c, I - 1);
    GroupBRow(z, ob, kr, kc, kb, (if z.p.transWeight0132 then GroupCols(z.p, ob) else GroupDepth(z.p, kc, kb)) - 1);
  }

  lemma WeightsLoaded(z: Start, s: Spad, pe: PeGrid, ob: int, kr: int, kc: int, kb: int, b: int, r: int, c: int)
    requires Ready(z) && InGroup(z, ob, kr, kc, kb, b, r, c) && BHeld(z, s)
    requires 0 <= BRowOf(z.p, ob, kr, kc, kb) && 0 <= CRow(z, Cell(ob, b, r, c, 0))
    requires 0 < GroupRows(z.p, b, c) <= DIM && 0 < GroupCols(z.p, ob) <= DIM && 0 < GroupDepth(z.p, kc, kb) <= DIM
    requires forall x, n :: 0 <= x < DIM && 0 <= n < DIM ==>
               At(pe, x, n) == PreloadCell(s, PreloadFor(z, ob, kr, kc, kb, b, r, c, true), z.p.transWeight0132, x, n)
    ensures WeightsHeld(z, pe, ob, kr, kc, kb)
  {
    hide At, Layout.Row, Call.Fits, BElem, BRowOf, CRow, GroupRows, GroupCols, GroupDepth, Rot, TapRow, TapCol,
         Call.BLayout, Packed, BHeld, StepW, BPlace;
    forall x, n | 0 <= x < DIM && 0 <= n < DIM ensures At(pe, x, n) == StepW(z, ob, kr, kc, kb, x, n) {
      if x < GroupDepth(z.p, kc, kb) && n < GroupCols(z.p, ob) {
        GroupBRow(z, ob, kr, kc, kb, if z.p.transWeight0132 then n else x);
        WeightPlace(z, s, ob, kr, kc, kb, x, n);
      } else {
        NoWeight(z, ob, kr, kc, kb, x, n);
      }
    }
  }

  lemma WeightPlace(z: Start, s: Spad, ob: int, kr: int, kc: int, kb: int, x: int, n: int)
    requires Ready(z) && BHeld(z, s) && 0 <= ob && 0 <= ob * DIM < z.p.ochs && 0 <= kb && 0 <= kb * DIM < z.p.kchs
    requires 0 <= kc < z.p.kcols
    requires 0 <= x < GroupDepth(z.p, kc, kb) && 0 <= n < GroupCols(z.p, ob)
    requires BPlace(z, ob, kr, kc, kb, if z.p.transWeight0132 then n else x)
    ensures (if z.p.transWeight0132 then At(s, BRowOf(z.p, ob, kr, kc, kb) + n, x)
             else At(s, BRowOf(z.p, ob, kr, kc, kb) + x, n))
            == StepW(z, ob, kr, kc, kb, x, n)
  {
    hide At, Layout.Row, Call.Fits, BElem, BRowOf, Call.BLayout, Packed, GroupDepth, StepW, Rot, WPad, Layout.In, BHeld;
    DepthOk(z, kc, kb);
    var p := z.p;
    var kr', kc' := Rot(p, kr, p.krows), Rot(p, kc, p.kcols);
    if p.transWeight0132 {
      WeightAt(z, s, kb, kr', kc', ob * DIM + n, x, kb * DIM + x);
    } else if p.pixels == 1 {
      WeightAt(z, s, ob, kr', kc', kb * DIM + x, n, ob * DIM + n);
    } else {
      PackedColumn(p, kc, x);
      WeightAt(z, s, ob, kr, kc + x / p.kchs, x % p.kchs, n, ob * DIM + n);
    }
    WeightIs(z, ob, kr, kc, kb, x, n);
  }

  lemma WeightAt(z: Start, s: Spad, a: int, kr: int, kc: int, d: int, C: int, ch: int)
    requires BHeld(z, s) && z.p.BLayout().In(a, kr, kc, d) && 0 <= C < DIM && ch == a * DIM + C
    requires ch < if z.p.transWeight0132 then z.p.kchs else z.p.ochs
    ensures At(s, z.p.BLayout().Row(a, kr, kc, d), C) == if z.p.transWeight0132 then BElem(z, kr, kc, ch, d)
            else BElem(z, kr, kc, d, ch)
  {
    hide At, Layout.Row, BElem, Call.BLayout, Layout.In;
    assert At(s, z.p.BLayout().Row(a, kr, kc, d), C) == BValue(z, a, kr, kc, d, C);
  }

  lemma WeightIs(z: Start, ob: int, kr: int, kc: int, kb: int, x: int, n: int)
    requires Ready(z) && 0 <= kc < z.p.kcols && 0 <= kb && 0 <= kb * DIM < z.p.kchs
    requires 0 <= x < GroupDepth(z.p, kc, kb) && 0 <= n < GroupCols(z.p, ob)
    ensures StepW(z, ob, kr, kc, kb, x, n) ==
            if z.p.pixels == 1
            then BElem(z, Rot(z.p, kr, z.p.krows), Rot(z.p, kc, z.p.kcols), kb * DIM + x, ob * DIM + n)
            else BElem(z, kr, kc + x / z.p.kchs, x % z.p.kchs, ob * DIM + n)
  {
    hide Call.Fits, BElem, Packed, GroupDepth;
    DepthOk(z, kc, kb);
    if z.p.pixels > 1 { PackedColumn(z.p, kc, x); }
  }

  lemma NoWeight(z: Start, ob: int, kr: int, kc: int, kb: int, x: int, n: int)
    requires Ready(z) && 0 <= kc < z.p.kcols && 0 <= kb && 0 <= kb * DIM < z.p.kchs && 0 <= x < DIM && 0 <= n < DIM
    requires x >= GroupDepth(z.p, kc, kb) || n >= GroupCols(z.p, ob)
    ensures StepW(z, ob, kr, kc, kb, x, n) == 0
  {
    hide Call.Fits, BElem, Packed, GroupDepth;
    DepthOk(z, kc, kb);
  }

  /** The array multiplies the right pixels by the right weights. */
  lemma GroupResult(z: Start, s: Spad, pe: PeGrid, ob: int, kr: int, kc: int, kb: int, b: int, r: int, c: int, i: int,
                    n: int)
    requires Ready(z) && InGroup(z, ob, kr, kc, kb, b, r, c) && AHeld(z, s) && WeightsHeld(z, pe, ob, kr, kc, kb)
    requires 0 <= ARowOf(z, kr, kc, kb, b, r, c) && 0 < GroupCols(z.p, ob) <= DIM && 0 < GroupDepth(z.p, kc, kb) <= DIM
    requires 0 <= i < GroupRows(z.p, b, c) && 0 <= n < DIM
    ensures WsResult(s, pe, z.cfg, OperandFor(z, ob, kr, kc, kb, b, r, c), ZeroFor(z, ob, b, c), i, n)
            == Wrap32(StepSum(z, Member(z.p, ob, b, r, c, i, n), kr, kc, kb))
  {
    hide At, StepX, StepW, GroupRows, GroupDepth, Wrap32, AHeld, Packed, ARowOf, Ready, InGroup, ACell;
    var a, e := OperandFor(z, ob, kr, kc, kb, b, r, c), Member(z.p, ob, b, r, c, i, n);
    var f, g := WsTerms(s, pe, z.cfg, a, i, n), StepTerms(z, e, kr, kc, kb);
    forall x | 0 <= x < DIM ensures f(x) == g(x) {
      OperandCell(z, s, ob, kr, kc, kb, b, r, c, i, n, x);
    }
    SumSame(DIM, f, g);
  }

  lemma OperandCell(z: Start, s: Spad, ob: int, kr: int, kc: int, kb: int, b: int, r: int, c: int, i: int, n: int,
                    x: int)
    requires Ready(z) && InGroup(z, ob, kr, kc, kb, b, r, c) && AHeld(z, s) && 0 <= ARowOf(z, kr, kc, kb, b, r, c)
    requires 0 < GroupDepth(z.p, kc, kb) <= DIM && 0 <= i < GroupRows(z.p, b, c) && 0 <= x < DIM
    ensures ACell(s, z.cfg, OperandFor(z, ob, kr, kc, kb, b, r, c), i, x)
            == StepX(z, Member(z.p, ob, b, r, c, i, n), kr, kc, kb, x)
  {
    hide At, Layout.Row, Call.Fits, StepX, GroupRows, GroupDepth, TapRow, TapCol, RowAt, OnData, Call.ALayout,
         Call.Undilated, AHeld, Packed, ARowOf;
    var e := Member(z.p, ob, b, r, c, i, n);
    if z.p.transInput3120 {
      TransPixel(z, s, ob, kr, kc, kb, b, r, c, i, n, x);
    } else {
      GroupARow(z, ob, kr, kc, kb, b, r, c, i);
      GroupPixel(z, s, ob, kr, kc, kb, e, x);
    }
  }

  /** Column x of the group's A operand, transposed: channel x of image b + i. */
  lemma TransPixel(z: Start, s: Spad, ob: int, kr: int, kc: int, kb: int, b: int, r: int, c: int, i: int, n: int,
                   x: int)
    requires Ready(z) && InGroup(z, ob, kr, kc, kb, b, r, c) && AHeld(z, s) && z.p.transInput3120
    requires 0 <= i < GroupRows(z.p, b, c) && 0 <= x < DIM
    ensures StepX(z, Cell(ob, b + i, r, c, n), kr, kc, kb, x) ==
            if x < GroupDepth(z.p, kc, kb) then At(s, RowAt(ARowOf(z, kr, kc, kb, b, r, c), z.cfg.aStride, x), i) else 0
  {
    hide At, Layout.Row, Layout.Rows, Call.Fits, AElem, GroupDepth, GroupRows, TapRow, TapCol, Call.IRows, Call.ICols,
         Call.AStart, RowAt, ARowOf, BlockCount;
    var p := z.p;
    DepthOk(z, kc, kb);
    GroupRowsOk(p, b, c, i);
    ImagesLeft(p, b, c);
    if x < GroupDepth(p, kc, kb) {
      TransARow(z, ob, kr, kc, kb, b, r, c, x);
      BlockOfImage(b, i, p.batches);
      DivUnique(kb * DIM + x, DIM, kb, x);
      var y, x0 := p.Undilated(TapRow(p, kr, r)), p.Undilated(TapCol(p, kc, c));
      assert At(s, p.ALayout().Row(b / DIM, kb * DIM + x, y, x0), i) == ImageAt(z, b / DIM, kb * DIM + x, y, x0, i);
    }
  }

  /** Array column x of the group's A operand. */
  lemma GroupPixel(z: Start, s: Spad, ob: int, kr: int, kc: int, kb: int, e: Cell, x: int)
    requires Ready(z) && InGroup(z, ob, kr, kc, kb, e.b, e.r, e.c) && AHeld(z, s) && !z.p.transInput3120 && 0 <= x < DIM
    requires z.p.ALayout().In(kb, e.b, z.p.Undilated(TapRow(z.p, kr, e.r)), z.p.Undilated(TapCol(z.p, kc, e.c)))
    ensures StepX(z, e, kr, kc, kb, x) == if x < GroupDepth(z.p, kc, kb)
            then At(s, ARowOf(z, kr, kc, kb, e.b, e.r, e.c), x) else 0
  {
    hide At, Layout.Row, Layout.Rows, Call.Fits, AElem, GroupDepth, TapRow, TapCol, Call.IRows, Call.ICols, Call.AStart;
    DepthOk(z, kc, kb);
    var p := z.p;
    var y, x0 := p.Undilated(TapRow(p, kr, e.r)), p.Undilated(TapCol(p, kc, e.c));
    if p.pixels == 1 {
      assert x < GroupDepth(p, kc, kb) ==> At(s, p.ALayout().Row(kb, e.b, y, x0), x) == AElem(z, kb, e.b, y, x0, x);
    } else if x < GroupDepth(p, kc, kb) {
      var px, ch := x / p.kchs, x % p.kchs;
      PackedColumn(p, kc, x);
      NextColumn(p, kc, px, e.c);
      TapInTile(p, z.cRow, kr, kc + px, e.r, e.c);
      assert At(s, p.ALayout().Row(0, e.b, y, x0), Flat(px, p.kchs, ch)) == AElem(z, 0, e.b, y, x0 + px, ch);
    }
  }

  lemma NextColumn(p: Call, kc: int, px: int, c: int)
    requires p.kernelDilation == 1
    ensures TapCol(p, kc + px, c) == TapCol(p, kc, c) + px
  {
  }

  lemma ExactMultiple(t: int, n: Pos)
    requires 0 <= t && t % n == 0
    ensures t == n * (t / n) && 0 <= t / n
  {
  }

  lemma MultipleExact(n: Pos, i: int)
    ensures n * i % n == 0 && n * i / n == i
  {
    DivUnique(n * i, n, i, 0);
  }

  /** The rows a group writes are exactly those of its own cells. */
  lemma GroupHit(z: Start, ob: int, b: int, r: int, c: int, e: Cell)
    requires Ready(z) && Restrided(z) && 0 <= ob && ob * DIM < z.p.ochs && 0 <= b < z.p.batches && 0 <= r < z.p.orows
    requires 0 <= c < z.p.ocols && InC(z, e)
    ensures var base, cs := CRow(z, Cell(ob, b, r, c, 0)), z.cfg.cStride;
            && (Strided(base, cs, GroupRows(z.p, b, c), CRow(z, e)) <==> InSpan(z.p, ob, b, r, c, e))
            && (Strided(base, cs, GroupRows(z.p, b, c), CRow(z, e)) ==>
                  0 <= IndexOf(base, cs, CRow(z, e)) < GroupRows(z.p, b, c)
                    && e == Member(z.p, ob, b, r, c, IndexOf(base, cs, CRow(z, e)), e.n))
  {
    hide Layout.Row, Layout.Rows, Call.Fits, GroupRows, RowAt, IndexOf, CRow, Packed, InSpan, Member;
    var cs, I := z.cfg.cStride, GroupRows(z.p, b, c);
    var base, R := CRow(z, Cell(ob, b, r, c, 0)), CRow(z, e);
    StrideNat(z, b, c);
    if Strided(base, cs, I, R) {
      var i := IndexOf(base, cs, R);
      GroupCRow(z, ob, b, r, c, i);
      SameRowSameCell(z, Member(z.p, ob, b, r, c, i, 0), e);
      MemberInSpan(z.p, ob, b, r, c, i, e.n);
      MemberColumn(z.p, ob, b, r, c, i, e);
    }
    if InSpan(z.p, ob, b, r, c, e) {
      var i := SpanIndex(z.p, b, c, e);
      SpanIsMember(z, ob, b, r, c, e);
      GroupCRow(z, ob, b, r, c, i);
      MemberRow(z, ob, b, r, c, i, e.n);
      IndexOfRowAt(base, cs, I, i);
      hide Strided;
    }
  }

  lemma StrideNat(z: Start, b: int, c: int)
    requires Ready(z) && Restrided(z) && 0 <= b < z.p.batches && 0 <= c < z.p.ocols && 0 < z.p.orows
    ensures z.cfg.cStride > 0
  {
    hide Call.Fits, Packed;
    if z.p.transInput3120 { MulLe(1, z.p.orows, z.p.ocols); }
  }

  lemma MemberRow(z: Start, ob: int, b: int, r: int, c: int, i: int, n: int)
    ensures CRow(z, Member(z.p, ob, b, r, c, i, n)) == CRow(z, Member(z.p, ob, b, r, c, i, 0))
  {
  }

  /** Different cells of the tile are in different rows. */
  lemma SameRowSameCell(z: Start, e: Cell, e': Cell)
    requires z.p.CLayout(z.cRow).In(e.ob, e.b, e.r, e.c) && InC(z, e') && CRow(z, e) == CRow(z, e')
    ensures e.ob == e'.ob && e.b == e'.b && e.r == e'.r && e.c == e'.c
  {
    hide Layout.Row;
    assert e'.ob * DIM < z.p.ochs;
    BlockInRange(e'.ob, z.p.ochs);
    RowRun(z.p.CLayout(z.cRow), e.ob, e.b, e.r, e.c, 0, e'.ob, e'.b, e'.r, e'.c);
  }

  lemma MemberInSpan(p: Call, ob: int, b: int, r: int, c: int, i: int, n: int)
    requires 0 <= c < p.ocols && 0 <= b < p.batches && 0 <= i < GroupRows(p, b, c)
    ensures InSpan(p, ob, b, r, c, Member(p, ob, b, r, c, i, n))
  {
    hide GroupRows;
    GroupRowsOk(p, b, c, i);
    if p.transInput3120 { ImagesLeft(p, b, c); } else { MultipleExact(p.OutStep(), i); }
  }

  lemma MemberColumn(p: Call, ob: int, b: int, r: int, c: int, i: int, e: Cell)
    requires var m := Member(p, ob, b, r, c, i, 0); m.ob == e.ob && m.b == e.b && m.r == e.r && m.c == e.c
    ensures e == Member(p, ob, b, r, c, i, e.n)
  {
  }

  function SpanIndex(p: Call, b: int, c: int, e: Cell): int {
    if p.transInput3120 then e.b - b else (e.c - c) / p.OutStep()
  }

  lemma SpanIsMember(z: Start, ob: int, b: int, r: int, c: int, e: Cell)
    requires InC(z, e) && InSpan(z.p, ob, b, r, c, e) && 0 <= b < z.p.batches && 0 <= c < z.p.ocols
    ensures 0 <= SpanIndex(z.p, b, c, e) < GroupRows(z.p, b, c)
    ensures e == Member(z.p, ob, b, r, c, SpanIndex(z.p, b, c, e), e.n)
  {
    hide GroupRows;
    if z.p.transInput3120 {
      ImagesLeft(z.p, b, c);
    } else {
      ExactMultiple(e.c - c, z.p.OutStep());
      GroupRowsOk(z.p, b, c, (e.c - c) / z.p.OutStep());
    }
  }

  /** A group adds its tap to its own cells; the pixels between them get the zero they should. */
  lemma GroupStep(z: Start, m: AccMem, m': AccMem, values: PeGrid, ob: int, kr: nat, kc: nat, kb: nat, b: int, r: int,
                  c: int, fresh': bool)
    requires Ready(z) && InGroup(z, ob, kr, kc, kb, b, r, c)
    requires 0 <= BRowOf(z.p, ob, kr, kc, kb) && 0 <= CRow(z, Cell(ob, b, r, c, 0))
    requires 0 < GroupRows(z.p, b, c) <= DIM && 0 < GroupCols(z.p, ob) <= DIM && 0 < GroupDepth(z.p, kc, kb) <= DIM
    requires WrittenAcc(z.cfg, PreloadFor(z, ob, kr, kc, kb, b, r, c, fresh'), values, m, m')
    requires forall i, n :: 0 <= i < GroupRows(z.p, b, c) && 0 <= n < DIM ==>
               At(values, i, n) == Wrap32(StepSum(z, Member(z.p, ob, b, r, c, i, n), kr, kc, kb))
    requires AccHeld(z, m, ob, kr, kc, kb, b, r, c)
    ensures AccHeld(z, m', ob, kr, kc, kb, b, r, c + z.p.ColStep())
  {
    hide Call.Fits, At, BRowOf, CRow, GroupRows, Strided, IndexOf, Wrap32, Base, Prefix, StepSum, Total, TapRow, TapCol,
         OnData, InSpan, Member, Packed;
    forall e | InC(z, e)
      ensures At(m', CRow(z, e), e.n) ==
              Wrap32(Base(z, e) + Progress(z, e, ob, kr, kc, kb, CellDone(z.p, e, b, r, c + z.p.ColStep())))
    {
      GroupHit(z, ob, b, r, c, e);
      CRowNat(z, e);
      StrideNat(z, b, c);
      var base := CRow(z, Cell(ob, b, r, c, 0));
      if Strided(base, z.cfg.cStride, GroupRows(z.p, b, c), CRow(z, e)) {
        var i := IndexOf(base, z.cfg.cStride, CRow(z, e));
        assert e == Member(z.p, ob, b, r, c, i, e.n);
        var so, add := Base(z, e) + Prefix(z, e, kr, kc, kb), StepSum(z, e, kr, kc, kb);
        SpanDone(z.p, ob, b, r, c, e);
        WrapAdd(so, Wrap32(add));
        WrapAdd2(so, add);
      } else {
        NotInSpan(z, ob, kr, kc, kb, b, r, c, e);
      }
    }
  }

  lemma SpanDone(p: Call, ob: int, b: int, r: int, c: int, e: Cell)
    requires InSpan(p, ob, b, r, c, e)
    ensures e.ob == ob && !CellDone(p, e, b, r, c) && CellDone(p, e, b, r, c + p.ColStep())
  {
  }

  /** A cell the group passes over without writing takes part in no product. */
  lemma NotInSpan(z: Start, ob: int, kr: int, kc: int, kb: int, b: int, r: int, c: int, e: Cell)
    requires Ready(z) && InGroup(z, ob, kr, kc, kb, b, r, c) && !InSpan(z.p, ob, b, r, c, e)
    ensures e.ob == ob && CellDone(z.p, e, b, r, c + z.p.ColStep()) && !CellDone(z.p, e, b, r, c) ==>
            StepSum(z, e, kr, kc, kb) == 0
  {
    hide Call.Fits, TapRow, TapCol, OnData, StepSum, Packed;
    if e.ob == ob && CellDone(z.p, e, b, r, c + z.p.ColStep()) && !CellDone(z.p, e, b, r, c) {
      BetweenIsZero(z.p, kc, c, e.c - c);
      SkippedIsZero(z, e, kr, kc, kb);
    }
  }

  lemma CRowNat(z: Start, e: Cell)
    requires Ready(z) && InC(z, e)
    ensures 0 <= CRow(z, e) < ACC_ROWS
    ensures z.cRow <= CRow(z, e) < z.cRow + z.p.CLayout(0).Rows()
  {
    hide Layout.Row, Layout.Rows, Call.Fits;
    BlockInRange(e.ob, z.p.ochs);
    ARegion(z.p, z.cRow);
    RowBounds(z.p.CLayout(z.cRow), e.ob, e.b, e.r, e.c);
    SameRows(z.p, z.cRow);
  }

  lemma SameRows(p: Call, row: int)
    ensures p.CLayout(row).Rows() == p.CLayout(0).Rows()
  {
  }

  lemma GroupFrame(z: Start, m: AccMem, m': AccMem, values: PeGrid, ob: int, kr: nat, kc: nat, kb: nat, b: int, r: int,
                   c: int, fresh': bool, m0: AccMem)
    requires Ready(z) && InGroup(z, ob, kr, kc, kb, b, r, c)
    requires 0 <= BRowOf(z.p, ob, kr, kc, kb) && 0 <= CRow(z, Cell(ob, b, r, c, 0))
    requires 0 < GroupRows(z.p, b, c) <= DIM && 0 < GroupCols(z.p, ob) <= DIM && 0 < GroupDepth(z.p, kc, kb) <= DIM
    requires WrittenAcc(z.cfg, PreloadFor(z, ob, kr, kc, kb, b, r, c, fresh'), values, m, m')
    requires OutsideKept(z.p.CLayout(z.cRow), m0, m)
    ensures OutsideKept(z.p.CLayout(z.cRow), m0, m')
  {
    hide Call.Fits, At, BRowOf, CRow, GroupRows, IndexOf, RowAt, Wrap32, TapRow, TapCol, OnData, Layout.Rows;
    var l := z.p.CLayout(z.cRow);
    var base, cs, I := CRow(z, Cell(ob, b, r, c, 0)), z.cfg.cStride, GroupRows(z.p, b, c);
    StrideNat(z, b, c);
    forall R, C | !InRegion(l, R) ensures At(m', R, C) == At(m0, R, C) {
      if !(0 <= R && 0 <= C < DIM) {
        OutsideAcc(m, R, C);
        OutsideAcc(m', R, C);
      } else if Strided(base, cs, I, R) {
        GroupRowInRegion(z, ob, b, r, c, IndexOf(base, cs, R));
      }
    }
  }

  lemma GroupRowInRegion(z: Start, ob: int, b: int, r: int, c: int, i: int)
    requires Ready(z) && Restrided(z) && 0 <= ob && ob * DIM < z.p.ochs && 0 <= b < z.p.batches && 0 <= r < z.p.orows
    requires 0 <= c < z.p.ocols
    requires 0 <= i < GroupRows(z.p, b, c)
    ensures InRegion(z.p.CLayout(z.cRow), RowAt(CRow(z, Cell(ob, b, r, c, 0)), z.cfg.cStride, i))
  {
    hide Layout.Row, Layout.Rows, Call.Fits, GroupRows, RowAt;
    GroupCRow(z, ob, b, r, c, i);
    var e := Member(z.p, ob, b, r, c, i, 0);
    RowBounds(z.p.CLayout(z.cRow), e.ob, e.b, e.r, e.c);
  }
}
