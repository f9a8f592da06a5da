/** What loop_conv_ws computes, stated as the repository's naive convolution loops. */
module ConvMeaning {
  import opened Params
  import opened Wrap
  import opened Sums
  import opened Dram
  import opened Grid
  import opened Scaling
  import opened State
  import opened Patches
  import opened Layouts
  import opened Machine
  import opened ConvSpec
  import opened ConvTaps
  import opened ConvStore

  /** Pixel (v, u) of the zero-inserted image, without padding: odd coordinates hold the inserted zeros. */
  function DilatedImage(z: Start, b: int, v: int, u: int, ch: int): int {
    if v < 0 || v >= z.p.URows() || u < 0 || u >= z.p.UCols() then 0
    else if !z.p.inputDilated then LoadElem(z.d, z.p.InAddr(b, v, u, ch))
    else if v % 2 == 0 && u % 2 == 0 then LoadElem(z.d, z.p.InAddr(b, v / 2, u / 2, ch))
    else 0
  }

  /** The weight tap (kr, kc) multiplies by, rotated by 180 degrees on request. */
  function Weight(z: Start, kr: int, kc: int, ch: int, och: int): int {
    LoadElem(z.d, z.p.WAddr(Rot(z.p, kr, z.p.krows), Rot(z.p, kc, z.p.kcols), ch, och))
  }

  ghost function DirectTerms(z: Start, b: int, r: int, c: int, och: int, kr: int, kc: int): int -> int {
    ch => DilatedImage(z, b, TapRow(z.p, kr, r) - z.p.upad, TapCol(z.p, kc, c) - z.p.lpad, ch)
      * Weight(z, kr, kc, ch, och)
  }

  ghost function DirectTaps(z: Start, b: int, r: int, c: int, och: int, kr: int): int -> int {
    kc => Sum(z.p.kchs, DirectTerms(z, b, r, c, och, kr, kc))
  }

  ghost function DirectRows(z: Start, b: int, r: int, c: int, och: int): int -> int {
    kr => Sum(z.p.kcols, DirectTaps(z, b, r, c, och, kr))
  }

  /** Direct convolution: one sum over kernel rows, kernel columns and channels. */
  ghost function Direct(z: Start, b: int, r: int, c: int, och: int): int {
    Sum(z.p.krows, DirectRows(z, b, r, c, och))
  }

  /** A tap on data reads the image at half the zero-inserted coordinate; a tap in the padding reads zero. */
  lemma ImageIsDilated(z: Start, row: int, b: int, kr: int, kc: int, r: int, c: int, ch: int)
    requires z.p.Fits(row) && 0 <= kr < z.p.krows && 0 <= kc < z.p.kcols && 0 <= r < z.p.orows && 0 <= c < z.p.ocols
    requires OnData(z.p, TapRow(z.p, kr, r), z.p.upad) && OnData(z.p, TapCol(z.p, kc, c), z.p.lpad)
    ensures Image(z, b, z.p.Undilated(TapRow(z.p, kr, r)), z.p.Undilated(TapCol(z.p, kc, c)), ch)
            == DilatedImage(z, b, TapRow(z.p, kr, r) - z.p.upad, TapCol(z.p, kc, c) - z.p.lpad, ch)
  {
    hide LoadElem, Call.InAddr, Layout.Rows, TapRow, TapCol, Image, DilatedImage;
    var p := z.p;
    assert 0 <= TapRow(p, kr, r) < p.URows() + p.upad + p.dpad by {
      TapRange(p.orows, p.stride, p.krows, p.kernelDilation, r, kr);
      TapRowDef(p, kr, r);
    }
    assert 0 <= TapCol(p, kc, c) < p.UCols() + p.lpad + p.rpad by {
      TapRange(p.ocols, p.stride, p.kcols, p.kernelDilation, c, kc);
      TapColDef(p, kc, c);
    }
    SameImage(z, b, TapRow(p, kr, r), TapCol(p, kc, c), ch);
  }

  lemma SameImage(z: Start, b: int, y: int, x: int, ch: int)
    requires z.p.URows() >= 0 && z.p.UCols() >= 0
    requires 0 <= y < z.p.URows() + z.p.upad + z.p.dpad && 0 <= x < z.p.UCols() + z.p.lpad + z.p.rpad
    requires OnData(z.p, y, z.p.upad) && OnData(z.p, x, z.p.lpad)
    ensures Image(z, b, z.p.Undilated(y), z.p.Undilated(x), ch) == DilatedImage(z, b, y - z.p.upad, x - z.p.lpad, ch)
  {
    hide LoadElem, Call.InAddr, Call.URows, Call.UCols;
    if z.p.inputDilated {
      HalfRange(y, z.p.URows(), z.p.upad, z.p.dpad);
      HalfRange(x, z.p.UCols(), z.p.lpad, z.p.rpad);
    }
  }

  lemma HalfRange(pos: int, u: int, pl: int, pr: int)
    requires 0 <= pos < u + pl + pr && 0 <= u && 0 <= pl && 0 <= pr && (pos - pl) % 2 == 0
    ensures (pos + 1) / 2 - (pl + 1) / 2 == (pos - pl) / 2
    ensures 0 <= (pos - pl) / 2 < (u + 1) / 2 <==> 0 <= pos - pl < u
  {
    PadSplit(pos, u, pl, pr);
  }

  lemma TermIsDirect(z: Start, row: int, e: Cell, kr: int, kc: int, kb: int, x: int)
    requires z.p.Fits(row) && z.p.input != 0 && z.p.weights != 0 && InC(z, e) && 0 <= kr < z.p.krows
    requires 0 <= kc < z.p.kcols
    requires 0 <= x < DIM && kb * DIM + x < z.p.kchs
    ensures ChTerms(z, e, kr, kc, kb)(x) == DirectTerms(z, e.b, e.r, e.c, e.ob * DIM + e.n, kr, kc)(kb * DIM + x)
  {
    hide Image, DilatedImage, LoadElem, Call.WAddr, Call.Fits, TapRow, TapCol, Call.Undilated, OnData;
    var p := z.p;
    if OnData(p, TapRow(p, kr, e.r), p.upad) && OnData(p, TapCol(p, kc, e.c), p.lpad) {
      ImageIsDilated(z, row, e.b, kr, kc, e.r, e.c, kb * DIM + x);
    } else {
      OffData(z, e, kr, kc, kb * DIM + x);
    }
  }

  /** Position (v, u) of the zero-inserted image is one of the inserted zeros. */
  predicate Inserted(p: Call, v: int, u: int) {
    p.inputDilated && (v % 2 != 0 || u % 2 != 0)
  }

  /** A tap is skipped exactly when it is against an inserted zero; a tap that is not skipped reads an element of the
      stored image, or the zero padding around it. */
  lemma OffData(z: Start, e: Cell, kr: int, kc: int, ch: int)
    ensures var v, u := TapRow(z.p, kr, e.r) - z.p.upad, TapCol(z.p, kc, e.c) - z.p.lpad;
            var skipped := !OnData(z.p, TapRow(z.p, kr, e.r), z.p.upad) || !OnData(z.p, TapCol(z.p, kc, e.c), z.p.lpad);
            && (skipped <==> Inserted(z.p, v, u))
            && DilatedImage(z, e.b, v, u, ch) ==
               if skipped || !(0 <= v < z.p.URows() && 0 <= u < z.p.UCols()) then 0
               else LoadElem(z.d, z.p.InAddr(e.b, v / z.p.OutStep(), u / z.p.OutStep(), ch))
  {
    hide LoadElem, Call.InAddr, TapRow, TapCol, Call.URows, Call.UCols;
  }

  /** Channel blocks of DIM, the last one partly empty, add up to all the channels. */
  lemma BlocksAreDirect(z: Start, row: int, e: Cell, kr: int, kc: int)
    requires z.p.Fits(row) && z.p.input != 0 && z.p.weights != 0 && InC(z, e) && 0 <= kr < z.p.krows
    requires 0 <= kc < z.p.kcols
    ensures Sum(z.p.KBlocks(), BlockSums(z, e, kr, kc))
            == Sum(z.p.kchs, DirectTerms(z, e.b, e.r, e.c, e.ob * DIM + e.n, kr, kc))
  {
    hide DirectTerms, ChTerms, Call.Fits, BlockCount, Sum;
    var n, chs := z.p.KBlocks(), z.p.kchs;
    var g := DirectTerms(z, e.b, e.r, e.c, e.ob * DIM + e.n, kr, kc);
    var f: int -> int := ch => if ch < chs then g(ch) else 0;
    var b: int -> int -> int := kb => ChTerms(z, e, kr, kc, kb);
    forall kb, x | 0 <= kb < n && 0 <= x < DIM ensures b(kb)(x) == f(Flat(kb, DIM, x)) {
      if kb * DIM + x < chs { TermIsDirect(z, row, e, kr, kc, kb, x); } else { TermBeyond(z, e, kr, kc, kb, x); }
    }
    forall kb | 0 <= kb < n ensures BlockSums(z, e, kr, kc)(kb) == Sum(DIM, b(kb)) {
    }
    SumBlocks(n, DIM, f, b, BlockSums(z, e, kr, kc));
    CountCovers(chs);
    SumTrim(chs, Flat(n, DIM, 0), f);
    SumSame(chs, f, g);
  }

  lemma TermBeyond(z: Start, e: Cell, kr: int, kc: int, kb: int, x: int)
    requires z.p.kchs <= kb * DIM + x
    ensures ChTerms(z, e, kr, kc, kb)(x) == 0
  {
    hide AElem, BElem, TapRow, TapCol;
  }

  lemma CountCovers(chs: nat)
    ensures chs <= Flat(BlockCount(chs), DIM, 0)
  {
    var q := (chs + DIM - 1) / DIM;
    assert chs + DIM - 1 == q * DIM + (chs + DIM - 1) % DIM;
  }

  /** The sum each accumulator cell receives is the direct convolution of its pixel and channel. */
  lemma TotalIsDirect(z: Start, row: int, e: Cell)
    requires z.p.Fits(row) && z.p.input != 0 && z.p.weights != 0 && InC(z, e)
    ensures Total(z, e) == Direct(z, e.b, e.r, e.c, e.ob * DIM + e.n)
  {
    hide DirectTerms, BlockSums, Call.Fits, Call.KBlocks, Sum;
    var och := e.ob * DIM + e.n;
    forall kr | 0 <= kr < z.p.krows ensures KRowSums(z, e)(kr) == DirectRows(z, e.b, e.r, e.c, och)(kr) {
      forall kc | 0 <= kc < z.p.kcols ensures TapSums(z, e, kr)(kc) == DirectTaps(z, e.b, e.r, e.c, och, kr)(kc) {
        BlocksAreDirect(z, row, e, kr, kc);
      }
      SumSame(z.p.kcols, TapSums(z, e, kr), DirectTaps(z, e.b, e.r, e.c, och, kr));
    }
    SumSame(z.p.krows, KRowSums(z, e), DirectRows(z, e.b, e.r, e.c, och));
  }

  // The reference with a zero-dilated kernel.

  /** A sum over a zero-inserted range is a sum over the original one. */
  lemma {:induction false} SumSparse(n: nat, step: Pos, f: int -> int, g: int -> int)
    requires n > 0
    requires forall k :: 0 <= k < n ==> g(k) == f(Flat(k, step, 0))
    requires forall k, t :: 0 <= k < n && 0 < t < step ==> f(Flat(k, step, t)) == 0
    ensures 0 <= Flat(n - 1, step, 0) && Sum(Flat(n - 1, step, 0) + 1, f) == Sum(n, g)
  {
    hide Flat, Sum;
    if n == 1 {
      FlatZero(step);
      SumEnds(0, f);
      SumEnds(0, g);
    } else {
      SumSparse(n - 1, step, f, g);
      FlatNext(n - 2, step);
      var base := Flat(n - 2, step, 0) + 1;
      var h := i => f(base + i);
      SumSplit(base, step, f, h);
      forall i | 0 <= i < step - 1 ensures h(i) == 0 { assert Flat(n - 2, step, i + 1) == base + i; }
      LastTerm(step, h);
      SumEnds(n - 1, g);
    }
  }

  lemma LastTerm(n: Pos, h: int -> int)
    requires forall i :: 0 <= i < n - 1 ==> h(i) == 0
    ensures Sum(n, h) == h(n - 1)
  {
    SumZero(n - 1, h);
  }

  /** The kernel with kernelDilation - 1 zeros between neighbouring taps. */
  function DilatedWeight(z: Start, y: int, x: int, ch: int, och: int): int {
    if z.p.kernelDilation > 0 && y % z.p.kernelDilation == 0 && x % z.p.kernelDilation == 0
    then Weight(z, y / z.p.kernelDilation, x / z.p.kernelDilation, ch, och) else 0
  }

  ghost function RefTerms(z: Start, b: int, r: int, c: int, och: int, y: int, x: int): int -> int {
    ch => DilatedWeight(z, y, x, ch, och)
      * DilatedImage(z, b, r * z.p.stride + y - z.p.upad, c * z.p.stride + x - z.p.lpad, ch)
  }

  ghost function RefCols(z: Start, b: int, r: int, c: int, och: int, y: int): int -> int {
    x => Sum(z.p.kchs, RefTerms(z, b, r, c, och, y, x))
  }

  ghost function RefRows(z: Start, b: int, r: int, c: int, och: int): int -> int
    requires z.p.DilatedKCols() >= 0
  {
    y => Sum(z.p.DilatedKCols(), RefCols(z, b, r, c, och, y))
  }

  /** The reference loops: every position of the zero-dilated kernel over the zero-dilated image. */
  ghost function Reference(z: Start, b: int, r: int, c: int, och: int): int
    requires z.p.DilatedKRows() >= 0 && z.p.DilatedKCols() >= 0
  {
    Sum(z.p.DilatedKRows(), RefRows(z, b, r, c, och))
  }

  lemma DilatedSize(n: nat, kd: Pos)
    requires n > 0
    ensures n + (kd - 1) * (n - 1) == Flat(n - 1, kd, 0) + 1 && 0 <= Flat(n - 1, kd, 0)
  {
    assert (kd - 1) * (n - 1) == (n - 1) * kd - (n - 1);
    MulLe(0, n - 1, kd);
  }

  lemma OnTap(z: Start, b: int, r: int, c: int, och: int, kr: int, kc: int)
    requires z.p.kernelDilation > 0
    ensures Sum(z.p.kchs, RefTerms(z, b, r, c, och, Flat(kr, z.p.kernelDilation, 0), Flat(kc, z.p.kernelDilation, 0)))
            == Sum(z.p.kchs, DirectTerms(z, b, r, c, och, kr, kc))
  {
    hide DilatedImage, Weight, Sum;
    var kd := z.p.kernelDilation;
    DivUnique(kr * kd, kd, kr, 0);
    DivUnique(kc * kd, kd, kc, 0);
    SumSame(z.p.kchs, RefTerms(z, b, r, c, och, Flat(kr, kd, 0), Flat(kc, kd, 0)),
            DirectTerms(z, b, r, c, och, kr, kc));
  }

  lemma OffTap(z: Start, b: int, r: int, c: int, och: int, y: int, x: int)
    requires z.p.kernelDilation > 0 && (y % z.p.kernelDilation != 0 || x % z.p.kernelDilation != 0)
    ensures Sum(z.p.kchs, RefTerms(z, b, r, c, och, y, x)) == 0
  {
    hide DilatedImage, Weight, Sum;
    SumZero(z.p.kchs, RefTerms(z, b, r, c, och, y, x));
  }

  lemma BetweenTaps(k: int, kd: Pos, t: int)
    requires 0 < t < kd
    ensures Flat(k, kd, t) % kd != 0
  {
    DivUnique(k * kd + t, kd, k, t);
  }

  lemma RefRowOnTap(z: Start, b: int, r: int, c: int, och: int, kr: int)
    requires z.p.kernelDilation > 0 && z.p.kcols > 0
    ensures z.p.DilatedKCols() >= 0
    ensures RefRows(z, b, r, c, och)(Flat(kr, z.p.kernelDilation, 0)) == DirectRows(z, b, r, c, och)(kr)
  {
    hide RefTerms, DirectTerms, Sum, Flat;
    var kd, y := z.p.kernelDilation, Flat(kr, z.p.kernelDilation, 0);
    DilatedSize(z.p.kcols, kd);
    var f, g := RefCols(z, b, r, c, och, y), DirectTaps(z, b, r, c, och, kr);
    forall kc | 0 <= kc < z.p.kcols ensures g(kc) == f(Flat(kc, kd, 0)) { OnTap(z, b, r, c, och, kr, kc); }
    forall kc, t | 0 <= kc < z.p.kcols && 0 < t < kd ensures f(Flat(kc, kd, t)) == 0 {
      BetweenTaps(kc, kd, t);
      OffTap(z, b, r, c, och, y, Flat(kc, kd, t));
    }
    SumSparse(z.p.kcols, kd, f, g);
  }

  lemma RefRowOffTap(z: Start, b: int, r: int, c: int, och: int, y: int)
    requires z.p.kernelDilation > 0 && y % z.p.kernelDilation != 0 && z.p.DilatedKCols() >= 0
    ensures RefRows(z, b, r, c, och)(y) == 0
  {
    hide RefTerms, Sum;
    forall x | 0 <= x < z.p.DilatedKCols()
      ensures RefCols(z, b, r, c, och, y)(x) == 0
    {
      OffTap(z, b, r, c, och, y, x);
    }
    SumZero(z.p.DilatedKCols(), RefCols(z, b, r, c, och, y));
  }

  /** Walking only the taps and walking the whole zero-dilated kernel give the same sum. */
  lemma DirectIsReference(z: Start, b: int, r: int, c: int, och: int)
    requires z.p.kernelDilation > 0 && z.p.krows > 0 && z.p.kcols > 0
    ensures z.p.DilatedKRows() >= 0 && z.p.DilatedKCols() >= 0 && Reference(z, b, r, c, och) == Direct(z, b, r, c, och)
  {
    hide RefRows, DirectRows, Sum, Flat;
    var kd := z.p.kernelDilation;
    DilatedSize(z.p.krows, kd);
    DilatedSize(z.p.kcols, kd);
    var f, g := RefRows(z, b, r, c, och), DirectRows(z, b, r, c, och);
    forall kr | 0 <= kr < z.p.krows ensures g(kr) == f(Flat(kr, kd, 0)) { RefRowOnTap(z, b, r, c, och, kr); }
    forall kr, t | 0 <= kr < z.p.krows && 0 < t < kd ensures f(Flat(kr, kd, t)) == 0 {
      BetweenTaps(kr, kd, t);
      RefRowOffTap(z, b, r, c, och, Flat(kr, kd, t));
    }
    SumSparse(z.p.krows, kd, f, g);
  }

  /** A finished cell of a call with its own bias: bias plus the reference convolution. */
  lemma ValueIsReference(z: Start, e: Cell)
    requires Ready(z) && z.p.input != 0 && z.p.weights != 0 && z.p.bias != 0 && z.dRow == z.cRow && InC(z, e)
    requires z.p.kernelDilation > 0 && z.p.krows > 0 && z.p.kcols > 0
    ensures z.p.DilatedKRows() >= 0 && z.p.DilatedKCols() >= 0
    ensures Value(z, e) == Wrap32(BiasElem(z, e.ob * DIM + e.n) + Reference(z, e.b, e.r, e.c, e.ob * DIM + e.n))
  {
    hide Call.Fits, Total, Direct, Reference, Wrap32, BiasElem;
    TotalIsDirect(z, z.cRow, e);
    DirectIsReference(z, e.b, e.r, e.c, e.ob * DIM + e.n);
  }

  /** One tap of the reference, all channels, added to a running int32 sum. */
  method ReferenceTap(z: Start, b: int, r: int, c: int, och: int, y: int, x: int, start: Acc, ghost total: int)
    returns (sum: Acc)
    requires start == Wrap32(total)
    ensures sum == Wrap32(total + Sum(z.p.kchs, RefTerms(z, b, r, c, och, y, x)))
  {
    hide DilatedImage, DilatedWeight, Sum, Wrap32;
    sum := start;
    ghost var terms := RefTerms(z, b, r, c, och, y, x);
    SumEnds(0, terms);
    for ch := 0 to z.p.kchs
      invariant sum == Wrap32(total + Sum(ch, terms))
    {
      var w := DilatedWeight(z, y, x, ch, och);
      var pixel := DilatedImage(z, b, r * z.p.stride + y - z.p.upad, c * z.p.stride + x - z.p.lpad, ch);
      assert terms(ch) == w * pixel;
      SumEnds(ch, terms);
      WrapAdd(total + Sum(ch, terms), w * pixel);
      sum := Wrap32(sum + w * pixel);
    }
  }

  /** One output of the reference convolution, as its loops compute it: an int32 sum from the bias, then saturation. */
  method ReferencePixel(z: Start, b: int, r: int, c: int, och: int, bias: Acc) returns (result: Elem)
    requires z.p.kernelDilation > 0 && z.p.krows > 0 && z.p.kcols > 0
    ensures z.p.DilatedKRows() >= 0 && z.p.DilatedKCols() >= 0
    ensures result == Clamp(Wrap32(bias + Reference(z, b, r, c, och)))
  {
    hide RefTerms, Flat, Clamp, Sum, Wrap32;
    DilatedSize(z.p.krows, z.p.kernelDilation);
    DilatedSize(z.p.kcols, z.p.kernelDilation);
    var sum: Acc := bias;
    WrapSame(bias);
    ghost var rows := RefRows(z, b, r, c, och);
    SumEnds(0, rows);
    for y := 0 to z.p.DilatedKRows()
      invariant sum == Wrap32(bias + Sum(y, rows))
    {
      ghost var cols := RefCols(z, b, r, c, och, y);
      SumEnds(0, cols);
      for x := 0 to z.p.DilatedKCols()
        invariant sum == Wrap32(bias + Sum(y, rows) + Sum(x, cols))
      {
        sum := ReferenceTap(z, b, r, c, och, y, x, sum, bias + Sum(y, rows) + Sum(x, cols));
        SumEnds(x, cols);
      }
      SumEnds(y, rows);
    }
    result := Clamp(sum);
  }

  /** At unit scale, with no wrap-around, the instruction writes what the reference writes. */
  lemma UnitScaleIsClip(cfg: Config, stat: NormStat, v: Acc)
    requires cfg.accScale == 1.0 && (cfg.accAct == NONE || cfg.accAct == RELU)
    ensures OutValue(cfg, stat, false, v) == if cfg.accAct == RELU && v < 0 then 0 else Clamp(v)
  {
    hide Scale;
    ScaleIdentity(v);
  }

  // First-layer packing.

  function Unpacked(z: Start): Start { z.(p := z.p.(pixels := 1)) }

  lemma UnpackedTerm(z: Start, e: Cell, kr: int, kc: int, kb: int, x: int)
    ensures ChTerms(z, e, kr, kc, kb)(x) == ChTerms(Unpacked(z), e, kr, kc, kb)(x)
  {
    hide AElem, BElem, TapRow, TapCol;
    var z' := Unpacked(z);
    assert TapRow(z'.p, kr, e.r) == TapRow(z.p, kr, e.r) && TapCol(z'.p, kc, e.c) == TapCol(z.p, kc, e.c) by {
      UnpackedTap(z.p, kr, kc, e.r, e.c);
    }
    UnpackedPixel(z, kb, e.b, z.p.Undilated(TapRow(z.p, kr, e.r)), z.p.Undilated(TapCol(z.p, kc, e.c)), x);
    UnpackedWeight(z, Rot(z.p, kr, z.p.krows), Rot(z.p, kc, z.p.kcols), kb * DIM + x, e.ob * DIM + e.n);
  }

  lemma UnpackedTap(p: Call, kr: int, kc: int, r: int, c: int)
    ensures TapRow(p.(pixels := 1), kr, r) == TapRow(p, kr, r) && TapCol(p.(pixels := 1), kc, c) == TapCol(p, kc, c)
  {
  }

  lemma UnpackedPixel(z: Start, kb: int, b: int, y: int, x: int, c: int)
    ensures AElem(Unpacked(z), kb, b, y, x, c) == AElem(z, kb, b, y, x, c)
  {
    assert Unpacked(z).p.ALayout() == z.p.ALayout();
    assert Unpacked(z).p.IRowsU() == z.p.IRowsU() && Unpacked(z).p.IColsU() == z.p.IColsU();
    hide LoadElem, At, Layout.Row, Call.ALayout, Call.IRowsU, Call.IColsU, Call.InAddr;
    var p := z.p;
    UnpackedAddr(z, b, y - p.Undilated(p.upad), x - p.Undilated(p.lpad), kb * DIM + c);
  }

  lemma UnpackedWeight(z: Start, kr: int, kc: int, kch: int, och: int)
    ensures BElem(Unpacked(z), kr, kc, kch, och) == BElem(z, kr, kc, kch, och)
  {
    assert Unpacked(z).p.BLayout() == z.p.BLayout();
    hide LoadElem, At, Layout.Row, Call.BLayout, Call.WAddr;
    UnpackedAddr(z, kr, kc, kch, och);
  }

  lemma UnpackedAddr(z: Start, a: int, b: int, c: int, d: int)
    ensures Unpacked(z).p.InAddr(a, b, c, d) == z.p.InAddr(a, b, c, d)
    ensures Unpacked(z).p.WAddr(a, b, c, d) == z.p.WAddr(a, b, c, d)
  {
  }

  lemma UnpackedTotal(z: Start, e: Cell)
    ensures Total(z, e) == Total(Unpacked(z), e)
  {
    hide ChTerms, Call.KBlocks, Sum;
    var z' := Unpacked(z);
    forall kr ensures KRowSums(z, e)(kr) == KRowSums(z', e)(kr) {
      forall kc ensures TapSums(z, e, kr)(kc) == TapSums(z', e, kr)(kc) {
        assert z'.p.KBlocks() == z.p.KBlocks() by { UnpackedBlocks(z); }
        forall kb ensures BlockSums(z, e, kr, kc)(kb) == BlockSums(z', e, kr, kc)(kb) {
          forall x
            ensures ChTerms(z, e, kr, kc, kb)(x) == ChTerms(z', e, kr, kc, kb)(x)
          {
            UnpackedTerm(z, e, kr, kc, kb, x);
          }
          SumSame(DIM, ChTerms(z, e, kr, kc, kb), ChTerms(z', e, kr, kc, kb));
        }
        SumSame(z.p.KBlocks(), BlockSums(z, e, kr, kc), BlockSums(z', e, kr, kc));
      }
      SumSame(z.p.kcols, TapSums(z, e, kr), TapSums(z', e, kr));
    }
    SumSame(z.p.krows, KRowSums(z, e), KRowSums(z', e));
  }

  lemma UnpackedBlocks(z: Start)
    ensures Unpacked(z).p.KBlocks() == z.p.KBlocks()
  {
  }

  /** Packing is transparent: the call finishes with the sums of the same call with one pixel per row. */
  lemma PackingIsTransparent(z: Start, m: AccMem, m': AccMem, e: Cell)
    requires Ready(z) && Finished(z, m) && Finished(Unpacked(z), m') && InC(z, e)
    ensures Ready(Unpacked(z)) && CRow(Unpacked(z), e) == CRow(z, e)
    ensures At(m, CRow(z, e), e.n) == At(m', CRow(z, e), e.n)
  {
    hide At, Total, Wrap32, Layout.Row, Layout.Rows, BiasElem, Packed;
    UnpackedTotal(z, e);
    UnpackedBase(z, e);
    assert InC(Unpacked(z), e);
    UnpackedFits(z.p, z.dRow);
    UnpackedFits(z.p, z.cRow);
  }

  lemma UnpackedBase(z: Start, e: Cell)
    ensures CRow(Unpacked(z), e) == CRow(z, e) && Base(Unpacked(z), e) == Base(z, e)
  {
  }

  lemma UnpackedFits(p: Call, row: int)
    requires p.Fits(row)
    ensures p.(pixels := 1).Fits(row)
  {
  }

  // Layout flags.

  /** The same convolution on the same tensors, however either call has them laid out in memory. */
  ghost predicate SameTensors(z: Start, z': Start) {
    && z'.p == z.p.(transInput3120 := z'.p.transInput3120, transWeight1203 := z'.p.transWeight1203, transWeight0132 :=
                    z'.p.transWeight0132,
                    transOutput1203 := z'.p.transOutput1203, input := z'.p.input, weights := z'.p.weights, bias :=
                      z'.p.bias, output := z'.p.output)
    && (forall b, y, x, ch :: 0 <= b < z.p.batches && 0 <= y < z.p.IRowsU() && 0 <= x < z.p.IColsU()
                              && 0 <= ch < z.p.kchs ==>
          LoadElem(z.d, z.p.InAddr(b, y, x, ch)) == LoadElem(z'.d, z'.p.InAddr(b, y, x, ch)))
    && (forall kr, kc, ch, och :: 0 <= kr < z.p.krows && 0 <= kc < z.p.kcols && 0 <= ch < z.p.kchs
                                  && 0 <= och < z.p.ochs ==>
          LoadElem(z.d, z.p.WAddr(kr, kc, ch, och)) == LoadElem(z'.d, z'.p.WAddr(kr, kc, ch, och)))
  }

  lemma LayoutImage(z: Start, z': Start, b: int, v: int, u: int, ch: int)
    requires SameTensors(z, z') && 0 <= b < z.p.batches && 0 <= ch < z.p.kchs
    ensures DilatedImage(z, b, v, u, ch) == DilatedImage(z', b, v, u, ch)
  {
    assert z'.p.URows() == z.p.URows() && z'.p.UCols() == z.p.UCols();
    hide LoadElem, Call.InAddr, Call.WAddr, Call.URows, Call.UCols;
  }

  lemma LayoutTerm(z: Start, z': Start, b: int, r: int, c: int, och: int, kr: int, kc: int, ch: int)
    requires SameTensors(z, z') && 0 <= b < z.p.batches && 0 <= och < z.p.ochs
    requires 0 <= kr < z.p.krows && 0 <= kc < z.p.kcols && 0 <= ch < z.p.kchs
    ensures DirectTerms(z, b, r, c, och, kr, kc)(ch) == DirectTerms(z', b, r, c, och, kr, kc)(ch)
  {
    hide LoadElem, Call.InAddr, Call.WAddr, DilatedImage, Call.IRowsU, Call.IColsU;
    LayoutImage(z, z', b, TapRow(z.p, kr, r) - z.p.upad, TapCol(z.p, kc, c) - z.p.lpad, ch);
    var kr', kc' := Rot(z.p, kr, z.p.krows), Rot(z.p, kc, z.p.kcols);
    assert LoadElem(z.d, z.p.WAddr(kr', kc', ch, och)) == LoadElem(z'.d, z'.p.WAddr(kr', kc', ch, och));
  }

  /** The same tensors have the same direct convolution. */
  lemma SameDirect(z: Start, z': Start, b: int, r: int, c: int, och: int)
    requires SameTensors(z, z') && 0 <= b < z.p.batches && 0 <= och < z.p.ochs
    ensures Direct(z, b, r, c, och) == Direct(z', b, r, c, och)
  {
    assert z'.p.krows == z.p.krows && z'.p.kcols == z.p.kcols && z'.p.kchs == z.p.kchs;
    hide DirectTerms, Sum, SameTensors;
    forall kr | 0 <= kr < z.p.krows ensures DirectRows(z, b, r, c, och)(kr) == DirectRows(z', b, r, c, och)(kr) {
      forall kc | 0 <= kc < z.p.kcols
        ensures DirectTaps(z, b, r, c, och, kr)(kc) == DirectTaps(z', b, r, c, och, kr)(kc)
      {
        forall ch | 0 <= ch < z.p.kchs
          ensures DirectTerms(z, b, r, c, och, kr, kc)(ch) == DirectTerms(z', b, r, c, och, kr, kc)(ch)
        {
          LayoutTerm(z, z', b, r, c, och, kr, kc, ch);
        }
        SumSame(z.p.kchs, DirectTerms(z, b, r, c, och, kr, kc), DirectTerms(z', b, r, c, och, kr, kc));
      }
      SumSame(z.p.kcols, DirectTaps(z, b, r, c, och, kr), DirectTaps(z', b, r, c, och, kr));
    }
    SumSame(z.p.krows, DirectRows(z, b, r, c, och), DirectRows(z', b, r, c, och));
  }

  // Splitting the input channels over several calls.

  /** z1 covers the channels of z from `off` on. */
  ghost predicate Slice(z: Start, z1: Start, off: int) {
    && z1.d == z.d
    && z1.p == z.p.(kchs := z1.p.kchs, input := z1.p.input, weights := z1.p.weights, bias := z1.p.bias, output :=
                    z1.p.output)
    && (forall b, y, x, ch :: z1.p.InAddr(b, y, x, ch) == z.p.InAddr(b, y, x, off + ch))
    && (forall kr, kc, ch, och :: z1.p.WAddr(kr, kc, ch, och) == z.p.WAddr(kr, kc, off + ch, och))
  }

  lemma SliceTerms(z: Start, z1: Start, off: int, b: int, r: int, c: int, och: int, kr: int, kc: int, ch: int)
    requires Slice(z, z1, off)
    ensures DirectTerms(z1, b, r, c, och, kr, kc)(ch) == DirectTerms(z, b, r, c, och, kr, kc)(off + ch)
  {
    hide LoadElem, Call.InAddr, Call.WAddr;
    SliceImage(z, z1, off, b, TapRow(z.p, kr, r) - z.p.upad, TapCol(z.p, kc, c) - z.p.lpad, ch);
    assert z1.p.WAddr(Rot(z.p, kr, z.p.krows), Rot(z.p, kc, z.p.kcols), ch, och)
           == z.p.WAddr(Rot(z.p, kr, z.p.krows), Rot(z.p, kc, z.p.kcols), off + ch, och);
  }

  lemma SliceImage(z: Start, z1: Start, off: int, b: int, v: int, u: int, ch: int)
    requires Slice(z, z1, off)
    ensures DilatedImage(z1, b, v, u, ch) == DilatedImage(z, b, v, u, off + ch)
  {
    hide LoadElem, Call.InAddr, Call.WAddr;
    assert z1.p.InAddr(b, v, u, ch) == z.p.InAddr(b, v, u, off + ch);
    assert z1.p.InAddr(b, v / 2, u / 2, ch) == z.p.InAddr(b, v / 2, u / 2, off + ch);
    assert z1.p.URows() == z.p.URows() && z1.p.UCols() == z.p.UCols();
  }

  /** Convolving the channel slices separately and adding gives the whole convolution. */
  lemma SlicesAddUp(z: Start, z1: Start, z2: Start, b: int, r: int, c: int, och: int)
    requires Slice(z, z1, 0) && Slice(z, z2, z1.p.kchs) && z.p.kchs == z1.p.kchs + z2.p.kchs
    ensures Direct(z, b, r, c, och) == Direct(z1, b, r, c, och) + Direct(z2, b, r, c, och)
  {
    hide DirectTerms, Sum, Slice;
    assert z1.p.krows == z.p.krows == z2.p.krows && z1.p.kcols == z.p.kcols == z2.p.kcols by {
      SliceShape(z, z1, 0);
      SliceShape(z, z2, z1.p.kchs);
    }
    forall kr | 0 <= kr < z.p.krows
      ensures DirectRows(z, b, r, c, och)(kr) == DirectRows(z1, b, r, c, och)(kr) + DirectRows(z2, b, r, c, och)(kr)
    {
      forall kc | 0 <= kc < z.p.kcols
        ensures DirectTaps(z, b, r, c, och, kr)(kc)
                == DirectTaps(z1, b, r, c, och, kr)(kc) + DirectTaps(z2, b, r, c, och, kr)(kc)
      {
        TapSplits(z, z1, z2, b, r, c, och, kr, kc);
      }
      SumAdd(z.p.kcols, DirectTaps(z1, b, r, c, och, kr), DirectTaps(z2, b, r, c, och, kr),
             DirectTaps(z, b, r, c, och, kr));
    }
    SumAdd(z.p.krows, DirectRows(z1, b, r, c, och), DirectRows(z2, b, r, c, och), DirectRows(z, b, r, c, och));
  }

  lemma SliceShape(z: Start, z1: Start, off: int)
    requires Slice(z, z1, off)
    ensures z1.p.krows == z.p.krows && z1.p.kcols == z.p.kcols
  {
  }

  lemma TapSplits(z: Start, z1: Start, z2: Start, b: int, r: int, c: int, och: int, kr: int, kc: int)
    requires Slice(z, z1, 0) && Slice(z, z2, z1.p.kchs) && z.p.kchs == z1.p.kchs + z2.p.kchs
    ensures Sum(z.p.kchs, DirectTerms(z, b, r, c, och, kr, kc))
            == Sum(z1.p.kchs, DirectTerms(z1, b, r, c, och, kr, kc))
               + Sum(z2.p.kchs, DirectTerms(z2, b, r, c, och, kr, kc))
  {
    hide DirectTerms, Sum, Slice;
    var f, f1, f2 :=
      DirectTerms(z, b, r, c, och, kr, kc), DirectTerms(z1, b, r, c, och, kr, kc),
        DirectTerms(z2, b, r, c, och, kr, kc);
    forall ch | 0 <= ch < z1.p.kchs ensures f1(ch) == f(ch) { SliceTerms(z, z1, 0, b, r, c, och, kr, kc, ch); }
    forall ch | 0 <= ch < z2.p.kchs
      ensures f2(ch) == f(z1.p.kchs + ch)
    {
      SliceTerms(z, z2, z1.p.kchs, b, r, c, och, kr, kc, ch);
    }
    SumSame(z1.p.kchs, f1, f);
    SumSplit(z1.p.kchs, z2.p.kchs, f, f2);
  }
}
