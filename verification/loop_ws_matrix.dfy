/** loop_ws seen as a multiplication of ordinary row-major matrices in main memory. */
module LoopWsMatrix {
  import opened Params
  import opened Wrap
  import opened Sums
  import opened Dram
  import opened Grid
  import opened Scaling
  import opened Patches
  import opened LoopWsSpec
  import opened LoopWs

  /** The load and store strides describe the same matrices as the loop's own strides. */
  predicate Matched(z: Start) {
    && z.cfg.load0.stride == z.p.strideA && z.cfg.load1.stride == z.p.strideB
    && z.cfg.load2.stride == z.p.strideD * Size(!z.p.lowD) && z.cfg.load2.shrunk == z.p.lowD
    && z.cfg.storeStride == z.p.strideC * Size(z.p.fullC)
  }

  /** Element (row, x) of A, stored plainly or transposed. */
  function AMat(z: Start, row: int, x: int): int {
    Scale(LoadElem(z.d, z.p.A + (if z.p.aT then x * z.p.strideA + row else row * z.p.strideA + x)), z.cfg.load0.scale)
  }

  function BMat(z: Start, x: int, col: int): int {
    Scale(LoadElem(z.d, z.p.B + (if z.p.bT then col * z.p.strideB + x else x * z.p.strideB + col)), z.cfg.load1.scale)
  }

  function DMat(z: Start, row: int, col: int): int {
    var a := z.p.D + (row * z.p.strideD + col) * Size(!z.p.lowD);
    if z.p.lowD then Scale(LoadElem(z.d, a), z.cfg.load2.scale) else LoadAcc(z.d, a)
  }

  lemma BlockAddr(x: int, y: int, r: int, c: int, stride: int, size: int)
    ensures (x * stride + y) * DIM * size + r * (stride * size) + c * size
            == ((x * DIM + r) * stride + (y * DIM + c)) * size
  {
    assert (x * stride + y) * DIM == x * DIM * stride + y * DIM;
    assert (x * DIM + r) * stride == x * DIM * stride + r * stride;
    assert (x * DIM * stride + y * DIM) * size + r * stride * size + c * size
           == (x * DIM * stride + y * DIM + r * stride + c) * size;
    assert r * (stride * size) == r * stride * size;
  }

  lemma AByteIs(z: Start, i: int, k: int, r: int, c: int)
    requires Matched(z)
    ensures AByte(z, i, k, r, c) == z.p.A + (if z.p.aT then (k * DIM + r) * z.p.strideA + (i * DIM + c)
                                             else (i * DIM + r) * z.p.strideA + (k * DIM + c))
  {
    if z.p.aT { BlockAddr(k, i, r, c, z.p.strideA, 1); } else { BlockAddr(i, k, r, c, z.p.strideA, 1); }
  }

  lemma BByteIs(z: Start, k: int, j: int, r: int, c: int)
    requires Matched(z)
    ensures BByte(z, k, j, r, c) == z.p.B + (if z.p.bT then (j * DIM + r) * z.p.strideB + (k * DIM + c)
                                             else (k * DIM + r) * z.p.strideB + (j * DIM + c))
  {
    if z.p.bT { BlockAddr(j, k, r, c, z.p.strideB, 1); } else { BlockAddr(k, j, r, c, z.p.strideB, 1); }
  }

  lemma APadIsMatrix(z: Start, i: int, k: int, m: int, x: int)
    requires Matched(z) && z.p.Padded() && z.p.A != 0 && z.p.InA(i, k) && 0 <= m < z.p.RowsOf(i)
    requires 0 <= x < z.p.DepthOf(k)
    requires z.p.AAddr(i, k) != 0
    ensures APad(z, i, k, m, x) == AMat(z, i * DIM + m, k * DIM + x)
  {
    hide Scale, LoadElem, Call.AAddr;
    if z.p.aT { AByteIs(z, i, k, x, m); } else { AByteIs(z, i, k, m, x); }
  }

  lemma BPadIsMatrix(z: Start, k: int, j: int, x: int, n: int)
    requires Matched(z) && z.p.Padded() && z.p.B != 0 && z.p.InB(k, j) && 0 <= x < z.p.DepthOf(k)
    requires 0 <= n < z.p.ColsOf(j)
    requires z.p.BAddr(k, j) != 0
    ensures BPad(z, k, j, x, n) == BMat(z, k * DIM + x, j * DIM + n)
  {
    hide Scale, LoadElem, Call.BAddr;
    if z.p.bT { BByteIs(z, k, j, n, x); } else { BByteIs(z, k, j, x, n); }
  }

  lemma BlockAddrsNonZero(z: Start)
    ensures z.p.A != 0 ==> forall i, k :: z.p.InA(i, k) ==> z.p.AAddr(i, k) != 0
    ensures z.p.B != 0 ==> forall k, j :: z.p.InB(k, j) ==> z.p.BAddr(k, j) != 0
    ensures z.p.D != 0 ==> forall i, j :: 0 <= i < z.p.I && 0 <= j < z.p.J ==> z.p.DAddr(i, j) != 0
  {
    forall i, k | z.p.InA(i, k) ensures z.p.A != 0 ==> z.p.AAddr(i, k) != 0 {
      Offset(if z.p.aT then k else i, if z.p.aT then i else k, z.p.strideA, 1);
    }
    forall k, j | z.p.InB(k, j) ensures z.p.B != 0 ==> z.p.BAddr(k, j) != 0 {
      Offset(if z.p.bT then j else k, if z.p.bT then k else j, z.p.strideB, 1);
    }
    forall i, j | 0 <= i < z.p.I && 0 <= j < z.p.J ensures z.p.D != 0 ==> z.p.DAddr(i, j) != 0 {
      Offset(i, j, z.p.strideD, Size(!z.p.lowD));
    }
  }

  lemma Offset(x: int, y: int, stride: int, size: int)
    requires 0 <= x && 0 <= y && 0 <= stride && 0 <= size
    ensures 0 <= (x * stride + y) * DIM * size && 0 <= (x * stride + y) * DIM
  {
    MulLe(0, x, stride);
    MulLe(0, x * stride + y, DIM);
    MulLe(0, (x * stride + y) * DIM, size);
  }

  lemma InitialIsMatrix(z: Start, i: int, j: int, m: int, n: int)
    requires Matched(z) && z.p.Padded() && z.p.D != 0 && z.p.InC(i, j, m, n)
    ensures Initial(z, i, j, m, n) == DMat(z, i * DIM + m, j * DIM + n)
  {
    hide Scale, LoadElem, LoadAcc, Call.DAddr;
    BlockAddrsNonZero(z);
    DAddrIs(z, i, j, m, n);
  }

  lemma DAddrIs(z: Start, i: int, j: int, m: int, n: int)
    requires Matched(z)
    ensures z.p.DAddr(i, j) + m * z.cfg.load2.stride + n * Size(!z.p.lowD)
            == z.p.D + ((i * DIM + m) * z.p.strideD + (j * DIM + n)) * Size(!z.p.lowD)
  {
    BlockAddr(i, j, m, n, z.p.strideD, Size(!z.p.lowD));
  }

  /** The textbook product of row `row` of A and column `col` of B. */
  ghost function MatTerms(z: Start, row: int, col: int): int -> int {
    x => AMat(z, row, x) * BMat(z, x, col)
  }

  lemma DepthIndex(p: Call, x: int)
    requires p.Padded() && 0 <= x < Depth(p)
    ensures 0 <= x / DIM < p.K && 0 <= x % DIM < p.DepthOf(x / DIM) && x == x / DIM * DIM + x % DIM
  {
    DivLess(x, p.K);
    var k := x / DIM;
    assert k == p.K - 1 ==> p.K * DIM == k * DIM + DIM;
  }

  lemma DivLess(x: int, n: int)
    requires 0 <= x < n * DIM
    ensures 0 <= x / DIM < n
  {
    MulFar(x / DIM - n, DIM);
    assert (x / DIM - n) * DIM == x / DIM * DIM - n * DIM;
  }

  /** With both operands in main memory, each accumulator value is D + A * B of plain matrices,
      and its address is that of element (row, col) of C. */
  lemma ProductIsMatMul(z: Start, i: int, j: int, m: int, n: int)
    requires Matched(z) && z.p.Padded() && Depth(z.p) >= 0 && z.p.A != 0 && z.p.B != 0 && z.p.InC(i, j, m, n)
    ensures Product(z, i, j, m, n) ==
            (if !z.p.accumulate then 0 else if z.p.D != 0 then DMat(z, i * DIM + m, j * DIM + n)
             else At(z.m, z.p.CRow(i, j, m), n))
            + Sum(Depth(z.p), MatTerms(z, i * DIM + m, j * DIM + n))
    ensures CByteAddr(z, i, j, m, n) == z.p.C + ((i * DIM + m) * z.p.strideC + (j * DIM + n)) * Size(z.p.fullC)
  {
    hide AMat, BMat, DMat, APad, BPad, At, Call.CRow, Call.AAddr, Call.BAddr;
    var row, col := i * DIM + m, j * DIM + n;
    var f, g := ProductTerms(z, i, j, m, n), MatTerms(z, row, col);
    BlockAddrsNonZero(z);
    forall x | 0 <= x < Depth(z.p) ensures f(x) == g(x) {
      DepthIndex(z.p, x);
      APadIsMatrix(z, i, x / DIM, m, x % DIM);
      BPadIsMatrix(z, x / DIM, j, x % DIM, n);
    }
    SumSame(Depth(z.p), f, g);
    if z.p.D != 0 { InitialIsMatrix(z, i, j, m, n); }
    CAddrIs(z, i, j, m, n);
  }

  lemma CAddrIs(z: Start, i: int, j: int, m: int, n: int)
    requires Matched(z)
    ensures CByteAddr(z, i, j, m, n) == z.p.C + ((i * DIM + m) * z.p.strideC + (j * DIM + n)) * Size(z.p.fullC)
  {
    BlockAddr(i, j, m, n, z.p.strideC, Size(z.p.fullC));
  }

  ghost function Height(p: Call): int { p.I * DIM - p.padI }
  ghost function Width(p: Call): int { p.J * DIM - p.padJ }

  /** Byte x lies in a row-major matrix of the given shape. */
  ghost predicate InMatrix(base: int, rows: int, cols: int, stride: int, size: int, x: int) {
    base <= x < base + (rows - 1) * (stride * size) + cols * size
  }

  lemma ElementInMatrix(base: int, rows: int, cols: int, stride: nat, size: nat, row: int, col: int)
    requires 0 <= row < rows && 0 <= col < cols
    ensures base <= base + (row * stride + col) * size
    ensures base + (row * stride + col) * size + size <= base + (rows - 1) * (stride * size) + cols * size
  {
    assert (row * stride + col) * size == row * (stride * size) + col * size;
    MulLe(0, stride, size);
    MulLe(row, rows - 1, stride * size);
    MulLe(0, row, stride * size);
    MulLe(col + 1, cols, size);
    MulLe(0, col, size);
    assert (col + 1) * size == col * size + size;
  }

  lemma BlockIndex(i: int, I: int, pad: int, r: int, rows: int)
    requires 0 <= i < I && 0 <= pad <= DIM && 0 <= r < rows && rows == (if i == I - 1 then DIM - pad else DIM)
    ensures 0 <= i * DIM + r < I * DIM - pad
  {
    MulLe(0, i, DIM);
    MulLe(i + 1, I, DIM);
    assert (i + 1) * DIM == i * DIM + DIM;
    if i < I - 1 {
      MulLe(i + 2, I, DIM);
      assert (i + 2) * DIM == i * DIM + 2 * DIM;
    }
  }

  lemma SameBlockIndex(i: int, r: int, i': int, r': int)
    requires 0 <= r < DIM && 0 <= r' < DIM && i * DIM + r == i' * DIM + r'
    ensures i == i' && r == r'
  {
    DivUnique(i * DIM + r, DIM, i, r);
    DivUnique(i' * DIM + r', DIM, i', r');
  }

  /** Separate buffers, with rows of C that do not run into each other, meet loop_ws's requirement. */
  lemma SeparateBuffers(z: Start)
    requires Matched(z) && z.p.Padded() && Width(z.p) <= z.p.strideC
    requires z.p.A != 0 ==> forall x ::
               InMatrix(z.p.A, if z.p.aT then Depth(z.p) else Height(z.p), if z.p.aT then Height(z.p)
                        else Depth(z.p), z.p.strideA, 1, x)
               ==> !InMatrix(z.p.C, Height(z.p), Width(z.p), z.p.strideC, Size(z.p.fullC), x)
    requires z.p.B != 0 ==> forall x ::
               InMatrix(z.p.B, if z.p.bT then Width(z.p) else Depth(z.p), if z.p.bT then Depth(z.p)
                        else Width(z.p), z.p.strideB, 1, x)
               ==> !InMatrix(z.p.C, Height(z.p), Width(z.p), z.p.strideC, Size(z.p.fullC), x)
    ensures CApart(z)
  {
    hide CByteAddr, AByte, BByte, InMatrix, Apart, InCBytes, Height, Width, Depth;
    forall i, j, m, n, i', j', m', n' | z.p.InC(i, j, m, n) && z.p.InC(i', j', m', n')
      && (i != i' || j != j' || m != m' || n != n')
      ensures Apart(CByteAddr(z, i, j, m, n), Size(z.p.fullC), CByteAddr(z, i', j', m', n'), Size(z.p.fullC))
    {
      CellsApart(z, i, j, m, n, i', j', m', n');
    }
    if z.p.A != 0 {
      forall i, k, r, c | z.p.InA(i, k) && 0 <= r < z.p.ARows(i, k) && 0 <= c < z.p.ACols(i, k)
        ensures !InCBytes(z, AByte(z, i, k, r, c))
      {
        AInMatrix(z, i, k, r, c);
        OutsideC(z, AByte(z, i, k, r, c));
      }
    }
    if z.p.B != 0 {
      forall k, j, r, c | z.p.InB(k, j) && 0 <= r < z.p.BRows(k, j) && 0 <= c < z.p.BCols(k, j)
        ensures !InCBytes(z, BByte(z, k, j, r, c))
      {
        BInMatrix(z, k, j, r, c);
        OutsideC(z, BByte(z, k, j, r, c));
      }
    }
  }

  lemma CInMatrix(z: Start, i: int, j: int, m: int, n: int)
    requires Matched(z) && z.p.Padded() && z.p.InC(i, j, m, n)
    ensures forall x :: CByteAddr(z, i, j, m, n) <= x < CByteAddr(z, i, j, m, n) + Size(z.p.fullC) ==>
              InMatrix(z.p.C, Height(z.p), Width(z.p), z.p.strideC, Size(z.p.fullC), x)
  {
    CAddrIs(z, i, j, m, n);
    BlockIndex(i, z.p.I, z.p.padI, m, z.p.RowsOf(i));
    BlockIndex(j, z.p.J, z.p.padJ, n, z.p.ColsOf(j));
    ElementInMatrix(z.p.C, Height(z.p), Width(z.p), z.p.strideC, Size(z.p.fullC), i * DIM + m, j * DIM + n);
  }

  lemma OutsideC(z: Start, x: int)
    requires Matched(z) && z.p.Padded()
    requires !InMatrix(z.p.C, Height(z.p), Width(z.p), z.p.strideC, Size(z.p.fullC), x)
    ensures !InCBytes(z, x)
  {
    hide CByteAddr, InMatrix;
    forall i, j, m, n | z.p.InC(i, j, m, n)
      ensures !(CByteAddr(z, i, j, m, n) <= x < CByteAddr(z, i, j, m, n) + Size(z.p.fullC))
    {
      CInMatrix(z, i, j, m, n);
    }
  }

  lemma AInMatrix(z: Start, i: int, k: int, r: int, c: int)
    requires Matched(z) && z.p.Padded() && z.p.InA(i, k) && 0 <= r < z.p.ARows(i, k) && 0 <= c < z.p.ACols(i, k)
    ensures InMatrix(z.p.A, if z.p.aT then Depth(z.p) else Height(z.p), if z.p.aT then Height(z.p)
                     else Depth(z.p), z.p.strideA, 1,
                     AByte(z, i, k, r, c))
  {
    hide AByte;
    AByteIs(z, i, k, r, c);
    BlockIndex(i, z.p.I, z.p.padI, if z.p.aT then c else r, z.p.RowsOf(i));
    BlockIndex(k, z.p.K, z.p.padK, if z.p.aT then r else c, z.p.DepthOf(k));
    if z.p.aT {
      ElementInMatrix(z.p.A, Depth(z.p), Height(z.p), z.p.strideA, 1, k * DIM + r, i * DIM + c);
    } else {
      ElementInMatrix(z.p.A, Height(z.p), Depth(z.p), z.p.strideA, 1, i * DIM + r, k * DIM + c);
    }
  }

  lemma BInMatrix(z: Start, k: int, j: int, r: int, c: int)
    requires Matched(z) && z.p.Padded() && z.p.InB(k, j) && 0 <= r < z.p.BRows(k, j) && 0 <= c < z.p.BCols(k, j)
    ensures InMatrix(z.p.B, if z.p.bT then Width(z.p) else Depth(z.p), if z.p.bT then Depth(z.p)
                     else Width(z.p), z.p.strideB, 1,
                     BByte(z, k, j, r, c))
  {
    hide BByte;
    BByteIs(z, k, j, r, c);
    BlockIndex(j, z.p.J, z.p.padJ, if z.p.bT then r else c, z.p.ColsOf(j));
    BlockIndex(k, z.p.K, z.p.padK, if z.p.bT then c else r, z.p.DepthOf(k));
    if z.p.bT {
      ElementInMatrix(z.p.B, Width(z.p), Depth(z.p), z.p.strideB, 1, j * DIM + r, k * DIM + c);
    } else {
      ElementInMatrix(z.p.B, Depth(z.p), Width(z.p), z.p.strideB, 1, k * DIM + r, j * DIM + c);
    }
  }

  lemma CellsApart(z: Start, i: int, j: int, m: int, n: int, i': int, j': int, m': int, n': int)
    requires Matched(z) && z.p.Padded() && Width(z.p) <= z.p.strideC
    requires z.p.InC(i, j, m, n) && z.p.InC(i', j', m', n') && (i != i' || j != j' || m != m' || n != n')
    ensures Apart(CByteAddr(z, i, j, m, n), Size(z.p.fullC), CByteAddr(z, i', j', m', n'), Size(z.p.fullC))
  {
    var size, stride := Size(z.p.fullC), z.p.strideC;
    var row, col, row', col' := i * DIM + m, j * DIM + n, i' * DIM + m', j' * DIM + n';
    CAddrIs(z, i, j, m, n);
    CAddrIs(z, i', j', m', n');
    BlockIndex(i, z.p.I, z.p.padI, m, z.p.RowsOf(i));
    BlockIndex(j, z.p.J, z.p.padJ, n, z.p.ColsOf(j));
    BlockIndex(i', z.p.I, z.p.padI, m', z.p.RowsOf(i'));
    BlockIndex(j', z.p.J, z.p.padJ, n', z.p.ColsOf(j'));
    assert row != row' || col != col' by {
      if row == row' && col == col' {
        SameBlockIndex(i, m, i', m');
        SameBlockIndex(j, n, j', n');
      }
    }
    MatrixApart(row, col, row', col', Width(z.p), stride, size);
  }

  lemma MatrixApart(row: int, col: int, row': int, col': int, cols: int, stride: int, size: nat)
    requires 0 <= col < cols && 0 <= col' < cols && cols <= stride && 0 <= row && 0 <= row'
    requires row != row' || col != col'
    ensures Apart((row * stride + col) * size, size, (row' * stride + col') * size, size)
  {
    var x, y := row * stride + col, row' * stride + col';
    assert (row - row') * stride == row * stride - row' * stride;
    MulFar(row - row', stride);
    assert x != y;
    if x < y {
      MulLe(x + 1, y, size);
      assert (x + 1) * size == x * size + size;
    } else {
      MulLe(y + 1, x, size);
      assert (y + 1) * size == y * size + size;
    }
  }

  // Range of the sums.

  lemma ElemProduct(a: int, b: int)
    requires -128 <= a <= 127 && -128 <= b <= 127
    ensures -0x4000 <= a * b <= 0x4000
  {
    if a >= 0 {
      MulLe(b, 127, a);
      MulLe(-128, b, a);
    } else {
      MulLe(b, 127, 0 - a);
      MulLe(-128, b, 0 - a);
    }
  }

  lemma PadRange(z: Start, i: int, j: int, k: int, m: int, n: int, x: int)
    requires z.p.Padded()
    ensures -128 <= APad(z, i, k, m, x) <= 127 && -128 <= BPad(z, k, j, x, n) <= 127
  {
    hide At;
    SpadRange(z.s, z.p.ARow(i, k, if z.p.aT then x else m), if z.p.aT then m else x);
    SpadRange(z.s, z.p.BRow(k, j, if z.p.bT then n else x), if z.p.bT then x else n);
  }

  /** An accepted call multiplies over at most a quarter of the scratchpad. */
  lemma AcceptedDepth(p: Call)
    requires p.Padded() && p.Accepted() && p.I > 0 && p.J > 0
    ensures 4 * p.K * DIM <= SPAD_ROWS
  {
    MulLe(1, p.I, p.K);
    MulLe(1, p.J, p.K);
    assert p.K * p.J == p.J * p.K;
    MulLe(2 * p.K, p.I * p.K + p.K * p.J, DIM);
    assert 2 * p.K * DIM <= SPAD_ROWS / 2;
    assert 4 * p.K * DIM == 2 * (2 * p.K * DIM);
  }

  /** With the shipped 16384-row scratchpad every running sum of a call stays within 2^26 of its start. */
  lemma SumRange(z: Start, i: int, j: int, m: int, n: int, x: nat)
    requires z.p.Padded() && z.p.Accepted() && z.p.InC(i, j, m, n) && x <= Depth(z.p) && SPAD_ROWS == 16384
    ensures -0x400_0000 <= Sum(x, ProductTerms(z, i, j, m, n)) <= 0x400_0000
  {
    hide ProductTerms, Call.Accepted;
    assert x <= 4096 by { AcceptedDepth(z.p); }
    var f := ProductTerms(z, i, j, m, n);
    forall y | 0 <= y < x ensures 0 - 0x4000 <= f(y) <= 0x4000 {
      TermRange(z, i, j, m, n, y);
    }
    SumBound(x, f, 0x4000);
  }

  lemma TermRange(z: Start, i: int, j: int, m: int, n: int, y: int)
    requires z.p.Padded()
    ensures -0x4000 <= ProductTerms(z, i, j, m, n)(y) <= 0x4000
  {
    hide APad, BPad;
    PadRange(z, i, j, y / DIM, m, n, y % DIM);
    ElemProduct(APad(z, i, y / DIM, m, y % DIM), BPad(z, y / DIM, j, y % DIM, n));
  }

  lemma BlockTermRange(z: Start, i: int, j: int, m: int, n: int, k: int, x: int)
    requires z.p.Padded()
    ensures -0x4000 <= BlockTerms(z, i, j, m, n, k)(x) <= 0x4000
  {
    hide APad, BPad;
    PadRange(z, i, j, k, m, n, x);
    ElemProduct(APad(z, i, k, m, x), BPad(z, k, j, x, n));
  }

  /** The sums inside one block product. */
  lemma InBlockRange(z: Start, i: int, j: int, m: int, n: int, k: int, y: nat)
    requires z.p.Padded() && y <= DIM
    ensures -0x4000 * DIM <= Sum(y, BlockTerms(z, i, j, m, n, k)) <= 0x4000 * DIM
  {
    hide BlockTerms;
    forall x | 0 <= x < y ensures 0 - 0x4000 <= BlockTerms(z, i, j, m, n, k)(x) <= 0x4000 {
      BlockTermRange(z, i, j, m, n, k, x);
    }
    SumBound(y, BlockTerms(z, i, j, m, n, k), 0x4000);
  }

  lemma BlockSumIs(z: Start, i: int, j: int, m: int, n: int, k: int)
    requires z.p.Padded()
    ensures BlockSums(z, i, j, m, n)(k) == Sum(DIM, BlockTerms(z, i, j, m, n, k))
  {
  }

  /** The sums over whole blocks. */
  lemma BlocksRange(z: Start, i: int, j: int, m: int, n: int, k: nat)
    requires z.p.Padded() && z.p.Accepted() && z.p.InC(i, j, m, n) && k <= z.p.K && SPAD_ROWS == 16384
    ensures -0x400_0000 <= Sum(k, BlockSums(z, i, j, m, n)) <= 0x400_0000
    ensures z.p.K > 0 ==> DIM <= 4096
  {
    hide BlockTerms, Call.Accepted, BlockSums, Sum;
    var b := 0x4000 * DIM;
    forall k' | 0 <= k' < k ensures 0 - b <= BlockSums(z, i, j, m, n)(k') <= b {
      BlockSumIs(z, i, j, m, n, k');
      InBlockRange(z, i, j, m, n, k', DIM);
    }
    SumBound(k, BlockSums(z, i, j, m, n), b);
    AcceptedDepth(z.p);
    FourThousand(k, z.p.K);
  }

  lemma FourThousand(k: nat, K: nat)
    requires k <= K && 4 * K * DIM <= 16384
    ensures k * (0x4000 * DIM) <= 0x400_0000 && (K > 0 ==> DIM <= 4096)
  {
    MulLe(k, K, DIM);
    assert k * (0x4000 * DIM) == 0x4000 * (k * DIM);
    assert 4 * K * DIM == 4 * (K * DIM);
    if K > 0 { MulLe(1, K, DIM); }
  }

  ghost function StartValue(z: Start, i: int, j: int, m: int, n: int): int {
    if z.p.accumulate then Initial(z, i, j, m, n) else 0
  }

  /** Then nothing the array or the accumulator forms wraps: neither the sums inside a block product nor, from a start
      below 2^31 - 2^26, the running value after any number of block products. */
  lemma NoOverflow(z: Start, i: int, j: int, m: int, n: int, k: nat, y: nat)
    requires z.p.Padded() && z.p.Accepted() && z.p.InC(i, j, m, n) && SPAD_ROWS == 16384 && y <= DIM
    requires 0x400_0000 - 0x8000_0000 <= StartValue(z, i, j, m, n) < 0x8000_0000 - 0x400_0000
    ensures k < z.p.K ==> Wrap32(Sum(y, BlockTerms(z, i, j, m, n, k))) == Sum(y, BlockTerms(z, i, j, m, n, k))
    ensures 0 < k <= z.p.K ==>
              Partial(z, i, j, m, n, k) == StartValue(z, i, j, m, n) + Sum(k, BlockSums(z, i, j, m, n))
  {
    hide BlockTerms, Call.Accepted, Initial, Partial, BlockSums, Sum;
    if k < z.p.K {
      BlocksRange(z, i, j, m, n, 0);
      InBlockRange(z, i, j, m, n, k, y);
      WrapSame(Sum(y, BlockTerms(z, i, j, m, n, k)));
    }
    if 0 < k <= z.p.K {
      PartialIsSum(z, i, j, m, n, k);
      BlocksRange(z, i, j, m, n, k);
      WrapSame(StartValue(z, i, j, m, n) + Sum(k, BlockSums(z, i, j, m, n)));
    }
  }

  /** What an accumulator cell holds after a chain of accumulating calls from zero. */
  ghost function Chained(calls: seq<Start>, i: int, j: int, m: int, n: int): int
    requires forall t :: 0 <= t < |calls| ==> calls[t].p.Padded() && Depth(calls[t].p) >= 0
  {
    if calls == [] then 0
    else
      var z := calls[|calls| - 1];
      Chained(calls[..|calls| - 1], i, j, m, n) + Sum(Depth(z.p), ProductTerms(z, i, j, m, n))
  }

  lemma {:induction false} ChainRange(calls: seq<Start>, i: int, j: int, m: int, n: int)
    requires forall t :: 0 <= t < |calls| ==> calls[t].p.Padded() && Depth(calls[t].p) >= 0
    requires forall t :: 0 <= t < |calls| ==> calls[t].p.Accepted() && calls[t].p.InC(i, j, m, n)
    requires SPAD_ROWS == 16384
    ensures -0x400_0000 * |calls| <= Chained(calls, i, j, m, n) <= 0x400_0000 * |calls|
  {
    hide ProductTerms, Call.Accepted;
    if calls != [] {
      var z := calls[|calls| - 1];
      ChainRange(calls[..|calls| - 1], i, j, m, n);
      SumRange(z, i, j, m, n, Depth(z.p));
    }
  }
}
