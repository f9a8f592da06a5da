/** Where a strided, possibly multi-block or multi-pixel move-in lands in a local memory. */
module Patches {
  import opened Params

  /** `rows` by `cols` elements based at local row `base`. Every DIM columns start a new block
      `blockStride` rows further on, and each element is repeated for `pixels` neighbours. */
  datatype Patch = Patch(base: nat, rows: nat, cols: nat, blockStride: nat, pixels: Pos)

  function LandRow(g: Patch, row: int, col: int): int {
    g.base + row + col / DIM * g.blockStride
  }

  function LandCol(g: Patch, col: int, pixel: int): int {
    col % DIM + pixel * g.cols
  }

  /** Element (row, col) is written to local cell (R, C). */
  predicate Lands(g: Patch, row: int, col: int, R: int, C: int) {
    var px := LandRow(g, row, col) - R;
    0 <= R && 0 <= px < g.pixels && C == LandCol(g, col, px)
  }

  predicate InBounds(g: Patch, limit: int) {
    && (g.pixels > 1 ==> g.pixels * g.cols <= DIM)
    && forall row, col :: 0 <= row < g.rows && 0 <= col < g.cols ==> LandRow(g, row, col) < limit
  }

  /** No cell is written twice. */
  predicate Separate(g: Patch) {
    if g.pixels == 1 then g.cols <= DIM || g.rows <= g.blockStride else g.pixels * g.cols <= DIM
  }

  // The inverse of Lands.

  function SrcPixel(g: Patch, C: int): int {
    if g.pixels == 1 || g.cols == 0 then 0 else C / g.cols
  }

  function SrcBlock(g: Patch, R: int): int {
    if g.cols <= DIM || g.blockStride == 0 then 0 else (R - g.base) / g.blockStride
  }

  function SrcRow(g: Patch, R: int, C: int): int {
    R + SrcPixel(g, C) - g.base - SrcBlock(g, R) * g.blockStride
  }

  function SrcCol(g: Patch, R: int, C: int): int {
    SrcBlock(g, R) * DIM + C - SrcPixel(g, C) * g.cols
  }

  predicate Hit(g: Patch, R: int, C: int) {
    SrcPixel(g, C) < g.pixels && 0 <= SrcRow(g, R, C) < g.rows && 0 <= SrcCol(g, R, C) < g.cols
  }

  lemma PixelFits(g: Patch, col: int, pixel: int)
    requires g.pixels > 1 ==> g.pixels * g.cols <= DIM
    requires 0 <= col < g.cols && 0 <= pixel < g.pixels
    ensures 0 <= LandCol(g, col, pixel) < DIM
  {
    assert 0 <= col % DIM <= col;
    if g.pixels > 1 {
      MulLe(pixel + 1, g.pixels, g.cols);
      assert (pixel + 1) * g.cols == pixel * g.cols + g.cols;
    }
    MulLe(0, pixel, g.cols);
  }

  lemma MulLe(a: int, b: int, n: int)
    requires a <= b && 0 <= n
    ensures a * n <= b * n
  {
  }

  lemma LandRowNat(g: Patch, row: int, col: int)
    requires 0 <= row && 0 <= col
    ensures g.base + row <= LandRow(g, row, col)
  {
    MulLe(0, col / DIM, g.blockStride);
  }

  lemma DivUnique(x: int, n: Pos, q: int, r: int)
    requires x == q * n + r && 0 <= r < n
    ensures x / n == q && x % n == r
  {
    var d := x / n - q;
    assert d * n == x / n * n - q * n;
    assert d * n == r - x % n;
    MulFar(d, n);
  }

  lemma MulFar(d: int, n: Pos)
    ensures d >= 1 ==> d * n >= n
    ensures d <= -1 ==> d * n <= 0 - n
  {
  }

  lemma SourceRange(g: Patch)
    ensures forall R, C :: Hit(g, R, C) ==> 0 <= SrcRow(g, R, C) < g.rows && 0 <= SrcCol(g, R, C) < g.cols
  {
  }

  lemma LandsForward(g: Patch, row: int, col: int, R: int, C: int)
    requires Separate(g) && 0 <= row < g.rows && 0 <= col < g.cols && 0 <= R && 0 <= C < DIM
    requires Lands(g, row, col, R, C)
    ensures Hit(g, R, C) && SrcRow(g, R, C) == row && SrcCol(g, R, C) == col
  {
    var px := LandRow(g, row, col) - R;
    if g.cols <= DIM {
      DivUnique(col, DIM, 0, col);
      if g.pixels > 1 {
        DivUnique(C, g.cols, px, col);
      }
    } else {
      WideIsSingle(g);
      assert px == 0;
      DivUnique(R - g.base, g.blockStride, col / DIM, row);
    }
  }

  lemma DivNat(x: int, n: Pos)
    requires 0 <= x
    ensures 0 <= x / n && x / n * n <= x
  {
  }

  lemma LandsBackwardNarrow(g: Patch, row: int, col: int, R: int, C: int)
    requires Separate(g) && g.cols <= DIM && 0 <= row < g.rows && 0 <= col < g.cols && 0 <= R && 0 <= C < DIM
    requires Hit(g, R, C) && SrcRow(g, R, C) == row && SrcCol(g, R, C) == col
    ensures Lands(g, row, col, R, C)
  {
    DivUnique(col, DIM, 0, col);
    if g.pixels > 1 { DivNat(C, g.cols); }
    var px := SrcPixel(g, C);
    assert 0 <= px < g.pixels;
    assert LandRow(g, row, col) == R + px;
    assert C == col + px * g.cols;
  }

  lemma LandsBackwardWide(g: Patch, row: int, col: int, R: int, C: int)
    requires Separate(g) && g.cols > DIM && 0 <= row < g.rows && 0 <= col < g.cols && 0 <= R && 0 <= C < DIM
    requires Hit(g, R, C) && SrcRow(g, R, C) == row && SrcCol(g, R, C) == col
    ensures Lands(g, row, col, R, C)
  {
    WideIsSingle(g);
    var q := SrcBlock(g, R);
    assert col == q * DIM + C;
    DivUnique(col, DIM, q, C);
    assert LandRow(g, row, col) == R;
  }

  lemma WideIsSingle(g: Patch)
    requires Separate(g) && g.cols > DIM
    ensures g.pixels == 1
  {
    MulLe(1, g.pixels, g.cols);
  }

  lemma LandsBackward(g: Patch, row: int, col: int, R: int, C: int)
    requires Separate(g) && 0 <= row < g.rows && 0 <= col < g.cols && 0 <= R && 0 <= C < DIM
    requires Hit(g, R, C) && SrcRow(g, R, C) == row && SrcCol(g, R, C) == col
    ensures Lands(g, row, col, R, C)
  {
    hide Hit, SrcRow, SrcCol, Lands, Separate;
    if g.cols <= DIM {
      LandsBackwardNarrow(g, row, col, R, C);
    } else {
      LandsBackwardWide(g, row, col, R, C);
    }
  }

  /** An element lands exactly on the cells whose source it is. */
  lemma LandsIffSource(g: Patch, row: int, col: int)
    requires Separate(g) && 0 <= row < g.rows && 0 <= col < g.cols
    ensures forall R, C :: 0 <= R && 0 <= C < DIM ==>
              (Lands(g, row, col, R, C) <==>
               Hit(g, R, C) && SrcRow(g, R, C) == row && SrcCol(g, R, C) == col)
  {
    forall R, C | 0 <= R && 0 <= C < DIM
      ensures Lands(g, row, col, R, C) <==>
              Hit(g, R, C) && SrcRow(g, R, C) == row && SrcCol(g, R, C) == col
    {
      if Lands(g, row, col, R, C) { LandsForward(g, row, col, R, C); }
      if Hit(g, R, C) && SrcRow(g, R, C) == row && SrcCol(g, R, C) == col {
        LandsBackward(g, row, col, R, C);
      }
    }
  }

  /** A patch of at most DIM columns and one pixel is a plain rectangle. */
  lemma PlainPatch(g: Patch, R: int, C: int)
    requires g.pixels == 1 && g.cols <= DIM
    ensures SrcRow(g, R, C) == R - g.base && SrcCol(g, R, C) == C
    ensures Hit(g, R, C) <==> g.base <= R < g.base + g.rows && 0 <= C < g.cols
  {
  }

  // Strided rows: operand A and the output are read and written every `stride` rows.

  function RowAt(base: int, stride: int, i: int): int {
    base + stride * i
  }

  function IndexOf(base: int, stride: int, R: int): int {
    if stride == 0 then 0 else (R - base) / stride
  }

  predicate Strided(base: int, stride: int, n: int, R: int) {
    0 <= IndexOf(base, stride, R) < n && RowAt(base, stride, IndexOf(base, stride, R)) == R
  }

  lemma IndexOfRowAt(base: int, stride: nat, n: int, i: int)
    requires 0 <= i < n && (stride > 0 || n <= 1)
    ensures forall R :: (Strided(base, stride, n, R) && IndexOf(base, stride, R) == i) <==> R == RowAt(base, stride, i)
  {
    if stride > 0 {
      DivUnique(stride * i, stride, i, 0);
    }
  }

  lemma RowAtLe(base: int, stride: nat, i: int, n: int)
    requires 0 <= i <= n
    ensures base <= RowAt(base, stride, i) <= RowAt(base, stride, n)
  {
    MulLe(i, n, stride);
    MulLe(0, i, stride);
  }

  lemma UnitStride(base: int, n: int, R: int)
    ensures IndexOf(base, 1, R) == R - base
    ensures Strided(base, 1, n, R) <==> base <= R < base + n
  {
  }
}
