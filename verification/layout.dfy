/** Four-dimensional row-major layouts of local memory, and the move-ins that fill them. */
module Layouts {
  import opened Params
  import opened Patches

  datatype Layout = Layout(start: int, n0: int, n1: int, n2: int, n3: int)
  {
    function Row(a: int, b: int, c: int, d: int): int {
      start + ((a * n1 + b) * n2 + c) * n3 + d
    }

    predicate In(a: int, b: int, c: int, d: int) {
      0 <= a < n0 && 0 <= b < n1 && 0 <= c < n2 && 0 <= d < n3
    }

    /** Rows taken by one value of the outermost index. */
    function Block(): int { n1 * n2 * n3 }

    function Rows(): int { n0 * Block() }

    /** Position within a block. */
    function Lin(b: int, c: int, d: int): int {
      (b * n2 + c) * n3 + d
    }
  }

  /** The address formula of the source, with its products multiplied out. */
  lemma RowIs(l: Layout, a: int, b: int, c: int, d: int)
    ensures l.Row(a, b, c, d) == l.start + a * l.n1 * l.n2 * l.n3 + b * l.n2 * l.n3 + c * l.n3 + d
    ensures l.Row(a, b, c, d) == l.start + a * l.Block() + l.Lin(b, c, d)
  {
    assert ((a * l.n1 + b) * l.n2 + c) * l.n3 == a * l.n1 * l.n2 * l.n3 + b * l.n2 * l.n3 + c * l.n3;
    assert (b * l.n2 + c) * l.n3 == b * l.n2 * l.n3 + c * l.n3;
    assert a * (l.n1 * l.n2 * l.n3) == a * l.n1 * l.n2 * l.n3;
  }

  lemma LinBounds(l: Layout, b: int, c: int, d: int)
    requires 0 <= b < l.n1 && 0 <= c < l.n2 && 0 <= d < l.n3
    ensures 0 <= l.Lin(b, c, d) < l.Block()
    ensures l.Lin(b, c, d) + (l.n3 - d) <= l.Block()
  {
    MulLe(0, b, l.n2);
    MulLe(b + 1, l.n1, l.n2);
    assert (b + 1) * l.n2 == b * l.n2 + l.n2;
    MulLe(b * l.n2 + c + 1, l.n1 * l.n2, l.n3);
    MulLe(0, b * l.n2 + c, l.n3);
    assert (b * l.n2 + c + 1) * l.n3 == (b * l.n2 + c) * l.n3 + l.n3;
  }

  lemma RowBounds(l: Layout, a: int, b: int, c: int, d: int)
    requires l.In(a, b, c, d)
    ensures l.start <= l.Row(a, b, c, d) < l.start + l.Rows()
  {
    hide Layout.Lin, Layout.Row;
    RowIs(l, a, b, c, d);
    LinBounds(l, b, c, d);
    MulLe(0, a, l.Block());
    MulLe(a + 1, l.n0, l.Block());
    assert (a + 1) * l.Block() == a * l.Block() + l.Block();
  }

  lemma LinInjective(l: Layout, b: int, c: int, d: int, b': int, c': int, d': int)
    requires 0 <= c < l.n2 && 0 <= d < l.n3 && 0 <= c' < l.n2 && 0 <= d' < l.n3
    requires l.Lin(b, c, d) == l.Lin(b', c', d')
    ensures b == b' && c == c' && d == d'
  {
    DivUnique(l.Lin(b, c, d), l.n3, b * l.n2 + c, d);
    DivUnique(l.Lin(b, c, d), l.n3, b' * l.n2 + c', d');
    DivUnique(b * l.n2 + c, l.n2, b, c);
    DivUnique(b * l.n2 + c, l.n2, b', c');
  }

  /** A row inside a run of t rows starting at (a, b, c, d) is the t-th element of that run. */
  lemma RowRun(l: Layout, a: int, b: int, c: int, d: int, t: int, a': int, b': int, c': int, d': int)
    requires l.In(a, b, c, d) && l.In(a', b', c', d') && 0 <= t && d + t < l.n3
    requires l.Row(a', b', c', d') == l.Row(a, b, c, d) + t
    ensures a' == a && b' == b && c' == c && d' == d + t
  {
    hide Layout.Lin, Layout.Row, Layout.Block;
    RowIs(l, a, b, c, d);
    RowIs(l, a', b', c', d');
    LinBounds(l, b, c, d);
    LinBounds(l, b', c', d');
    LinStep(l, b, c, d, t);
    LinBounds(l, b, c, d + t);
    var r := l.Row(a, b, c, d) + t - l.start;
    DivUnique(r, l.Block(), a, l.Lin(b, c, d + t));
    DivUnique(r, l.Block(), a', l.Lin(b', c', d'));
    LinInjective(l, b, c, d + t, b', c', d');
  }

  lemma LinStep(l: Layout, b: int, c: int, d: int, t: int)
    ensures l.Lin(b, c, d + t) == l.Lin(b, c, d) + t
  {
  }

  lemma RowStep(l: Layout, a: int, b: int, c: int, d: int, t: int)
    ensures l.Row(a, b, c, d + t) == l.Row(a, b, c, d) + t
  {
  }

  /** The patch at (a, b, c, d) that runs along the innermost index and continues block by block. */
  ghost predicate Chunk(l: Layout, g: Patch, a: int, b: int, c: int, d: int) {
    && l.In(a, b, c, d) && g.pixels == 1 && g.base == l.Row(a, b, c, d)
    && (g.cols <= DIM || g.blockStride == l.Block())
    && g.rows > 0 && g.cols > 0 && d + g.rows <= l.n3
    && (a + (g.cols - 1) / DIM < l.n0)
  }

  /** Where such a patch lands: the run d .. d + rows, over as many blocks as it has columns for. */
  predicate ChunkCell(g: Patch, a: int, b: int, c: int, d: int, a': int, b': int, c': int, d': int, C: int) {
    b' == b && c' == c && d <= d' < d + g.rows && a <= a' && 0 <= (a' - a) * DIM + C < g.cols
  }

  lemma ChunkSeparate(l: Layout, g: Patch, a: int, b: int, c: int, d: int)
    requires Chunk(l, g, a, b, c, d)
    ensures Separate(g)
  {
    hide Layout.Lin, Layout.Row, Layout.Block;
    LinBounds(l, b, c, d);
  }

  lemma ShiftedRow(l: Layout, a: int, b: int, c: int, d: int, q: int, t: int)
    ensures l.Row(a + q, b, c, d + t) == l.Row(a, b, c, d) + q * l.Block() + t
  {
    hide Layout.Lin, Layout.Row, Layout.Block;
    RowIs(l, a, b, c, d);
    RowIs(l, a + q, b, c, d + t);
    LinStep(l, b, c, d, t);
    assert (a + q) * l.Block() == a * l.Block() + q * l.Block();
  }

  lemma BlockIndex(q: int, C: int, cols: int)
    requires 0 <= C < DIM
    ensures 0 <= q * DIM + C ==> 0 <= q
    ensures q * DIM + C < cols ==> q <= (cols - 1) / DIM
  {
    MulFar(q, DIM);
    var n := (cols - 1) / DIM;
    MulFar(q - n, DIM);
    assert (q - n) * DIM == q * DIM - n * DIM;
  }

  /** A chunk stays inside its layout. */
  lemma ChunkInBounds(l: Layout, g: Patch, a: int, b: int, c: int, d: int, limit: int)
    requires Chunk(l, g, a, b, c, d) && l.start + l.Rows() <= limit
    ensures InBounds(g, limit)
  {
    hide Layout.Row, Layout.Block, Layout.Rows;
    forall row, col | 0 <= row < g.rows && 0 <= col < g.cols ensures LandRow(g, row, col) < limit {
      var q := col / DIM;
      BlockIndex(q, col % DIM, g.cols);
      if g.cols <= DIM { DivUnique(col, DIM, 0, col); }
      ShiftedRow(l, a, b, c, d, q, row);
      RowBounds(l, a + q, b, c, d + row);
    }
  }

  lemma HitInRegion(l: Layout, g: Patch, a: int, b: int, c: int, d: int, R: int, C: int)
    requires Chunk(l, g, a, b, c, d) && 0 <= C < DIM && Hit(g, R, C)
    ensures l.start <= R < l.start + l.Rows()
  {
    hide Layout.Row, Layout.Block, Layout.Rows;
    var q, t := SrcBlock(g, R), SrcRow(g, R, C);
    BlockIndex(q, C, g.cols);
    ShiftedRow(l, a, b, c, d, q, t);
    assert R == g.base + q * g.blockStride + t;
    RowBounds(l, a + q, b, c, d + t);
  }

  lemma ChunkHitOne(l: Layout, g: Patch, a: int, b: int, c: int, d: int, a': int, b': int, c': int, d': int, C: int)
    requires Chunk(l, g, a, b, c, d) && g.cols <= DIM && l.In(a', b', c', d') && 0 <= C < DIM
    ensures Hit(g, l.Row(a', b', c', d'), C) <==> ChunkCell(g, a, b, c, d, a', b', c', d', C)
    ensures Hit(g, l.Row(a', b', c', d'), C) ==>
              SrcRow(g, l.Row(a', b', c', d'), C) == d' - d && SrcCol(g, l.Row(a', b', c', d'), C) == (a' - a) * DIM + C
  {
    hide Layout.Row, Layout.Block;
    var R := l.Row(a', b', c', d');
    PlainPatch(g, R, C);
    if Hit(g, R, C) {
      RowRun(l, a, b, c, d, R - g.base, a', b', c', d');
      assert a' == a;
    }
    if ChunkCell(g, a, b, c, d, a', b', c', d', C) {
      MulFar(a' - a, DIM);
      RowStep(l, a, b, c, d, d' - d);
    }
  }

  lemma ChunkHitMany(l: Layout, g: Patch, a: int, b: int, c: int, d: int, a': int, b': int, c': int, d': int, C: int)
    requires Chunk(l, g, a, b, c, d) && g.cols > DIM && l.In(a', b', c', d') && 0 <= C < DIM
    ensures Hit(g, l.Row(a', b', c', d'), C) <==> ChunkCell(g, a, b, c, d, a', b', c', d', C)
    ensures Hit(g, l.Row(a', b', c', d'), C) ==>
              SrcRow(g, l.Row(a', b', c', d'), C) == d' - d && SrcCol(g, l.Row(a', b', c', d'), C) == (a' - a) * DIM + C
  {
    hide Layout.Row, Layout.Block, Layout.Lin;
    var R, n := l.Row(a', b', c', d'), l.Block();
    var lin, lin' := l.Lin(b, c, d), l.Lin(b', c', d');
    RowIs(l, a, b, c, d);
    RowIs(l, a', b', c', d');
    LinBounds(l, b, c, d);
    LinBounds(l, b', c', d');
    assert a' * n - a * n == (a' - a) * n;
    if lin <= lin' {
      DivUnique(R - g.base, n, a' - a, lin' - lin);
      BlockIndex(a' - a, C, g.cols);
      if Hit(g, R, C) {
        LinStep(l, b, c, d, lin' - lin);
        LinInjective(l, b, c, d + (lin' - lin), b', c', d');
      }
      if ChunkCell(g, a, b, c, d, a', b', c', d', C) {
        LinStep(l, b, c, d, d' - d);
      }
    } else {
      assert (a' - a - 1) * n == (a' - a) * n - n;
      DivUnique(R - g.base, n, a' - a - 1, lin' - lin + n);
      LinStep(l, b, c, d, d' - d);
    }
  }

  /** A chunk lands exactly on its cells, each of which takes the element the layout says. */
  lemma ChunkHit(l: Layout, g: Patch, a: int, b: int, c: int, d: int, a': int, b': int, c': int, d': int, C: int)
    requires Chunk(l, g, a, b, c, d) && l.In(a', b', c', d') && 0 <= C < DIM
    ensures Hit(g, l.Row(a', b', c', d'), C) <==> ChunkCell(g, a, b, c, d, a', b', c', d', C)
    ensures Hit(g, l.Row(a', b', c', d'), C) ==>
              SrcRow(g, l.Row(a', b', c', d'), C) == d' - d && SrcCol(g, l.Row(a', b', c', d'), C) == (a' - a) * DIM + C
  {
    if g.cols <= DIM {
      ChunkHitOne(l, g, a, b, c, d, a', b', c', d', C);
    } else {
      ChunkHitMany(l, g, a, b, c, d, a', b', c', d', C);
    }
  }
}
