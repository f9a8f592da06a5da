/** Blocks of DIM rows laid out row-major in a local memory. */
module Tiles {
  import opened Params
  import opened Patches

  /** Row r of block (x, y) in a grid that is n blocks wide. */
  function TileRow(start: int, x: int, n: int, y: int, r: int): int {
    start + (x * n + y) * DIM + r
  }

  /** The rows of block (x, y) belong to no other block. */
  lemma TileRowsApart(start: int, n: int, x: int, y: int)
    requires 0 <= y < n
    ensures forall x', y', r :: 0 <= y' < n && 0 <= r < DIM ==>
              (TileRow(start, x, n, y, 0) <= TileRow(start, x', n, y', r) < TileRow(start, x, n, y, 0) + DIM
               <==> x' == x && y' == y)
    ensures forall x', y', r :: TileRow(start, x', n, y', r) == TileRow(start, x', n, y', 0) + r
  {
    forall x', y', r | 0 <= y' < n && 0 <= r < DIM
      ensures TileRow(start, x, n, y, 0) <= TileRow(start, x', n, y', r) < TileRow(start, x, n, y, 0) + DIM
              <==> x' == x && y' == y
    {
      TileOrder(start, n, x, y, x', y', r);
    }
  }

  lemma TileOrder(start: int, n: int, x: int, y: int, x': int, y': int, r: int)
    requires 0 <= y < n && 0 <= y' < n && 0 <= r < DIM
    ensures TileRow(start, x, n, y, 0) <= TileRow(start, x', n, y', r) < TileRow(start, x, n, y, 0) + DIM
            <==> x' == x && y' == y
  {
    var d := (x' - x) * n + (y' - y);
    assert (x' - x) * n == x' * n - x * n;
    MulFar(x' - x, n);
    MulFar(d, DIM);
    assert d * DIM == (x' * n + y') * DIM - (x * n + y) * DIM;
  }

  /** An X by n grid of blocks occupies X * n * DIM rows. */
  lemma TileRowBounds(start: int, X: int, n: int, x: int, y: int, r: int)
    requires 0 <= x < X && 0 <= y < n && 0 <= r < DIM
    ensures start <= TileRow(start, x, n, y, r) < start + X * n * DIM
    ensures start <= TileRow(start, x, n, y, 0) <= start + X * n * DIM - DIM
  {
    MulLe(x + 1, X, n);
    MulLe(0, x, n);
    assert (x + 1) * n == x * n + n;
    MulLe(x * n + y + 1, X * n, DIM);
    MulLe(0, x * n + y, DIM);
    assert (x * n + y + 1) * DIM == (x * n + y) * DIM + DIM;
  }
}
