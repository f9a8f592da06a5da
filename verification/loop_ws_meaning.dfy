/** What a completed loop_ws call stores, in plain arithmetic on its product. */
module LoopWsMeaning {
  import opened Params
  import opened Wrap
  import opened Dram
  import opened Grid
  import opened Scaling
  import opened State
  import opened Patches
  import opened Norm
  import opened NormPass
  import opened Outputs
  import opened LoopWsSpec
  import opened LoopWs
  import opened LoopWsMatrix
  import LoopWsReuse
  import LoopWsNorm

  /** A completed call that stores C, seen at element (m, n) of block (i, j). */
  ghost predicate StoredAt(z: Start, s: Spad, a: AccMem, d: Memory, i: int, j: int, m: int, n: int) {
    && z.p.Padded() && z.p.K > 0 && Depth(z.p) >= 0 && z.p.C != 0 && Matched(z) && z.p.InC(i, j, m, n)
    && Completed(z, s, a, d)
  }

  /** Where element (row, col) of C is in main memory. */
  function CElement(p: Call, row: int, col: int): int { p.C + (row * p.strideC + col) * Size(p.fullC) }

  lemma StoredCell(z: Start, s: Spad, a: AccMem, d: Memory, i: int, j: int, m: int, n: int)
    requires StoredAt(z, s, a, d, i, j, m, n)
    ensures LoadOut(d, z.p.fullC, CElement(z.p, i * DIM + m, j * DIM + n))
            == OutValue(z.cfg, StatOf(z, i, m), z.p.fullC, Wrap32(Product(z, i, j, m, n)))
  {
    hide Completed, Product, Wrap32, OutValue, StatOf, LoadOut, CByteAddr, Depth, Matched, Call.InC;
    LoopWsReuse.CompletedCell(z, s, a, d, i, j, m, n);
    CAddrIs(z, i, j, m, n);
  }

  /** No activation, or ReLU: the product itself at full width, otherwise scaled, rounded to nearest and saturated. */
  lemma StoresPlain(z: Start, s: Spad, a: AccMem, d: Memory, i: int, j: int, m: int, n: int, v: int, r: int)
    requires StoredAt(z, s, a, d, i, j, m, n) && v == Wrap32(Product(z, i, j, m, n))
    requires (z.cfg.accAct == NONE || z.cfg.accAct == RELU) && (z.p.fullC || NearestProduct(v, z.cfg.accScale, r))
    ensures var out := LoadOut(d, z.p.fullC, CElement(z.p, i * DIM + m, j * DIM + n));
            if z.p.fullC then out == v else Limits(r, z.cfg.accAct == RELU, out)
  {
    hide StoredAt, Product, Wrap32, OutValue, StatOf, LoadOut, NearestProduct, Limits, CElement;
    StoredPadded(z, s, a, d, i, j, m, n);
    StoredCell(z, s, a, d, i, j, m, n);
    PlainOut(z.cfg, StatOf(z, i, m), z.p.fullC, v, r);
  }

  /** GELU of the product, with c its magnitude limited to -qb. */
  lemma StoresGelu(z: Start, s: Spad, a: AccMem, d: Memory, i: int, j: int, m: int, n: int, v: int, b: int, c: int,
                   p: int, r: int)
    requires StoredAt(z, s, a, d, i, j, m, n) && v == Wrap32(Product(z, i, j, m, n)) && z.cfg.accAct == IGELU
    requires 0 <= b && (b == v || b == 0 - v) && c <= b && c <= 0 - z.cfg.consts.qb
    requires c == b || c == 0 - z.cfg.consts.qb
    requires p == GeluValue(v, c, z.cfg.consts) && (z.p.fullC || NearestProduct(p, z.cfg.accScale, r))
    ensures var out := LoadOut(d, z.p.fullC, CElement(z.p, i * DIM + m, j * DIM + n));
            if z.p.fullC then out == p else Limits(r, false, out)
  {
    hide StoredAt, Product, Wrap32, OutValue, StatOf, LoadOut, NearestProduct, Limits, CElement, GeluValue;
    StoredPadded(z, s, a, d, i, j, m, n);
    StoredCell(z, s, a, d, i, j, m, n);
    GeluOut(z.cfg, StatOf(z, i, m), z.p.fullC, v, b, c, p, r);
  }

  // Normalised rows.

  /** A normalising call in order: reset slots, a column in the last block, the activation it was configured with. */
  ghost predicate Normalises(z: Start) {
    z.p.Norms() && z.cfg.accAct == z.p.act && z.p.padJ < DIM && z.p.J > 0 && AllReset(z.norm)
  }

  /** x are the elements of row m of block row i of the product, w of them. */
  ghost predicate ProductRow(z: Start, i: int, m: int, w: nat, x: int -> int)
    requires z.p.Padded() && Depth(z.p) >= 0
  {
    w == z.p.J * DIM - z.p.padJ && forall t :: 0 <= t < w ==> x(t) == Wrap32(Product(z, i, t / DIM, m, t % DIM))
  }

  lemma RowHolds(z: Start, i: int, m: int, w: nat, x: int -> int)
    requires z.p.Padded() && z.p.K > 0 && Depth(z.p) >= 0 && z.p.padJ < DIM && z.p.J > 0
    requires ProductRow(z, i, m, w, x)
    ensures Holds(FinalRow(z, i, m), w, x)
  {
    hide Product, Final, Wrap32, Depth;
    assert z.p.J * DIM == (z.p.J - 1) * DIM + DIM;
    forall t | 0 <= t < w ensures x(t) == Final(z, i, t / DIM, m, t % DIM) {
      FinalIsProduct(z, i, t / DIM, m, t % DIM);
    }
  }

  lemma ColumnIndex(z: Start, i: int, j: int, m: int, n: int)
    requires z.p.Padded() && z.p.InC(i, j, m, n)
    ensures 0 <= j * DIM + n < z.p.J * DIM - z.p.padJ && (j * DIM + n) / DIM == j && (j * DIM + n) % DIM == n
  {
    BlockIndex(j, z.p.J, z.p.padJ, n, z.p.ColsOf(j));
    DivUnique(j * DIM + n, DIM, j, n);
  }

  /** The stored value is that of the row's own statistics. */
  lemma NormalisedCell(z: Start, s: Spad, a: AccMem, d: Memory, i: int, j: int, m: int, n: int, w: nat, x: int -> int)
    requires StoredAt(z, s, a, d, i, j, m, n) && Normalises(z) && ProductRow(z, i, m, w, x)
    ensures 0 <= j * DIM + n < w && Holds(FinalRow(z, i, m), w, x)
    ensures -0x8000_0000 <= x(j * DIM + n) <= 0x7fff_ffff
    ensures LoadOut(d, z.p.fullC, CElement(z.p, i * DIM + m, j * DIM + n))
            == OutValue(z.cfg, Ideal(FinalRow(z, i, m), z.p.act, z.cfg.consts), z.p.fullC, x(j * DIM + n))
  {
    hide Completed, Product, Wrap32, OutValue, StatOf, LoadOut, Depth, Matched, CElement, FinalRow, Ideal, Holds,
         AllReset;
    RowHolds(z, i, m, w, x);
    ColumnIndex(z, i, j, m, n);
    StoredCell(z, s, a, d, i, j, m, n);
    LoopWsNorm.OwnStatistics(z, i, m, Wrap32(Product(z, i, j, m, n)));
  }

  /** Layernorm: with the mean of the row rounded toward zero and the integer deviation around it, the difference to
      the mean is divided by the deviation toward zero, then scaled. */
  lemma StoresLayernorm(z: Start, s: Spad, a: AccMem, d: Memory, i: int, j: int, m: int, n: int, w: nat, x: int -> int,
                        dev: int -> int, mean: int, variance: int, sd: int, p: int, r: int)
    requires StoredAt(z, s, a, d, i, j, m, n) && Normalises(z) && z.p.act == LAYERNORM && ProductRow(z, i, m, w, x)
    requires Moments(w, x, dev, mean, variance, sd) && TowardZero(x(j * DIM + n) - mean, sd, p)
    requires z.p.fullC || NearestProduct(p, z.cfg.accScale, r)
    ensures var out := LoadOut(d, z.p.fullC, CElement(z.p, i * DIM + m, j * DIM + n));
            if z.p.fullC then out == p else Limits(r, false, out)
  {
    hide StoredAt, ProductRow, OutValue, LoadOut, CElement, Holds, Moments, TowardZero, NearestProduct, Limits, Ideal,
         FinalRow, AllReset;
    StoredPadded(z, s, a, d, i, j, m, n);
    NormalisedCell(z, s, a, d, i, j, m, n, w, x);
    LayernormOut(z.cfg, FinalRow(z, i, m), w, x, dev, mean, variance, sd, z.p.fullC, j * DIM + n, p, r);
  }

  lemma StoredPadded(z: Start, s: Spad, a: AccMem, d: Memory, i: int, j: int, m: int, n: int)
    requires StoredAt(z, s, a, d, i, j, m, n)
    ensures z.p.Padded() && Depth(z.p) >= 0
  {
  }

  /** Softmax: with e the exponentials of the row relative to its maximum, the element's share of 127, rounded and
      saturated, then scaled. */
  lemma StoresSoftmax(z: Start, s: Spad, a: AccMem, d: Memory, i: int, j: int, m: int, n: int, w: nat, x: int -> int,
                      e: int -> int, halvings: int -> int, max: int, share: real, u: int, p: int, r: int)
    requires StoredAt(z, s, a, d, i, j, m, n) && Normalises(z) && z.p.act == SOFTMAX && ProductRow(z, i, m, w, x)
    requires Exponentials(w, x, e, halvings, max, z.cfg.consts) && share * Sums.Sum(w, e) as real == 127.0
    requires NearestProduct(e(j * DIM + n), share, u) && Limits(u, false, p)
    requires z.p.fullC || NearestProduct(p, z.cfg.accScale, r)
    ensures var out := LoadOut(d, z.p.fullC, CElement(z.p, i * DIM + m, j * DIM + n));
            if z.p.fullC then out == p else Limits(r, false, out)
  {
    hide StoredAt, ProductRow, OutValue, LoadOut, CElement, Holds, Exponentials, NearestProduct, Limits, Ideal,
         FinalRow, AllReset, Sums.Sum;
    StoredPadded(z, s, a, d, i, j, m, n);
    NormalisedCell(z, s, a, d, i, j, m, n, w, x);
    SoftmaxOut(z.cfg, FinalRow(z, i, m), w, x, e, halvings, max, share, z.p.fullC, j * DIM + n, u, p, r);
  }
}
