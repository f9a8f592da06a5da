/** How tiled_matmul cuts a matrix product into loop_ws calls. */
module Tiling {
  import opened Params
  import opened Dram
  import opened Scaling
  import opened State
  import opened Patches
  import opened LoopWsSpec

  // One dimension of n elements, in tiles of `tile` blocks.

  function Blocks(n: nat): nat { n / DIM + (if n % DIM != 0 then 1 else 0) }

  function Padding(n: nat): (pad: nat)
    ensures pad == Blocks(n) * DIM - n && pad < DIM
  {
    Covers(n);
    Blocks(n) * DIM - n
  }

  lemma Covers(n: nat)
    ensures n <= Blocks(n) * DIM < n + DIM
  {
    var q := n / DIM;
    assert (q + 1) * DIM == q * DIM + DIM;
  }

  function Rows(tile: Pos): Pos {
    MulLe(1, tile, DIM);
    tile * DIM
  }

  function TilesOf(n: nat, tile: Pos): nat {
    var padded := Blocks(n) * DIM;
    padded / Rows(tile) + (if padded % Rows(tile) != 0 then 1 else 0)
  }

  function LastTile(n: nat, tile: Pos): nat {
    if Blocks(n) * DIM % Rows(tile) == 0 then tile else Blocks(n) % tile
  }

  /** Blocks in tile t, and padding inside its last block. */
  function SizeAt(n: nat, tile: Pos, t: int): nat { if t < TilesOf(n, tile) - 1 then tile else LastTile(n, tile) }
  function PadAt(n: nat, tile: Pos, t: int): nat { if t == TilesOf(n, tile) - 1 then Padding(n) else 0 }

  lemma TileCount(n: nat, tile: Pos)
    ensures TilesOf(n, tile) == Blocks(n) / tile + (if Blocks(n) % tile != 0 then 1 else 0)
    ensures LastTile(n, tile) == if Blocks(n) % tile == 0 then tile else Blocks(n) % tile
  {
    var b := Blocks(n);
    var q, r := b / tile, b % tile;
    assert b * DIM == q * Rows(tile) + r * DIM by {
      assert b == q * tile + r;
      assert (q * tile + r) * DIM == q * tile * DIM + r * DIM && q * tile * DIM == q * (tile * DIM);
    }
    MulLe(r + 1, tile, DIM);
    MulLe(0, r, DIM);
    assert (r + 1) * DIM == r * DIM + DIM;
    DivUnique(b * DIM, Rows(tile), q, r * DIM);
    if r > 0 { MulLe(1, r, DIM); }
  }

  /** The tiles cover the blocks: all but the last are full, and the last one is not empty. */
  lemma TilesCover(n: nat, tile: Pos)
    requires 0 < Blocks(n)
    ensures 0 < TilesOf(n, tile) && 1 <= LastTile(n, tile) <= tile
    ensures (TilesOf(n, tile) - 1) * tile + LastTile(n, tile) == Blocks(n)
  {
    TileCount(n, tile);
    var b := Blocks(n);
    var q := b / tile;
    assert b == q * tile + b % tile;
    assert (q - 1) * tile == q * tile - tile;
    if b % tile == 0 && q < 1 { MulLe(q, 0, tile); }
  }

  lemma NoTiles(n: nat, tile: Pos)
    ensures TilesOf(n, tile) == 0 <==> n == 0
    ensures Blocks(n) == 0 <==> n == 0
  {
    TileCount(n, tile);
    Covers(n);
    if Blocks(n) > 0 { TilesCover(n, tile); }
  }

  /** Block x of tile t is block t * tile + x of the whole, and ends the whole exactly when it ends the last tile. */
  lemma TileSpan(n: nat, tile: Pos, t: int, x: int)
    requires 0 <= t < TilesOf(n, tile) && 0 <= x < SizeAt(n, tile, t)
    ensures 0 <= t * tile + x < Blocks(n) && SizeAt(n, tile, t) <= tile
    ensures (t * tile + x) / tile == t && (t * tile + x) % tile == x
    ensures (if x == SizeAt(n, tile, t) - 1 then DIM - PadAt(n, tile, t) else DIM)
            == (if t * tile + x == Blocks(n) - 1 then DIM - Padding(n) else DIM)
  {
    hide TilesOf, LastTile, Blocks, Padding;
    NoTiles(n, tile);
    TilesCover(n, tile);
    var last := TilesOf(n, tile) - 1;
    MulLe(0, t, tile);
    DivUnique(t * tile + x, tile, t, x);
    if t < last {
      MulLe(t + 1, last, tile);
      assert (t + 1) * tile == t * tile + tile;
    }
  }

  lemma TileOf(n: nat, tile: Pos, b: int)
    requires 0 <= b < Blocks(n)
    ensures 0 <= b / tile < TilesOf(n, tile) && 0 <= b % tile < SizeAt(n, tile, b / tile)
    ensures b == b / tile * tile + b % tile
  {
    hide TilesOf, LastTile, Blocks;
    TilesCover(n, tile);
    var t, last := b / tile, TilesOf(n, tile) - 1;
    assert b == t * tile + b % tile;
    assert (last + 1) * tile == last * tile + tile;
    if t > last { MulLe(last + 1, t, tile); }
  }

  /** Elements before tile t, and up to its end. */
  lemma TileElements(n: nat, tile: Pos, t: int)
    requires 0 <= t < TilesOf(n, tile)
    ensures var size := SizeAt(n, tile, t) * DIM - PadAt(n, tile, t);
            && 0 <= t * tile * DIM && 0 < size
            && t * tile * DIM + size == if t == TilesOf(n, tile) - 1 then n else (t + 1) * tile * DIM
  {
    hide TilesOf, LastTile, Blocks;
    NoTiles(n, tile);
    TilesCover(n, tile);
    MulLe(0, t, tile);
    MulLe(0, t * tile, DIM);
    MulLe(1, SizeAt(n, tile, t), DIM);
    if t == TilesOf(n, tile) - 1 {
      assert Blocks(n) * DIM == (t * tile + LastTile(n, tile)) * DIM;
      assert (t * tile + LastTile(n, tile)) * DIM == t * tile * DIM + LastTile(n, tile) * DIM;
    } else {
      assert (t + 1) * tile == t * tile + tile;
      assert (t * tile + tile) * DIM == t * tile * DIM + tile * DIM;
    }
  }

  predicate SpadFits(i: nat, j: nat, k: nat) { (i * k + k * j) * DIM <= SPAD_ROWS / 2 }
  predicate AccFits(i: nat, j: nat) { i * j * DIM <= ACC_ROWS / 2 }

  /** Bytes from the start of a matrix to its element (row, col). */
  function ByteOffset(row: nat, stride: nat, col: nat, size: nat): nat {
    MulLe(0, row, stride);
    MulLe(0, row * stride + col, size);
    (row * stride + col) * size
  }

  /** The arguments of tiled_matmul_outer; the constants of GELU and softmax are computed from bert_scale. */
  datatype Job = Job(
    dimI: nat, dimJ: nat, dimK: nat, A: nat, B: nat, D: nat, C: nat,
    strideA: nat, strideB: nat, strideD: nat, strideC: nat, scaleA: real, scaleB: real, scaleD: real,
    tileI: Pos, tileJ: Pos, tileK: Pos, act: Activation, scale: real, consts: NormConsts,
    repeating: bool, aT: bool, bT: bool, fullC: bool, lowD: bool)
  {
    function I0(): nat { TilesOf(dimI, tileI) }
    function J0(): nat { TilesOf(dimJ, tileJ) }
    function K0(): nat { TilesOf(dimK, tileK) }

    /** A tile fits the halves loop_ws works in. */
    predicate Fits() { SpadFits(tileI, tileJ, tileK) && AccFits(tileI, tileJ) }

    predicate NoBias() { D == 0 }

    predicate ReusesA() { I0() * K0() <= 2 }
    predicate ReusesB() { J0() * K0() <= 2 }

    /** The whole product as if it were one loop_ws call. */
    function Whole(): Call {
      Call(Blocks(dimI), Blocks(dimJ), Blocks(dimK), Padding(dimI), Padding(dimJ), Padding(dimK), A, B, D, C,
           strideA, strideB, if repeating then 0 else strideD, strideC, !NoBias(), fullC, lowD, aT, bT, 0, 0, act)
    }

    function ATile(i0: nat, k0: nat): (a: nat)
      ensures A <= a
    {
      A + if aT then ByteOffset(k0 * tileK * DIM, strideA, i0 * tileI * DIM, 1)
          else ByteOffset(i0 * tileI * DIM, strideA, k0 * tileK * DIM, 1)
    }

    function BTile(k0: nat, j0: nat): (a: nat)
      ensures B <= a
    {
      B + if bT then ByteOffset(j0 * tileJ * DIM, strideB, k0 * tileK * DIM, 1)
          else ByteOffset(k0 * tileK * DIM, strideB, j0 * tileJ * DIM, 1)
    }

    function DTile(i0: nat, j0: nat): (a: nat)
      ensures D <= a
    {
      D + ByteOffset(if repeating then 0 else i0 * tileI * DIM, strideD, j0 * tileJ * DIM, Size(!lowD))
    }

    function CTile(i0: nat, j0: nat): (a: nat)
      ensures C <= a
    {
      C + ByteOffset(i0 * tileI * DIM, strideC, j0 * tileJ * DIM, Size(fullC))
    }

    /** The loop_ws call of iteration (i0, j0, k0). Operands that are still resident are not named, the bias is brought
        along by the first call of a tile, and only the last one stores. */
    function CallAt(i0: nat, j0: nat, k0: nat): Call {
      Call(SizeAt(dimI, tileI, i0), SizeAt(dimJ, tileJ, j0), SizeAt(dimK, tileK, k0),
           PadAt(dimI, tileI, i0), PadAt(dimJ, tileJ, j0), PadAt(dimK, tileK, k0),
           if ReusesA() && j0 >= 1 then 0 else ATile(i0, k0), if ReusesB() && i0 >= 1 then 0 else BTile(k0, j0),
           if NoBias() || k0 != 0 then 0 else DTile(i0, j0), if k0 == K0() - 1 then CTile(i0, j0) else 0,
           strideA, strideB, if repeating then 0 else strideD, strideC, !NoBias() || k0 != 0, fullC, lowD, aT, bT,
           if ReusesA() then (if i0 + k0 == 0 then 1 else 2) else 0,
           if ReusesB() then (if j0 + k0 == 0 then 1 else 2) else 0, act)
    }

    /** The low two bits of the activation, as config_ex and config_st take them. */
    function Code(): int {
      match act
      case NONE => 0
      case RELU => 1
      case LAYERNORM => 2
      case IGELU => 3
      case SOFTMAX => 0
    }

    function DLoad(): LoadState {
      LoadState(if repeating then 0 else strideD * Size(!lowD), DIM, lowD, scaleD, 1)
    }

    /** What the configuration commands at the head leave. */
    function Configured(cfg: Config): Config {
      var c := cfg.WithExecute(WS, Code(), 0, 1, 1, aT, bT)
                  .WithStore(strideC * Size(fullC), Code(), scale, NO_POOL)
                  .WithLoad(0, LoadState(strideA, DIM, false, scaleA, 1))
                  .WithLoad(1, LoadState(strideB, DIM, false, scaleB, 1)).WithLoad(2, DLoad());
      if act == IGELU then c.WithNorm(0, false, false, consts.qb, consts.qc)
      else if act == SOFTMAX then c.WithNorm(consts.qln2, false, true, consts.qb, consts.qc)
                                   .WithNorm(consts.qln2Inv, true, true, consts.qb, consts.qc)
      else c
    }
  }

  /** The activation in force is the one asked for, except that "none" does not end an earlier softmax. */
  lemma ActivationInForce(job: Job, cfg: Config)
    ensures job.Configured(cfg).accAct == job.act <==> !(job.act == NONE && cfg.accAct == SOFTMAX)
    ensures job.act == NONE && cfg.accAct == SOFTMAX ==> job.Configured(cfg).accAct == SOFTMAX
  {
  }

  // A tile's blocks are blocks of the whole.

  function BI(job: Job, i0: int, i: int): int { i0 * job.tileI + i }
  function BJ(job: Job, j0: int, j: int): int { j0 * job.tileJ + j }
  function BK(job: Job, k0: int, k: int): int { k0 * job.tileK + k }

  predicate InTiles(job: Job, i0: nat, j0: nat, k0: nat) { i0 < job.I0() && j0 < job.J0() && k0 < job.K0() }

  lemma WholeShape(job: Job)
    ensures var w := job.Whole();
            && w.Padded() && w.padI < DIM && w.padJ < DIM && w.padK < DIM && w.K * DIM - w.padK == job.dimK
            && w.I == Blocks(job.dimI) && w.J == Blocks(job.dimJ) && w.K == Blocks(job.dimK)
  {
  }

  lemma CallShape(job: Job, i0: nat, j0: nat, k0: nat)
    requires InTiles(job, i0, j0, k0)
    ensures var p := job.CallAt(i0, j0, k0);
            && p.Padded() && 0 < p.I <= job.tileI && 0 < p.J <= job.tileJ && 0 < p.K <= job.tileK
            && p.padI < DIM && p.padJ < DIM && p.padK < DIM
  {
    hide TilesOf, LastTile, Blocks;
    NoTiles(job.dimI, job.tileI); TilesCover(job.dimI, job.tileI);
    NoTiles(job.dimJ, job.tileJ); TilesCover(job.dimJ, job.tileJ);
    NoTiles(job.dimK, job.tileK); TilesCover(job.dimK, job.tileK);
  }

  lemma CallAccepted(job: Job, i0: nat, j0: nat, k0: nat)
    requires InTiles(job, i0, j0, k0) && job.Fits()
    ensures job.CallAt(i0, j0, k0).Accepted()
  {
    hide Job.CallAt;
    CallShape(job, i0, j0, k0);
    var p := job.CallAt(i0, j0, k0);
    ProductLe(p.I, job.tileI, p.K, job.tileK);
    ProductLe(p.K, job.tileK, p.J, job.tileJ);
    ProductLe(p.I, job.tileI, p.J, job.tileJ);
    MulLe(p.I * p.K + p.K * p.J, job.tileI * job.tileK + job.tileK * job.tileJ, DIM);
    MulLe(p.I * p.J, job.tileI * job.tileJ, DIM);
  }

  lemma ProductLe(a: nat, b: nat, c: nat, d: nat)
    requires a <= b && c <= d
    ensures a * c <= b * d
  {
    MulLe(a, b, c);
    assert b * c == c * b && b * d == d * b;
    MulLe(c, d, b);
  }

  /** The elements of a block are as many in the tile as in the whole. */
  lemma SameExtents(job: Job, i0: nat, j0: nat, k0: nat, i: int, j: int, k: int)
    requires InTiles(job, i0, j0, k0)
    ensures var p, w := job.CallAt(i0, j0, k0), job.Whole();
            && p.Padded() && w.Padded()
            && (0 <= i < p.I ==> 0 <= BI(job, i0, i) < w.I && p.RowsOf(i) == w.RowsOf(BI(job, i0, i)))
            && (0 <= j < p.J ==> 0 <= BJ(job, j0, j) < w.J && p.ColsOf(j) == w.ColsOf(BJ(job, j0, j)))
            && (0 <= k < p.K ==> 0 <= BK(job, k0, k) < w.K && p.DepthOf(k) == w.DepthOf(BK(job, k0, k)))
  {
    hide TilesOf, LastTile, Blocks;
    CallShape(job, i0, j0, k0);
    WholeShape(job);
    if 0 <= i < SizeAt(job.dimI, job.tileI, i0) { TileSpan(job.dimI, job.tileI, i0, i); }
    if 0 <= j < SizeAt(job.dimJ, job.tileJ, j0) { TileSpan(job.dimJ, job.tileJ, j0, j); }
    if 0 <= k < SizeAt(job.dimK, job.tileK, k0) { TileSpan(job.dimK, job.tileK, k0, k); }
  }

  lemma Shifted(x0: int, tx: int, x: int, y0: int, ty: int, y: int, stride: int, size: int)
    ensures (x0 * tx * DIM * stride + y0 * ty * DIM) * size + (x * stride + y) * DIM * size
            == ((x0 * tx + x) * stride + (y0 * ty + y)) * DIM * size
  {
    var X, Y := x0 * tx, y0 * ty;
    assert X * DIM * stride == X * stride * DIM;
    assert ((X + x) * stride + (Y + y)) * DIM == (X * stride + Y) * DIM + (x * stride + y) * DIM by {
      assert (X + x) * stride == X * stride + x * stride;
      assert (X * stride + x * stride + (Y + y)) * DIM == (X * stride + Y + (x * stride + y)) * DIM;
    }
    assert (X * stride + Y) * DIM == X * DIM * stride + Y * DIM;
  }

  // Tile origin plus block offset is the address of the block in the whole.

  lemma SameA(job: Job, i0: nat, k0: nat, i: int, k: int)
    ensures job.ATile(i0, k0) + ((if job.aT then k else i) * job.strideA + (if job.aT then i else k)) * DIM
            == job.Whole().AAddr(BI(job, i0, i), BK(job, k0, k))
  {
    hide Blocks, Padding;
    if job.aT {
      Shifted(k0, job.tileK, k, i0, job.tileI, i, job.strideA, 1);
    } else {
      Shifted(i0, job.tileI, i, k0, job.tileK, k, job.strideA, 1);
    }
  }

  lemma SameB(job: Job, k0: nat, j0: nat, k: int, j: int)
    ensures job.BTile(k0, j0) + ((if job.bT then j else k) * job.strideB + (if job.bT then k else j)) * DIM
            == job.Whole().BAddr(BK(job, k0, k), BJ(job, j0, j))
  {
    hide Blocks, Padding;
    if job.bT {
      Shifted(j0, job.tileJ, j, k0, job.tileK, k, job.strideB, 1);
    } else {
      Shifted(k0, job.tileK, k, j0, job.tileJ, j, job.strideB, 1);
    }
  }

  lemma SameD(job: Job, i0: nat, j0: nat, i: int, j: int)
    ensures var stride := if job.repeating then 0 else job.strideD;
            job.DTile(i0, j0) + (i * stride + j) * DIM * Size(!job.lowD)
              == job.Whole().DAddr(BI(job, i0, i), BJ(job, j0, j))
  {
    hide Blocks, Padding;
    var stride := if job.repeating then 0 else job.strideD;
    assert i0 * job.tileI * DIM * 0 == 0;
    Shifted(i0, job.tileI, i, j0, job.tileJ, j, stride, Size(!job.lowD));
  }

  lemma SameC(job: Job, i0: nat, j0: nat, i: int, j: int)
    ensures job.CTile(i0, j0) + (i * job.strideC + j) * DIM * Size(job.fullC)
            == job.Whole().CAddr(BI(job, i0, i), BJ(job, j0, j))
  {
    hide Blocks, Padding;
    Shifted(i0, job.tileI, i, j0, job.tileJ, j, job.strideC, Size(job.fullC));
  }

  lemma SameAddresses(job: Job, i0: nat, j0: nat, k0: nat, i: int, j: int, k: int)
    ensures var p, w := job.CallAt(i0, j0, k0), job.Whole();
            && (p.A != 0 ==> p.AAddr(i, k) == w.AAddr(BI(job, i0, i), BK(job, k0, k)))
            && (p.B != 0 ==> p.BAddr(k, j) == w.BAddr(BK(job, k0, k), BJ(job, j0, j)))
            && (p.D != 0 ==> p.DAddr(i, j) == w.DAddr(BI(job, i0, i), BJ(job, j0, j)))
            && (p.C != 0 ==> p.CAddr(i, j) == w.CAddr(BI(job, i0, i), BJ(job, j0, j)))
  {
    hide Blocks, TilesOf, LastTile, Padding, BI, BJ, BK, Job.Whole, Job.ATile, Job.BTile, Job.CTile, Job.DTile;
    SameA(job, i0, k0, i, k);
    SameB(job, k0, j0, k, j);
    SameD(job, i0, j0, i, j);
    SameC(job, i0, j0, i, j);
  }
}
