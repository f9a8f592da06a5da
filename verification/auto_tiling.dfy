/** tiled_matmul_auto and tiled_matmul: choosing tiles that fill the memories, checking them, running the product. */
module AutoTiling {
  import opened Params
  import opened State
  import opened Patches
  import opened NormPass
  import opened Norm
  import opened Machine
  import opened LoopWsSpec
  import opened LoopWs
  import opened Tiling
  import opened TiledMatmul
  import opened TiledRun

  function Share(x: nat, n: Pos): (q: nat)
    ensures q * n <= x
  {
    x / n
  }

  /** Side of the largest square of C blocks that fits, and the depth that then fits the scratchpad. */
  function Side(): nat {
    var blocks := Share(ACC_ROWS / 2, DIM);
    SqrtFrom(blocks, blocks)
  }

  function DepthLimit(): nat
    requires Side() > 0
  {
    Share(Share(SPAD_ROWS / 2 / 2, DIM), Side())
  }

  /** The square the search starts from fits both memories. */
  lemma StartFits(i: nat, j: nat, k: nat)
    requires Side() > 0 && i <= Side() && j <= Side() && k <= DepthLimit()
    ensures SpadFits(i, j, k) && AccFits(i, j)
  {
    hide SqrtFrom, Share, SpadFits, AccFits, IsRoot;
    var a, s := Share(ACC_ROWS / 2, DIM), Share(SPAD_ROWS / 2 / 2, DIM);
    SideSquare(Side(), a) by { SqrtIsRoot(a); }
    SquareFits(i, j, k, Side(), DepthLimit(), a, s);
    Rows(i, j, k, a, s);
  }

  lemma SideSquare(side: int, a: int)
    requires IsRoot(a, side)
    ensures side * side <= a
  {
  }

  lemma Rows(i: nat, j: nat, k: nat, a: nat, s: nat)
    requires a * DIM <= ACC_ROWS / 2 && s * DIM <= SPAD_ROWS / 2 / 2
    requires i * j * DIM <= a * DIM && (i * k + k * j) * DIM <= 2 * s * DIM
    ensures SpadFits(i, j, k) && AccFits(i, j)
  {
    assert 2 * s * DIM == 2 * (s * DIM);
  }

  /** The limits are what they are meant to be: the integer root of the C blocks, and the depth of which that many
      fit. */
  lemma LimitsAre(side: Pos, blocks: nat, depth: nat, quarter: nat)
    requires blocks * DIM <= ACC_ROWS / 2 < (blocks + 1) * DIM && IsRoot(blocks, side)
    requires quarter * DIM <= SPAD_ROWS / 2 / 2 < (quarter + 1) * DIM && depth * side <= quarter < (depth + 1) * side
    ensures Side() == side && DepthLimit() == depth
  {
    hide SqrtFrom, IsRoot;
    DivUnique(ACC_ROWS / 2, DIM, blocks, ACC_ROWS / 2 - blocks * DIM) by {
      assert (blocks + 1) * DIM == blocks * DIM + DIM;
    }
    SqrtIsRoot(blocks);
    RootUnique(blocks, side, SqrtFrom(blocks, blocks));
    DivUnique(SPAD_ROWS / 2 / 2, DIM, quarter, SPAD_ROWS / 2 / 2 - quarter * DIM) by {
      assert (quarter + 1) * DIM == quarter * DIM + DIM;
    }
    DivUnique(quarter, side, depth, quarter - depth * side) by {
      assert (depth + 1) * side == depth * side + side;
    }
  }

  lemma SquareFits(i: nat, j: nat, k: nat, side: Pos, depth: nat, a: nat, s: nat)
    requires i <= side && j <= side && k <= depth && side * side <= a && depth * side <= s
    ensures i * j * DIM <= a * DIM && (i * k + k * j) * DIM <= 2 * s * DIM
  {
    ProductLe(i, side, j, side);
    ProductLe(i, side, k, depth);
    ProductLe(k, depth, j, side);
    assert side * depth == depth * side;
    MulLe(i * j, a, DIM);
    MulLe(i * k + k * j, 2 * s, DIM);
  }

  /** A smaller tile fits where a larger one does. */
  lemma FitsLess(i: nat, j: nat, k: nat, i': nat, j': nat, k': nat)
    requires i <= i' && j <= j' && k <= k'
    ensures SpadFits(i', j', k') ==> SpadFits(i, j, k)
    ensures AccFits(i', j') ==> AccFits(i, j)
  {
    ProductLe(i, i', k, k');
    ProductLe(k, k', j, j');
    ProductLe(i, i', j, j');
    MulLe(i * k + k * j, i' * k' + k' * j', DIM);
    MulLe(i * j, i' * j', DIM);
  }

  function Least(x: nat, y: nat): nat { if x < y then x else y }

  datatype Tile = Tile(i: nat, j: nat, k: nat)

  predicate MoreJ(dimJ: nat, t: Tile) {
    SpadFits(t.i, t.j + 1, t.k) && AccFits(t.i, t.j + 1) && (t.j + 1) * DIM <= Blocks(dimJ) * DIM
  }

  predicate MoreI(dimI: nat, t: Tile) {
    SpadFits(t.i + 1, t.j, t.k) && AccFits(t.i + 1, t.j) && (t.i + 1) * DIM <= Blocks(dimI) * DIM
  }

  predicate MoreK(dimK: nat, t: Tile) {
    SpadFits(t.i, t.j, t.k + 1) && (t.k + 1) * DIM <= Blocks(dimK) * DIM
  }

  /** No tiling factor can be raised by one. */
  predicate Maximal(dimI: nat, dimJ: nat, dimK: nat, i: nat, j: nat, k: nat) {
    !MoreJ(dimJ, Tile(i, j, k)) && !MoreI(dimI, Tile(i, j, k)) && !MoreK(dimK, Tile(i, j, k))
  }

  /** One round of the search: first a column of blocks, then a row, then depth. */
  function Round(dimI: nat, dimJ: nat, dimK: nat, t: Tile): Tile {
    var u := if MoreJ(dimJ, t) then t.(j := t.j + 1) else t;
    var v := if MoreI(dimI, u) then u.(i := u.i + 1) else u;
    if MoreK(dimK, v) then v.(k := v.k + 1) else v
  }

  /** Rounds until nothing grows. */
  ghost function Filled(dimI: nat, dimJ: nat, dimK: nat, t: Tile): Tile
    decreases Room(dimI, t.i) + Room(dimJ, t.j) + Room(dimK, t.k)
  {
    var u := Round(dimI, dimJ, dimK, t);
    RoundGrows(dimI, dimJ, dimK, t);
    if u == t then t else Filled(dimI, dimJ, dimK, u)
  }

  lemma RoundGrows(dimI: nat, dimJ: nat, dimK: nat, t: Tile)
    ensures var u := Round(dimI, dimJ, dimK, t);
            && t.i <= u.i && t.j <= u.j && t.k <= u.k
            && (t.i < u.i ==> u.i <= Blocks(dimI)) && (t.j < u.j ==> u.j <= Blocks(dimJ))
            && (t.k < u.k ==> u.k <= Blocks(dimK))
            && (u != t ==> Room(dimI, u.i) + Room(dimJ, u.j) + Room(dimK, u.k)
                           < Room(dimI, t.i) + Room(dimJ, t.j) + Room(dimK, t.k))
  {
    hide SpadFits, AccFits, Blocks;
    var u := if MoreJ(dimJ, t) then t.(j := t.j + 1) else t;
    var v := if MoreI(dimI, u) then u.(i := u.i + 1) else u;
    if MoreJ(dimJ, t) { Grown(t.j, Blocks(dimJ)); }
    if MoreI(dimI, u) { Grown(u.i, Blocks(dimI)); }
    if MoreK(dimK, v) { Grown(v.k, Blocks(dimK)); }
  }

  /** A round keeps whether the tile fits. */
  lemma RoundFits(dimI: nat, dimJ: nat, dimK: nat, t: Tile)
    ensures var u := Round(dimI, dimJ, dimK, t);
            SpadFits(u.i, u.j, u.k) && AccFits(u.i, u.j) <==> SpadFits(t.i, t.j, t.k) && AccFits(t.i, t.j)
  {
    hide SpadFits, AccFits, Blocks;
    var u := if MoreJ(dimJ, t) then t.(j := t.j + 1) else t;
    var v := if MoreI(dimI, u) then u.(i := u.i + 1) else u;
    FitsLess(t.i, t.j, t.k, t.i, t.j + 1, t.k);
    FitsLess(u.i, u.j, u.k, u.i + 1, u.j, u.k);
    FitsLess(v.i, v.j, v.k, v.i, v.j, v.k + 1);
  }

  lemma Settled(dimI: nat, dimJ: nat, dimK: nat, t: Tile)
    requires Round(dimI, dimJ, dimK, t) == t
    ensures Maximal(dimI, dimJ, dimK, t.i, t.j, t.k) && Filled(dimI, dimJ, dimK, t) == t
  {
    hide SpadFits, AccFits, Blocks;
  }

  lemma FilledNext(dimI: nat, dimJ: nat, dimK: nat, t: Tile)
    ensures Filled(dimI, dimJ, dimK, t) == Filled(dimI, dimJ, dimK, Round(dimI, dimJ, dimK, t))
  {
    hide Round;
  }

  /** Where the search starts. */
  function FirstTile(dimI: nat, dimJ: nat, dimK: nat, norms: bool): Tile
    requires Side() > 0
  {
    if norms then Tile(1, Blocks(dimJ), 1)
    else Tile(Least(Blocks(dimI), Side()), Least(Blocks(dimJ), Side()), Least(Blocks(dimK), DepthLimit()))
  }

  /** The tiling factors tiled_matmul_auto arrives at: those its rounds fill up to, within the matrices, maximal, and
      fitting exactly when the ones it starts from do, which without normalisation is always. */
  method ChooseTiles(dimI: nat, dimJ: nat, dimK: nat, norms: bool) returns (i: nat, j: nat, k: nat)
    requires Side() > 0
    ensures Tile(i, j, k) == Filled(dimI, dimJ, dimK, FirstTile(dimI, dimJ, dimK, norms))
    ensures Maximal(dimI, dimJ, dimK, i, j, k)
    ensures !norms ==> SpadFits(i, j, k) && AccFits(i, j)
    ensures norms ==>
              (SpadFits(i, j, k) && AccFits(i, j) <==> SpadFits(1, Blocks(dimJ), 1) && AccFits(1, Blocks(dimJ)))
    ensures dimI > 0 ==> 0 < i <= Blocks(dimI)
    ensures dimJ > 0 ==> 0 < j <= Blocks(dimJ)
    ensures dimK > 0 && (norms || DepthLimit() > 0) ==> 0 < k <= Blocks(dimK)
  {
    hide SpadFits, AccFits, Blocks, Filled, Round, Maximal, Side, DepthLimit;
    NoTiles(dimI, 1); NoTiles(dimJ, 1); NoTiles(dimK, 1);
    if norms {
      i, j, k := 1, Blocks(dimJ), 1;
    } else {
      i, j, k := Least(Blocks(dimI), Side()), Least(Blocks(dimJ), Side()), Least(Blocks(dimK), DepthLimit());
      StartFits(i, j, k);
    }
    ghost var first := Tile(i, j, k);
    var increased := true;
    while increased
      invariant first.i <= i && first.j <= j && first.k <= k
      invariant i <= first.i || i <= Blocks(dimI)
      invariant j <= first.j || j <= Blocks(dimJ)
      invariant k <= first.k || k <= Blocks(dimK)
      invariant SpadFits(i, j, k) && AccFits(i, j) <==> SpadFits(first.i, first.j, first.k) && AccFits(first.i, first.j)
      invariant Filled(dimI, dimJ, dimK, Tile(i, j, k)) == Filled(dimI, dimJ, dimK, first)
      invariant !increased ==> Round(dimI, dimJ, dimK, Tile(i, j, k)) == Tile(i, j, k)
      decreases Room(dimI, i) + Room(dimJ, j) + Room(dimK, k), increased
    {
      ghost var t := Tile(i, j, k);
      RoundGrows(dimI, dimJ, dimK, t);
      RoundFits(dimI, dimJ, dimK, t);
      FilledNext(dimI, dimJ, dimK, t);
      i, j, k, increased := NextRound(dimI, dimJ, dimK, i, j, k);
    }
    Settled(dimI, dimJ, dimK, Tile(i, j, k));
  }

  method NextRound(dimI: nat, dimJ: nat, dimK: nat, i0: nat, j0: nat, k0: nat)
    returns (i: nat, j: nat, k: nat, increased: bool)
    ensures Tile(i, j, k) == Round(dimI, dimJ, dimK, Tile(i0, j0, k0))
    ensures increased <==> Tile(i, j, k) != Tile(i0, j0, k0)
  {
    hide SpadFits, AccFits, Blocks;
    i, j, k, increased := i0, j0, k0, false;
    if SpadFits(i, j + 1, k) && AccFits(i, j + 1) && (j + 1) * DIM <= Blocks(dimJ) * DIM {
      j := j + 1;
      increased := true;
    }
    if SpadFits(i + 1, j, k) && AccFits(i + 1, j) && (i + 1) * DIM <= Blocks(dimI) * DIM {
      i := i + 1;
      increased := true;
    }
    if SpadFits(i, j, k + 1) && (k + 1) * DIM <= Blocks(dimK) * DIM {
      k := k + 1;
      increased := true;
    }
  }

  ghost function Room(n: nat, x: nat): nat { if x < Blocks(n) then Blocks(n) - x else 0 }

  lemma Grown(x: nat, b: nat)
    requires (x + 1) * DIM <= b * DIM
    ensures x + 1 <= b
  {
    Scaled(x + 1, b);
  }

  /** The assertions of tiled_matmul for the weight-stationary dataflow. */
  predicate Checked(job: Job, i: nat, j: nat, k: nat) {
    && 0 < i && 0 < j && 0 < k && i * DIM <= Blocks(job.dimI) * DIM && j * DIM <= Blocks(job.dimJ) * DIM
    && k * DIM <= Blocks(job.dimK) * DIM && SpadFits(i, j, k) && AccFits(i, j)
    && i <= 65535 && j <= 65535 && k <= 65535 && !(job.aT && job.bT)
  }

  /** A product of proper matrices, at most one of them transposed, whose rows are not normalised. */
  predicate Plain(job: Job)
    requires Side() > 0
  {
    && !IsNorm(job.act) && !(job.aT && job.bT) && 0 < job.dimI && 0 < job.dimJ && 0 < job.dimK
    && DepthLimit() > 0
  }

  /** What passes: tiles that are not empty, lie within the matrices, fit both memories and the size registers, for
      matrices not both transposed. */
  lemma PassesChecks(job: Job, i: nat, j: nat, k: nat)
    ensures Checked(job, i, j, k) <==>
            && 0 < i <= Blocks(job.dimI) && 0 < j <= Blocks(job.dimJ) && 0 < k <= Blocks(job.dimK)
            && (i * k + k * j) * DIM <= SPAD_ROWS / 2 && i * j * DIM <= ACC_ROWS / 2
            && i < 0x1_0000 && j < 0x1_0000 && k < 0x1_0000 && !(job.aT && job.bT)
  {
    hide Blocks;
    Scaled(i, Blocks(job.dimI));
    Scaled(j, Blocks(job.dimJ));
    Scaled(k, Blocks(job.dimK));
  }

  lemma Scaled(x: nat, b: nat)
    ensures x * DIM <= b * DIM <==> x <= b
  {
    if x <= b { MulLe(x, b, DIM); } else { MulLe(b + 1, x, DIM); }
    assert (b + 1) * DIM == b * DIM + DIM;
  }

  /** The tiles chosen without normalisation are such. */
  lemma AutoPasses(job: Job, i: nat, j: nat, k: nat)
    requires Side() > 0 && (!IsNorm(job.act) ==> SpadFits(i, j, k) && AccFits(i, j))
    requires (job.dimI > 0 ==> 0 < i <= Blocks(job.dimI)) && (job.dimJ > 0 ==> 0 < j <= Blocks(job.dimJ))
    requires job.dimK > 0 && (IsNorm(job.act) || DepthLimit() > 0) ==> 0 < k <= Blocks(job.dimK)
    ensures Plain(job) ==> (Checked(job, i, j, k) <==> i <= 65535 && j <= 65535 && k <= 65535)
  {
    hide Blocks, Checked, Side, DepthLimit;
    PassesChecks(job, i, j, k);
  }

  function Tiled(job: Job, i: Pos, j: Pos, k: Pos): Job { job.(tileI := i, tileJ := j, tileK := k) }

  /** The whole product does not depend on how it is tiled. */
  lemma SameWhole(job: Job, i: Pos, j: Pos, k: Pos, cfg: Config)
    ensures Tiled(job, i, j, k).Whole() == job.Whole() && Tiled(job, i, j, k).Configured(cfg) == job.Configured(cfg)
    ensures job.Whole().act == job.act
  {
  }

  lemma Unwritten(Z: Start)
    requires Z.p.Padded()
    ensures DramFrame(Z, Z.d)
  {
  }

  /** tiled_matmul_auto: choose tiles, check them, and multiply; a failed check ends the program. Whatever tiles were
      chosen, C is the whole product. */
  method TiledMatmulAuto(g: Gemmini, job: Job) returns (ok: bool, i: nat, j: nat, k: nat)
    requires Side() > 0 && job.A != 0 && job.B != 0 && job.C != 0 && job.Whole().Padded()
    requires CApart(WholeStart(g, job))
    requires forall i: Pos, j: Pos, k: Pos :: BiasSafe(Tiled(job, i, j, k), WholeStart(g, job))
    modifies g`cfg, g`spad, g`pre, g`pe, g`acc, g`dram, g`norm, g`statId
    ensures ok <==> Checked(job, i, j, k)
    ensures !ok ==> unchanged(g)
    ensures Maximal(job.dimI, job.dimJ, job.dimK, i, j, k)
    ensures Plain(job) ==> (ok <==> i <= 65535 && j <= 65535 && k <= 65535)
    ensures var Z := old(WholeStart(g, job));
            && Z.p.Padded() && Depth(Z.p) == job.dimK && DramFrame(Z, g.dram)
            && (ok && (IsNorm(job.act) ==> AllReset(Z.norm)) ==> Stores(Tiled(job, i, j, k), Z, g.dram))
  {
    hide CApart, BiasSafe, SpadFits, AccFits, Blocks, Stores, DramFrame, Depth, Maximal, AllReset, Checked, Side,
         Job.Configured, Job.Whole, DepthLimit, Plain;
    ghost var Z := WholeStart(g, job);
    WholeDepth(job, Z);
    Unwritten(Z);
    i, j, k := ChooseTiles(job.dimI, job.dimJ, job.dimK, IsNorm(job.act));
    AutoPasses(job, i, j, k);
    ok := Checked(job, i, j, k);
    if ok {
      CheckedJob(job, i, j, k);
      SameWhole(job, i, j, k, g.cfg);
      assert BiasSafe(Tiled(job, i, j, k), Z);
      ghost var Z' := TiledMatmulOuter(g, Tiled(job, i, j, k));
    }
  }

  lemma CheckedJob(job: Job, i: nat, j: nat, k: nat)
    requires Checked(job, i, j, k) && job.A != 0 && job.B != 0 && job.C != 0
    ensures 0 < i && 0 < j && 0 < k && Valid(Tiled(job, i, j, k)) && job.dimK > 0
  {
    hide SpadFits, AccFits;
    MulLe(1, k, DIM);
    NoTiles(job.dimK, 1);
  }
}
