/** Sequences of loop_conv_ws calls: a group opens with a bias, closes with an output, and stays in one accumulator
    half. */
module ConvSequence {
  import opened Params
  import opened Wrap
  import opened Sums
  import opened Dram
  import opened Grid
  import opened State
  import opened Patches
  import opened Layouts
  import opened Machine
  import opened Norm
  import opened Scaling
  import opened ConvPool
  import opened ConvSpec
  import opened ConvStore
  import opened ConvMeaning
  import opened LoopConvWs
  import ConvGroups
  import ConvTaps
  import Chunks

  /** Calls of a group address the same output tile. */
  predicate SameTile(p: Call, q: Call) {
    p.batches == q.batches && p.orows == q.orows && p.ocols == q.ocols && p.ochs == q.ochs
  }

  predicate HalfRow(row: nat) { row == 0 || row == ACC_ROWS / 2 }

  /** The call can run from either half under this configuration. */
  ghost predicate Runnable(p: Call, cfg: Config) {
    && p.Fits(0) && p.Fits(ACC_ROWS / 2)
    && (p.inputDilated ==> p.stride == 1)
    && !(p.transWeight1203 && p.transWeight0132)
    && cfg.mode == WS && cfg.aTranspose == p.transInput3120 && cfg.bTranspose == p.transWeight0132
    && (if p.transInput3120 then p.pixels == 1 else cfg.aStride == p.InStep() && cfg.cStride == p.OutStep())
    && (p.pixels > 1 ==> p.Packable())
    && p.CLayout(0).Rows() <= ACC_ROWS / 2
  }

  predicate Placed(p: Call, e: Cell) {
    0 <= e.ob && 0 <= e.b < p.batches && 0 <= e.r < p.orows && 0 <= e.c < p.ocols && 0 <= e.n < DIM
      && e.ob * DIM + e.n < p.ochs
  }

  ghost predicate StoresApart(p: Call) {
    forall e, e' :: Placed(p, e) && Placed(p, e') && e != e' ==>
      p.OutAddr(e.b, e.r, e.c, e.ob * DIM + e.n) != p.OutAddr(e'.b, e'.r, e'.c, e'.ob * DIM + e'.n)
  }

  predicate PlacedPixel(p: Call, q: Pixel) {
    && 0 <= q.ob && 0 <= q.b < p.batches && 0 <= q.pr < p.porows && 0 <= q.pc < p.pocols
    && 0 <= q.n < DIM && q.ob * DIM + q.n < p.ochs
  }

  ghost predicate PooledApart(p: Call) {
    forall q, q' :: PlacedPixel(p, q) && PlacedPixel(p, q') && q != q' ==>
      PooledAddr(p, q.b, q.pr, q.pc, q.ob * DIM + q.n) != PooledAddr(p, q'.b, q'.pr, q'.pc, q'.ob * DIM + q'.n)
  }

  /** A call that stores can store, pooled or not. */
  ghost predicate Storable(p: Call, cfg: Config) {
    p.output != 0 ==>
      if p.noPool then StoresApart(p) && cfg.storeStride == p.OutRowStride() && cfg.pool.stride == 0
      else PooledApart(p) && PoolFields(p) && 0 < p.orows && 0 < p.ocols
  }

  // Configurations. The host may reconfigure before any call; otherwise a call runs under what the call before it left.

  datatype Step = Step(config: Option<Config>, call: Call)

  function Enters(s: Step, cfg: Config): Config { if s.config.Some? then s.config.value else cfg }

  ghost function LeftBy(p: Call, cfg: Config): Config { if Loadable(p) then Leaves(p, cfg) else cfg }

  /** The configuration after the first t steps. */
  ghost function ConfigAt(steps: seq<Step>, t: nat, cfg: Config): Config
    requires t <= |steps|
    decreases t, 0
  {
    if t == 0 then cfg else LeftBy(steps[t - 1].call, InForce(steps, t - 1, cfg))
  }

  /** The configuration call t runs under. */
  ghost function InForce(steps: seq<Step>, t: nat, cfg: Config): Config
    requires t < |steps|
    decreases t, 1
  {
    Enters(steps[t], ConfigAt(steps, t, cfg))
  }

  /** q finds the packed input of p where p left it. */
  predicate SameInput(p: Call, q: Call) {
    p.pixels == q.pixels && p.kchs == q.kchs && p.ALayout() == q.ALayout() && !p.transInput3120 && !q.transInput3120
  }

  predicate InputThere(prev: Option<Call>, p: Call) {
    p.pixels > 1 && p.input == 0 ==> prev.Some? && SameInput(prev.value, p)
  }

  /** p loads nothing over the input rows of q. */
  ghost predicate Spares(p: Call, q: Call) {
    forall R :: Chunks.InRegion(q.ALayout(), R) ==>
      && !(p.input != 0 && Chunks.InRegion(p.ALayout(), R))
      && !(p.weights != 0 && Chunks.InRegion(p.BLayout(), R))
  }

  /** Spad ids keep operands apart: p spares the input of q when whatever it loads goes to the other half of the
      scratchpad. Id 2 is the upper half, any other id the lower one. */
  lemma OtherIdSpares(p: Call, q: Call)
    requires q.ALayout().Rows() <= SPAD_ROWS / 2 && p.ALayout().Rows() <= SPAD_ROWS / 2
    requires 0 <= p.BLayout().Rows() <= SPAD_ROWS / 2
    requires p.input != 0 ==> (p.aId == 2) != (q.aId == 2)
    requires p.weights != 0 ==> (p.bId == 2) != (q.aId == 2)
    ensures Spares(p, q)
  {
    hide Layout.Rows, Call.ALayout, Call.BShape;
    LayoutStarts(p);
    LayoutStarts(q);
  }

  lemma LayoutStarts(p: Call)
    ensures p.ALayout().start == p.AStart() && p.BLayout().start == p.BStart()
    ensures p.BLayout().Rows() == p.BShape(0).Rows()
  {
  }

  /** The call whose packed input is in the scratchpad after p has run, given the one before. */
  ghost function HolderAfter(h: Option<Call>, p: Call): Option<Call> {
    if p.pixels > 1 && !p.transInput3120 then Some(p) else if h.Some? && Spares(p, h.value) then h else None
  }

  ghost function HolderAt(steps: seq<Step>, t: nat, h: Option<Call>): Option<Call>
    requires t <= |steps|
  {
    if t == 0 then h else HolderAfter(HolderAt(steps, t - 1, h), steps[t - 1].call)
  }

  /** Step t of a group: exactly the first call brings a bias and exactly the last one an output. */
  ghost predicate StepOk(steps: seq<Step>, t: nat, cfg: Config, prev: Option<Call>)
    requires t < |steps|
  {
    var p, c := steps[t].call, InForce(steps, t, cfg);
    && SameTile(steps[0].call, p) && Runnable(p, c) && Storable(p, c) && InputThere(HolderAt(steps, t, prev), p)
    && (p.bias != 0 <==> t == 0) && (p.output != 0 <==> t == |steps| - 1)
  }

  ghost predicate Group(steps: seq<Step>, cfg: Config, prev: Option<Call>) {
    |steps| > 0 && forall t :: 0 <= t < |steps| ==> StepOk(steps, t, cfg, prev)
  }

  ghost function GroupSum(zs: seq<Start>, e: Cell): int {
    if zs == [] then 0 else GroupSum(zs[..|zs| - 1], e) + Total(zs[|zs| - 1], e)
  }

  ghost function GroupValue(zs: seq<Start>, e: Cell): Acc
    requires |zs| > 0
  {
    Wrap32(BiasElem(zs[0], e.ob * DIM + e.n) + GroupSum(zs, e))
  }

  function HalfOf(p: Call, row: nat, e: Cell): int { p.CLayout(row).Row(e.ob, e.b, e.r, e.c) }

  /** After some calls of a group, every cell of half `row` holds the bias plus their sums. */
  ghost predicate Summed(p: Call, zs: seq<Start>, row: nat, m: AccMem) {
    |zs| > 0 && forall e :: Placed(p, e) ==> At(m, HalfOf(p, row, e), e.n) == GroupValue(zs, e)
  }

  /** The packed input of an earlier call is still in the scratchpad. */
  ghost predicate Keeps(h: Option<Call>, h': Option<Start>, s: Spad) {
    h.Some? ==>
      && h'.Some? && h'.value.p == h.value && h.value.pixels > 1 && !h.value.transInput3120
      && ConvTaps.AHeld(h'.value, s)
  }

  /** The record of the call that holds, after the calls zs. */
  ghost function HolderRecord(zs: seq<Start>, h': Option<Start>): Option<Start> {
    if zs == [] then h'
    else
      var z := zs[|zs| - 1];
      if z.p.pixels > 1 && !z.p.transInput3120 then Some(z) else HolderRecord(zs[..|zs| - 1], h')
  }

  lemma RunnableIsReady(z: Start, h: Option<Call>, h': Option<Start>)
    requires Runnable(z.p, z.cfg) && HalfRow(z.dRow) && HalfRow(z.cRow) && InputThere(h, z.p) && Keeps(h, h', z.s)
    ensures Ready(z)
  {
    hide Call.Fits, Layout.Rows, ConvTaps.AHeld, Packed;
    if z.p.pixels > 1 && z.p.input == 0 { StillPacked(h'.value, z); }
  }

  /** Whatever runs in between, a packed input that is not loaded over stays. */
  lemma StillHeld(zh: Start, z: Start, s: Spad)
    requires zh.p.pixels > 1 && !zh.p.transInput3120 && ConvTaps.AHeld(zh, z.s)
    requires SpadFrame(z, s) && Spares(z.p, zh.p)
    ensures ConvTaps.AHeld(zh, s)
  {
    hide At, Layout.Row, Layout.Rows, AElem, Call.ALayout, Call.BLayout, Call.IRows, Call.ICols, Flat, Chunks.InRegion;
    var l := zh.p.ALayout();
    forall b, y, x, C | l.In(0, b, y, x) ensures At(s, l.Row(0, b, y, x), C) == At(z.s, l.Row(0, b, y, x), C) {
      InInput(zh.p, b, y, x);
    }
    forall b, y, x, px, c | l.In(0, b, y, x) && 0 <= px < zh.p.pixels && x + px < zh.p.ICols() && 0 <= c < zh.p.kchs
      ensures At(s, l.Row(0, b, y, x), Flat(px, zh.p.kchs, c)) == AElem(zh, 0, b, y, x + px, c)
    {
      assert At(z.s, l.Row(0, b, y, x), Flat(px, zh.p.kchs, c)) == AElem(zh, 0, b, y, x + px, c);
    }
  }

  lemma InInput(p: Call, b: int, y: int, x: int)
    requires p.ALayout().In(0, b, y, x)
    ensures Chunks.InRegion(p.ALayout(), p.ALayout().Row(0, b, y, x))
  {
    RowBounds(p.ALayout(), 0, b, y, x);
  }

  lemma KeepsOn(h: Option<Call>, zs: seq<Start>, h': Option<Start>, z: Start, s: Spad)
    requires Keeps(h, HolderRecord(zs, h'), z.s) && SpadFrame(z, s) && ConvTaps.AHeld(z, s)
    ensures Keeps(HolderAfter(h, z.p), HolderRecord(zs + [z], h'), s)
  {
    hide SpadFrame, ConvTaps.AHeld, Spares;
    assert (zs + [z])[..|zs|] == zs;
    if !(z.p.pixels > 1 && !z.p.transInput3120) && h.Some? && Spares(z.p, h.value) {
      StillHeld(HolderRecord(zs, h').value, z, s);
    }
  }

  /** Rows packed for one call serve the next: each pixel's own columns are where its neighbours look for it. */
  lemma StillPacked(z: Start, z': Start)
    requires SameInput(z.p, z'.p) && z'.p.pixels > 1 && z'.p.input == 0 && ConvTaps.AHeld(z, z'.s)
    ensures Packed(z', z'.s)
  {
    hide At, Layout.Row, AElem, Call.ALayout, Call.IRows, Call.ICols, Flat;
    var l := z'.p.ALayout();
    LayoutShape(z.p);
    LayoutShape(z'.p);
    forall b, y, x, px, c | l.In(0, b, y, x) && 0 <= px < z'.p.pixels && x + px < z'.p.ICols() && 0 <= c < z'.p.kchs
      ensures At(z'.s, l.Row(0, b, y, x), Flat(px, z'.p.kchs, c)) == AElem(z', 0, b, y, x + px, c)
    {
      ResidentElem(z', b, y, x + px, c);
      OwnColumns(z.p.kchs, c);
      assert l.In(0, b, y, x + px);
      assert At(z'.s, l.Row(0, b, y, x), Flat(px, z.p.kchs, c)) == AElem(z, 0, b, y, x + px, c);
      assert At(z'.s, l.Row(0, b, y, x + px), Flat(0, z.p.kchs, c)) == AElem(z, 0, b, y, x + px + 0, c);
    }
  }

  lemma LayoutShape(p: Call)
    ensures p.ALayout().n3 == p.ICols()
  {
    hide Call.ICols, Call.IRows;
  }

  lemma OwnColumns(m: int, c: int)
    ensures Flat(0, m, c) == c
  {
  }

  lemma ResidentElem(z: Start, b: int, y: int, x: int, c: int)
    requires z.p.input == 0 && !z.p.transInput3120
    ensures AElem(z, 0, b, y, x, c) == At(z.s, z.p.ALayout().Row(0, b, y, x), c)
  {
    hide At;
  }

  lemma StoresAreApart(z: Start)
    requires StoresApart(z.p)
    ensures OutApart(z)
  {
    hide Call.OutAddr;
    forall e, e' | InC(z, e) && InC(z, e') && e != e' ensures EAddr(z, e) != EAddr(z, e') {
      assert Placed(z.p, e) && Placed(z.p, e');
    }
  }

  lemma FirstSum(p: Call, z: Start, m: AccMem)
    requires SameTile(p, z.p) && z.p.bias != 0 && z.dRow == z.cRow && Finished(z, m)
    ensures Summed(p, [z], z.cRow, m)
  {
    hide At, Layout.Row, Total, BiasElem, Wrap32;
    forall e | Placed(p, e) ensures At(m, HalfOf(p, z.cRow, e), e.n) == GroupValue([z], e) {
      assert InC(z, e);
      assert [z][..0] == [];
      assert GroupSum([z], e) == Total(z, e);
    }
  }

  lemma NextSum(p: Call, zs: seq<Start>, z: Start, m: AccMem)
    requires SameTile(p, z.p) && z.p.bias == 0 && Finished(z, m) && Summed(p, zs, z.cRow, z.m)
    ensures Summed(p, zs + [z], z.cRow, m)
  {
    hide At, Layout.Row, Total, BiasElem, Wrap32;
    forall e | Placed(p, e) ensures At(m, HalfOf(p, z.cRow, e), e.n) == GroupValue(zs + [z], e) {
      assert InC(z, e);
      assert (zs + [z])[..|zs|] == zs;
      WrapAdd(BiasElem(zs[0], e.ob * DIM + e.n) + GroupSum(zs, e), Total(z, e));
    }
  }

  lemma ToggleHalf(row: nat)
    requires HalfRow(row) && 2 * (ACC_ROWS / 2) == ACC_ROWS && ACC_ROWS >= 2
    ensures HalfRow(Toggle(row)) && Toggle(row) != row && Toggle(Toggle(row)) == row
  {
    var half := ACC_ROWS / 2;
    DivUnique(0 + half, ACC_ROWS, 0, half);
    DivUnique(half + half, ACC_ROWS, 1, 0);
    assert Toggle(0) == half && Toggle(half) == 0;
  }

  lemma PooledAreApart(z: Start)
    requires PooledApart(z.p)
    ensures PApart(z)
  {
    hide PooledAddr;
    forall q, q' | InP(z, q) && InP(z, q') && q != q' ensures QAddr(z, q) != QAddr(z, q') {
      assert PlacedPixel(z.p, q) && PlacedPixel(z.p, q');
    }
  }

  lemma StorableCan(z: Start)
    requires Storable(z.p, z.cfg)
    ensures CanStore(z)
  {
    hide StoresApart, OutApart, PooledApart, PApart, Call.OutRowStride;
    if z.p.output != 0 {
      if z.p.noPool { StoresAreApart(z); } else { PooledAreApart(z); }
    }
  }

  lemma CallReady(steps: seq<Step>, t: nat, cfg: Config, prev: Option<Call>, z: Start, h': Option<Start>)
    requires t < |steps| && Group(steps, cfg, prev) && z.p == steps[t].call && z.cfg == InForce(steps, t, cfg)
    requires HalfRow(z.dRow) && HalfRow(z.cRow) && Keeps(HolderAt(steps, t, prev), h', z.s)
    ensures Ready(z) && CanStore(z)
  {
    hide Runnable, Storable, Ready, CanStore, InForce, SameTile, InputThere, Keeps, HolderAt;
    assert StepOk(steps, t, cfg, prev);
    RunnableIsReady(z, HolderAt(steps, t, prev), h');
    StorableCan(z);
  }

  /** Every call of the group ran in half `h`, under the configuration in force, on the memory the group started
      with. */
  ghost predicate Recorded(steps: seq<Step>, zs: seq<Start>, h: nat, d: Memory, cfg: Config) {
    |zs| <= |steps| && forall t :: 0 <= t < |zs| ==> RecordOf(steps, t, zs[t], h, d, cfg)
  }

  ghost predicate RecordOf(steps: seq<Step>, t: nat, z: Start, h: nat, d: Memory, cfg: Config)
    requires t < |steps|
  {
    && z.p == steps[t].call && z.cRow == h && z.d == d && (t == 0 ==> z.dRow == h)
    && Loadable(z.p) && z.cfg == ComputeConfig(z.p, LoadsAfter(z.p, InForce(steps, t, cfg)))
  }

  lemma RecordMore(steps: seq<Step>, zs: seq<Start>, z: Start, h: nat, d: Memory, cfg: Config)
    requires Recorded(steps, zs, h, d, cfg) && |zs| < |steps| && RecordOf(steps, |zs|, z, h, d, cfg)
    ensures Recorded(steps, zs + [z], h, d, cfg)
  {
    hide RecordOf;
  }

  // What the closing call stores.

  /** Output (r, c) of a pooled group as it enters the maximum. */
  ghost function GroupElem(zs: seq<Start>, ob: int, b: int, n: int, r: int, c: int): int
    requires |zs| > 0
  {
    var z := zs[|zs| - 1];
    var cfg := PoolConfig(z.p, z.cfg);
    if r < 0 || c < 0 || r >= z.p.orows || c >= z.p.ocols then 0
    else Activate(Scale(GroupValue(zs, Cell(ob, b, r, c, n)), cfg.accScale), cfg.accAct)
  }

  ghost function GroupWindowRow(zs: seq<Start>, q: Pixel, wr: int): int -> int
    requires |zs| > 0
  {
    var p := zs[|zs| - 1].p;
    wc => GroupElem(zs, q.ob, q.b, q.n, q.pr * p.poolStride + wr - p.pupad, q.pc * p.poolStride + wc - p.plpad)
  }

  /** The max-pool of the group's sums over the first k rows of the window of q. */
  ghost function GroupMax(zs: seq<Start>, q: Pixel, k: nat): int
    requires |zs| > 0
  {
    if k == 0 then -128 else MaxFrom(GroupMax(zs, q, k - 1), zs[|zs| - 1].p.poolSize, GroupWindowRow(zs, q, k - 1))
  }

  /** Stored outputs of the group: the activated, scaled group sums, or their max-pool. */
  ghost predicate GroupStored(zs: seq<Start>, d: Memory) {
    |zs| > 0 && if zs[|zs| - 1].p.noPool then PlainStored(zs, d) else PoolStored(zs, d)
  }

  ghost predicate PlainStored(zs: seq<Start>, d: Memory)
    requires |zs| > 0
  {
    var z := zs[|zs| - 1];
    && DramFrame(z, d)
    && forall e :: InC(z, e) ==> LoadOut(d, false, EAddr(z, e)) == OutValue(z.cfg, z.stat, false, GroupValue(zs, e))
  }

  ghost predicate PoolStored(zs: seq<Start>, d: Memory)
    requires |zs| > 0
  {
    var z := zs[|zs| - 1];
    && PFrame(z, d)
    && forall q :: InP(z, q) ==> LoadOut(d, false, QAddr(z, q)) == GroupMax(zs, q, z.p.poolSize)
  }

  /** The closing call finishes with the sums of the whole group. */
  lemma ValueIsGroup(p: Call, zs: seq<Start>, z: Start, m: AccMem, e: Cell)
    requires |zs| > 0 && SameTile(p, z.p) && Summed(p, zs, z.cRow, m) && Finished(z, m) && InC(z, e)
    ensures Value(z, e) == GroupValue(zs, e)
  {
    hide At, Layout.Row, Value, GroupValue;
    assert Placed(p, e);
    assert CRow(z, e) == HalfOf(p, z.cRow, e);
  }

  lemma PlainIsStored(p: Call, zs: seq<Start>, m: AccMem, d: Memory)
    requires |zs| > 0
    requires var z := zs[|zs| - 1]; SameTile(p, z.p) && Summed(p, zs, z.cRow, m) && Finished(z, m)
    requires var z := zs[|zs| - 1]; OutHeld(z, d, z.p.batches, 0, 0, 0, 0) && DramFrame(z, d)
    ensures PlainStored(zs, d)
  {
    hide At, Layout.Row, LoadOut, OutValue, Value, GroupValue, EAddr, DramFrame, Finished, Summed, SameTile;
    var z := zs[|zs| - 1];
    forall e | InC(z, e)
      ensures LoadOut(d, false, EAddr(z, e)) == OutValue(z.cfg, z.stat, false, GroupValue(zs, e))
    {
      ValueIsGroup(p, zs, z, m, e);
      assert OutDone(e, z.p.batches, 0, 0, 0, 0);
    }
  }

  lemma {:induction false} GroupMaxIsConvMax(p: Call, zs: seq<Start>, m: AccMem, q: Pixel, k: nat)
    requires |zs| > 0
    requires var z := zs[|zs| - 1]; SameTile(p, z.p) && Summed(p, zs, z.cRow, m) && Finished(z, m) && InP(z, q)
    ensures ConvMax(zs[|zs| - 1], q.ob, q.b, q.n, q.pr, q.pc, k) == GroupMax(zs, q, k)
  {
    hide ConvElem, GroupElem, Finished, Summed, SameTile;
    if k > 0 {
      var z := zs[|zs| - 1];
      GroupMaxIsConvMax(p, zs, m, q, k - 1);
      var f, g := ConvWindowRow(z, q.ob, q.b, q.n, q.pr, q.pc, k - 1), GroupWindowRow(zs, q, k - 1);
      forall wc | 0 <= wc < z.p.poolSize ensures f(wc) == g(wc) {
        var r, c := q.pr * z.p.poolStride + (k - 1) - z.p.pupad, q.pc * z.p.poolStride + wc - z.p.plpad;
        ElemIsGroup(p, zs, m, q, r, c);
      }
      MaxFromSame(ConvMax(z, q.ob, q.b, q.n, q.pr, q.pc, k - 1), z.p.poolSize, f, g);
    }
  }

  lemma ElemIsGroup(p: Call, zs: seq<Start>, m: AccMem, q: Pixel, r: int, c: int)
    requires |zs| > 0
    requires var z := zs[|zs| - 1]; SameTile(p, z.p) && Summed(p, zs, z.cRow, m) && Finished(z, m) && InP(z, q)
    ensures ConvElem(zs[|zs| - 1], q.ob, q.b, q.n, r, c) == GroupElem(zs, q.ob, q.b, q.n, r, c)
  {
    hide Value, GroupValue, Scale, Activate, PoolConfig, Finished, Summed, SameTile;
    var z := zs[|zs| - 1];
    if 0 <= r < z.p.orows && 0 <= c < z.p.ocols { ValueIsGroup(p, zs, z, m, Cell(q.ob, q.b, r, c, q.n)); }
  }

  lemma PoolIsStored(p: Call, zs: seq<Start>, m: AccMem, d: Memory)
    requires |zs| > 0
    requires var z := zs[|zs| - 1]; SameTile(p, z.p) && Summed(p, zs, z.cRow, m) && Finished(z, m)
    requires var z := zs[|zs| - 1]; PHeld(z, d, z.p.batches, 0) && PFrame(z, d)
    ensures PoolStored(zs, d)
  {
    hide LoadOut, QAddr, ConvMax, GroupMax, PFrame, Finished, Summed, SameTile;
    var z := zs[|zs| - 1];
    forall q | InP(z, q) ensures LoadOut(d, false, QAddr(z, q)) == GroupMax(zs, q, z.p.poolSize) {
      GroupMaxIsConvMax(p, zs, m, q, z.p.poolSize);
      assert PDone(q, z.p.batches, 0);
    }
  }

  lemma StoredIsGroup(p: Call, zs: seq<Start>, s: Spad, m: AccMem, d: Memory)
    requires |zs| > 0
    requires var z := zs[|zs| - 1];
             SameTile(p, z.p) && Summed(p, zs, z.cRow, m) && Completed(z, s, m, d) && z.p.output != 0
    ensures GroupStored(zs, d)
  {
    hide SameTile, Summed, Finished, OutHeld, DramFrame, PHeld, PFrame, PlainStored, PoolStored, At, Chunks.InRegion;
    hide ConvTaps.AHeld, ConvTaps.BHeld, SpadFrame;
    if zs[|zs| - 1].p.noPool { PlainIsStored(p, zs, m, d); } else { PoolIsStored(p, zs, m, d); }
  }

  /** The group stands before call t. */
  ghost predicate Midway(g: Gemmini, steps: seq<Step>, t: nat, zs: seq<Start>, h: nat, d: Memory, m0: AccMem,
                         cfg: Config, prev: Option<Call>, prev': Option<Start>)
    reads g
  {
    && t <= |steps| && t == |zs| && Recorded(steps, zs, h, d, cfg) && g.cfg == ConfigAt(steps, t, cfg)
    && Keeps(HolderAt(steps, t, prev), HolderRecord(zs, prev'), g.spad)
    && (t < |steps| ==> g.cRow == h && g.dRow == (if t == 0 then h else Toggle(h)) && g.dram == d)
    && (t > 0 ==> Summed(steps[0].call, zs, h, g.acc))
    && (t > 0 && t == |steps| ==> g.dRow == g.cRow == Toggle(h) && GroupStored(zs, g.dram))
    && OtherHalf(m0, g.acc, h)
  }

  ghost predicate OtherHalf(m0: AccMem, m: AccMem, h: nat) {
    forall R, C :: !(h <= R < h + ACC_ROWS / 2) ==> At(m, R, C) == At(m0, R, C)
  }

  lemma OtherHalfAgain(m0: AccMem, m: AccMem, m': AccMem, h: nat)
    requires OtherHalf(m0, m, h) && OtherHalf(m, m', h)
    ensures OtherHalf(m0, m', h)
  {
    hide At;
  }

  /** One call of a group, after whatever reconfiguration comes before it. */
  method RunCall(g: Gemmini, steps: seq<Step>, t: nat, ghost zs: seq<Start>, ghost h: nat, ghost d: Memory,
                 ghost m0: AccMem, ghost cfg: Config, ghost prev: Option<Call>, ghost prev': Option<Start>)
    returns (ghost zs': seq<Start>)
    requires t < |steps| && Group(steps, cfg, prev) && Midway(g, steps, t, zs, h, d, m0, cfg, prev, prev')
    requires HalfRow(h) && HalfRow(Toggle(h))
    modifies g`spad, g`acc, g`pe, g`pre, g`dram, g`norm, g`cfg, g`dRow, g`cRow
    ensures Midway(g, steps, t + 1, zs', h, d, m0, cfg, prev, prev')
  {
    hide Group, Summed, Completed, At, GroupStored, Ready, CanStore, Finished, SameTile, Toggle, OtherHalf, Loadable,
         Recorded;
    hide LoadsAfter, ComputeConfig, Leaves, ConvTaps.AHeld, Keeps, HolderAfter, HolderRecord, SpadFrame;
    var p := steps[t].call;
    g.cfg := Enters(steps[t], g.cfg);
    ghost var m := g.acc;
    CallReady(steps, t, cfg, prev, StartOf(g, p), HolderRecord(zs, prev'));
    StepShape(steps, cfg, prev, t);
    ghost var z := LoopConvWs.LoopConvWs(g, p);
    CompletedSums(z, g.spad, g.acc, g.dram);
    zs' := zs + [z];
    RecordMore(steps, zs, z, h, d, cfg);
    KeepsOn(HolderAt(steps, t, prev), zs, prev', z, g.spad);
    if t == 0 {
      assert zs' == [z];
      FirstSum(p, z, g.acc);
    } else {
      NextSum(steps[0].call, zs, z, g.acc);
    }
    OtherHalfKept(z, g.spad, g.acc, g.dram);
    OtherHalfAgain(m0, m, g.acc, h);
    if t == |steps| - 1 { StoredIsGroup(steps[0].call, zs', g.spad, g.acc, g.dram); }
  }

  /** Run one group: bias, accumulate and store all happen in the half the group started in. */
  method RunGroup(g: Gemmini, steps: seq<Step>, ghost prev: Option<Call>, ghost prev': Option<Start>)
    returns (ghost zs: seq<Start>)
    requires Group(steps, g.cfg, prev) && Keeps(prev, prev', g.spad)
    requires HalfRow(g.cRow) && g.dRow == g.cRow && 2 * (ACC_ROWS / 2) == ACC_ROWS && ACC_ROWS >= 2
    modifies g`spad, g`acc, g`pe, g`pre, g`dram, g`norm, g`cfg, g`dRow, g`cRow
    ensures |zs| == |steps| > 0 && Recorded(steps, zs, old(g.cRow), old(g.dram), old(g.cfg))
    ensures Summed(steps[0].call, zs, old(g.cRow), g.acc) && GroupStored(zs, g.dram)
    ensures g.dRow == g.cRow == Toggle(old(g.cRow)) && g.cfg == ConfigAt(steps, |steps|, old(g.cfg))
    ensures OtherHalf(old(g.acc), g.acc, old(g.cRow))
    ensures Keeps(HolderAt(steps, |steps|, prev), HolderRecord(zs, prev'), g.spad)
  {
    assert |steps| > 0;
    ghost var h, cfg, d, m0 := g.cRow, g.cfg, g.dram, g.acc;
    assert OtherHalf(m0, m0, h);
    hide Group, Summed, GroupStored, OtherHalf, Toggle, RecordOf, LeftBy, Keeps, HolderAfter, InForce;
    ToggleHalf(h);
    zs := [];
    for t := 0 to |steps|
      invariant Midway(g, steps, t, zs, h, d, m0, cfg, prev, prev')
    {
      zs := RunCall(g, steps, t, zs, h, d, m0, cfg, prev, prev');
    }
  }

  lemma StepShape(steps: seq<Step>, cfg: Config, prev: Option<Call>, t: nat)
    requires Group(steps, cfg, prev) && t < |steps|
    ensures var p := steps[t].call;
            && (p.bias != 0 <==> t == 0) && (p.output != 0 <==> t == |steps| - 1) && SameTile(steps[0].call, p)
            && p.CLayout(0).Rows() <= ACC_ROWS / 2 && Loadable(p)
  {
    hide Storable, Call.Fits, Layout.Rows, Loadable, SameTile, InForce;
    assert StepOk(steps, t, cfg, prev);
    FitsLoadable(steps[t].call, 0);
  }

  lemma CompletedSums(z: Start, s: Spad, m: AccMem, d: Memory)
    requires Completed(z, s, m, d)
    ensures Finished(z, m) && (z.p.output == 0 ==> d == z.d) && ConvTaps.AHeld(z, s) && SpadFrame(z, s)
  {
    hide Finished, OutHeld, DramFrame, ConvTaps.AHeld, ConvTaps.BHeld, PHeld, PFrame, At, Chunks.InRegion, SpadFrame;
  }

  lemma OtherHalfKept(z: Start, s: Spad, m: AccMem, d: Memory)
    requires Completed(z, s, m, d) && z.p.CLayout(0).Rows() <= ACC_ROWS / 2 && (z.p.bias != 0 ==> z.dRow == z.cRow)
    ensures OtherHalf(z.m, m, z.cRow)
  {
    hide Finished, OutHeld, DramFrame, At, ConvTaps.AHeld, ConvTaps.BHeld, SpadFrame, Call.Fits, Layout.Rows, PHeld,
         PFrame;
    ConvGroups.SameRows(z.p, z.cRow);
    forall R, C | !(z.cRow <= R < z.cRow + ACC_ROWS / 2) ensures At(m, R, C) == At(z.m, R, C) {
      assert !Chunks.InRegion(z.p.CLayout(z.cRow), R);
    }
  }

  /** What group k leaves when it ends. */
  datatype After = After(zs: seq<Start>, m: AccMem, d: Memory)

  /** One group ran in half `h` from main memory d: its sums are there, and its last call stored them. */
  ghost predicate GroupRan(steps: seq<Step>, a: After, h: nat, d: Memory, cfg: Config) {
    && |steps| > 0 && |a.zs| == |steps| && Recorded(steps, a.zs, h, d, cfg)
    && Summed(steps[0].call, a.zs, h, a.m) && GroupStored(a.zs, a.d)
  }

  /** The configuration group k starts under. */
  ghost function GroupConfig(groups: seq<seq<Step>>, k: nat, cfg: Config): Config
    requires k <= |groups|
  {
    if k == 0 then cfg else ConfigAt(groups[k - 1], |groups[k - 1]|, GroupConfig(groups, k - 1, cfg))
  }

  /** The call whose packed input is in the scratchpad before group k. */
  ghost function Holder(groups: seq<seq<Step>>, k: nat): Option<Call>
    requires k <= |groups|
  {
    if k == 0 then None else HolderAt(groups[k - 1], |groups[k - 1]|, Holder(groups, k - 1))
  }

  function HalfAt(h: nat, k: nat): nat { if k % 2 == 0 then h else Toggle(h) }

  function MemoryAt(runs: seq<After>, d: Memory, k: nat): Memory
    requires k <= |runs|
  {
    if k == 0 then d else runs[k - 1].d
  }

  /** Group k ran in half k mod 2, under the configuration and from the main memory the groups before it left. */
  ghost predicate AllRan(groups: seq<seq<Step>>, runs: seq<After>, h: nat, d: Memory, cfg: Config) {
    |runs| <= |groups| && forall k :: 0 <= k < |runs| ==>
      GroupRan(groups[k], runs[k], HalfAt(h, k), MemoryAt(runs, d, k), GroupConfig(groups, k, cfg))
  }

  lemma RanMore(groups: seq<seq<Step>>, runs: seq<After>, a: After, h: nat, d: Memory, cfg: Config)
    requires AllRan(groups, runs, h, d, cfg) && |runs| < |groups|
    requires GroupRan(groups[|runs|], a, HalfAt(h, |runs|), MemoryAt(runs, d, |runs|), GroupConfig(groups, |runs|, cfg))
    ensures AllRan(groups, runs + [a], h, d, cfg)
  {
    hide GroupRan, Toggle, HalfAt, MemoryAt, GroupConfig;
    var more := runs + [a];
    forall k | 0 <= k < |more|
      ensures GroupRan(groups[k], more[k], HalfAt(h, k), MemoryAt(more, d, k), GroupConfig(groups, k, cfg))
    {
      MemoryOfFront(runs, a, d, k);
      if k < |runs| { assert more[k] == runs[k]; }
    }
  }

  lemma MemoryOfFront(runs: seq<After>, a: After, d: Memory, k: nat)
    requires k <= |runs|
    ensures MemoryAt(runs + [a], d, k) == MemoryAt(runs, d, k)
  {
  }

  /** Over any number of groups, group k biases, accumulates and stores in half k mod 2. */
  method RunGroups(g: Gemmini, groups: seq<seq<Step>>) returns (ghost runs: seq<After>)
    requires forall k :: 0 <= k < |groups| ==> Group(groups[k], GroupConfig(groups, k, g.cfg), Holder(groups, k))
    requires HalfRow(g.cRow) && g.dRow == g.cRow && 2 * (ACC_ROWS / 2) == ACC_ROWS && ACC_ROWS >= 2
    modifies g`spad, g`acc, g`pe, g`pre, g`dram, g`norm, g`cfg, g`dRow, g`cRow
    ensures |runs| == |groups| && AllRan(groups, runs, old(g.cRow), old(g.dram), old(g.cfg))
    ensures g.dRow == g.cRow == HalfAt(old(g.cRow), |groups|) && g.dram == MemoryAt(runs, old(g.dram), |runs|)
    ensures g.cfg == GroupConfig(groups, |groups|, old(g.cfg)) && (|runs| > 0 ==> g.acc == runs[|runs| - 1].m)
  {
    hide Group, GroupRan, AllRan, Toggle, OtherHalf, LeftBy, Recorded, Keeps, HolderAt, HolderRecord, Holder;
    ghost var last: Option<Start> := None;
    ghost var h, d, cfg := g.cRow, g.dram, g.cfg;
    runs := [];
    ToggleHalf(h);
    NoneRan(groups, h, d, cfg);
    NoneHeld(groups, g.spad);
    for k := 0 to |groups|
      invariant |runs| == k && AllRan(groups, runs, h, d, cfg) && g.dRow == g.cRow == HalfAt(h, k)
      invariant g.dram == MemoryAt(runs, d, k) && g.cfg == GroupConfig(groups, k, cfg)
      invariant k > 0 ==> g.acc == runs[k - 1].m
      invariant Keeps(Holder(groups, k), last, g.spad)
    {
      NextHolder(groups, k);
      ghost var zs := RunGroup(g, groups[k], Holder(groups, k), last);
      ghost var a := After(zs, g.acc, g.dram);
      Ran(groups[k], a, HalfAt(h, k), MemoryAt(runs, d, k), GroupConfig(groups, k, cfg));
      RanMore(groups, runs, a, h, d, cfg);
      runs := runs + [a];
      last := HolderRecord(zs, last);
    }
  }

  lemma NoneHeld(groups: seq<seq<Step>>, s: Spad)
    ensures Keeps(Holder(groups, 0), None, s)
  {
  }

  lemma NextHolder(groups: seq<seq<Step>>, k: nat)
    requires k < |groups|
    ensures Holder(groups, k + 1) == HolderAt(groups[k], |groups[k]|, Holder(groups, k))
  {
  }

  lemma Ran(steps: seq<Step>, a: After, h: nat, d: Memory, cfg: Config)
    requires |steps| > 0 && |a.zs| == |steps| && Recorded(steps, a.zs, h, d, cfg)
    requires Summed(steps[0].call, a.zs, h, a.m) && GroupStored(a.zs, a.d)
    ensures GroupRan(steps, a, h, d, cfg)
  {
  }

  lemma NoneRan(groups: seq<seq<Step>>, h: nat, d: Memory, cfg: Config)
    ensures AllRan(groups, [], h, d, cfg)
  {
  }

  // Splitting the input channels over the calls of a group.

  ghost function Channels(zs: seq<Start>): nat {
    if zs == [] then 0 else Channels(zs[..|zs| - 1]) + zs[|zs| - 1].p.kchs
  }

  /** Call t convolves the channels that follow those of the calls before it. */
  ghost predicate Slices(z: Start, zs: seq<Start>) {
    forall t :: 0 <= t < |zs| ==>
        Slice(z, zs[t], Channels(zs[..t])) && zs[t].p.input != 0 && zs[t].p.weights != 0 && zs[t].p.Fits(zs[t].cRow)
  }

  function Front(z: Start, n: nat): Start { z.(p := z.p.(kchs := n)) }

  /** The calls of a group together convolve all the channels. */
  lemma {:induction false} GroupIsWhole(z: Start, zs: seq<Start>, e: Cell)
    requires Slices(z, zs) && InC(z, e)
    ensures GroupSum(zs, e) == Direct(Front(z, Channels(zs)), e.b, e.r, e.c, e.ob * DIM + e.n)
  {
    hide Slice, Direct, Total, InC, Call.Fits;
    var och := e.ob * DIM + e.n;
    if zs == [] {
      NoChannels(Front(z, 0), e.b, e.r, e.c, och);
    } else {
      var n := |zs| - 1;
      var last, k := zs[n], Channels(zs[..n]);
      forall t | 0 <= t < n ensures zs[..n][..t] == zs[..t] && zs[..n][t] == zs[t] { }
      GroupIsWhole(z, zs[..n], e);
      SliceCell(z, last, k, e);
      TotalIsDirect(last, last.cRow, e);
      FrontSlices(z, last, k);
      SlicesAddUp(Front(z, k + last.p.kchs), Front(z, k), last, e.b, e.r, e.c, och);
    }
  }

  /** Calls that split the channels of z leave the bias plus the convolution over all of them. */
  lemma ValueIsWhole(z: Start, zs: seq<Start>, e: Cell)
    requires |zs| > 0 && Slices(z, zs) && Channels(zs) == z.p.kchs && InC(z, e)
    ensures var och := e.ob * DIM + e.n;
            GroupValue(zs, e) == Wrap32(BiasElem(zs[0], och) + Direct(z, e.b, e.r, e.c, och)) && InC(zs[|zs| - 1], e)
  {
    hide Slices, Slice, Direct, Wrap32, BiasElem, GroupSum, InC, Channels;
    LastSlice(z, zs);
    SliceCell(z, zs[|zs| - 1], Channels(zs[..|zs| - 1]), e);
    GroupIsWhole(z, zs, e);
    WholeFront(z);
  }

  lemma LastSlice(z: Start, zs: seq<Start>)
    requires |zs| > 0 && Slices(z, zs)
    ensures Slice(z, zs[|zs| - 1], Channels(zs[..|zs| - 1]))
  {
    hide Slice, Channels, Call.Fits;
  }

  lemma WholeFront(z: Start)
    ensures Front(z, z.p.kchs) == z
  {
  }

  /** Such a group stores the activated bias plus that convolution. */
  lemma StoredIsWhole(z: Start, zs: seq<Start>, d: Memory, e: Cell)
    requires |zs| > 0 && GroupStored(zs, d) && zs[|zs| - 1].p.noPool
    requires Slices(z, zs) && Channels(zs) == z.p.kchs && InC(z, e)
    ensures var last, och := zs[|zs| - 1], e.ob * DIM + e.n;
            LoadOut(d, false, EAddr(last, e)) ==
            OutValue(last.cfg, last.stat, false, Wrap32(BiasElem(zs[0], och) + Direct(z, e.b, e.r, e.c, och)))
  {
    hide Slices, Direct, LoadOut, OutValue, EAddr, Wrap32, BiasElem, GroupValue, DramFrame, InC, PoolStored;
    ValueIsWhole(z, zs, e);
  }

  /** And what enters the maximum of a pooled group is that value, scaled and activated. */
  lemma PooledIsWhole(z: Start, zs: seq<Start>, e: Cell)
    requires |zs| > 0 && Slices(z, zs) && Channels(zs) == z.p.kchs && InC(z, e)
    ensures var last, och := zs[|zs| - 1], e.ob * DIM + e.n;
            var cfg := PoolConfig(last.p, last.cfg);
            GroupElem(zs, e.ob, e.b, e.n, e.r, e.c) ==
            Activate(Scale(Wrap32(BiasElem(zs[0], och) + Direct(z, e.b, e.r, e.c, och)), cfg.accScale), cfg.accAct)
  {
    hide Slices, Direct, Wrap32, BiasElem, GroupValue, Scale, Activate, PoolConfig;
    ValueIsWhole(z, zs, e);
    assert e == Cell(e.ob, e.b, e.r, e.c, e.n);
  }

  lemma SliceCell(z: Start, z1: Start, off: int, e: Cell)
    requires Slice(z, z1, off) && InC(z, e)
    ensures InC(z1, e)
  {
  }

  lemma FrontSlices(z: Start, z1: Start, k: nat)
    requires Slice(z, z1, k)
    ensures Slice(Front(z, k + z1.p.kchs), Front(z, k), 0) && Slice(Front(z, k + z1.p.kchs), z1, k)
  {
    hide Call.InAddr, Call.WAddr;
    var w, v := Front(z, k + z1.p.kchs), Front(z, k);
    forall a, b, c, d
      ensures w.p.InAddr(a, b, c, d) == v.p.InAddr(a, b, c, d) == z.p.InAddr(a, b, c, d)
      ensures w.p.WAddr(a, b, c, d) == v.p.WAddr(a, b, c, d) == z.p.WAddr(a, b, c, d)
    {
      FrontAddr(z, k, a, b, c, d);
      FrontAddr(z, k + z1.p.kchs, a, b, c, d);
    }
  }

  lemma FrontAddr(z: Start, n: nat, a: int, b: int, c: int, d: int)
    ensures Front(z, n).p.InAddr(a, b, c, d) == z.p.InAddr(a, b, c, d)
    ensures Front(z, n).p.WAddr(a, b, c, d) == z.p.WAddr(a, b, c, d)
  {
  }

  lemma NoChannels(z: Start, b: int, r: int, c: int, och: int)
    requires z.p.kchs == 0
    ensures Direct(z, b, r, c, och) == 0
  {
    hide DirectTerms;
    forall kr ensures DirectRows(z, b, r, c, och)(kr) == 0 { SumZero(z.p.kcols, DirectTaps(z, b, r, c, och, kr)); }
    SumZero(z.p.krows, DirectRows(z, b, r, c, och));
  }
}
