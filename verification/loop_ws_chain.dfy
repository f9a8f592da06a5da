/** Chains of accumulating loop_ws calls: a product whose inner dimension is split over several calls. */
module LoopWsChain {
  import opened Params
  import opened Wrap
  import opened Sums
  import opened Dram
  import opened Grid
  import opened State
  import opened Machine
  import opened LoopWsSpec
  import opened LoopWs
  import opened LoopWsMatrix

  /** Calls on the same C tile. */
  predicate SameTile(p: Call, q: Call) {
    p.I == q.I && p.J == q.J && p.padI == q.padI && p.padJ == q.padJ
  }

  /** The first call starts the sums, the others accumulate on them, the last one stores. */
  predicate Chain(calls: seq<Call>) {
    && |calls| > 0
    && forall t :: 0 <= t < |calls| ==> ChainCall(calls, t)
  }

  predicate ChainCall(calls: seq<Call>, t: nat)
    requires t < |calls|
  {
    var p := calls[t];
    && SameTile(calls[0], p) && p.Padded() && p.Accepted() && p.K > 0
    && (t > 0 ==> p.accumulate && p.D == 0) && (p.C != 0 <==> t == |calls| - 1)
  }

  /** Both depend only on the registers and the configuration. */
  ghost predicate Runnable(p: Call, cfg: Config, z: Start)
    requires p.Padded()
  {
    Ready(z.(p := p, cfg := cfg)) && CApart(z.(p := p, cfg := cfg))
  }

  lemma RunnableSame(z: Start, z': Start)
    requires z.p == z'.p && z.cfg == z'.cfg && Ready(z) && CApart(z)
    ensures Ready(z') && CApart(z')
  {
    hide Call.CAddr, Call.AAddr, Call.BAddr, OutAddr, Apart, Call.Accepted;
    forall i, j, m, n ensures CByteAddr(z', i, j, m, n) == CByteAddr(z, i, j, m, n) { }
    forall x ensures InCBytes(z', x) == InCBytes(z, x) { SameCBytes(z, z', x); }
    forall i, k, r, c ensures AByte(z', i, k, r, c) == AByte(z, i, k, r, c)
      && BByte(z', i, k, r, c) == BByte(z, i, k, r, c) { }
  }

  lemma SameCBytes(z: Start, z': Start, x: int)
    requires z.p == z'.p && z.cfg == z'.cfg && z.p.Padded()
    ensures InCBytes(z', x) == InCBytes(z, x)
  {
    hide Call.CAddr, OutAddr;
    forall i, j, m, n ensures CByteAddr(z', i, j, m, n) == CByteAddr(z, i, j, m, n) { }
  }

  ghost function Products(z: Start, i: int, j: int, m: int, n: int): int
    requires z.p.Padded() && Depth(z.p) >= 0
  {
    Sum(Depth(z.p), ProductTerms(z, i, j, m, n))
  }

  ghost predicate Sized(zs: seq<Start>) {
    forall t :: 0 <= t < |zs| ==> zs[t].p.Padded() && Depth(zs[t].p) >= 0
  }

  /** What the chain has added up: where the first call starts, then every call's products. */
  ghost function ChainSum(zs: seq<Start>, i: int, j: int, m: int, n: int): int
    requires |zs| > 0 && Sized(zs)
  {
    if |zs| == 1 then Product(zs[0], i, j, m, n)
    else ChainSum(zs[..|zs| - 1], i, j, m, n) + Products(zs[|zs| - 1], i, j, m, n)
  }

  ghost predicate ChainHeld(p: Call, zs: seq<Start>, m: AccMem)
    requires |zs| > 0 && Sized(zs) && p.Padded()
  {
    forall i, j, r, c :: p.InC(i, j, r, c) ==> At(m, p.CRow(i, j, r), c) == Wrap32(ChainSum(zs, i, j, r, c))
  }

  lemma ChainFirst(p: Call, z: Start, s: Spad, m: AccMem, d: Memory)
    requires SameTile(p, z.p) && p.Padded() && z.p.Padded() && z.p.K > 0 && Depth(z.p) >= 0 && Completed(z, s, m, d)
    ensures Sized([z]) && ChainHeld(p, [z], m)
  {
    hide At, Product, Wrap32, SpadFrame, AccFrame, DramFrame, AHeld, BHeld, OutValue, LoadOut;
    forall i, j, r, c | p.InC(i, j, r, c) ensures At(m, p.CRow(i, j, r), c) == Wrap32(ChainSum([z], i, j, r, c)) {
      assert z.p.InC(i, j, r, c) && z.p.CRow(i, j, r) == p.CRow(i, j, r);
    }
  }

  lemma ChainNext(p: Call, zs: seq<Start>, z: Start, s: Spad, m: AccMem, d: Memory)
    requires |zs| > 0 && Sized(zs) && p.Padded() && ChainHeld(p, zs, z.m)
    requires SameTile(p, z.p) && z.p.Padded() && z.p.K > 0 && Depth(z.p) >= 0 && z.p.accumulate && z.p.D == 0
    requires Completed(z, s, m, d)
    ensures Sized(zs + [z]) && ChainHeld(p, zs + [z], m)
  {
    hide At, ProductTerms, Sum, Wrap32, SpadFrame, AccFrame, DramFrame, AHeld, BHeld, OutValue, LoadOut;
    var more := zs + [z];
    forall i, j, r, c | p.InC(i, j, r, c) ensures At(m, p.CRow(i, j, r), c) == Wrap32(ChainSum(more, i, j, r, c)) {
      assert more[..|more| - 1] == zs;
      assert z.p.InC(i, j, r, c) && z.p.CRow(i, j, r) == p.CRow(i, j, r);
      WrapAdd(ChainSum(zs, i, j, r, c), Products(z, i, j, r, c));
    }
  }

  /** Every call saw its own registers, the configuration and the main memory of the start. */
  ghost predicate Recorded(calls: seq<Call>, zs: seq<Start>, cfg: Config, d: Memory) {
    |zs| <= |calls| && forall t :: 0 <= t < |zs| ==> zs[t].p == calls[t] && zs[t].cfg == cfg && zs[t].d == d
  }

  /** The last call's C holds the scaled and activated sums of the whole chain, and no other byte changed. */
  ghost predicate ChainStored(zs: seq<Start>, d: Memory)
    requires |zs| > 0 && Sized(zs)
  {
    var z := zs[|zs| - 1];
    DramFrame(z, d) &&
    forall i, j, r, c :: z.p.InC(i, j, r, c) ==>
      LoadOut(d, z.p.fullC, CByteAddr(z, i, j, r, c))
        == OutValue(z.cfg, StatOf(z, i, r), z.p.fullC, Wrap32(ChainSum(zs, i, j, r, c)))
  }

  lemma StoresChain(p: Call, zs: seq<Start>, s: Spad, m: AccMem, d: Memory)
    requires |zs| > 0 && Sized(zs) && p.Padded() && ChainHeld(p, zs, m)
    requires var z := zs[|zs| - 1]; SameTile(p, z.p) && z.p.K > 0 && z.p.C != 0 && Completed(z, s, m, d)
    ensures ChainStored(zs, d)
  {
    hide At, Product, ChainSum, Wrap32, SpadFrame, AccFrame, DramFrame, AHeld, BHeld, OutValue, LoadOut, CByteAddr,
         StatOf;
    var z := zs[|zs| - 1];
    forall i, j, r, c | z.p.InC(i, j, r, c)
      ensures LoadOut(d, z.p.fullC, CByteAddr(z, i, j, r, c))
              == OutValue(z.cfg, StatOf(z, i, r), z.p.fullC, Wrap32(ChainSum(zs, i, j, r, c)))
    {
      assert p.InC(i, j, r, c) && z.p.CRow(i, j, r) == p.CRow(i, j, r);
      assert Wrap32(Product(z, i, j, r, c)) == Wrap32(ChainSum(zs, i, j, r, c));
    }
  }

  lemma MemoryKept(z: Start, s: Spad, m: AccMem, d: Memory)
    requires z.p.Padded() && (z.p.K > 0 ==> Depth(z.p) >= 0) && Completed(z, s, m, d) && z.p.C == 0
    ensures d == z.d
  {
    hide At, Product, Wrap32, SpadFrame, AccFrame, DramFrame, AHeld, BHeld, OutValue, LoadOut;
  }

  /** Run a chain: afterwards C is the product over all the inner dimensions together. */
  method RunChain(g: Gemmini, calls: seq<Call>) returns (ghost zs: seq<Start>)
    requires Chain(calls) && forall t :: 0 <= t < |calls| ==>
               calls[t].Padded() && Runnable(calls[t], g.cfg, StartOf(g, calls[t]))
    modifies g`spad, g`pre, g`pe, g`acc, g`dram, g`norm, g`statId
    ensures |zs| == |calls| && Recorded(calls, zs, g.cfg, old(g.dram)) && Sized(zs)
    ensures calls[0].Padded() && ChainHeld(calls[0], zs, g.acc) && ChainStored(zs, g.dram)
  {
    hide Completed, ChainHeld, ChainStored, Ready, CApart, Call.Accepted, Depth, NormInv;
    ghost var z0 := StartOf(g, calls[0]);
    ghost var d := g.dram;
    zs := [];
    for t := 0 to |calls|
      invariant |zs| == t && Recorded(calls, zs, g.cfg, d) && Sized(zs)
      invariant forall u :: 0 <= u < |calls| ==> calls[u].Padded() && Runnable(calls[u], g.cfg, z0)
      invariant t < |calls| ==> g.dram == d
      invariant t > 0 ==> ChainHeld(calls[0], zs, g.acc)
      invariant t == |calls| && t > 0 ==> ChainStored(zs, g.dram)
    {
      assert ChainCall(calls, t);
      ghost var z := StartOf(g, calls[t]);
      RunnableSame(z0.(p := calls[t], cfg := g.cfg), z);
      var ok := LoopWs.LoopWs(g, calls[t]);
      if t == 0 {
        ChainFirst(calls[0], z, g.spad, g.acc, g.dram);
        zs := [z];
      } else {
        ChainNext(calls[0], zs, z, g.spad, g.acc, g.dram);
        zs := zs + [z];
      }
      if t == |calls| - 1 {
        StoresChain(calls[0], zs, g.spad, g.acc, g.dram);
      } else {
        MemoryKept(z, g.spad, g.acc, g.dram);
      }
    }
  }

  // What the chain adds up to.

  ghost function TotalDepth(zs: seq<Start>): nat
    requires Sized(zs)
  {
    if zs == [] then 0 else TotalDepth(zs[..|zs| - 1]) + Depth(zs[|zs| - 1].p)
  }

  /** Call t multiplies the slice of the inner dimension that follows the slices of the calls before it. */
  ghost predicate Slices(zs: seq<Start>, f: int -> int, i: int, j: int, m: int, n: int)
    requires Sized(zs)
  {
    forall t :: 0 <= t < |zs| ==> SliceOf(zs[t], f, TotalDepth(zs[..t]), i, j, m, n)
  }

  ghost predicate SliceOf(z: Start, f: int -> int, off: int, i: int, j: int, m: int, n: int)
    requires z.p.Padded()
  {
    forall x :: 0 <= x < Depth(z.p) ==> ProductTerms(z, i, j, m, n)(x) == f(off + x)
  }

  lemma SliceSum(z: Start, f: int -> int, off: nat, i: int, j: int, m: int, n: int)
    requires z.p.Padded() && Depth(z.p) >= 0 && SliceOf(z, f, off, i, j, m, n)
    ensures Sum(off + Depth(z.p), f) == Sum(off, f) + Products(z, i, j, m, n)
  {
    hide ProductTerms, Sum;
    SumSplit(off, Depth(z.p), f, ProductTerms(z, i, j, m, n));
  }

  lemma ChainStep(zs: seq<Start>, i: int, j: int, m: int, n: int)
    requires |zs| > 0 && Sized(zs)
    ensures var front, z := zs[..|zs| - 1], zs[|zs| - 1];
            && TotalDepth(zs) == TotalDepth(front) + Depth(z.p) && TotalDepth([]) == 0
            && (front != [] ==> ChainSum(zs, i, j, m, n) == ChainSum(front, i, j, m, n) + Products(z, i, j, m, n))
            && (front == [] ==>
                ChainSum(zs, i, j, m, n)
                  == (if z.p.accumulate then Initial(z, i, j, m, n) else 0) + Products(z, i, j, m, n))
  {
    hide ProductTerms, Initial, Sum;
  }

  /** The chain computes the starting value plus one sum over the whole inner dimension. */
  lemma {:induction false} ChainIsProduct(zs: seq<Start>, f: int -> int, i: int, j: int, m: int, n: int)
    requires |zs| > 0 && Sized(zs) && Slices(zs, f, i, j, m, n)
    ensures ChainSum(zs, i, j, m, n)
            == (if zs[0].p.accumulate then Initial(zs[0], i, j, m, n) else 0) + Sum(TotalDepth(zs), f)
  {
    hide ProductTerms, SliceOf, Initial, Sum, Depth, Products, TotalDepth, ChainSum, Product;
    var last := |zs| - 1;
    var front := zs[..last];
    ChainStep(zs, i, j, m, n);
    assert SliceOf(zs[last], f, TotalDepth(front), i, j, m, n);
    SliceSum(zs[last], f, TotalDepth(front), i, j, m, n);
    if last == 0 {
      SumEnds(0, f);
    } else {
      forall t | 0 <= t < last ensures SliceOf(front[t], f, TotalDepth(front[..t]), i, j, m, n) {
        assert front[..t] == zs[..t];
      }
      ChainIsProduct(front, f, i, j, m, n);
    }
  }

  lemma {:induction false} ChainSumIsChained(zs: seq<Start>, i: int, j: int, m: int, n: int)
    requires |zs| > 0 && Sized(zs) && (zs[0].p.accumulate ==> Initial(zs[0], i, j, m, n) == 0)
    ensures ChainSum(zs, i, j, m, n) == Chained(zs, i, j, m, n)
  {
    hide ProductTerms, Sum, Initial;
    if |zs| == 1 { assert zs[..0] == []; } else { ChainSumIsChained(zs[..|zs| - 1], i, j, m, n); }
  }

  /** At element (m, n) of block (i, j), each call starts from what the call before it left, the first one from zero. */
  ghost predicate Linked(zs: seq<Start>, i: int, j: int, m: int, n: int)
    requires Sized(zs)
  {
    forall t :: 0 <= t < |zs| ==>
      && zs[t].p.Accepted() && zs[t].p.InC(i, j, m, n) && zs[t].p.K > 0
      && StartValue(zs[t], i, j, m, n) == if t == 0 then 0 else Partial(zs[t - 1], i, j, m, n, zs[t - 1].p.K)
  }

  /** A call that adds to the accumulator an earlier call completed is linked to it. */
  lemma CompletedLinks(z: Start, s: Spad, m: AccMem, d: Memory, z': Start, i: int, j: int, r: int, c: int)
    requires z.p.Padded() && z.p.K > 0 && Depth(z.p) >= 0 && Completed(z, s, m, d) && z.p.InC(i, j, r, c)
    requires z'.m == m && z'.p.accumulate && z'.p.D == 0 && z'.p.J == z.p.J
    ensures StartValue(z', i, j, r, c) == Partial(z, i, j, r, c, z.p.K)
  {
    hide At, Product, Partial, SpadFrame, AccFrame, DramFrame, AHeld, BHeld, OutValue, LoadOut, Wrap32;
    FinalIsProduct(z, i, j, r, c);
    assert z'.p.CRow(i, j, r) == z.p.CRow(i, j, r);
  }

  /** Call t of a linked chain starts from the exact sum of the products before it. */
  lemma {:induction false} StartsExact(zs: seq<Start>, t: nat, i: int, j: int, m: int, n: int)
    requires t < |zs| <= 31 && Sized(zs) && Linked(zs, i, j, m, n) && SPAD_ROWS == 16384
    ensures StartValue(zs[t], i, j, m, n) == Chained(zs[..t], i, j, m, n)
    ensures -0x400_0000 * t <= StartValue(zs[t], i, j, m, n) <= 0x400_0000 * t
  {
    hide ProductTerms, Sum, Initial, Call.Accepted, Partial, BlockSums, Depth, StartValue, Chained;
    ChainedStep(zs[..t], i, j, m, n);
    if t > 0 {
      var z := zs[t - 1];
      assert zs[..t][..t - 1] == zs[..t - 1];
      StartsExact(zs, t - 1, i, j, m, n);
      NoOverflow(z, i, j, m, n, z.p.K, 0);
      BlockSumsAreProduct(z, i, j, m, n);
      BlocksRange(z, i, j, m, n, z.p.K);
    }
  }

  lemma ChainedStep(zs: seq<Start>, i: int, j: int, m: int, n: int)
    requires Sized(zs)
    ensures zs == [] ==> Chained(zs, i, j, m, n) == 0
    ensures zs != [] ==>
              var z := zs[|zs| - 1];
              Chained(zs, i, j, m, n) ==
              Chained(zs[..|zs| - 1], i, j, m, n) + Sum(Depth(z.p), ProductTerms(z, i, j, m, n))
  {
    hide ProductTerms, Sum;
  }

  /** Over any 31 accumulating calls from zero nothing wraps: neither the sums inside any block product of any call,
      nor the accumulator after any of them, which holds the exact sum so far. */
  lemma ThirtyOneCallsAreSafe(zs: seq<Start>, t: nat, i: int, j: int, m: int, n: int, k: nat, y: nat)
    requires t < |zs| <= 31 && Sized(zs) && Linked(zs, i, j, m, n) && SPAD_ROWS == 16384 && k <= zs[t].p.K && y <= DIM
    ensures k < zs[t].p.K ==>
              Wrap32(Sum(y, BlockTerms(zs[t], i, j, m, n, k))) == Sum(y, BlockTerms(zs[t], i, j, m, n, k))
    ensures 0 < k ==>
            Partial(zs[t], i, j, m, n, k) == Chained(zs[..t], i, j, m, n) + Sum(k, BlockSums(zs[t], i, j, m, n))
  {
    hide ProductTerms, BlockTerms, Sum, Initial, Call.Accepted, Partial, BlockSums, Depth, StartValue, Chained;
    StartsExact(zs, t, i, j, m, n);
    NoOverflow(zs[t], i, j, m, n, k, y);
  }

  /** With the shipped scratchpad, a chain of at most 31 calls from zero never wraps: its int32 sums are the exact
      integers. */
  lemma ShortChainsAreExact(zs: seq<Start>, i: int, j: int, m: int, n: int)
    requires 0 < |zs| <= 31 && Sized(zs) && (zs[0].p.accumulate ==> Initial(zs[0], i, j, m, n) == 0)
    requires SPAD_ROWS == 16384
    requires forall t :: 0 <= t < |zs| ==> zs[t].p.Accepted() && zs[t].p.InC(i, j, m, n)
    ensures Wrap32(ChainSum(zs, i, j, m, n)) == ChainSum(zs, i, j, m, n)
  {
    hide ProductTerms, Sum, Initial, Call.Accepted, Wrap32, ChainSum, Chained;
    ChainSumIsChained(zs, i, j, m, n);
    ChainRange(zs, i, j, m, n);
    WrapSame(ChainSum(zs, i, j, m, n));
  }
}
