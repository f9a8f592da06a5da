/** What completed loop_conv_ws calls store, compared with the reference and with each other. */
module ConvResult {
  import opened Params
  import opened Wrap
  import opened Dram
  import opened Grid
  import opened Scaling
  import opened State
  import opened Norm
  import opened ConvSpec
  import opened ConvStore
  import opened ConvPool
  import opened ConvMeaning
  import opened LoopConvWs
  import Patches
  import ConvTaps
  import Chunks

  lemma CompletedStore(z: Start, s: Spad, m: AccMem, d: Memory, e: Cell)
    requires Completed(z, s, m, d) && InC(z, e)
    ensures At(m, CRow(z, e), e.n) == Value(z, e)
    ensures z.p.output != 0 && z.p.noPool ==>
              LoadOut(d, false, EAddr(z, e)) == OutValue(z.cfg, z.stat, false, Value(z, e))
  {
    hide At, CRow, Value, EAddr, OutValue, LoadOut, DramFrame, PHeld, PFrame, ConvTaps.AHeld, ConvTaps.BHeld, SpadFrame,
         Chunks.InRegion;
    assert OutDone(e, z.p.batches, 0, 0, 0, 0);
  }

  /** At unit scale a call with its own bias stores, byte for byte, what the reference loops leave. */
  lemma StoredIsReference(z: Start, s: Spad, m: AccMem, d: Memory, e: Cell)
    requires Ready(z) && Completed(z, s, m, d) && z.p.output != 0 && z.p.noPool && InC(z, e)
    requires z.p.input != 0 && z.p.weights != 0 && z.p.bias != 0 && z.dRow == z.cRow
    requires z.p.kernelDilation > 0 && z.p.krows > 0 && z.p.kcols > 0
    requires z.cfg.accScale == 1.0 && (z.cfg.accAct == NONE || z.cfg.accAct == RELU)
    ensures z.p.DilatedKRows() >= 0 && z.p.DilatedKCols() >= 0
    ensures var och := e.ob * DIM + e.n;
            var v := Wrap32(BiasElem(z, och) + Reference(z, e.b, e.r, e.c, och));
            LoadElem(d, EAddr(z, e)) == if z.cfg.accAct == RELU && v < 0 then 0 else Clamp(v)
  {
    hide Completed, Ready, Reference, Wrap32, BiasElem, EAddr, OutValue, Clamp, Value, LoadElem;
    CompletedStore(z, s, m, d, e);
    ValueIsReference(z, e);
    UnitScaleIsClip(z.cfg, z.stat, Value(z, e));
  }

  // Two calls that compute the same sums.

  /** Both calls scale and activate alike. */
  predicate SameStore(z: Start, z': Start) {
    && z.cfg.accScale == z'.cfg.accScale && z.cfg.accAct == z'.cfg.accAct && z.cfg.consts == z'.cfg.consts
    && SameOutputs(z.stat, z'.stat)
  }

  lemma SameOut(z: Start, z': Start, v: Acc)
    requires SameStore(z, z')
    ensures OutValue(z.cfg, z.stat, false, v) == OutValue(z'.cfg, z'.stat, false, v)
  {
    hide Scale, IExp, IGelu, Wrap32, Normalised;
  }

  /** Both calls convolve tensors they load themselves, from the same starting sums. */
  ghost predicate SameWork(z: Start, z': Start) {
    && Ready(z) && Ready(z') && SameTensors(z, z') && SameStore(z, z')
    && z.p.input != 0 && z.p.weights != 0 && z'.p.input != 0 && z'.p.weights != 0
    && forall e :: InC(z, e) ==> Base(z, e) == Base(z', e)
  }

  lemma SameValue(z: Start, z': Start, e: Cell)
    requires SameWork(z, z') && InC(z, e)
    ensures InC(z', e) && Value(z, e) == Value(z', e)
  {
    hide Direct, Total, Wrap32, SameStore, Call.Fits, Base, Packed;
    SameTile(z, z', e);
    TotalIsDirect(z, z.cRow, e) by { hide SameTensors; }
    TotalIsDirect(z', z'.cRow, e) by { hide SameTensors; }
    SameDirect(z, z', e.b, e.r, e.c, e.ob * DIM + e.n) by { ChannelRange(z, e); }
  }

  lemma SameTile(z: Start, z': Start, e: Cell)
    requires SameTensors(z, z') && InC(z, e)
    ensures InC(z', e)
  {
    hide LoadElem, Call.InAddr, Call.WAddr, Call.IRowsU, Call.IColsU;
  }

  lemma ChannelRange(z: Start, e: Cell)
    requires InC(z, e)
    ensures 0 <= e.b < z.p.batches && 0 <= e.ob * DIM + e.n < z.p.ochs
  {
    Patches.MulLe(0, e.ob, DIM);
  }

  /** Layout flags are transparent: calls that hold the same tensors in differently permuted memory leave the same sums
      and store the same output, each at its own address. */
  lemma LayoutsAreTransparent(z: Start, z': Start, s: Spad, m: AccMem, d: Memory, s': Spad, m': AccMem, d': Memory,
                              e: Cell)
    requires SameWork(z, z') && Completed(z, s, m, d) && Completed(z', s', m', d') && InC(z, e)
    ensures At(m, CRow(z, e), e.n) == At(m', CRow(z', e), e.n)
    ensures z.p.output != 0 && z'.p.output != 0 && z.p.noPool ==>
              LoadOut(d, false, EAddr(z, e)) == LoadOut(d', false, EAddr(z', e))
  {
    hide At, CRow, Value, EAddr, OutValue, LoadOut, Completed, SameWork;
    SameValue(z, z', e);
    WorkFacts(z, z');
    CompletedStore(z, s, m, d, e);
    CompletedStore(z', s', m', d', e);
    SameOut(z, z', Value(z, e));
  }

  lemma WorkFacts(z: Start, z': Start)
    requires SameWork(z, z')
    ensures SameStore(z, z') && z'.p.noPool == z.p.noPool
    ensures z'.p.orows == z.p.orows && z'.p.ocols == z.p.ocols && z'.p.poolSize == z.p.poolSize
    ensures z'.p.poolStride == z.p.poolStride && z'.p.pupad == z.p.pupad && z'.p.plpad == z.p.plpad
    ensures z'.p.activation == z.p.activation && z'.p.porows == z.p.porows && z'.p.pocols == z.p.pocols
    ensures z'.p.batches == z.p.batches && z'.p.ochs == z.p.ochs
  {
    hide Ready, LoadElem, Call.InAddr, Call.WAddr, Call.IRowsU, Call.IColsU, InC, Base;
  }

  lemma SameElem(z: Start, z': Start, q: Pixel, r: int, c: int)
    requires SameWork(z, z') && InP(z, q)
    ensures ConvElem(z, q.ob, q.b, q.n, r, c) == ConvElem(z', q.ob, q.b, q.n, r, c)
  {
    hide SameWork, Value, Scale, Activate;
    WorkFacts(z, z');
    if 0 <= r < z.p.orows && 0 <= c < z.p.ocols { SameValue(z, z', Cell(q.ob, q.b, r, c, q.n)); }
  }

  lemma {:induction false} SameMax(z: Start, z': Start, q: Pixel, k: nat)
    requires SameWork(z, z') && InP(z, q)
    ensures ConvMax(z, q.ob, q.b, q.n, q.pr, q.pc, k) == ConvMax(z', q.ob, q.b, q.n, q.pr, q.pc, k)
  {
    hide SameWork, ConvElem;
    if k > 0 {
      SameMax(z, z', q, k - 1);
      WorkFacts(z, z');
      var f, g := ConvWindowRow(z, q.ob, q.b, q.n, q.pr, q.pc, k - 1),
        ConvWindowRow(z', q.ob, q.b, q.n, q.pr, q.pc, k - 1);
      forall wc | 0 <= wc < z.p.poolSize ensures f(wc) == g(wc) {
        SameElem(z, z', q, q.pr * z.p.poolStride + (k - 1) - z.p.pupad, q.pc * z.p.poolStride + wc - z.p.plpad);
      }
      MaxFromSame(ConvMax(z, q.ob, q.b, q.n, q.pr, q.pc, k - 1), z.p.poolSize, f, g);
    }
  }

  lemma CompletedPool(z: Start, s: Spad, m: AccMem, d: Memory, q: Pixel)
    requires Completed(z, s, m, d) && z.p.output != 0 && !z.p.noPool && InP(z, q)
    ensures LoadOut(d, false, QAddr(z, q)) == ConvMax(z, q.ob, q.b, q.n, q.pr, q.pc, z.p.poolSize)
  {
    hide At, QAddr, ConvMax, LoadOut, Finished, OutHeld, DramFrame, PFrame, ConvTaps.AHeld, ConvTaps.BHeld, SpadFrame,
         Chunks.InRegion;
    assert PDone(q, z.p.batches, 0);
  }

  /** The same for pooled stores. */
  lemma PooledLayoutsAreTransparent(z: Start, z': Start, s: Spad, m: AccMem, d: Memory, s': Spad, m': AccMem,
                                    d': Memory, q: Pixel)
    requires SameWork(z, z') && Completed(z, s, m, d) && Completed(z', s', m', d') && InP(z, q)
    requires z.p.output != 0 && z'.p.output != 0 && !z.p.noPool
    ensures LoadOut(d, false, QAddr(z, q)) == LoadOut(d', false, QAddr(z', q))
  {
    hide QAddr, ConvMax, LoadOut, Completed, SameWork;
    WorkFacts(z, z');
    CompletedPool(z, s, m, d, q);
    CompletedPool(z', s', m', d', q);
    SameMax(z, z', q, z.p.poolSize);
  }
}
