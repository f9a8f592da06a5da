/** The pooled store phase of loop_conv_ws. */
module ConvPool {
  import opened Params
  import opened Dram
  import opened Grid
  import opened Scaling
  import opened State
  import opened Layouts
  import opened Machine
  import opened Norm
  import opened Pooling
  import opened ConvSpec
  import opened ConvTaps
  import opened ConvStore

  function RegsOf(p: Call): PoolRegs {
    PoolRegs(p.poolStride, p.poolSize, p.poolOutColDim, p.porows, p.pocols, p.orows, p.ocols, p.plpad, p.pupad)
  }

  /** The configuration the pooled stores run under. */
  function PoolConfig(p: Call, cfg: Config): Config {
    cfg.WithStore(p.outStride, if p.activation then 1 else 0, cfg.accScale, RegsOf(p))
  }

  /** The pooling parameters fit the instruction's bit fields. */
  predicate PoolFields(p: Call) {
    && 0 < p.poolStride < 4 && p.poolSize < 4 && p.plpad < 4 && p.pupad < 4
    && p.poolOutColDim < 256 && p.porows < 256 && p.pocols < 256 && p.orows < 256 && p.ocols < 256
  }

  /** Convolution output (r, c) as it enters the maximum: scaled, activated, zero outside the tile. */
  ghost function ConvElem(z: Start, ob: int, b: int, n: int, r: int, c: int): int {
    var cfg := PoolConfig(z.p, z.cfg);
    if r < 0 || c < 0 || r >= z.p.orows || c >= z.p.ocols then 0
    else Activate(Scale(Value(z, Cell(ob, b, r, c, n)), cfg.accScale), cfg.accAct)
  }

  ghost function ConvWindowRow(z: Start, ob: int, b: int, n: int, pr: int, pc: int, wr: int): int -> int {
    wc => ConvElem(z, ob, b, n, pr * z.p.poolStride + wr - z.p.pupad, pc * z.p.poolStride + wc - z.p.plpad)
  }

  /** The max-pool of the convolution over the first k rows of window (pr, pc). */
  ghost function ConvMax(z: Start, ob: int, b: int, n: int, pr: int, pc: int, k: nat): int {
    if k == 0 then -128
    else MaxFrom(ConvMax(z, ob, b, n, pr, pc, k - 1), z.p.poolSize, ConvWindowRow(z, ob, b, n, pr, pc, k - 1))
  }

  function PooledAddr(p: Call, b: int, pr: int, pc: int, och: int): int {
    p.output + (b * p.poolOutRowDim * p.poolOutColDim + pr * p.poolOutColDim + pc) * p.outStride + och
  }

  function PAddr(z: Start, b: int, pr: int, pc: int, och: int): int { PooledAddr(z.p, b, pr, pc, och) }

  /** A pooled output: channel block ob, image b, column n, pooled pixel (pr, pc). */
  datatype Pixel = Pixel(ob: int, b: int, pr: int, pc: int, n: int)

  predicate InP(z: Start, q: Pixel) {
    0 <= q.ob && 0 <= q.b < z.p.batches && 0 <= q.pr < z.p.porows && 0 <= q.pc < z.p.pocols && 0 <= q.n < DIM
    && q.ob * DIM + q.n < z.p.ochs
  }

  function QAddr(z: Start, q: Pixel): int { PAddr(z, q.b, q.pr, q.pc, q.ob * DIM + q.n) }

  ghost predicate PApart(z: Start) {
    forall q, q' :: InP(z, q) && InP(z, q') && q != q' ==> QAddr(z, q) != QAddr(z, q')
  }

  ghost predicate InPooled(z: Start, x: int) {
    exists q :: InP(z, q) && QAddr(z, q) == x
  }

  predicate PDone(q: Pixel, b: int, ob: int) { q.b < b || (q.b == b && q.ob < ob) }

  ghost predicate PHeld(z: Start, d: Memory, b: int, ob: int) {
    forall q :: InP(z, q) && PDone(q, b, ob) ==>
      LoadOut(d, false, QAddr(z, q)) == ConvMax(z, q.ob, q.b, q.n, q.pr, q.pc, z.p.poolSize)
  }

  ghost predicate PFrame(z: Start, d: Memory) {
    forall x :: !InPooled(z, x) ==> Load(d, x) == Load(z.d, x)
  }

  function BlockSource(z: Start, ob: int, b: int): Source
    requires 0 <= CRow(z, Cell(ob, b, 0, 0, 0))
  {
    Source(true, false, RESET, CRow(z, Cell(ob, b, 0, 0, 0)))
  }

  /** The pooled rows are the convolution's own accumulator rows. */
  lemma PoolCell(z: Start, s: Spad, m: AccMem, ob: int, b: int, n: int, r: int, c: int)
    requires Finished(z, m) && 0 <= CRow(z, Cell(ob, b, 0, 0, 0)) && 0 <= ob && 0 <= b < z.p.batches && 0 <= n < DIM
    requires ob * DIM + n < z.p.ochs
    ensures PoolElem(s, m, PoolConfig(z.p, z.cfg), BlockSource(z, ob, b), r, c, n) == ConvElem(z, ob, b, n, r, c)
  {
    hide At, Scale, Value, Layout.Row;
    if !(r < 0 || c < 0 || r >= z.p.orows || c >= z.p.ocols) {
      var l := z.p.CLayout(z.cRow);
      RowIs(l, ob, b, r, c);
      RowIs(l, ob, b, 0, 0);
      assert CRow(z, Cell(ob, b, 0, 0, 0)) + r * z.p.ocols + c == CRow(z, Cell(ob, b, r, c, n));
      assert InC(z, Cell(ob, b, r, c, n));
    }
  }

  lemma {:induction false} PoolIsConvMax(z: Start, s: Spad, m: AccMem, ob: int, b: int, n: int, pr: int, pc: int,
                                         k: nat)
    requires Finished(z, m) && 0 <= CRow(z, Cell(ob, b, 0, 0, 0)) && 0 <= ob && 0 <= b < z.p.batches && 0 <= n < DIM
    requires ob * DIM + n < z.p.ochs
    ensures PoolMax(s, m, PoolConfig(z.p, z.cfg), BlockSource(z, ob, b), pr, pc, n, k)
            == ConvMax(z, ob, b, n, pr, pc, k)
  {
    hide Finished, CRow, PoolElem, ConvElem;
    if k > 0 {
      PoolIsConvMax(z, s, m, ob, b, n, pr, pc, k - 1);
      var cfg, src := PoolConfig(z.p, z.cfg), BlockSource(z, ob, b);
      var f, g := WindowRow(s, m, cfg, src, pr, pc, n, k - 1), ConvWindowRow(z, ob, b, n, pr, pc, k - 1);
      forall wc | 0 <= wc < z.p.poolSize ensures f(wc) == g(wc) {
        PoolCell(z, s, m, ob, b, n, pr * z.p.poolStride + (k - 1) - z.p.pupad, pc * z.p.poolStride + wc - z.p.plpad);
      }
      MaxFromSame(ConvMax(z, ob, b, n, pr, pc, k - 1), z.p.poolSize, f, g);
    }
  }

  function BlockAddr(z: Start, ob: int, b: int): int {
    z.p.output + b * z.p.poolOutRowDim * z.p.poolOutColDim * z.p.outStride + ob * DIM
  }

  lemma PoolAddrIs(z: Start, ob: int, b: int, pr: int, pc: int, n: int)
    ensures PoolAddr(BlockAddr(z, ob, b), PoolConfig(z.p, z.cfg), pr, pc, n) == QAddr(z, Pixel(ob, b, pr, pc, n))
  {
    var base := b * z.p.poolOutRowDim * z.p.poolOutColDim;
    var off := pr * z.p.poolOutColDim + pc;
    assert (base + off) * z.p.outStride == base * z.p.outStride + off * z.p.outStride;
  }

  lemma BlockApart(z: Start, ob: int, b: int)
    requires PApart(z) && 0 <= ob && 0 <= ob * DIM < z.p.ochs && 0 <= b < z.p.batches
    ensures PoolApart(BlockAddr(z, ob, b), PoolConfig(z.p, z.cfg), GroupCols(z.p, ob))
  {
    hide PoolAddr, QAddr, BlockAddr;
    var cfg, channels, a := PoolConfig(z.p, z.cfg), GroupCols(z.p, ob), BlockAddr(z, ob, b);
    forall pr, pc, ch, pr', pc', ch' | InPool(cfg, channels, pr, pc, ch) && InPool(cfg, channels, pr', pc', ch')
      && (pr != pr' || pc != pc' || ch != ch')
      ensures PoolAddr(a, cfg, pr, pc, ch) != PoolAddr(a, cfg, pr', pc', ch')
    {
      PoolAddrIs(z, ob, b, pr, pc, ch);
      PoolAddrIs(z, ob, b, pr', pc', ch');
      assert InP(z, Pixel(ob, b, pr, pc, ch)) && InP(z, Pixel(ob, b, pr', pc', ch'));
    }
  }

  lemma BlockTouches(z: Start, ob: int, b: int, x: int)
    requires 0 <= ob && 0 <= ob * DIM < z.p.ochs && 0 <= b < z.p.batches
    requires InPoolBytes(BlockAddr(z, ob, b), PoolConfig(z.p, z.cfg), GroupCols(z.p, ob), x)
    ensures exists q :: InP(z, q) && q.ob == ob && q.b == b && QAddr(z, q) == x
  {
    hide PoolAddr, QAddr, BlockAddr;
    var cfg := PoolConfig(z.p, z.cfg);
    var pr, pc, ch :| InPool(cfg, GroupCols(z.p, ob), pr, pc, ch)
      && PoolAddr(BlockAddr(z, ob, b), cfg, pr, pc, ch) == x;
    PoolAddrIs(z, ob, b, pr, pc, ch);
    var q := Pixel(ob, b, pr, pc, ch);
    assert InP(z, q) && QAddr(z, q) == x;
  }

  lemma PoolStep(z: Start, s: Spad, m: AccMem, d: Memory, d': Memory, ob: int, b: int)
    requires PApart(z) && Finished(z, m) && 0 <= CRow(z, Cell(ob, b, 0, 0, 0)) && 0 <= ob && 0 <= ob * DIM < z.p.ochs
    requires 0 <= b < z.p.batches
    requires PHeld(z, d, b, ob) && PFrame(z, d)
    requires PoolOut(s, m, PoolConfig(z.p, z.cfg), BlockSource(z, ob, b), BlockAddr(z, ob, b), GroupCols(z.p, ob), d',
                     z.p.porows, 0, 0)
    requires forall x :: !InPoolBytes(BlockAddr(z, ob, b), PoolConfig(z.p, z.cfg), GroupCols(z.p, ob), x) ==>
               Load(d', x) == Load(d, x)
    ensures PHeld(z, d', b, ob + 1) && PFrame(z, d')
  {
    hide PoolAddr, QAddr, BlockAddr, PoolMax, ConvMax, LoadOut, Load, InPoolBytes, Finished, CRow;
    var cfg, channels, a := PoolConfig(z.p, z.cfg), GroupCols(z.p, ob), BlockAddr(z, ob, b);
    forall q | InP(z, q) && PDone(q, b, ob + 1)
      ensures LoadOut(d', false, QAddr(z, q)) == ConvMax(z, q.ob, q.b, q.n, q.pr, q.pc, z.p.poolSize)
    {
      if q.b == b && q.ob == ob {
        PoolAddrIs(z, ob, b, q.pr, q.pc, q.n);
        PoolIsConvMax(z, s, m, ob, b, q.n, q.pr, q.pc, z.p.poolSize);
        assert q == Pixel(ob, b, q.pr, q.pc, q.n);
        assert InPool(cfg, channels, q.pr, q.pc, q.n);
      } else {
        if InPoolBytes(a, cfg, channels, QAddr(z, q)) {
          BlockTouches(z, ob, b, QAddr(z, q));
          assert false;
        }
        LoadOutSame(d', d, false, QAddr(z, q));
      }
    }
    forall x | !InPooled(z, x) ensures Load(d', x) == Load(z.d, x) {
      if InPoolBytes(a, cfg, channels, x) { BlockTouches(z, ob, b, x); }
    }
  }

  lemma BlockRows(z: Start, ob: int, b: int)
    requires Ready(z) && 0 <= ob && 0 <= ob * DIM < z.p.ochs && 0 <= b < z.p.batches && 0 < z.p.orows && 0 < z.p.ocols
    ensures 0 <= CRow(z, Cell(ob, b, 0, 0, 0)) && PoolRows(PoolConfig(z.p, z.cfg), BlockSource(z, ob, b))
  {
    hide Layout.Row, Layout.Rows, Call.Fits;
    var l := z.p.CLayout(z.cRow);
    BlockInRange(ob, z.p.ochs);
    ARegion(z.p, z.cRow);
    RowBounds(l, ob, b, 0, 0);
    RowBounds(l, ob, b, l.n2 - 1, l.n3 - 1);
    LastPixel(l, ob, b);
  }

  lemma LastPixel(l: Layout, a: int, b: int)
    ensures l.Row(a, b, l.n2 - 1, l.n3 - 1) + 1 == l.Row(a, b, 0, 0) + l.n2 * l.n3
  {
    var q := a * l.n1 + b;
    assert (q * l.n2 + (l.n2 - 1)) * l.n3 == q * l.n2 * l.n3 + l.n2 * l.n3 - l.n3;
    assert (q * l.n2 + 0) * l.n3 == q * l.n2 * l.n3;
  }

  /** The mvout phase with pooling: configure, pool block by block, switch pooling off again. */
  method StorePooled(g: Gemmini, ghost z: Start, p: Call, cRow: nat)
    requires Ready(z) && p == z.p && cRow == z.cRow && g.cfg == z.cfg && PApart(z) && g.dram == z.d && PoolFields(p)
    requires Finished(z, g.acc) && 0 < p.orows && 0 < p.ocols
    modifies g`dram, g`cfg
    ensures PHeld(z, g.dram, p.batches, 0) && PFrame(z, g.dram)
    ensures g.cfg == PoolConfig(p, old(g.cfg)).(pool := NO_POOL)
  {
    hide PApart, Finished, Ready, LoadOut, Load, ConvMax, QAddr, InPooled, PoolOut, InPoolBytes, BlockCount, PoolRows,
         PoolApart;
    g.ConfigSt(p.outStride, if p.activation then 1 else 0, g.cfg.accScale, RegsOf(p));
    ghost var cfg := g.cfg;
    for b := 0 to p.batches
      invariant g.cfg == cfg && PHeld(z, g.dram, b, 0) && PFrame(z, g.dram)
    {
      for ob := 0 to p.OBlocks()
        invariant g.cfg == cfg && PHeld(z, g.dram, b, ob) && PFrame(z, g.dram)
      {
        BlockStarts(p.ochs, ob);
        BlockRows(z, ob, b);
        BlockApart(z, ob, b);
        ghost var d := g.dram;
        var addr := p.output + b * p.poolOutRowDim * p.poolOutColDim * p.outStride + ob * DIM;
        MvoutPooled(g, addr, Source(true, false, RESET, p.CLayout(cRow).Row(ob, b, 0, 0)), GroupCols(p, ob));
        PoolStep(z, g.spad, g.acc, d, g.dram, ob, b);
      }
      NextImagePooled(z, g.dram, b);
    }
    g.ConfigSt(p.outStride, if p.activation then 1 else 0, g.cfg.accScale, NO_POOL);
  }

  lemma NextImagePooled(z: Start, d: Memory, b: int)
    requires PHeld(z, d, b, z.p.OBlocks())
    ensures PHeld(z, d, b + 1, 0)
  {
    hide LoadOut, ConvMax, QAddr, BlockCount;
    forall q | InP(z, q) ensures q.ob < z.p.OBlocks() {
      BlockInRange(q.ob, z.p.ochs);
    }
  }
}
