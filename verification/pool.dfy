/** mvout with max-pooling. */
module Pooling {
  import opened Params
  import opened Dram
  import opened Grid
  import opened Scaling
  import opened State
  import opened Patches
  import opened Machine
  import opened Norm

  /** What mvout reads for pixel (r, c) of the tile: zero in the pooling padding. */
  function PoolElem(s: Spad, m: AccMem, cfg: Config, src: Source, r: int, c: int, ch: int): Elem {
    if r < 0 || c < 0 || r >= cfg.pool.orows || c >= cfg.pool.ocols then 0
    else if src.accumulator
    then Activate(Scale(AccAt(m, src.row + r * cfg.pool.ocols + c, ch), cfg.accScale), cfg.accAct)
    else SpadAt(s, src.row + r * cfg.pool.ocols + c, ch)
  }

  function WindowElem(s: Spad, m: AccMem, cfg: Config, src: Source, pr: int, pc: int, ch: int, wr: int, wc: int): Elem {
    PoolElem(s, m, cfg, src, pr * cfg.pool.stride + wr - cfg.pool.upad, pc * cfg.pool.stride + wc - cfg.pool.lpad, ch)
  }

  ghost function WindowRow(s: Spad, m: AccMem, cfg: Config, src: Source, pr: int, pc: int, ch: int,
                           wr: int): int -> int {
    wc => WindowElem(s, m, cfg, src, pr, pc, ch, wr, wc)
  }

  /** The running maximum after n rows of the window. */
  ghost function PoolMax(s: Spad, m: AccMem, cfg: Config, src: Source, pr: int, pc: int, ch: int, n: nat): int {
    if n == 0 then -128
    else MaxFrom(PoolMax(s, m, cfg, src, pr, pc, ch, n - 1), cfg.pool.size,
                 WindowRow(s, m, cfg, src, pr, pc, ch, n - 1))
  }

  function PoolAddr(addr: int, cfg: Config, pr: int, pc: int, ch: int): int {
    addr + (pr * cfg.pool.outDim + pc) * cfg.storeStride + ch
  }

  predicate InPool(cfg: Config, channels: int, pr: int, pc: int, ch: int) {
    0 <= pr < cfg.pool.porows && 0 <= pc < cfg.pool.pocols && 0 <= ch < channels
  }

  ghost predicate PoolApart(addr: int, cfg: Config, channels: int) {
    forall pr, pc, ch, pr', pc', ch' :: InPool(cfg, channels, pr, pc, ch) && InPool(cfg, channels, pr', pc', ch')
                                        && (pr != pr' || pc != pc' || ch != ch') ==>
      PoolAddr(addr, cfg, pr, pc, ch) != PoolAddr(addr, cfg, pr', pc', ch')
  }

  ghost predicate InPoolBytes(addr: int, cfg: Config, channels: int, x: int) {
    exists pr, pc, ch :: InPool(cfg, channels, pr, pc, ch) && PoolAddr(addr, cfg, pr, pc, ch) == x
  }

  predicate Before3(a: int, b: int, c: int, a': int, b': int, c': int) {
    a < a' || (a == a' && (b < b' || (b == b' && c < c')))
  }

  ghost predicate PoolOut(s: Spad, m: AccMem, cfg: Config, src: Source, addr: int, channels: int, d: Memory, pr: int,
                          pc: int, ch: int) {
    forall pr', pc', ch' :: InPool(cfg, channels, pr', pc', ch') && Before3(pr', pc', ch', pr, pc, ch) ==>
      LoadOut(d, false, PoolAddr(addr, cfg, pr', pc', ch')) == PoolMax(s, m, cfg, src, pr', pc', ch', cfg.pool.size)
  }

  lemma {:induction false} PoolInRange(s: Spad, m: AccMem, cfg: Config, src: Source, pr: int, pc: int, ch: int, n: nat)
    ensures -128 <= PoolMax(s, m, cfg, src, pr, pc, ch, n) <= 127
  {
    hide WindowElem;
    if n > 0 {
      PoolInRange(s, m, cfg, src, pr, pc, ch, n - 1);
      var f := WindowRow(s, m, cfg, src, pr, pc, ch, n - 1);
      MaxFromBounds(PoolMax(s, m, cfg, src, pr, pc, ch, n - 1), cfg.pool.size, f);
    }
  }

  /** Main memory after the pooled values before (pr, pc, ch) have been stored one by one. */
  ghost function PooledTo(s: Spad, m: AccMem, cfg: Config, src: Source, addr: int, channels: nat, d: Memory,
                          pr: nat, pc: nat, ch: nat): Memory
    decreases pr, pc, ch
  {
    if ch > 0 then
      PoolInRange(s, m, cfg, src, pr, pc, ch - 1, cfg.pool.size);
      StoreOut(PooledTo(s, m, cfg, src, addr, channels, d, pr, pc, ch - 1), false, PoolAddr(addr, cfg, pr, pc, ch - 1),
               PoolMax(s, m, cfg, src, pr, pc, ch - 1, cfg.pool.size))
    else if pc > 0 then PooledTo(s, m, cfg, src, addr, channels, d, pr, pc - 1, channels)
    else if pr > 0 then PooledTo(s, m, cfg, src, addr, channels, d, pr - 1, cfg.pool.pocols, 0)
    else d
  }

  predicate PoolRows(cfg: Config, src: Source) {
    src.row + cfg.pool.orows * cfg.pool.ocols <= (if src.accumulator then ACC_ROWS else SPAD_ROWS)
  }

  /** The largest of a window. */
  method Window(g: Gemmini, src: Source, pr: nat, pc: nat, ch: nat) returns (value: Elem)
    requires PoolRows(g.cfg, src) && ch < DIM
    ensures value == PoolMax(g.spad, g.acc, g.cfg, src, pr, pc, ch, g.cfg.pool.size)
  {
    hide WindowElem;
    value := -128;
    for wr := 0 to g.cfg.pool.size
      invariant value == PoolMax(g.spad, g.acc, g.cfg, src, pr, pc, ch, wr)
    {
      ghost var start, f := value, WindowRow(g.spad, g.acc, g.cfg, src, pr, pc, ch, wr);
      for wc := 0 to g.cfg.pool.size
        invariant value == MaxFrom(start, wc, f)
      {
        var elem := WindowElem(g.spad, g.acc, g.cfg, src, pr, pc, ch, wr, wc);
        assert f(wc) == elem;
        if elem > value {
          value := elem;
        }
      }
    }
  }

  lemma StoreKeepsPool(s: Spad, m: AccMem, cfg: Config, src: Source, addr: int, channels: int, d: Memory, pr: int,
                       pc: int, ch: int, v: Elem)
    requires PoolOut(s, m, cfg, src, addr, channels, d, pr, pc, ch) && PoolApart(addr, cfg, channels)
    requires InPool(cfg, channels, pr, pc, ch)
    requires v == PoolMax(s, m, cfg, src, pr, pc, ch, cfg.pool.size)
    ensures PoolOut(s, m, cfg, src, addr, channels, StoreOut(d, false, PoolAddr(addr, cfg, pr, pc, ch), v), pr, pc,
                    ch + 1)
  {
    hide PoolAddr, PoolMax, StoreOut, LoadOut;
    var a := PoolAddr(addr, cfg, pr, pc, ch);
    StoreOutSpec(d, false, a, v);
    forall pr', pc', ch' | InPool(cfg, channels, pr', pc', ch') && Before3(pr', pc', ch', pr, pc, ch)
      ensures LoadOut(StoreOut(d, false, a, v), false, PoolAddr(addr, cfg, pr', pc', ch'))
              == PoolMax(s, m, cfg, src, pr', pc', ch', cfg.pool.size)
    {
      StoreOutOther(d, false, a, v, PoolAddr(addr, cfg, pr', pc', ch'));
    }
  }

  /** mvout with pooling: one value per pooled pixel and channel. */
  method MvoutPooled(g: Gemmini, addr: int, src: Source, channels: nat)
    requires g.cfg.pool.stride > 0 && PoolRows(g.cfg, src) && channels <= DIM
    modifies g`dram
    ensures g.dram == PooledTo(g.spad, g.acc, g.cfg, src, addr, channels, old(g.dram), g.cfg.pool.porows, 0, 0)
    ensures PoolApart(addr, g.cfg, channels) ==>
              PoolOut(g.spad, g.acc, g.cfg, src, addr, channels, g.dram, g.cfg.pool.porows, 0, 0)
    ensures forall x :: !InPoolBytes(addr, g.cfg, channels, x) ==> Load(g.dram, x) == old(Load(g.dram, x))
  {
    hide PoolAddr, PoolMax, StoreOut, LoadOut, Load, InPoolBytes, PoolApart;
    ghost var apart := PoolApart(addr, g.cfg, channels);
    var cfg := g.cfg;
    ghost var d := g.dram;
    for pr := 0 to cfg.pool.porows
      invariant g.dram == PooledTo(g.spad, g.acc, cfg, src, addr, channels, d, pr, 0, 0)
      invariant apart ==> PoolOut(g.spad, g.acc, cfg, src, addr, channels, g.dram, pr, 0, 0)
      invariant forall x :: !InPoolBytes(addr, cfg, channels, x) ==> Load(g.dram, x) == old(Load(g.dram, x))
    {
      for pc := 0 to cfg.pool.pocols
        invariant g.dram == PooledTo(g.spad, g.acc, cfg, src, addr, channels, d, pr, pc, 0)
        invariant apart ==> PoolOut(g.spad, g.acc, cfg, src, addr, channels, g.dram, pr, pc, 0)
        invariant forall x :: !InPoolBytes(addr, cfg, channels, x) ==> Load(g.dram, x) == old(Load(g.dram, x))
      {
        for ch := 0 to channels
          invariant g.dram == PooledTo(g.spad, g.acc, cfg, src, addr, channels, d, pr, pc, ch)
          invariant apart ==> PoolOut(g.spad, g.acc, cfg, src, addr, channels, g.dram, pr, pc, ch)
          invariant forall x :: !InPoolBytes(addr, cfg, channels, x) ==> Load(g.dram, x) == old(Load(g.dram, x))
        {
          var v := Window(g, src, pr, pc, ch);
          var a := PoolAddr(addr, cfg, pr, pc, ch);
          StoreOutSpec(g.dram, false, a, v);
          OwnByte(addr, cfg, channels, pr, pc, ch);
          if apart { StoreKeepsPool(g.spad, g.acc, cfg, src, addr, channels, g.dram, pr, pc, ch, v); }
          g.dram := StoreOut(g.dram, false, a, v);
        }
      }
    }
  }

  lemma OwnByte(addr: int, cfg: Config, channels: int, pr: int, pc: int, ch: int)
    requires InPool(cfg, channels, pr, pc, ch)
    ensures InPoolBytes(addr, cfg, channels, PoolAddr(addr, cfg, pr, pc, ch))
  {
    hide PoolAddr;
  }

  // What the pooled value means.

  predicate InWindow(cfg: Config, n: int, wr: int, wc: int) {
    0 <= wr < n && 0 <= wc < cfg.pool.size
  }

  /** The pooled value is an upper bound of its window and, unless the window is empty, is attained in it. */
  lemma {:induction false} PoolMaxIsMaximum(s: Spad, m: AccMem, cfg: Config, src: Source, pr: int, pc: int, ch: int,
                                            n: nat)
    ensures -128 <= PoolMax(s, m, cfg, src, pr, pc, ch, n)
    ensures forall wr, wc :: InWindow(cfg, n, wr, wc) ==>
              WindowElem(s, m, cfg, src, pr, pc, ch, wr, wc) <= PoolMax(s, m, cfg, src, pr, pc, ch, n)
    ensures PoolMax(s, m, cfg, src, pr, pc, ch, n) == -128 ||
            exists wr, wc :: InWindow(cfg, n, wr, wc)
              && WindowElem(s, m, cfg, src, pr, pc, ch, wr, wc) == PoolMax(s, m, cfg, src, pr, pc, ch, n)
  {
    hide WindowElem;
    if n > 0 {
      PoolMaxIsMaximum(s, m, cfg, src, pr, pc, ch, n - 1);
      var start, f := PoolMax(s, m, cfg, src, pr, pc, ch, n - 1), WindowRow(s, m, cfg, src, pr, pc, ch, n - 1);
      MaxFromBounds(start, cfg.pool.size, f);
      var r := PoolMax(s, m, cfg, src, pr, pc, ch, n);
      forall wr, wc | InWindow(cfg, n, wr, wc) ensures WindowElem(s, m, cfg, src, pr, pc, ch, wr, wc) <= r {
        if wr == n - 1 { assert f(wc) == WindowElem(s, m, cfg, src, pr, pc, ch, wr, wc); }
      }
      if r != start {
        var wc :| 0 <= wc < cfg.pool.size && f(wc) == r;
        assert InWindow(cfg, n, n - 1, wc);
      } else if r != -128 {
        var wr, wc :| InWindow(cfg, n - 1, wr, wc) && WindowElem(s, m, cfg, src, pr, pc, ch, wr, wc) == start;
        assert InWindow(cfg, n, wr, wc);
      }
    }
  }

  /** A pixel inside the tile enters the maximum as un-pooled mvout would write it: always from the scratchpad, and from
      the accumulator with no activation or ReLU. */
  lemma PoolsUnpooledValues(s: Spad, m: AccMem, cfg: Config, stat: NormStat, src: Source, r: int, c: int, ch: int)
    requires src.accumulator ==> !src.full && (cfg.accAct == NONE || cfg.accAct == RELU)
    requires 0 <= r < cfg.pool.orows && 0 <= c < cfg.pool.ocols && 0 <= ch < DIM
    ensures PoolElem(s, m, cfg, src, r, c, ch) == OutCell(s, m, cfg, stat, src, r * cfg.pool.ocols + c, ch)
  {
    hide At, Scale;
    DivUnique(ch, DIM, 0, ch);
    var i := r * cfg.pool.ocols + c;
    assert src.row + ch / DIM * DIM + i == src.row + i;
    assert ch % DIM == ch;
    assert src.row + r * cfg.pool.ocols + c == src.row + i;
  }

  /** The accumulator value under position (wr, wc) of a window. */
  function WindowSum(m: AccMem, cfg: Config, row: int, pr: int, pc: int, ch: int, wr: int, wc: int): Acc {
    AccAt(m, row + (pr * cfg.pool.stride + wr - cfg.pool.upad) * cfg.pool.ocols
          + (pc * cfg.pool.stride + wc - cfg.pool.lpad), ch)
  }

  predicate WindowInside(cfg: Config, pr: int, pc: int, wr: int, wc: int) {
    0 <= pr * cfg.pool.stride + wr - cfg.pool.upad < cfg.pool.orows
      && 0 <= pc * cfg.pool.stride + wc - cfg.pool.lpad < cfg.pool.ocols
  }

  lemma WindowElemIs(s: Spad, m: AccMem, cfg: Config, row: nat, pr: int, pc: int, ch: int, wr: int, wc: int)
    requires WindowInside(cfg, pr, pc, wr, wc)
    ensures WindowElem(s, m, cfg, Source(true, false, RESET, row), pr, pc, ch, wr, wc)
            == Activate(Scale(WindowSum(m, cfg, row, pr, pc, ch, wr, wc), cfg.accScale), cfg.accAct)
  {
    hide At, Scale, Activate;
  }

  /** For a non-negative scale and a window inside the tile, pooling the written values is writing the largest sum. */
  lemma PoolIsScaledMaximum(s: Spad, m: AccMem, cfg: Config, row: nat, pr: int, pc: int, ch: int, max: Acc, r: int,
                            c: int)
    requires cfg.accScale >= 0.0 && InWindow(cfg, cfg.pool.size, r, c)
    requires WindowSum(m, cfg, row, pr, pc, ch, r, c) == max
    requires forall wr, wc :: InWindow(cfg, cfg.pool.size, wr, wc) ==>
               WindowInside(cfg, pr, pc, wr, wc) && WindowSum(m, cfg, row, pr, pc, ch, wr, wc) <= max
    ensures PoolMax(s, m, cfg, Source(true, false, RESET, row), pr, pc, ch, cfg.pool.size)
            == Activate(Scale(max, cfg.accScale), cfg.accAct)
  {
    hide WindowElem, WindowSum, WindowInside, Scale, Activate, PoolMax;
    var src, n := Source(true, false, RESET, row), cfg.pool.size;
    var v := PoolMax(s, m, cfg, src, pr, pc, ch, n);
    PoolMaxIsMaximum(s, m, cfg, src, pr, pc, ch, n);
    WindowElemIs(s, m, cfg, row, pr, pc, ch, r, c);
    if v != -128 {
      var wr, wc :| InWindow(cfg, n, wr, wc) && WindowElem(s, m, cfg, src, pr, pc, ch, wr, wc) == v;
      WindowElemIs(s, m, cfg, row, pr, pc, ch, wr, wc);
      OutMonotone(WindowSum(m, cfg, row, pr, pc, ch, wr, wc), max, cfg);
    }
  }

  lemma OutMonotone(v: int, w: int, cfg: Config)
    requires cfg.accScale >= 0.0
    ensures v <= w ==> Activate(Scale(v, cfg.accScale), cfg.accAct) <= Activate(Scale(w, cfg.accScale), cfg.accAct)
  {
    hide Scale;
    if v <= w {
      ScaleMonotone(v, w, cfg.accScale);
    }
  }
}
