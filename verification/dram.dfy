/** Byte-addressed main memory. An address that was never written reads as zero. */
module Dram {
  import opened Params
  import opened Wrap

  type Memory = map<int, Byte>

  function Load(d: Memory, a: int): Byte {
    if a in d then d[a] else 0
  }

  function LoadElem(d: Memory, a: int): Elem {
    if Load(d, a) < 128 then Load(d, a) else Load(d, a) - 256
  }

  /** Four little-endian bytes, read as a two's complement int32. */
  function LoadAcc(d: Memory, a: int): Acc {
    Wrap32(Load(d, a) + 0x100 * Load(d, a + 1) + 0x1_0000 * Load(d, a + 2) + 0x100_0000 * Load(d, a + 3))
  }

  function StoreElem(d: Memory, a: int, v: Elem): Memory {
    d[a := v % 256]
  }

  function StoreAcc(d: Memory, a: int, v: Acc): Memory {
    d[a := v % 256][a + 1 := v / 0x100 % 256][a + 2 := v / 0x1_0000 % 256][a + 3 := v / 0x100_0000 % 256]
  }

  /** Outputs leave the accumulator either at full width (int32) or as int8. */
  function Size(full: bool): Pos {
    if full then 4 else 1
  }

  function LoadOut(d: Memory, full: bool, a: int): Acc {
    if full then LoadAcc(d, a) else LoadElem(d, a)
  }

  predicate OutFits(full: bool, v: int) {
    if full then -0x8000_0000 <= v <= 0x7fff_ffff else -128 <= v <= 127
  }

  function StoreOut(d: Memory, full: bool, a: int, v: int): Memory
    requires OutFits(full, v)
  {
    if full then StoreAcc(d, a, v) else StoreElem(d, a, v)
  }

  ghost predicate Apart(a: int, n: int, b: int, m: int) {
    a + n <= b || b + m <= a
  }

  lemma FourBytes(v: Acc)
    ensures Wrap32(v % 256 + 0x100 * (v / 0x100 % 256) + 0x1_0000 * (v / 0x1_0000 % 256)
                   + 0x100_0000 * (v / 0x100_0000 % 256)) == v
  {
    var q1, q2, q3 := v / 0x100, v / 0x1_0000, v / 0x100_0000;
    assert q2 == q1 / 256;
    assert q3 == q2 / 256;
    WrapShift(v, -(q3 / 256));
    WrapSame(v);
    hide Wrap32;
    var b0, b1, b2, b3 := v % 256, q1 % 256, q2 % 256, q3 % 256;
    assert v == 0x100 * q1 + b0 && q1 == 0x100 * q2 + b1 && q2 == 0x100 * q3 + b2;
  }

  /** A stored output reads back as itself and no other byte moves. */
  lemma StoreOutSpec(d: Memory, full: bool, a: int, v: int)
    requires OutFits(full, v)
    ensures LoadOut(StoreOut(d, full, a, v), full, a) == v
    ensures forall x :: !(a <= x < a + Size(full)) ==> Load(StoreOut(d, full, a, v), x) == Load(d, x)
  {
    if full {
      FourBytes(v);
      var d' := StoreAcc(d, a, v);
      assert Load(d', a) == v % 256 && Load(d', a + 1) == v / 0x100 % 256;
      assert Load(d', a + 2) == v / 0x1_0000 % 256 && Load(d', a + 3) == v / 0x100_0000 % 256;
    }
  }

  lemma LoadOutSame(d: Memory, e: Memory, full: bool, a: int)
    requires forall x :: a <= x < a + Size(full) ==> Load(d, x) == Load(e, x)
    ensures LoadOut(d, full, a) == LoadOut(e, full, a)
  {
  }

  lemma StoreOutOther(d: Memory, full: bool, a: int, v: int, b: int)
    requires OutFits(full, v)
    requires Apart(a, Size(full), b, Size(full))
    ensures LoadOut(StoreOut(d, full, a, v), full, b) == LoadOut(d, full, b)
  {
    hide StoreOut, LoadOut;
    StoreOutSpec(d, full, a, v);
    LoadOutSame(StoreOut(d, full, a, v), d, full, b);
  }

  /** Byte address of element (i, j) of a strided output. */
  function OutAddr(base: int, stride: int, full: bool, i: int, j: int): int {
    base + i * stride + j * Size(full)
  }

  /** No two elements of a strided output share a byte. */
  ghost predicate Distinct(base: int, stride: int, full: bool, rows: int, cols: int) {
    forall i, j, i', j' :: 0 <= i < rows && 0 <= j < cols && 0 <= i' < rows && 0 <= j' < cols
                           && (i != i' || j != j') ==>
      Apart(OutAddr(base, stride, full, i, j), Size(full), OutAddr(base, stride, full, i', j'), Size(full))
  }

  /** Byte x belongs to some element of a strided output. */
  ghost predicate Touched(base: int, stride: int, full: bool, rows: int, cols: int, x: int) {
    exists i, j :: 0 <= i < rows && 0 <= j < cols &&
      OutAddr(base, stride, full, i, j) <= x < OutAddr(base, stride, full, i, j) + Size(full)
  }

  /** Rows that do not run into each other keep all elements apart. */
  lemma StrideKeepsApart(base: int, stride: int, full: bool, rows: int, cols: int)
    requires rows <= 1 || cols * Size(full) <= stride
    ensures Distinct(base, stride, full, rows, cols)
  {
    forall i, j, i', j' | 0 <= i < rows && 0 <= j < cols && 0 <= i' < rows && 0 <= j' < cols && (i != i' || j != j')
      ensures Apart(OutAddr(base, stride, full, i, j), Size(full), OutAddr(base, stride, full, i', j'), Size(full))
    {
      if i < i' {
        RowsApart(i, i', j, cols, stride, Size(full));
        assert 0 <= j' * Size(full);
      } else if i' < i {
        RowsApart(i', i, j', cols, stride, Size(full));
        assert 0 <= j * Size(full);
      }
    }
  }

  lemma RowsApart(i: int, i': int, j: int, cols: int, stride: int, size: int)
    requires 0 <= i < i' && 0 <= j < cols && 0 <= size && cols * size <= stride
    ensures i * stride + j * size + size <= i' * stride
  {
    assert (j + 1) * size <= cols * size;
    assert (i + 1) * stride <= i' * stride;
  }
}
