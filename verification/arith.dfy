/** Sizes and element types of the accelerator, two's complement wrap-around, and finite sums. */
module Params {

  type Pos = x: int | x > 0 witness 1

  // The generated header fixes these; nothing below depends on the particular values
  // unless a lemma says so.
  const DIM: Pos
  const SPAD_ROWS: nat
  const ACC_ROWS: Pos
  const MAX_BLOCK_LEN: Pos
  const MAX_BLOCK_LEN_ACC: Pos
  const NORM_STAT_IDS := 4

  type Elem = x: int | -128 <= x <= 127
  type Acc = x: int | -0x8000_0000 <= x <= 0x7fff_ffff
  type Byte = x: int | 0 <= x <= 255

  function Clamp(x: int): (e: Elem)
    ensures -128 <= x <= 127 ==> e == x
  {
    if x > 127 then 127 else if x < -128 then -128 else x
  }

  function Min(x: int, y: int): int {
    if x < y then x else y
  }
}

module Wrap {
  import opened Params

  const TWO32: int := 0x1_0000_0000

  /** The int32 value a C++ accumulation leaves behind: two's complement wrap-around. */
  function Wrap32(x: int): (r: Acc)
  {
    (x + 0x8000_0000) % TWO32 - 0x8000_0000
  }

  lemma WrapSame(x: int)
    requires -0x8000_0000 <= x <= 0x7fff_ffff
    ensures Wrap32(x) == x
  {
  }

  lemma WrapShift(x: int, k: int)
    ensures Wrap32(x + k * TWO32) == Wrap32(x)
  {
    assert (x + 0x8000_0000 + k * TWO32) % TWO32 == (x + 0x8000_0000) % TWO32;
  }

  /** Wrapping early or late makes no difference to a running sum. */
  lemma WrapAdd(x: int, y: int)
    ensures Wrap32(Wrap32(x) + y) == Wrap32(x + y)
  {
    var k := (x + 0x8000_0000) / TWO32;
    assert Wrap32(x) == x - k * TWO32;
    WrapShift(x + y, -k);
  }

  lemma WrapAdd2(x: int, y: int)
    ensures Wrap32(x + Wrap32(y)) == Wrap32(x + y)
  {
    WrapAdd(y, x);
  }
}

/** Finite sums of integer functions. */
module Sums {

  ghost function Sum(n: nat, f: int -> int): int {
    if n == 0 then 0 else Sum(n - 1, f) + f(n - 1)
  }

  lemma {:induction false} SumSame(n: nat, f: int -> int, g: int -> int)
    requires forall i :: 0 <= i < n ==> f(i) == g(i)
    ensures Sum(n, f) == Sum(n, g)
  {
    if n > 0 {
      SumSame(n - 1, f, g);
    }
  }

  lemma {:induction false} SumZero(n: nat, f: int -> int)
    requires forall i :: 0 <= i < n ==> f(i) == 0
    ensures Sum(n, f) == 0
  {
    if n > 0 {
      SumZero(n - 1, f);
    }
  }

  lemma {:induction false} SumAdd(n: nat, f: int -> int, g: int -> int, h: int -> int)
    requires forall i :: 0 <= i < n ==> h(i) == f(i) + g(i)
    ensures Sum(n, h) == Sum(n, f) + Sum(n, g)
  {
    if n > 0 {
      SumAdd(n - 1, f, g, h);
    }
  }

  /** A sum over n + m terms is a sum over the first n followed by the next m. */
  lemma {:induction false} SumSplit(n: nat, m: nat, f: int -> int, g: int -> int)
    requires forall i :: 0 <= i < m ==> g(i) == f(n + i)
    ensures Sum(n + m, f) == Sum(n, f) + Sum(m, g)
  {
    if m > 0 {
      SumSplit(n, m - 1, f, g);
      assert Sum(n + m, f) == Sum(n + m - 1, f) + f(n + (m - 1));
    }
  }

  /** Terms that vanish from n on may be dropped. */
  lemma SumTrim(n: nat, m: nat, f: int -> int)
    requires n <= m
    requires forall i :: n <= i < m ==> f(i) == 0
    ensures Sum(m, f) == Sum(n, f)
  {
    var g := i => f(n + i);
    SumSplit(n, m - n, f, g);
    SumZero(m - n, g);
  }

  lemma {:induction false} SumBound(n: nat, f: int -> int, b: nat)
    requires forall i :: 0 <= i < n ==> 0 - b <= f(i) <= b
    ensures 0 - n * b <= Sum(n, f) <= n * b
  {
    if n > 0 {
      SumBound(n - 1, f, b);
      assert n * b == (n - 1) * b + b;
    }
  }

  function Flat(i: int, m: int, j: int): int {
    i * m + j
  }

  lemma FlatNext(i: int, m: int)
    ensures Flat(i, m, 0) + m == Flat(i + 1, m, 0)
    ensures forall j :: Flat(i, m, j) == Flat(i, m, 0) + j
  {
  }

  lemma SumNextBlock(n: nat, m: nat, f: int -> int, g: int -> int)
    requires 0 <= Flat(n, m, 0) && forall j :: 0 <= j < m ==> g(j) == f(Flat(n, m, j))
    ensures 0 <= Flat(n + 1, m, 0) && Sum(Flat(n + 1, m, 0), f) == Sum(Flat(n, m, 0), f) + Sum(m, g)
  {
    hide Flat, Sum;
    FlatNext(n, m);
    SumSplit(Flat(n, m, 0), m, f, g);
  }

  lemma SumEnds(n: nat, f: int -> int)
    ensures Sum(0, f) == 0 && Sum(n + 1, f) == Sum(n, f) + f(n)
  {
  }

  /** Summing n blocks of m terms is summing all the terms. */
  lemma {:induction false} SumBlocks(n: nat, m: nat, f: int -> int, g: int -> int -> int, h: int -> int)
    requires forall i, j :: 0 <= i < n && 0 <= j < m ==> g(i)(j) == f(Flat(i, m, j))
    requires forall i :: 0 <= i < n ==> h(i) == Sum(m, g(i))
    ensures 0 <= Flat(n, m, 0) && Sum(Flat(n, m, 0), f) == Sum(n, h)
  {
    hide Flat, Sum;
    if n == 0 {
      FlatZero(m);
      SumEnds(0, f);
      SumEnds(0, h);
    } else {
      SumBlocks(n - 1, m, f, g, h);
      SumNextBlock(n - 1, m, f, g(n - 1));
      SumEnds(n - 1, h);
    }
  }

  lemma FlatZero(m: int)
    ensures Flat(0, m, 0) == 0
  {
  }
}
