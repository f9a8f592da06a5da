/** The value-level arithmetic of the load, store and execute pipelines. */
module Scaling {
  import opened Params
  import opened Patches

  datatype Activation = NONE | RELU | LAYERNORM | IGELU | SOFTMAX

  function Trunc(x: real): int {
    if x >= 0.0 then x.Floor else -((-x).Floor)
  }

  function Abs(x: real): real {
    if x < 0.0 then -x else x
  }

  /** The ROUND_NEAR_EVEN macro: truncate, then move one away from zero when that is nearer
      or when it is equally near and even. */
  function RoundNearEven(x: real): int {
    var i := Trunc(x);
    var next := if x < 0.0 then i - 1 else i + 1;
    var rem := Abs(x - i as real);
    if rem < 0.5 then i else if rem > 0.5 then next else if i % 2 == 0 then i else next
  }

  /** Nearest integer, ties to even: the property pins the result down (see RoundUnique). */
  ghost predicate Nearest(x: real, r: int) {
    && Abs(x - r as real) <= 0.5
    && (Abs(x - r as real) == 0.5 ==> r % 2 == 0)
  }

  lemma FloorNext(x: real)
    ensures x.Floor as real <= x < x.Floor as real + 1.0
  {
  }

  lemma RoundIsNearest(x: real)
    ensures Nearest(x, RoundNearEven(x))
  {
    FloorNext(x);
    FloorNext(-x);
  }

  lemma RoundUnique(x: real, r: int, s: int)
    requires Nearest(x, r) && Nearest(x, s)
    ensures r == s
  {
  }

  lemma NearestMonotone(x: real, y: real, r: int, s: int)
    requires x <= y && Nearest(x, r) && Nearest(y, s)
    ensures r <= s
  {
  }

  lemma RoundMonotone(x: real, y: real)
    requires x <= y
    ensures RoundNearEven(x) <= RoundNearEven(y)
  {
    RoundIsNearest(x);
    RoundIsNearest(y);
    NearestMonotone(x, y, RoundNearEven(x), RoundNearEven(y));
  }

  /** ACC_SCALE and MVIN_SCALE: multiply, round, saturate to int8. */
  function Scale(value: int, scale: real): Elem {
    Clamp(RoundNearEven(value as real * scale))
  }

  lemma ScaleIdentity(value: int)
    ensures Scale(value, 1.0) == Clamp(value)
  {
    assert value as real * 1.0 == value as real;
  }

  /** e is r limited to the int8 range, and to zero and above on request. */
  predicate Limits(r: int, relu: bool, e: int) {
    && (r < 0 && relu ==> e == 0)
    && (r < -128 && !relu ==> e == -128)
    && (r > 127 ==> e == 127)
    && (-128 <= r <= 127 && (relu ==> 0 <= r) ==> e == r)
  }

  /** r is the product rounded to the nearest integer, ties to even. */
  ghost predicate NearestProduct(v: int, scale: real, r: int) { Nearest(v as real * scale, r) }

  /** Scaling is multiplication, rounding to nearest with ties to even, and saturation. */
  lemma ScaleIsNearest(v: int, scale: real, r: int)
    requires NearestProduct(v, scale, r)
    ensures Limits(r, false, Scale(v, scale))
  {
    hide RoundNearEven;
    RoundIsNearest(v as real * scale);
    RoundUnique(v as real * scale, r, RoundNearEven(v as real * scale));
  }

  lemma HasNearest(v: int, scale: real) returns (r: int)
    ensures NearestProduct(v, scale, r)
  {
    r := RoundNearEven(v as real * scale);
    RoundIsNearest(v as real * scale);
  }

  /** ReLU clips what is below zero and nothing else. */
  lemma ActivateIsClip(r: int, e: Elem, act: Activation)
    requires Limits(r, false, e)
    ensures Limits(r, act == RELU, Activate(e, act))
  {
  }

  lemma RealMulMonotone(x: real, y: real, scale: real)
    requires x <= y && scale >= 0.0
    ensures x * scale <= y * scale
  {
    assert y * scale == x * scale + (y - x) * scale;
  }

  lemma ScaleMonotone(v: int, w: int, scale: real)
    requires v <= w && scale >= 0.0
    ensures Scale(v, scale) <= Scale(w, scale)
  {
    hide RoundNearEven;
    var x, y := v as real * scale, w as real * scale;
    assert x <= y by { RealMulMonotone(v as real, w as real, scale); }
    RoundMonotone(x, y);
  }

  function Activate(value: Elem, act: Activation): Elem {
    if act == RELU && value <= 0 then 0 else value
  }

  function Pow2(n: nat): (p: Pos) {
    if n == 0 then 1 else 2 * Pow2(n - 1)
  }

  /** ROUNDING_RIGHT_SHIFT: bit `shift - 1` is added back when a lower bit is set or the result is odd. */
  function RoundingShift(x: int, shift: nat): int {
    if shift == 0 then x else
      var q := x / Pow2(shift);
      var half := x / Pow2(shift - 1) % 2;
      var sticky := shift > 1 && x % Pow2(shift - 1) != 0;
      q + (if half == 1 && (sticky || q % 2 == 1) then 1 else 0)
  }

  function SysShift(x: int, shift: nat): Elem {
    Clamp(RoundingShift(x, shift))
  }

  /** r is x / n rounded to nearest, ties to even. */
  ghost predicate NearestQuotient(x: int, n: int, r: int) {
    && -n <= 2 * (x - r * n) <= n
    && ((2 * (x - r * n) == n || 2 * (x - r * n) == -n) ==> r % 2 == 0)
  }

  lemma HalfBit(x: int, m: Pos)
    ensures x == x / (2 * m) * (2 * m) + x / m % 2 * m + x % m
  {
    var h, low := x / m, x % m;
    assert x == h * m + low;
    HalfBits(x, m, h / 2, h % 2, low);
  }

  lemma HalfBits(x: int, m: Pos, q: int, half: int, low: int)
    requires x == (2 * q + half) * m + low && 0 <= half <= 1 && 0 <= low < m
    ensures x / (2 * m) == q && x == q * (2 * m) + half * m + low
  {
    assert (2 * q + half) * m == q * (2 * m) + half * m;
    assert half * m == if half == 1 then m else 0;
    DivUnique(x, 2 * m, q, half * m + low);
  }

  lemma ShiftCases(x: int, m: Pos, q: int, half: int, low: int, r: int)
    requires x == q * (2 * m) + half * m + low && 0 <= half <= 1 && 0 <= low < m
    requires r == q + (if half == 1 && (low != 0 || q % 2 == 1) then 1 else 0)
    ensures NearestQuotient(x, 2 * m, r)
  {
    assert (q + 1) * (2 * m) == q * (2 * m) + 2 * m;
    assert half * m == if half == 1 then m else 0;
  }

  /** sys_shift rounds to nearest, ties to even, for every value and every shift. */
  lemma ShiftIsNearest(x: int, shift: nat)
    ensures NearestQuotient(x, Pow2(shift), RoundingShift(x, shift))
  {
    if shift > 0 {
      var m := Pow2(shift - 1);
      assert Pow2(shift) == 2 * m && (shift == 1 ==> m == 1);
      HalfBit(x, m);
      ShiftCases(x, m, x / (2 * m), x / m % 2, x % m, RoundingShift(x, shift));
    }
  }

  lemma NearestQuotientMonotone(x: int, y: int, n: Pos, r: int, s: int)
    requires x <= y && NearestQuotient(x, n, r) && NearestQuotient(y, n, s)
    ensures r <= s
  {
    MulFar(r - s, n);
    MulFar(r - s - 1, n);
    assert (r - s) * n == r * n - s * n && (r - s - 1) * n == (r - s) * n - n;
  }

  /** The rounding property determines the result. */
  lemma NearestQuotientUnique(x: int, n: Pos, r: int, s: int)
    requires NearestQuotient(x, n, r) && NearestQuotient(x, n, s)
    ensures r == s
  {
    NearestQuotientMonotone(x, x, n, r, s);
    NearestQuotientMonotone(x, x, n, s, r);
  }

  lemma ShiftMonotone(x: int, y: int, shift: nat)
    requires x <= y
    ensures SysShift(x, shift) <= SysShift(y, shift)
  {
    hide RoundingShift;
    ShiftIsNearest(x, shift);
    ShiftIsNearest(y, shift);
    NearestQuotientMonotone(x, y, Pow2(shift), RoundingShift(x, shift), RoundingShift(y, shift));
  }
  /** The array's shift is division by a power of two, rounded to nearest with ties to even, and saturation. */
  lemma ShiftsToNearest(v: int, shift: nat, r: int)
    requires NearestQuotient(v, Pow2(shift), r)
    ensures Limits(r, false, SysShift(v, shift))
  {
    hide RoundingShift;
    ShiftIsNearest(v, shift);
    NearestQuotientUnique(v, Pow2(shift), r, RoundingShift(v, shift));
  }
}
