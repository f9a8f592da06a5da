/** The normalisation statistics behind layernorm and softmax. */
module Norm {
  import opened Params
  import opened Wrap
  import opened Sums
  import opened Scaling
  import opened State
  import opened Patches

  const ACC_MIN: Acc := -0x8000_0000

  /** C++ integer division truncates toward zero. */
  function TruncDiv(a: int, b: int): int {
    if b == 0 then 0
    else if a >= 0 then (if b > 0 then a / b else -(a / -b))
    else (if b > 0 then -(-a / b) else -a / -b)
  }

  /** Integer square root, searched downwards from `hi`. */
  function SqrtFrom(v: int, hi: nat): nat
    decreases hi
  {
    if hi * hi <= v || hi == 0 then hi else SqrtFrom(v, hi - 1)
  }

  function InvStddev(variance: int): real {
    var stddev := if variance <= 0 then 1 else SqrtFrom(variance, variance);
    if stddev == 0 then 0.0 else 1.0 / stddev as real
  }

  function InvSumExp(sum: int): real {
    if sum == 0 then 0.0 else 127.0 / sum as real
  }

  ghost function MaxFrom(start: int, n: nat, f: int -> int): int {
    if n == 0 then start
    else if f(n - 1) > MaxFrom(start, n - 1, f) then f(n - 1) else MaxFrom(start, n - 1, f)
  }

  ghost function Deviations(x: int -> int, mean: int): int -> int {
    i => (x(i) - mean) * (x(i) - mean)
  }

  function ExpTerm(x: int, max: int, k: NormConsts): int {
    IExp(Wrap32(x - max), k)
  }

  ghost function Exps(x: int -> int, max: int, k: NormConsts): int -> int {
    i => ExpTerm(x(i), max, k)
  }

  lemma SameDeviation(x: int -> int, y: int -> int, mean: int, i: int, j: int)
    requires x(i) == y(j)
    ensures Deviations(x, mean)(i) == Deviations(y, mean)(j)
  {
  }

  lemma ExpsAt(x: int -> int, max: int, k: NormConsts, i: int)
    ensures Exps(x, max, k)(i) == ExpTerm(x(i), max, k)
  {
  }

  /** A pending reset takes effect at the next command. */
  function Fresh(s: NormStat): NormStat {
    if s.reset then s.(sum := 0, count := 0, runningMax := ACC_MIN) else s
  }

  predicate EndsPass(cmd: NormCmd) {
    cmd == RESET || cmd == MEAN || cmd == INV_STDDEV
  }

  /** Fold `len` values into the statistics. */
  ghost function Gather(s: NormStat, x: int -> int, len: nat, cmd: NormCmd, k: NormConsts): NormStat {
    match cmd
    case SUM => s.(sum := Wrap32(s.sum + Sum(len, x)), count := Wrap32(s.count + len))
    case MEAN => s.(sum := Wrap32(s.sum + Sum(len, x)), count := Wrap32(s.count + len))
    case VARIANCE => s.(sum := Wrap32(s.sum + Sum(len, Deviations(x, s.mean))), count := Wrap32(s.count + len))
    case INV_STDDEV => s.(sum := Wrap32(s.sum + Sum(len, Deviations(x, s.mean))), count := Wrap32(s.count + len))
    case MAX => s.(runningMax := Wrap32(MaxFrom(s.runningMax, len, x)))
    case SUM_EXP => s.(max := s.runningMax, sum := Wrap32(s.sum + Sum(len, Exps(x, s.runningMax, k))))
    case INV_SUM_EXP => s.(max := s.runningMax, sum := Wrap32(s.sum + Sum(len, Exps(x, s.runningMax, k))))
    case RESET => s
  }

  function Finish(s: NormStat, cmd: NormCmd): NormStat {
    match cmd
    case MEAN => s.(mean := Wrap32(TruncDiv(s.sum, s.count)))
    case INV_STDDEV => s.(invStddev := InvStddev(TruncDiv(s.sum, s.count)))
    case INV_SUM_EXP => s.(runningMax := ACC_MIN, invSumExp := InvSumExp(s.sum))
    case _ => s
  }

  /** One apply_norm call. */
  ghost function NormStep(s: NormStat, x: int -> int, len: nat, cmd: NormCmd, k: NormConsts): NormStat {
    Finish(Gather(Fresh(s).(reset := EndsPass(cmd)), x, len, cmd, k), cmd)
  }

  function NonTerminating(cmd: NormCmd): NormCmd {
    match cmd
    case MEAN => SUM
    case INV_STDDEV => VARIANCE
    case INV_SUM_EXP => SUM_EXP
    case _ => cmd
  }

  lemma {:induction false} MaxFromSame(start: int, n: nat, f: int -> int, g: int -> int)
    requires forall i :: 0 <= i < n ==> f(i) == g(i)
    ensures MaxFrom(start, n, f) == MaxFrom(start, n, g)
  {
    if n > 0 { MaxFromSame(start, n - 1, f, g); }
  }

  /** A command only looks at the first `len` values. */
  lemma NormStepSame(s: NormStat, x: int -> int, y: int -> int, len: nat, cmd: NormCmd, k: NormConsts)
    requires forall i :: 0 <= i < len ==> x(i) == y(i)
    ensures NormStep(s, x, len, cmd, k) == NormStep(s, y, len, cmd, k)
  {
    hide Sum, MaxFrom, ExpTerm, Wrap32, Finish, Deviations, Exps;
    var f := Fresh(s);
    SumSame(len, x, y);
    MaxFromSame(f.runningMax, len, x, y);
    forall i | 0 <= i < len
      ensures Deviations(x, f.mean)(i) == Deviations(y, f.mean)(i)
    {
      SameDeviation(x, y, f.mean, i, i);
    }
    SumSame(len, Deviations(x, f.mean), Deviations(y, f.mean));
    forall i | 0 <= i < len ensures Exps(x, f.runningMax, k)(i) == Exps(y, f.runningMax, k)(i) {
      ExpsAt(x, f.runningMax, k, i);
      ExpsAt(y, f.runningMax, k, i);
    }
    SumSame(len, Exps(x, f.runningMax, k), Exps(y, f.runningMax, k));
  }
  lemma {:induction false} MaxFromBounds(start: int, n: nat, f: int -> int)
    ensures start <= MaxFrom(start, n, f) && forall i :: 0 <= i < n ==> f(i) <= MaxFrom(start, n, f)
    ensures MaxFrom(start, n, f) == start || exists i :: 0 <= i < n && f(i) == MaxFrom(start, n, f)
  {
    if n > 0 { MaxFromBounds(start, n - 1, f); }
  }

  // What the integer operations compute.

  /** q is a / n rounded toward zero. */
  predicate TowardZero(a: int, n: int, q: int) {
    && (a >= 0 ==> 0 <= a - n * q < n)
    && (a <= 0 ==> -n < a - n * q <= 0)
  }

  lemma TruncDivIs(a: int, n: Pos)
    ensures TowardZero(a, n, TruncDiv(a, n))
  {
    if a < 0 { assert n * -(-a / n) == -(n * (-a / n)); }
  }

  lemma TowardZeroUnique(a: int, n: Pos, q: int, p: int)
    requires TowardZero(a, n, q) && TowardZero(a, n, p)
    ensures q == p
  {
    MulFar(q - p, n);
    assert (q - p) * n == n * q - n * p;
  }

  /** s is the integer square root of v. */
  predicate IsRoot(v: int, s: int) { 0 <= s && s * s <= v < (s + 1) * (s + 1) }

  lemma {:induction false} SqrtSearch(v: nat, hi: nat)
    requires v < (hi + 1) * (hi + 1)
    ensures IsRoot(v, SqrtFrom(v, hi))
    decreases hi
  {
    if !(hi * hi <= v || hi == 0) { SqrtSearch(v, hi - 1); }
  }

  lemma SqrtIsRoot(v: nat)
    ensures IsRoot(v, SqrtFrom(v, v))
  {
    MulLe(1, v + 1, v + 1);
    SqrtSearch(v, v);
  }

  lemma RootUnique(v: int, s: int, t: int)
    requires IsRoot(v, s) && IsRoot(v, t)
    ensures s == t
  {
    if s < t { MulLe(s + 1, t, s + 1); MulLe(s + 1, t, t); }
    if t < s { MulLe(t + 1, s, t + 1); MulLe(t + 1, s, s); }
  }

  /** Layernorm divides by the integer deviation, by one when there is none. */
  lemma InvStddevIs(variance: nat, s: int)
    requires if variance == 0 then s == 1 else IsRoot(variance, s)
    ensures s > 0 && InvStddev(variance) == 1.0 / s as real
  {
    if variance > 0 {
      SqrtIsRoot(variance);
      RootUnique(variance, s, SqrtFrom(variance, variance));
    }
  }

  /** The exponential of q <= 0: halved z times, where z counts the logarithms of two in -q, a polynomial in what is
      left. */
  predicate IsExp(q: int, k: NormConsts, z: int, e: int) {
    var poly := (q + z * k.qln2 + k.qb) * (q + z * k.qln2 + k.qb) + k.qc;
    && 0 <= z < 32 && 0x1_0000 * z <= -q * k.qln2Inv < 0x1_0000 * (z + 1) && -q * k.qln2Inv <= 0x7fff_ffff
    && -0x8000_0000 <= poly <= 0x7fff_ffff && Pow2(z) * e <= poly < Pow2(z) * (e + 1)
  }

  lemma IExpIs(q: Acc, k: NormConsts, z: int, e: int)
    requires IsExp(q, k, z, e)
    ensures IExp(q, k) == e
  {
    hide Wrap32, Pow2;
    var t := (0 - q) * k.qln2Inv;
    assert t == -(q as int) * k.qln2Inv;
    Halvings(t, z);
    var poly := (q + z * k.qln2 + k.qb) * (q + z * k.qln2 + k.qb) + k.qc;
    Halved(poly, z, e);
  }

  lemma Halvings(t: int, z: int)
    requires 0 <= z && 0x1_0000 * z <= t < 0x1_0000 * (z + 1) && t <= 0x7fff_ffff
    ensures Wrap32(t) / 0x1_0000 == z
  {
    WrapSame(t);
  }

  lemma Halved(poly: int, z: nat, e: int)
    requires -0x8000_0000 <= poly <= 0x7fff_ffff && Pow2(z) * e <= poly < Pow2(z) * (e + 1)
    ensures Wrap32(Wrap32(poly) / Pow2(z)) == e
  {
    hide Wrap32, Pow2;
    WrapSame(poly);
    QuotientIs(poly, Pow2(z), e);
    ShiftRange(poly, Pow2(z));
    WrapSame(e);
  }

  lemma QuotientIs(a: int, n: Pos, e: int)
    requires n * e <= a < n * (e + 1)
    ensures a / n == e
  {
    assert n * (e + 1) == n * e + n && n * e == e * n;
    DivUnique(a, n, e, a - e * n);
  }

  lemma ShiftRange(a: Acc, n: Pos)
    ensures -0x8000_0000 <= a / n <= 0x7fff_ffff
  {
    var q, r := a / n, a % n;
    assert a == q * n + r;
    if q > 0x7fff_ffff { MulLe(0x8000_0000, q, n); MulLe(1, n, 0x8000_0000); }
    if q < -0x8000_0000 { MulLe(q, -0x8000_0001, n); MulLe(1, n, 0x8000_0000); }
  }

  /** The integer GELU: with c the magnitude of q limited to -qb, q ((c + qb)^2 + 2 qc) above zero and -q (c + qb)^2
      below. */
  lemma IGeluIs(q: Acc, qb: Acc, qc: Acc, a: int, c: int)
    requires 0 <= a && (a == q || a == 0 - q) && c <= a && c <= 0 - qb && (c == a || c == 0 - qb)
    ensures q >= 0 ==> IGelu(q, qb, qc) == Wrap32(q * ((c + qb) * (c + qb) + 2 * qc))
    ensures q < 0 ==> IGelu(q, qb, qc) == Wrap32((0 - q) * ((c + qb) * (c + qb)))
  {
    hide Wrap32;
    var x: int, square := q, (c + qb) * (c + qb);
    assert x * (-(square + qc) + qc) == (0 - x) * square;
  }
}
