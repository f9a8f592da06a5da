/** What the store activations make of an accumulator value, in plain arithmetic. */
module Outputs {
  import opened Params
  import opened Wrap
  import opened Sums
  import opened Scaling
  import opened State
  import opened Patches
  import opened Norm
  import opened NormPass

  /** What leaves the scaling stage: the value itself at full width, otherwise scaled, rounded and saturated. */
  lemma ScaledOut(cfg: Config, stat: NormStat, full: bool, v: Acc, p: int, r: int)
    requires PreActivate(cfg, stat, v) == p && (full || NearestProduct(p, cfg.accScale, r))
    ensures var out := OutValue(cfg, stat, full, v);
            if full then out == p else Limits(r, cfg.accAct == RELU, out)
  {
    hide PreActivate, Scale, Activate;
    if !full {
      ScaleIsNearest(p, cfg.accScale, r);
      ActivateIsClip(r, Scale(p, cfg.accScale), cfg.accAct);
    }
  }

  /** No activation and ReLU. */
  lemma PlainOut(cfg: Config, stat: NormStat, full: bool, v: Acc, r: int)
    requires (cfg.accAct == NONE || cfg.accAct == RELU) && (full || NearestProduct(v, cfg.accScale, r))
    ensures var out := OutValue(cfg, stat, full, v);
            if full then out == v else Limits(r, cfg.accAct == RELU, out)
  {
    hide OutValue, NearestProduct;
    ScaledOut(cfg, stat, full, v, v, r);
  }

  /** GELU: c is the magnitude a of the value limited to -qb. */
  lemma GeluOut(cfg: Config, stat: NormStat, full: bool, v: Acc, a: int, c: int, p: int, r: int)
    requires cfg.accAct == IGELU && 0 <= a && (a == v || a == 0 - v)
    requires c <= a && c <= 0 - cfg.consts.qb && (c == a || c == 0 - cfg.consts.qb)
    requires p == GeluValue(v, c, cfg.consts) && (full || NearestProduct(p, cfg.accScale, r))
    ensures var out := OutValue(cfg, stat, full, v);
            if full then out == p else Limits(r, false, out)
  {
    hide OutValue, NearestProduct, IGelu, Wrap32, GeluValue;
    GeluIs(v, a, c, cfg.consts);
    ScaledOut(cfg, stat, full, v, p, r);
  }

  /** v ((c + qb)^2 + 2 qc) above zero, -v (c + qb)^2 below, as an int32. */
  function GeluValue(v: int, c: int, k: NormConsts): int {
    if v >= 0 then Wrap32(v * ((c + k.qb) * (c + k.qb) + 2 * k.qc)) else Wrap32((0 - v) * ((c + k.qb) * (c + k.qb)))
  }

  lemma GeluIs(v: Acc, a: int, c: int, k: NormConsts)
    requires 0 <= a && (a == v || a == 0 - v) && c <= a && c <= 0 - k.qb && (c == a || c == 0 - k.qb)
    ensures IGelu(v, k.qb, k.qc) == GeluValue(v, c, k)
  {
    hide IGelu, Wrap32;
    IGeluIs(v, k.qb, k.qc, a, c);
  }

  // Rows of n values.

  /** The row holds the values x. */
  ghost predicate Holds(w: Row, n: nat, x: int -> int) {
    && 0 < w.J && 0 < w.last <= DIM && n == (w.J - 1) * DIM + w.last
    && forall i :: 0 <= i < n ==> x(i) == w.b(i / DIM)(i % DIM) && -0x8000_0000 <= x(i) <= 0x7fff_ffff
  }

  lemma HeldInRange(w: Row, n: nat, x: int -> int, c: int)
    requires Holds(w, n, x) && 0 <= c < n
    ensures -0x8000_0000 <= x(c) <= 0x7fff_ffff
  {
  }

  lemma HeldRow(w: Row, n: nat, x: int -> int)
    requires Holds(w, n, x)
    ensures w.Pos(w.J) == n && forall i :: 0 <= i < n ==> RowValues(w)(i) == x(i)
  {
  }

  /** Mean, variance and deviation of x, as integer arithmetic has them; dev are the squared deviations. */
  ghost predicate Moments(n: nat, x: int -> int, dev: int -> int, mean: int, variance: int, s: int) {
    && 0 < n <= 0x7fff_ffff
    && -0x8000_0000 <= Sum(n, x) <= 0x7fff_ffff && TowardZero(Sum(n, x), n, mean)
    && (forall i :: 0 <= i < n ==> dev(i) == (x(i) - mean) * (x(i) - mean))
    && Sum(n, dev) <= 0x7fff_ffff && TowardZero(Sum(n, dev), n, variance)
    && if variance == 0 then s == 1 else IsRoot(variance, s)
  }

  lemma QuotientRange(a: int, n: Pos, q: int)
    requires TowardZero(a, n, q)
    ensures a >= 0 ==> 0 <= q <= a
    ensures a <= 0 ==> a <= q <= 0
  {
    MulFar(q, n);
    assert n * q == q * n;
    if q >= 0 { MulLe(1, n, q); } else { MulLe(1, n, 0 - q); assert n * (0 - q) == 0 - n * q; }
  }

  lemma {:induction false} SquaresAbove(n: nat, dev: int -> int, c: int)
    requires 0 <= c < n && forall i :: 0 <= i < n ==> 0 <= dev(i)
    ensures dev(c) <= Sum(n, dev)
  {
    if c == n - 1 {
      NonNegative(n - 1, dev);
    } else {
      SquaresAbove(n - 1, dev, c);
    }
  }

  lemma {:induction false} NonNegative(n: nat, f: int -> int)
    requires forall i :: 0 <= i < n ==> 0 <= f(i)
    ensures 0 <= Sum(n, f)
  {
    if n > 0 { NonNegative(n - 1, f); }
  }

  lemma Square(t: int)
    ensures 0 <= t * t && t <= t * t && -t <= t * t
  {
    if t > 0 { MulLe(1, t, t); }
    if t < 0 { MulLe(1, -t, -t); assert -t * -t == t * t; }
  }

  lemma MeanIs(w: Row, n: nat, x: int -> int, mean: int)
    requires Holds(w, n, x) && 0 < n <= 0x7fff_ffff
    requires -0x8000_0000 <= Sum(n, x) <= 0x7fff_ffff && TowardZero(Sum(n, x), n, mean)
    ensures Mean(w) == mean
  {
    hide Wrap32, TruncDiv, TowardZero, Holds, Row.Pos, RowValues;
    HeldRow(w, n, x);
    SumSame(n, RowValues(w), x);
    WrapSame(Sum(n, x));
    WrapSame(n);
    TruncDivIs(Sum(n, x), n);
    TowardZeroUnique(Sum(n, x), n, mean, TruncDiv(Sum(n, x), n));
    QuotientRange(Sum(n, x), n, mean);
    WrapSame(mean);
  }

  lemma DeviationIs(w: Row, n: nat, x: int -> int, dev: int -> int, mean: int, variance: int, s: int)
    requires Holds(w, n, x) && Moments(n, x, dev, mean, variance, s)
    ensures s > 0 && RowInvStddev(w) * s as real == 1.0
  {
    hide Wrap32, TruncDiv, TowardZero, Holds, Row.Pos, RowValues, InvStddev, IsRoot, Sum, Mean;
    MeanIs(w, n, x, mean);
    HeldRow(w, n, x);
    forall i | 0 <= i < n ensures Deviations(RowValues(w), mean)(i) == dev(i) { }
    SumSame(n, Deviations(RowValues(w), mean), dev);
    forall i | 0 <= i < n ensures 0 <= dev(i) { Square(x(i) - mean); }
    NonNegative(n, dev);
    WrapSame(Sum(n, dev));
    WrapSame(n);
    TruncDivIs(Sum(n, dev), n);
    TowardZeroUnique(Sum(n, dev), n, variance, TruncDiv(Sum(n, dev), n));
    QuotientRange(Sum(n, dev), n, variance);
    InvStddevIs(variance, s);
  }

  /** Multiplying by the inverse and truncating is dividing toward zero. */
  lemma TruncQuotient(d: int, s: Pos, inverse: real, p: int)
    requires TowardZero(d, s, p) && inverse * s as real == 1.0
    ensures Truncated(d, inverse) == p
  {
    var x := d as real * inverse;
    assert x * s as real == d as real * (inverse * s as real);
    QuotientRange(d, s, p);
    if d >= 0 {
      RealFloor(x, s, d, p);
    } else {
      assert -x * s as real == (0 - d) as real;
      assert s * (0 - p) == 0 - s * p;
      RealFloor(-x, s, 0 - d, 0 - p);
    }
  }

  lemma RealFloor(x: real, s: Pos, d: nat, p: int)
    requires x * s as real == d as real && 0 <= d - s * p < s && 0 <= p
    ensures x >= 0.0 && x.Floor == p
  {
    var f := s as real;
    assert (s * p) as real == f * p as real;
    var t, k := x - p as real, d - s * p;
    assert f * t == k as real && 0.0 <= k as real < f;
    UnitBounds(f, t, k as real);
    assert x == p as real + t;
  }

  lemma UnitBounds(f: real, t: real, y: real)
    requires f > 0.0 && f * t == y && 0.0 <= y < f
    ensures 0.0 <= t < 1.0
  {
    UnitPart(f, t);
  }

  lemma UnitPart(f: real, t: real)
    requires f > 0.0
    ensures t < 0.0 ==> f * t < 0.0
    ensures t >= 1.0 ==> f * t >= f
  {
    assert t >= 1.0 ==> f * t == f + f * (t - 1.0) && f * (t - 1.0) >= 0.0;
  }

  /** Layernorm: the difference to the mean, divided by the deviation toward zero, then scaled. */
  lemma LayernormOut(cfg: Config, w: Row, n: nat, x: int -> int, dev: int -> int, mean: int, variance: int, s: int,
                     full: bool, c: int, p: int, r: int)
    requires cfg.accAct == LAYERNORM && Holds(w, n, x) && Moments(n, x, dev, mean, variance, s) && 0 <= c < n
    requires TowardZero(x(c) - mean, s, p) && (full || NearestProduct(p, cfg.accScale, r))
    ensures var out := OutValue(cfg, Ideal(w, LAYERNORM, cfg.consts), full, x(c));
            if full then out == p else Limits(r, false, out)
  {
    hide Wrap32, TowardZero, RowInvStddev, Mean, OutValue, NearestProduct, RowMax, RowInvSumExp, Holds, Moments,
         Normalised, Limits;
    HeldInRange(w, n, x, c);
    DeviationIs(w, n, x, dev, mean, variance, s);
    assert Mean(w) == mean by { MomentsMean(w, n, x, dev, mean, variance, s); }
    NormalisedIs(n, x, dev, mean, variance, s, RowInvStddev(w), c, p);
    ScaledOut(cfg, Ideal(w, LAYERNORM, cfg.consts), full, x(c), p, r);
  }

  lemma MomentsMean(w: Row, n: nat, x: int -> int, dev: int -> int, mean: int, variance: int, s: int)
    requires Holds(w, n, x) && Moments(n, x, dev, mean, variance, s)
    ensures Mean(w) == mean
  {
    hide Holds, TowardZero, Sum, Mean;
    MeanIs(w, n, x, mean);
  }

  lemma NormalisedIs(n: nat, x: int -> int, dev: int -> int, mean: Acc, variance: int, s: Pos, inverse: real, c: int,
                     p: int)
    requires Moments(n, x, dev, mean, variance, s) && 0 <= c < n && TowardZero(x(c) - mean, s, p)
    requires -0x8000_0000 <= x(c) <= 0x7fff_ffff && inverse * s as real == 1.0
    ensures Normalised(x(c), mean, inverse) == p
  {
    hide TowardZero, Moments, Normalised;
    DifferenceRange(n, x, dev, mean, variance, s, c);
    NormalisedAt(x(c), mean, s, inverse, p);
  }

  lemma NormalisedAt(v: Acc, mean: Acc, s: Pos, inverse: real, p: int)
    requires -0x7fff_ffff <= v - mean <= 0x7fff_ffff && TowardZero(v - mean, s, p) && inverse * s as real == 1.0
    ensures Normalised(v, mean, inverse) == p
  {
    hide Wrap32, TowardZero, Truncated;
    var d: int := v - mean;
    WrapSame(d);
    TruncQuotient(d, s, inverse, p);
    QuotientRange(d, s, p);
    WrapSame(p);
  }

  lemma DifferenceRange(n: nat, x: int -> int, dev: int -> int, mean: int, variance: int, s: int, c: int)
    requires Moments(n, x, dev, mean, variance, s) && 0 <= c < n
    ensures -0x7fff_ffff <= x(c) - mean <= 0x7fff_ffff
  {
    hide TowardZero, Sum, IsRoot;
    forall i | 0 <= i < n ensures 0 <= dev(i) { Square(x(i) - mean); }
    SquaresAbove(n, dev, c);
    Square(x(c) - mean);
  }

  /** Maximum of x, exponentials e relative to it (halved z times) and their sum. */
  ghost predicate Exponentials(n: nat, x: int -> int, e: int -> int, z: int -> int, max: int, k: NormConsts) {
    && (forall i :: 0 <= i < n ==> x(i) <= max && -0x8000_0000 <= x(i) - max && IsExp(x(i) - max, k, z(i), e(i)))
    && (exists i :: 0 <= i < n && x(i) == max) && 0 < Sum(n, e) <= 0x7fff_ffff
  }

  lemma RowMaxIs(w: Row, n: nat, x: int -> int, max: int)
    requires Holds(w, n, x) && (forall i :: 0 <= i < n ==> x(i) <= max) && exists i :: 0 <= i < n && x(i) == max
    ensures RowMax(w) == max
  {
    hide Wrap32, Row.Pos, RowValues;
    HeldRow(w, n, x);
    MaxFromSame(ACC_MIN, n, RowValues(w), x);
    MaxFromBounds(ACC_MIN, n, x);
    WrapSame(max);
  }

  lemma ExpAt(n: nat, x: int -> int, e: int -> int, z: int -> int, max: Acc, k: NormConsts, i: int)
    requires Exponentials(n, x, e, z, max, k) && 0 <= i < n
    ensures ExpTerm(x(i), max, k) == e(i)
  {
    hide Wrap32, IsExp, IExp, Sum;
    WrapSame(x(i) - max);
    IExpIs(x(i) - max, k, z(i), e(i));
  }

  lemma SumExpIs(w: Row, n: nat, x: int -> int, e: int -> int, z: int -> int, max: int, k: NormConsts)
    requires Holds(w, n, x) && Exponentials(n, x, e, z, max, k)
    ensures RowMax(w) == max && RowInvSumExp(w, k) * Sum(n, e) as real == 127.0
  {
    hide Wrap32, Row.Pos, RowValues, RowMax, Exponentials, Holds, Exps, ExpTerm, Sum, InvSumExp;
    ExponentialFacts(w, n, x, e, z, max, k);
    HeldRow(w, n, x);
    var f := Exps(RowValues(w), max, k);
    forall i | 0 <= i < n ensures f(i) == e(i) {
      ExpsAt(RowValues(w), max, k, i);
      ExpAt(n, x, e, z, max, k, i);
    }
    SumSame(n, f, e);
    WrapSame(Sum(n, e));
    InverseIs(Sum(n, e));
  }

  lemma InverseIs(sum: Pos)
    ensures InvSumExp(sum) * sum as real == 127.0
  {
  }

  lemma ExponentialFacts(w: Row, n: nat, x: int -> int, e: int -> int, z: int -> int, max: int, k: NormConsts)
    requires Holds(w, n, x) && Exponentials(n, x, e, z, max, k)
    ensures RowMax(w) == max && 0 < Sum(n, e) <= 0x7fff_ffff
  {
    hide Holds, IsExp, Sum, RowMax;
    RowMaxIs(w, n, x, max);
  }

  /** Softmax: the exponential's share of 127, rounded and saturated, then scaled. */
  lemma SoftmaxOut(cfg: Config, w: Row, n: nat, x: int -> int, e: int -> int, z: int -> int, max: int, share: real,
                   full: bool, c: int, u: int, p: int, r: int)
    requires cfg.accAct == SOFTMAX && Holds(w, n, x) && Exponentials(n, x, e, z, max, cfg.consts) && 0 <= c < n
    requires share * Sum(n, e) as real == 127.0 && NearestProduct(e(c), share, u) && Limits(u, false, p)
    requires full || NearestProduct(p, cfg.accScale, r)
    ensures var out := OutValue(cfg, Ideal(w, SOFTMAX, cfg.consts), full, x(c));
            if full then out == p else Limits(r, false, out)
  {
    hide Holds, Exponentials, OutValue, NearestProduct, Scale, Sum, RowMax, RowInvSumExp, Mean, RowInvStddev, ExpTerm,
         IExp, Wrap32, Limits, PreActivate;
    HeldInRange(w, n, x, c);
    ExponentialFacts(w, n, x, e, z, max, cfg.consts);
    SumExpIs(w, n, x, e, z, max, cfg.consts);
    SameShare(share, RowInvSumExp(w, cfg.consts), Sum(n, e));
    ExpAt(n, x, e, z, max, cfg.consts, c);
    ShareIs(e(c), share, u, p);
    SoftmaxPre(cfg, Ideal(w, SOFTMAX, cfg.consts), x(c));
    ScaledOut(cfg, Ideal(w, SOFTMAX, cfg.consts), full, x(c), p, r);
  }

  lemma SameShare(a: real, b: real, sum: Pos)
    requires a * sum as real == 127.0 && b * sum as real == 127.0
    ensures a == b
  {
    var f := sum as real;
    assert (a - b) * f == 0.0;
  }

  lemma SoftmaxPre(cfg: Config, t: NormStat, v: Acc)
    requires cfg.accAct == SOFTMAX
    ensures PreActivate(cfg, t, v) == Scale(ExpTerm(v, t.max, cfg.consts), t.invSumExp)
  {
    hide Scale, IExp, Wrap32;
  }

  lemma ShareIs(e: int, share: real, u: int, p: int)
    requires NearestProduct(e, share, u) && Limits(u, false, p)
    ensures Scale(e, share) == p
  {
    hide NearestProduct, Scale;
    ScaleIsNearest(e, share, u);
  }
}
