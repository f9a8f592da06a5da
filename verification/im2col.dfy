/** Four-index arrays as the test programs walk them. */
module Tensors {
  import opened Params
  import opened Machine

  /** An image or a set of kernels, indexed as the C arrays are. */
  type Tensor = (int, int, int, int) -> Elem

  /** Index order of four nested loops. */
  predicate Earlier(b': int, r': int, c': int, o': int, b: int, r: int, c: int, o: int) {
    b' < b || (b' == b && (r' < r || (r' == r && Before(c', o', c, o))))
  }
}

/** Convolution as a matrix product: unrolled patches times flattened weights. */
module Im2col {
  import opened Params
  import opened Wrap
  import opened Sums
  import opened Patches
  import opened Machine
  import opened Tensors

  datatype Shape = Shape(batches: nat, inRows: nat, inCols: nat, inChs: Pos, outChs: nat,
                         kernel: Pos, stride: nat, pad: nat, outRows: Pos, outCols: Pos)
  {
    function PatchCount(): nat { Flat(Flat(batches, outRows, 0), outCols, 0) }
    function PatchSize(): nat { Flat(Flat(kernel, kernel, 0), inChs, 0) }

    /** The row of the patch matrix for output pixel (b, r, c), and the column for tap (kr, kc) of channel ch. */
    function PatchOf(b: int, r: int, c: int): int { Flat(Flat(b, outRows, r), outCols, c) }
    function ColumnOf(kr: int, kc: int, ch: int): int { Flat(Flat(kr, kernel, kc), inChs, ch) }
  }

  function Pixel(s: Shape, x: Tensor, b: int, row: int, col: int, ch: int): Elem {
    if row < 0 || row >= s.inRows || col < 0 || col >= s.inCols then 0 else x(b, row, col, ch)
  }

  function Tap(s: Shape, x: Tensor, b: int, r: int, c: int, kr: int, kc: int, ch: int): Elem {
    Pixel(s, x, b, r * s.stride + kr - s.pad, c * s.stride + kc - s.pad, ch)
  }

  /** The matrices, entry by entry. */
  function Entry(s: Shape, x: Tensor, p: int, q: int): Elem {
    Tap(s, x, p / s.outCols / s.outRows, p / s.outCols % s.outRows, p % s.outCols,
        q / s.inChs / s.kernel, q / s.inChs % s.kernel, q % s.inChs)
  }

  function WeightEntry(s: Shape, w: Tensor, q: int, och: int): Elem {
    w(och, q / s.inChs / s.kernel, q / s.inChs % s.kernel, q % s.inChs)
  }

  /** A two-level index decodes uniquely. */
  lemma Decode(a: int, b: int, c: int, m: Pos, n: Pos)
    requires 0 <= b < m && 0 <= c < n
    ensures var t := Flat(Flat(a, m, b), n, c); t / n / m == a && t / n % m == b && t % n == c
  {
    DivUnique(Flat(Flat(a, m, b), n, c), n, Flat(a, m, b), c);
    DivUnique(Flat(a, m, b), m, a, b);
  }

  lemma FlatRange(a: int, b: int, c: int, k: int, m: Pos, n: Pos)
    requires 0 <= a < k && 0 <= b < m && 0 <= c < n
    ensures 0 <= Flat(Flat(a, m, b), n, c) < Flat(Flat(k, m, 0), n, 0)
  {
    MulLe(a + 1, k, m);
    MulLe(0, a, m);
    assert (a + 1) * m == a * m + m;
    MulLe(Flat(a, m, b) + 1, Flat(k, m, 0), n);
    MulLe(0, Flat(a, m, b), n);
    assert (Flat(a, m, b) + 1) * n == Flat(a, m, b) * n + n;
  }

  /** Counters run through two-level indices one by one. */
  lemma FlatSteps(a: int, b: int, m: int, n: int)
    ensures Flat(Flat(a, m, b), n, n) == Flat(Flat(a, m, b + 1), n, 0)
    ensures Flat(Flat(a, m, m), n, 0) == Flat(Flat(a + 1, m, 0), n, 0)
    ensures Flat(Flat(0, m, 0), n, 0) == 0
  {
    assert Flat(a, m, b + 1) == Flat(a, m, b) + 1;
    assert (Flat(a, m, b) + 1) * n == Flat(a, m, b) * n + n;
    assert (a + 1) * m == a * m + m;
  }

  ghost predicate Unrolled(s: Shape, x: Tensor, mat: array2<Elem>, p: int, q: int)
    reads mat
    requires mat.Length0 == s.PatchCount() && mat.Length1 == s.PatchSize()
  {
    forall p', q' :: 0 <= p' < mat.Length0 && 0 <= q' < mat.Length1 && Before(p', q', p, q) ==>
        mat[p', q'] == Entry(s, x, p', q')
  }

  /** One patch, with the running column index of the source. */
  method UnrollPatch(s: Shape, x: Tensor, mat: array2<Elem>, patch: nat, b: nat, r: nat, c: nat)
    requires mat.Length0 == s.PatchCount() && mat.Length1 == s.PatchSize()
    requires b < s.batches && r < s.outRows && c < s.outCols && patch == s.PatchOf(b, r, c)
    requires Unrolled(s, x, mat, patch, 0)
    modifies mat
    ensures Unrolled(s, x, mat, patch + 1, 0)
  {
    hide Flat, Tap;
    FlatRange(b, r, c, s.batches, s.outRows, s.outCols);
    Decode(b, r, c, s.outRows, s.outCols);
    var column := 0;
    FlatSteps(0, 0, s.kernel, s.inChs);
    for kr := 0 to s.kernel
      invariant column == s.ColumnOf(kr, 0, 0) && Unrolled(s, x, mat, patch, column)
    {
      for kc := 0 to s.kernel
        invariant column == s.ColumnOf(kr, kc, 0) && Unrolled(s, x, mat, patch, column)
      {
        for ch := 0 to s.inChs
          invariant column == s.ColumnOf(kr, kc, ch) && Unrolled(s, x, mat, patch, column)
        {
          FlatRange(kr, kc, ch, s.kernel, s.kernel, s.inChs);
          Decode(kr, kc, ch, s.kernel, s.inChs);
          mat[patch, column] := Tap(s, x, b, r, c, kr, kc, ch);
          FlatNextOne(Flat(kr, s.kernel, kc), s.inChs, ch);
          column := column + 1;
        }
        FlatSteps(kr, kc, s.kernel, s.inChs);
      }
      FlatSteps(kr, 0, s.kernel, s.inChs);
    }
  }

  lemma FlatNextOne(a: int, m: int, j: int)
    ensures Flat(a, m, j + 1) == Flat(a, m, j) + 1
  {
  }

  /** im2col. */
  method Unroll(s: Shape, x: Tensor, mat: array2<Elem>)
    requires mat.Length0 == s.PatchCount() && mat.Length1 == s.PatchSize()
    modifies mat
    ensures forall p, q :: 0 <= p < mat.Length0 && 0 <= q < mat.Length1 ==> mat[p, q] == Entry(s, x, p, q)
  {
    hide Flat, Entry;
    var patch := 0;
    FlatSteps(0, 0, s.outRows, s.outCols);
    for b := 0 to s.batches
      invariant patch == s.PatchOf(b, 0, 0) && Unrolled(s, x, mat, patch, 0)
    {
      for r := 0 to s.outRows
        invariant patch == s.PatchOf(b, r, 0) && Unrolled(s, x, mat, patch, 0)
      {
        for c := 0 to s.outCols
          invariant patch == s.PatchOf(b, r, c) && Unrolled(s, x, mat, patch, 0)
        {
          FlatRange(b, r, c, s.batches, s.outRows, s.outCols);
          UnrollPatch(s, x, mat, patch, b, r, c);
          FlatNextOne(Flat(b, s.outRows, r), s.outCols, c);
          patch := patch + 1;
        }
        FlatSteps(b, r, s.outRows, s.outCols);
      }
      FlatSteps(b, 0, s.outRows, s.outCols);
    }
  }

  ghost predicate Flattened(s: Shape, w: Tensor, mat: array2<Elem>, och: int, q: int)
    reads mat
    requires mat.Length0 == s.PatchSize() && mat.Length1 == s.outChs
  {
    forall q', o' :: 0 <= q' < mat.Length0 && 0 <= o' < mat.Length1 && Before(o', q', och, q) ==>
        mat[q', o'] == WeightEntry(s, w, q', o')
  }

  /** flatten_weights: one column per output channel. */
  method FlattenWeights(s: Shape, w: Tensor, mat: array2<Elem>)
    requires mat.Length0 == s.PatchSize() && mat.Length1 == s.outChs
    modifies mat
    ensures forall q, o :: 0 <= q < mat.Length0 && 0 <= o < mat.Length1 ==> mat[q, o] == WeightEntry(s, w, q, o)
  {
    hide Flat;
    for och := 0 to s.outChs
      invariant Flattened(s, w, mat, och, 0)
    {
      var row := 0;
      FlatSteps(0, 0, s.kernel, s.inChs);
      for kr := 0 to s.kernel
        invariant row == s.ColumnOf(kr, 0, 0) && Flattened(s, w, mat, och, row)
      {
        for kc := 0 to s.kernel
          invariant row == s.ColumnOf(kr, kc, 0) && Flattened(s, w, mat, och, row)
        {
          for ch := 0 to s.inChs
            invariant row == s.ColumnOf(kr, kc, ch) && Flattened(s, w, mat, och, row)
          {
            FlatRange(kr, kc, ch, s.kernel, s.kernel, s.inChs);
            Decode(kr, kc, ch, s.kernel, s.inChs);
            mat[row, och] := w(och, kr, kc, ch);
            FlatNextOne(Flat(kr, s.kernel, kc), s.inChs, ch);
            row := row + 1;
          }
          FlatSteps(kr, kc, s.kernel, s.inChs);
        }
        FlatSteps(kr, 0, s.kernel, s.inChs);
      }
    }
  }

  // The direct convolution.

  ghost function ChTerms(s: Shape, x: Tensor, w: Tensor, b: int, r: int, c: int, och: int, kr: int,
                         kc: int): int -> int {
    ch => Tap(s, x, b, r, c, kr, kc, ch) * w(och, kr, kc, ch)
  }

  ghost function ColTerms(s: Shape, x: Tensor, w: Tensor, b: int, r: int, c: int, och: int, kr: int): int -> int {
    kc => Sum(s.inChs, ChTerms(s, x, w, b, r, c, och, kr, kc))
  }

  ghost function RowTerms(s: Shape, x: Tensor, w: Tensor, b: int, r: int, c: int, och: int): int -> int {
    kr => Sum(s.kernel, ColTerms(s, x, w, b, r, c, och, kr))
  }

  ghost function Direct(s: Shape, x: Tensor, w: Tensor, b: int, r: int, c: int, och: int): int {
    Sum(s.kernel, RowTerms(s, x, w, b, r, c, och))
  }

  lemma TermIs(s: Shape, x: Tensor, w: Tensor, b: int, r: int, c: int, och: int, kr: int, kc: int, ch: int, row: int,
               col: int)
    requires row == r * s.stride + kr - s.pad && col == c * s.stride + kc - s.pad
    ensures ChTerms(s, x, w, b, r, c, och, kr, kc)(ch) ==
            if row >= 0 && row < s.inRows && col >= 0 && col < s.inCols then x(b, row, col, ch) * w(och, kr, kc, ch)
            else 0
  {
    var pixel, weight := Tap(s, x, b, r, c, kr, kc, ch), w(och, kr, kc, ch);
    assert pixel == if row >= 0 && row < s.inRows && col >= 0 && col < s.inCols then x(b, row, col, ch) else 0;
    assert pixel == 0 ==> pixel * weight == 0;
  }

  /** The channels of one tap, added to a running sum; taps outside the image are skipped. */
  method AddTap(s: Shape, x: Tensor, w: Tensor, b: nat, r: nat, c: nat, och: nat, kr: nat, kc: nat, start: Acc,
                ghost total: int)
    returns (acc: Acc)
    requires start == Wrap32(total)
    ensures acc == Wrap32(total + Sum(s.inChs, ChTerms(s, x, w, b, r, c, och, kr, kc)))
  {
    hide Wrap32, Sum, ChTerms;
    ghost var terms := ChTerms(s, x, w, b, r, c, och, kr, kc);
    var irow, icol := r * s.stride + kr - s.pad, c * s.stride + kc - s.pad;
    acc := start;
    SumEnds(0, terms);
    for ch := 0 to s.inChs
      invariant acc == Wrap32(total + Sum(ch, terms))
    {
      TermIs(s, x, w, b, r, c, och, kr, kc, ch, irow, icol);
      SumEnds(ch, terms);
      WrapAdd(total + Sum(ch, terms), terms(ch));
      if irow >= 0 && irow < s.inRows && icol >= 0 && icol < s.inCols {
        acc := Wrap32(acc + x(b, irow, icol, ch) * w(och, kr, kc, ch));
      }
    }
  }

  /** shen_conv_cpu for one output, saturated to int8. */
  method DirectPixel(s: Shape, x: Tensor, w: Tensor, b: nat, r: nat, c: nat, och: nat) returns (v: Elem)
    ensures v == Clamp(Wrap32(Direct(s, x, w, b, r, c, och)))
  {
    hide Wrap32, Sum, ChTerms, Clamp;
    var acc: Acc := 0;
    ghost var rows := RowTerms(s, x, w, b, r, c, och);
    WrapSame(0);
    SumEnds(0, rows);
    for kr := 0 to s.kernel
      invariant acc == Wrap32(Sum(kr, rows))
    {
      ghost var cols := ColTerms(s, x, w, b, r, c, och, kr);
      SumEnds(0, cols);
      for kc := 0 to s.kernel
        invariant acc == Wrap32(Sum(kr, rows) + Sum(kc, cols))
      {
        acc := AddTap(s, x, w, b, r, c, och, kr, kc, acc, Sum(kr, rows) + Sum(kc, cols));
        SumEnds(kc, cols);
      }
      SumEnds(kr, rows);
    }
    v := Clamp(acc);
  }

  ghost predicate Convolved(s: Shape, x: Tensor, w: Tensor, output: array4<Elem>, b: int, r: int, c: int, o: int)
    reads output
    requires output.Length0 == s.batches && output.Length1 == s.outRows && output.Length2 == s.outCols
    requires output.Length3 == s.outChs
  {
    forall b', r', c', o' :: 0 <= b' < s.batches && 0 <= r' < s.outRows && 0 <= c' < s.outCols && 0 <= o' < s.outChs
                             && Earlier(b', r', c', o', b, r, c, o) ==>
      output[b', r', c', o'] == Clamp(Wrap32(Direct(s, x, w, b', r', c', o')))
  }

  /** shen_conv_cpu: the whole output. */
  method ConvCpu(s: Shape, x: Tensor, w: Tensor, output: array4<Elem>)
    requires output.Length0 == s.batches && output.Length1 == s.outRows && output.Length2 == s.outCols
    requires output.Length3 == s.outChs
    modifies output
    ensures forall b, r, c, o :: 0 <= b < s.batches && 0 <= r < s.outRows && 0 <= c < s.outCols && 0 <= o < s.outChs ==>
              output[b, r, c, o] == Clamp(Wrap32(Direct(s, x, w, b, r, c, o)))
  {
    hide Clamp, Wrap32, Direct;
    for b := 0 to s.batches
      invariant Convolved(s, x, w, output, b, 0, 0, 0)
    {
      for r := 0 to s.outRows
        invariant Convolved(s, x, w, output, b, r, 0, 0)
      {
        for c := 0 to s.outCols
          invariant Convolved(s, x, w, output, b, r, c, 0)
        {
          for o := 0 to s.outChs
            invariant Convolved(s, x, w, output, b, r, c, o)
          {
            output[b, r, c, o] := DirectPixel(s, x, w, b, r, c, o);
          }
        }
      }
    }
  }

  // Patches times weights.

  ghost function MatTerms(s: Shape, x: Tensor, w: Tensor, p: int, och: int): int -> int {
    q => Entry(s, x, p, q) * WeightEntry(s, w, q, och)
  }

  lemma TermAt(s: Shape, x: Tensor, w: Tensor, b: int, r: int, c: int, och: int, kr: int, kc: int, ch: int)
    requires 0 <= r < s.outRows && 0 <= c < s.outCols && 0 <= kc < s.kernel && 0 <= ch < s.inChs
    ensures MatTerms(s, x, w, s.PatchOf(b, r, c), och)(s.ColumnOf(kr, kc, ch))
            == ChTerms(s, x, w, b, r, c, och, kr, kc)(ch)
  {
    hide Flat, Tap;
    Decode(b, r, c, s.outRows, s.outCols);
    Decode(kr, kc, ch, s.kernel, s.inChs);
  }

  /** The product of the unrolled patches and the flattened weights is the direct convolution. */
  lemma ProductIsDirect(s: Shape, x: Tensor, w: Tensor, b: int, r: int, c: int, och: int)
    requires 0 <= r < s.outRows && 0 <= c < s.outCols
    ensures Sum(s.PatchSize(), MatTerms(s, x, w, s.PatchOf(b, r, c), och)) == Direct(s, x, w, b, r, c, och)
  {
    hide Flat, MatTerms, ChTerms, Sum;
    var f := MatTerms(s, x, w, s.PatchOf(b, r, c), och);
    var n := Flat(s.kernel, s.kernel, 0);
    var g: int -> int -> int := t => ch => f(Flat(t, s.inChs, ch));
    var h: int -> int := t => Sum(s.inChs, g(t));
    var g': int -> int -> int := kr => kc => h(Flat(kr, s.kernel, kc));
    forall kr | 0 <= kr < s.kernel ensures RowTerms(s, x, w, b, r, c, och)(kr) == Sum(s.kernel, g'(kr)) {
      forall kc | 0 <= kc < s.kernel ensures ColTerms(s, x, w, b, r, c, och, kr)(kc) == g'(kr)(kc) {
        var t := Flat(kr, s.kernel, kc);
        forall ch | 0 <= ch < s.inChs ensures ChTerms(s, x, w, b, r, c, och, kr, kc)(ch) == g(t)(ch) {
          TermAt(s, x, w, b, r, c, och, kr, kc, ch);
        }
        SumSame(s.inChs, ChTerms(s, x, w, b, r, c, och, kr, kc), g(t));
      }
      SumSame(s.kernel, ColTerms(s, x, w, b, r, c, och, kr), g'(kr));
    }
    SumBlocks(s.kernel, s.kernel, h, g', RowTerms(s, x, w, b, r, c, och));
    SumBlocks(n, s.inChs, f, g, h);
  }
}
