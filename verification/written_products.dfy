/** Products with matrices given as rows of blocks: output `r` is the product with row `r`, and the weights are those
    the blocks were packed from. */
module WrittenProducts {
  import opened Machine
  import opened Float32
  import opened RealSums
  import opened FloatLanes
  import opened Q8K
  import opened ActivationRows
  import opened WeightBlocks
  import opened WrittenWeights
  import Gemv
  import opened PooledGemv
  import DotQ4K
  import DotQ6K
  import DotQ50
  import DotQ80
  import Q4K
  import Q6K
  import Q4KMeaning
  import Q6KMeaning

  /** The number each weight type has in a GGUF file. */
  function Kind(ty: QType): nat {
    match ty
    case TypeQ80 => 8
    case TypeQ50 => 6
    case TypeQ6K => 14
    case TypeQ4K => 12
  }

  /** Rows that are `cols` wide, or as much of that as whole blocks cover. */
  ghost predicate Matrix(rows: seq<seq<Block>>, kind: nat, cols: nat) {
    SoundMatrix(rows, kind, cols / WeightsPerBlock(kind))
  }

  function Packed(rows: seq<seq<Block>>, kind: nat, cols: nat): seq<byte>
    requires Matrix(rows, kind, cols)
  {
    PackedMatrix(rows, kind, cols / WeightsPerBlock(kind))
  }

  lemma RowOfPacked(rows: seq<seq<Block>>, kind: nat, cols: nat, rest: seq<byte>, r: nat)
    requires Matrix(rows, kind, cols) && r < |rows|
    ensures var size := BytesPerBlock(kind) * (cols / WeightsPerBlock(kind));
            |rows| * size <= |Packed(rows, kind, cols) + rest|
            && Gemv.Row(Packed(rows, kind, cols) + rest, size, |rows|, r) == PackedRow(rows[r], kind)
  {
    hide PackedRow, SoundRow, Flatten, Gemv.Row;
    var parts := seq(|rows|, i requires 0 <= i < |rows| => PackedRow(rows[i], kind));
    var size := BytesPerBlock(kind) * (cols / WeightsPerBlock(kind));
    forall i | 0 <= i < |parts|
      ensures |parts[i]| == size
    {
      RowLength(rows[i], kind);
    }
    Gemv.RowBack(parts, rest, size, r);
  }

  lemma RowSizes(ty: QType, cols: nat)
    ensures RowBytes(ty, cols) == BytesPerBlock(Kind(ty)) * (cols / WeightsPerBlock(Kind(ty)))
  {
  }

  /** The dequantised weights of row `r` of a packed matrix are the weights row `r` was packed from. */
  lemma WeightsOfRow(ty: QType, rows: seq<seq<Block>>, cols: nat, rest: seq<byte>, r: nat, rd: Reading)
    requires Matrix(rows, Kind(ty), cols) && r < |rows|
    ensures var weight := Packed(rows, Kind(ty), cols) + rest;
            |rows| * RowBytes(ty, cols) <= |weight| && Weights(ty, weight, cols, |rows|, r, rd) == Values(rows[r], Kind(ty), rd)
  {
    hide Packed, Gemv.Row, PackedRow, Values, SoundRow, Q4KMeaning.WeightRow, Q6KMeaning.WeightRow, DotQ80.WeightRow, DotQ50.WeightRow;
    RowOfPacked(rows, Kind(ty), cols, rest, r);
    RowSizes(ty, cols);
    match ty
    case TypeQ80 => Q8Row(rows[r], rd);
    case TypeQ50 => Q5Row(rows[r], rd);
    case TypeQ6K => Q6Row(rows[r], rd);
    case TypeQ4K => Q4Row(rows[r], rd);
  }

  /** `ProductError`, with the weights and the number of blocks given by name. */
  lemma ErrorFor(ty: QType, y: seq<F32>, weight: seq<byte>, x: seq<F32>, before: seq<byte>, rows: nat, cols: nat,
                 codec: Codec, rd: Reading, r: nat, w: seq<real>, n: nat)
    requires Quantises(ty) && rows * RowBytes(ty, cols) <= |weight| && n == cols / QK && BLOCK * n <= |before|
    requires |x| == QK * n && rd.bits == codec.fromBits && r < rows && r < |y|
    requires RowDone(ty, y, weight, Input(QuantizedInto(before, RealRow(x, rd), n, codec.toBits), x), cols, rows, r)
    requires w == Weights(ty, weight, cols, rows, r, rd) && |w| == |x|
    ensures Abs(Eval(y[r], rd) - Dot(w, RealRow(x, rd), 0, |x|)) <= ErrorBound(w, RealRow(x, rd), n, codec)
  {
    hide QuantizedInto, Weights, RealRow, WithinBound, Abs, Dot, ErrorBound, Eval, RowDone, RowBytes, Feeds;
    PooledGemv.ProductError(ty, y, weight, x, before, rows, cols, codec, rd, r);
    assert WithinBound(Eval(y[r], rd), w, RealRow(x, rd), n, codec);
    BoundOf(Eval(y[r], rd), w, RealRow(x, rd), n, codec);
  }

  lemma BoundOf(value: real, w: seq<real>, x: seq<real>, n: nat, codec: Codec)
    requires |w| == |x| == QK * n && WithinBound(value, w, x, n, codec)
    ensures Abs(value - Dot(w, x, 0, |x|)) <= ErrorBound(w, x, n, codec)
  {
    hide Abs, Dot, ErrorBound;
  }

  /** What `ParallelGEMV` promises of output `r`, for a packed matrix. */
  ghost predicate Multiplied(ty: QType, y: seq<F32>, rows: seq<seq<Block>>, rest: seq<byte>, inp: Input, cols: nat, r: nat)
    requires Matrix(rows, Kind(ty), cols)
  {
    var weight := Packed(rows, Kind(ty), cols) + rest;
    r < |rows| && Feeds(ty, weight, inp, cols, |rows|) && RowDone(ty, y, weight, inp, cols, |rows|, r)
  }

  /** With quantised activations, output `r` is within the bound of the exact product with row `r`. */
  lemma WrittenError(ty: QType, y: seq<F32>, rows: seq<seq<Block>>, rest: seq<byte>, x: seq<F32>, before: seq<byte>, cols: nat,
                     codec: Codec, rd: Reading, r: nat)
    requires Quantises(ty) && Matrix(rows, Kind(ty), cols) && BLOCK * (cols / QK) <= |before|
    requires |x| == QK * (cols / QK) && rd.bits == codec.fromBits
    requires Multiplied(ty, y, rows, rest, Input(QuantizedInto(before, RealRow(x, rd), cols / QK, codec.toBits), x), cols, r)
    ensures r < |rows| && r < |y| && |Values(rows[r], Kind(ty), rd)| == |x|
    ensures var w := Values(rows[r], Kind(ty), rd);
            Abs(Eval(y[r], rd) - Dot(w, RealRow(x, rd), 0, |x|)) <= ErrorBound(w, RealRow(x, rd), cols / QK, codec)
  {
    hide Packed, Values, QuantizedInto, Weights, RealRow, ErrorBound, Dot, Abs, Eval, RowValue, Feeds, RowBytes, SoundRow;
    WeightsOfRow(ty, rows, cols, rest, r, rd);
    ErrorFor(ty, y, Packed(rows, Kind(ty), cols) + rest, x, before, |rows|, cols, codec, rd, r, Values(rows[r], Kind(ty), rd), cols / QK);
  }

  /** With float activations it is that product, over the reals. */
  lemma WrittenExact(ty: QType, y: seq<F32>, rows: seq<seq<Block>>, rest: seq<byte>, inp: Input, cols: nat, rd: Reading, r: nat)
    requires !Quantises(ty) && Matrix(rows, Kind(ty), cols) && |inp.x| == 32 * (cols / 32)
    requires Multiplied(ty, y, rows, rest, inp, cols, r)
    ensures r < |rows| && r < |y| && |Values(rows[r], Kind(ty), rd)| == |inp.x|
    ensures Eval(y[r], rd) == Dot(Values(rows[r], Kind(ty), rd), RealRow(inp.x, rd), 0, |inp.x|)
  {
    hide Packed, Values, Weights, RealRow, Dot, Eval, RowValue;
    var weight := Packed(rows, Kind(ty), cols) + rest;
    WeightsOfRow(ty, rows, cols, rest, r, rd);
    ProductExact(ty, y, weight, inp, |rows|, cols, rd, r);
  }

  // ----- the bound, element by element -----

  /** What quantising may cost each element: a 254th of a bound on its block's activations. */
  function Tolerances(bounds: seq<real>, n: nat): (t: seq<real>)
    requires |bounds| == n
    ensures |t| == 256 * n
  {
    seq(256 * n, i requires 0 <= i < 256 * n => bounds[i / 256] / 254.0)
  }

  /** `bounds[b]` bounds the magnitude of the activations of block `b`. */
  ghost predicate Bounded(x: seq<real>, bounds: seq<real>) {
    |x| == 256 * |bounds| && forall i :: 0 <= i < |x| ==> -bounds[i / 256] <= x[i] <= bounds[i / 256]
  }

  lemma AMaxWithin(x: seq<real>, bounds: seq<real>, b: nat)
    requires Bounded(x, bounds) && b < |bounds|
    ensures QK * (b + 1) <= |x| && 0.0 <= AMax(XBlock(x, b)) <= bounds[b]
  {
    hide AMax;
    var v := XBlock(x, b);
    AMaxBounds(v);
    assert (QK * b) / 256 == b && -bounds[b] <= x[QK * b] <= bounds[b];
    if AMax(v) != 0.0 {
      var i :| 0 <= i < |v| && Abs(v[i]) == AMax(v);
      assert v[i] == x[QK * b + i] && (QK * b + i) / 256 == b;
    }
  }

  lemma NonNegativeSum(s: seq<real>, lo: nat, hi: nat)
    requires lo <= hi <= |s| && forall i :: lo <= i < hi ==> s[i] >= 0.0
    ensures Sum(s, lo, hi) >= 0.0
    decreases hi - lo
  {
    if lo < hi {
      NonNegativeSum(s, lo, hi - 1);
    }
  }

  lemma LargerFactor(a: real, b: real, s: real)
    requires a <= b && s >= 0.0
    ensures Times(a, s) <= Times(b, s)
  {
  }

  /** Under one tolerance, a block's products sum to the tolerance times its absolute weight. */
  lemma {:induction false} BlockTolerance(t: seq<real>, w: seq<real>, k: real, lo: nat, hi: nat)
    requires |t| == |w| && lo <= hi <= |t| && forall i :: lo <= i < hi ==> t[i] == k
    ensures Dot(t, AbsAll(w), lo, hi) == Times(k, Sum(AbsAll(w), lo, hi))
    decreases hi - lo
  {
    if lo < hi {
      BlockTolerance(t, w, k, lo, hi - 1);
      Distribute(k, Sum(AbsAll(w), lo, hi - 1), AbsAll(w)[hi - 1]);
    }
  }

  /** The sum over blocks is at most the sum over elements of tolerance times absolute weight. */
  lemma {:induction false} HalfStepWithin(w: seq<real>, x: seq<real>, bounds: seq<real>, m: nat)
    requires |w| == |x| && Bounded(x, bounds) && m <= |bounds|
    ensures HalfStepBound(w, x, m) <= Dot(Tolerances(bounds, |bounds|), AbsAll(w), 0, 256 * m)
    decreases m
  {
    hide Tolerances, AMax, Times, AbsAll, Sum, Products, XBlock;
    var t := Tolerances(bounds, |bounds|);
    if m == 0 {
      SumEmpty(Products(t, AbsAll(w)), 0);
    } else {
      var lo, hi, k := QK * (m - 1), QK * m, bounds[m - 1] / 254.0;
      HalfStepWithin(w, x, bounds, m - 1);
      AMaxWithin(x, bounds, m - 1);
      forall i | lo <= i < hi
        ensures t[i] == k
      {
        ToleranceAt(bounds, m - 1, i);
      }
      BlockTolerance(t, w, k, lo, hi);
      AbsNonNegative(w);
      NonNegativeSum(AbsAll(w), lo, hi);
      LargerFactor(AMax(XBlock(x, m - 1)) / 254.0, k, Sum(AbsAll(w), lo, hi));
      SumSplit(Products(t, AbsAll(w)), 0, lo, hi);
    }
  }

  lemma ToleranceAt(bounds: seq<real>, b: nat, i: nat)
    requires b < |bounds| && 256 * b <= i < 256 * b + 256
    ensures i < 256 * |bounds| && Tolerances(bounds, |bounds|)[i] == bounds[b] / 254.0
  {
  }

  lemma AbsNonNegative(w: seq<real>)
    ensures forall i :: 0 <= i < |w| ==> AbsAll(w)[i] >= 0.0
  {
  }

  /** Where the block scales survive storage, for any bounds on the activations of each block: output `r` is within
      the sum over the elements of row `r` of its absolute weight times its block's bound divided by 254. */
  lemma WrittenWithin(ty: QType, y: seq<F32>, rows: seq<seq<Block>>, rest: seq<byte>, x: seq<F32>, before: seq<byte>, cols: nat,
                      codec: Codec, rd: Reading, r: nat, bounds: seq<real>)
    requires Quantises(ty) && Matrix(rows, Kind(ty), cols) && BLOCK * (cols / QK) <= |before|
    requires |x| == QK * (cols / QK) && rd.bits == codec.fromBits
    requires Multiplied(ty, y, rows, rest, Input(QuantizedInto(before, RealRow(x, rd), cols / QK, codec.toBits), x), cols, r)
    requires ExactScales(RealRow(x, rd), cols / QK, codec) && Bounded(RealRow(x, rd), bounds)
    ensures r < |rows| && r < |y| && |Values(rows[r], Kind(ty), rd)| == |x| == 256 * |bounds|
    ensures var w := Values(rows[r], Kind(ty), rd);
            Abs(Eval(y[r], rd) - Dot(w, RealRow(x, rd), 0, |x|)) <= Dot(Tolerances(bounds, |bounds|), AbsAll(w), 0, |x|)
  {
    hide Packed, Values, QuantizedInto, RealRow, ErrorBound, HalfStepBound, Dot, Abs, AbsAll, Eval, Multiplied, ExactScales, Tolerances;
    WrittenError(ty, y, rows, rest, x, before, cols, codec, rd, r);
    var w := Values(rows[r], Kind(ty), rd);
    ExactBound(w, RealRow(x, rd), cols / QK, codec);
    HalfStepWithin(w, RealRow(x, rd), bounds, cols / QK);
  }

  // ----- the float kernels of the two K types -----

  /** The `Q4_K` and `Q6_K` float dot products with a packed row. */
  lemma FloatProducts(q4: seq<Block>, q6: seq<Block>, x: seq<F32>, n: nat, rd: Reading)
    requires SoundRow(q4, 12) && SoundRow(q6, 14) && |q4| == |q6| == n && |x| == 256 * n
    ensures |PackedRow(q4, 12)| == 144 * n && |PackedRow(q6, 14)| == 210 * n
    ensures Eval(HSum(DotQ4K.Lanes(PackedRow(q4, 12), x, n, 0)), rd) == Dot(Values(q4, 12, rd), RealRow(x, rd), 0, 256 * n)
    ensures Eval(HSum(DotQ6K.Lanes(PackedRow(q6, 14), x, n, 0)), rd) == Dot(Values(q6, 14, rd), RealRow(x, rd), 0, 256 * n)
  {
    hide PackedRow, Values, Eval, HSum, DotQ4K.Lanes, DotQ6K.Lanes, Dot, RealRow, SoundRow, Q4KMeaning.WeightRow, Q6KMeaning.WeightRow;
    Q4Row(q4, rd);
    Q6Row(q6, rd);
    DotQ4K.KernelMeaning(PackedRow(q4, 12), x, n, rd);
    DotQ6K.KernelMeaning(PackedRow(q6, 14), x, n, rd);
  }
}
