/** `ParallelGEMV` for its four weight types: `Q4_K` and `Q6_K` on activations quantised into the pool's
    buffer, `Q8_0` and `Q5_0` on the activations themselves. */
module PooledGemv {
  import opened Machine
  import opened Float32
  import opened RealSums
  import opened Q8K
  import opened ActivationRows
  import opened FloatLanes
  import opened Gemv
  import opened Partition
  import DotQ50
  import DotQ80
  import Q4K
  import Q6K
  import Q4KMeaning
  import Q6KMeaning

  const SINGLE_THREAD_ROWS: nat := 256

  datatype QType = TypeQ80 | TypeQ50 | TypeQ6K | TypeQ4K

  /** What a product reads: the quantised activations or the float ones. */
  datatype Input = Input(q8k: seq<byte>, x: seq<F32>)

  predicate Quantises(ty: QType) {
    ty == TypeQ4K || ty == TypeQ6K
  }

  function RowBytes(ty: QType, cols: nat): nat {
    match ty
    case TypeQ80 => Q80Bytes(cols)
    case TypeQ50 => Q50Bytes(cols)
    case TypeQ6K => Q6Bytes(cols)
    case TypeQ4K => Q4Bytes(cols)
  }

  /** The weights hold `rows` rows, and the activations the kernel of this type reads are long enough. */
  predicate Feeds(ty: QType, weight: seq<byte>, inp: Input, cols: nat, rows: nat) {
    && rows * RowBytes(ty, cols) <= |weight|
    && (if Quantises(ty) then BLOCK * (cols / QK) <= |inp.q8k| else 32 * (cols / 32) <= |inp.x|)
  }

  /** Output row `r`, as its kernel computes it for that row alone. */
  function RowValue(ty: QType, weight: seq<byte>, inp: Input, cols: nat, rows: nat, r: nat): F32
    requires r < rows && Feeds(ty, weight, inp, cols, rows)
  {
    match ty
    case TypeQ80 => Q80Value(weight, inp.x, cols, rows, r)
    case TypeQ50 => Q50Value(weight, inp.x, cols, rows, r)
    case TypeQ6K => Q6Value(weight, inp.q8k, cols, rows, r)
    case TypeQ4K => Q4Value(weight, inp.q8k, cols, rows, r)
  }

  lemma FewerRows(ty: QType, weight: seq<byte>, inp: Input, cols: nat, last: nat, rows: nat)
    requires last <= rows && Feeds(ty, weight, inp, cols, rows)
    ensures Feeds(ty, weight, inp, cols, last)
  {
    var n, d := RowBytes(ty, cols), rows - last;
    assert rows * n == last * n + d * n;
  }

  /** A row does not depend on how many rows the range it is computed in covers. */
  lemma SameRow(ty: QType, weight: seq<byte>, inp: Input, cols: nat, last: nat, rows: nat, r: nat)
    requires r < last <= rows && Feeds(ty, weight, inp, cols, rows) && Feeds(ty, weight, inp, cols, last)
    ensures RowValue(ty, weight, inp, cols, last, r) == RowValue(ty, weight, inp, cols, rows, r)
  {
    hide Q4K.RowExpr, Q6K.RowExpr, DotQ50.RowExpr, DotQ80.Lanes, HSum;
  }

  ghost predicate RowDone(ty: QType, y: seq<F32>, weight: seq<byte>, inp: Input, cols: nat, rows: nat, r: nat)
    requires Feeds(ty, weight, inp, cols, rows)
  {
    r < rows && r < |y| && y[r] == RowValue(ty, weight, inp, cols, rows, r)
  }

  method Range(ty: QType, y: array<F32>, weight: seq<byte>, inp: Input, first: nat, last: nat, rows: nat, cols: nat, avx2: bool)
    requires first <= last <= rows <= y.Length && Feeds(ty, weight, inp, cols, rows)
    modifies y
    ensures forall r: nat :: first <= r < last ==> RowDone(ty, y[..], weight, inp, cols, rows, r)
    ensures forall r :: 0 <= r < y.Length && !(first <= r < last) ==> y[r] == old(y[r])
  {
    hide Q4Value, Q6Value, Q80Value, Q50Value, Q4Bytes, Q6Bytes, Q80Bytes, Q50Bytes;
    FewerRows(ty, weight, inp, cols, last, rows);
    match ty {
      case TypeQ80 => Q80Range(y, weight, inp.x, first, last, cols, avx2);
      case TypeQ50 => Q50Range(y, weight, inp.x, first, last, cols);
      case TypeQ6K => Q6Range(y, weight, inp.q8k, first, last, cols, avx2);
      case TypeQ4K => Q4Range(y, weight, inp.q8k, first, last, cols, avx2);
    }
    forall r: nat | first <= r < last
      ensures RowDone(ty, y[..], weight, inp, cols, rows, r)
    {
      SameRow(ty, weight, inp, cols, last, rows, r);
    }
  }

  /** The row range of worker `w` of `n`. */
  method WorkerRows(ty: QType, y: array<F32>, weight: seq<byte>, inp: Input, rows: nat, cols: nat, w: nat, n: nat, avx2: bool)
    requires w < n && rows <= y.Length && Feeds(ty, weight, inp, cols, rows)
    modifies y
    ensures forall r: nat :: Owns(rows, n, w, r) ==> RowDone(ty, y[..], weight, inp, cols, rows, r)
    ensures forall r: nat :: r < y.Length && !Owns(rows, n, w, r) ==> y[r] == old(y[r])
  {
    hide RowDone, Feeds;
    RangeWithin(rows, n, w);
    var startRow := (w * rows) / n;
    var endRow := ((w + 1) * rows) / n;
    if startRow < endRow && startRow < rows {
      if endRow > rows {
        endRow := rows;
      }
      Range(ty, y, weight, inp, startRow, endRow, rows, cols, avx2);
    }
  }

  /** Computes every row, on one thread or by workers in any order; for the two K types after quantising
      the activations, read as `rd` says, into the pool's buffer. */
  method ParallelGEMV(ty: QType, y: array<F32>, weight: seq<byte>, x: seq<F32>, q8k: array<byte>, rows: nat, cols: nat,
                      n: nat, avx2: bool, toBits: real -> bv32, rd: Reading)
    requires rows <= y.Length && cols <= |x| && Feeds(ty, weight, Input(q8k[..], x), cols, rows) && y as object != q8k as object
    modifies y, q8k
    ensures q8k[..] == if Quantises(ty) then QuantizedInto(old(q8k[..]), RealRow(x, rd), cols / QK, toBits) else old(q8k[..])
    ensures Feeds(ty, weight, Input(q8k[..], x), cols, rows)
    ensures forall r: nat :: r < rows ==> RowDone(ty, y[..], weight, Input(q8k[..], x), cols, rows, r)
    ensures forall r :: rows <= r < y.Length ==> y[r] == old(y[r])
  {
    hide RowDone, RowBytes, QuantizedInto, Owns, RealRow;
    if ty == TypeQ4K || ty == TypeQ6K {
      QuantizeRow(RealRow(x, rd), q8k, cols, toBits);
    }
    var inp := Input(q8k[..], x);
    if n <= 1 || rows < SINGLE_THREAD_ROWS {
      Range(ty, y, weight, inp, 0, rows, rows, cols, avx2);
      return;
    }
    RunWorkers(ty, y, weight, inp, rows, cols, n, avx2);
  }

  /** The workers, one after the other in an arbitrary order. */
  method RunWorkers(ty: QType, y: array<F32>, weight: seq<byte>, inp: Input, rows: nat, cols: nat, n: nat, avx2: bool)
    requires rows <= y.Length && n > 0 && Feeds(ty, weight, inp, cols, rows)
    modifies y
    ensures forall r: nat :: r < rows ==> RowDone(ty, y[..], weight, inp, cols, rows, r)
    ensures forall r :: rows <= r < y.Length ==> y[r] == old(y[r])
  {
    hide RowDone, Feeds, Owns;
    var order := Schedule(n);
    for i := 0 to |order|
      invariant forall r: nat :: r < rows && Covered(rows, n, order[..i], r) ==> RowDone(ty, y[..], weight, inp, cols, rows, r)
      invariant forall r :: rows <= r < y.Length ==> y[r] == old(y[r])
    {
      ghost var before := y[..];
      assert order[i] in order;
      WorkerRows(ty, y, weight, inp, rows, cols, order[i], n, avx2);
      OwnedWithin(rows, n, order[i]);
      forall r: nat | r < rows && Covered(rows, n, order[..i + 1], r)
        ensures RowDone(ty, y[..], weight, inp, cols, rows, r)
      {
        if !Owns(rows, n, order[i], r) {
          assert Covered(rows, n, order[..i], r);
          KeepRow(ty, before, y[..], weight, inp, cols, rows, r);
        }
      }
    }
    forall r: nat | r < rows
      ensures Covered(rows, n, order[..|order|], r)
    {
      AllCovered(rows, n, order, r);
      assert order[..|order|] == order;
    }
  }

  lemma OwnedWithin(rows: nat, n: nat, w: nat)
    requires w < n
    ensures forall r: nat :: Owns(rows, n, w, r) ==> r < rows
  {
    RangeWithin(rows, n, w);
  }

  lemma KeepRow(ty: QType, before: seq<F32>, after: seq<F32>, weight: seq<byte>, inp: Input, cols: nat, rows: nat, r: nat)
    requires Feeds(ty, weight, inp, cols, rows)
    requires RowDone(ty, before, weight, inp, cols, rows, r) && r < |after| && after[r] == before[r]
    ensures RowDone(ty, after, weight, inp, cols, rows, r)
  {
    hide RowValue;
  }

  // ----- how far the outputs are from exact arithmetic -----

  /** The dequantised weights of row `r`. */
  function Weights(ty: QType, weight: seq<byte>, cols: nat, rows: nat, r: nat, rd: Reading): (v: seq<real>)
    requires r < rows && rows * RowBytes(ty, cols) <= |weight|
    ensures |v| == if Quantises(ty) then QK * (cols / QK) else 32 * (cols / 32)
  {
    match ty
    case TypeQ80 => DotQ80.WeightRow(Row(weight, Q80Bytes(cols), rows, r), cols / 32, rd)
    case TypeQ50 => DotQ50.WeightRow(Row(weight, Q50Bytes(cols), rows, r), cols / 32, rd)
    case TypeQ6K => Q6KMeaning.WeightRow(Row(weight, Q6Bytes(cols), rows, r), cols / QK, rd)
    case TypeQ4K => Q4KMeaning.WeightRow(Row(weight, Q4Bytes(cols), rows, r), cols / QK, rd)
  }

  /** A value is within the quantisation bound of the exact dot product. */
  ghost predicate WithinBound(value: real, weights: seq<real>, x: seq<real>, n: nat, codec: Codec)
    requires |weights| == |x| == QK * n
  {
    Abs(value - Dot(weights, x, 0, QK * n)) <= ErrorBound(weights, x, n, codec)
  }

  /** Every output of a whole product is within the quantisation bound of the exact dot product of
      its dequantised weights with the original activations, whatever the buffer held before. */
  lemma ProductError(ty: QType, y: seq<F32>, weight: seq<byte>, x: seq<F32>, before: seq<byte>, rows: nat, cols: nat,
                     codec: Codec, rd: Reading, r: nat)
    requires Quantises(ty) && rows * RowBytes(ty, cols) <= |weight| && BLOCK * (cols / QK) <= |before|
    requires |x| == QK * (cols / QK) && rd.bits == codec.fromBits && r < rows
    requires RowDone(ty, y, weight, Input(QuantizedInto(before, RealRow(x, rd), cols / QK, codec.toBits), x), cols, rows, r)
    ensures WithinBound(Eval(y[r], rd), Weights(ty, weight, cols, rows, r, rd), RealRow(x, rd), cols / QK, codec)
  {
    hide QuantizedInto, WithinBound, Row, Q4K.RowExpr, Q6K.RowExpr, Eval, Q4KMeaning.WeightRow, Q6KMeaning.WeightRow, RealRow;
    if ty == TypeQ4K {
      Q4Error(Row(weight, Q4Bytes(cols), rows, r), RealRow(x, rd), before, cols / QK, codec, rd);
    } else {
      Q6Error(Row(weight, Q6Bytes(cols), rows, r), RealRow(x, rd), before, cols / QK, codec, rd);
    }
  }

  /** For the other two types every output is the exact dot product, over the reals. */
  lemma ProductExact(ty: QType, y: seq<F32>, weight: seq<byte>, inp: Input, rows: nat, cols: nat, rd: Reading, r: nat)
    requires !Quantises(ty) && Feeds(ty, weight, inp, cols, rows) && |inp.x| == 32 * (cols / 32) && r < rows
    requires RowDone(ty, y, weight, inp, cols, rows, r)
    ensures Eval(y[r], rd) == Dot(Weights(ty, weight, cols, rows, r, rd), RealRow(inp.x, rd), 0, 32 * (cols / 32))
  {
    hide Row, Dot, Eval, DotQ80.WeightRow, DotQ50.WeightRow, DotQ80.Lanes, DotQ50.RowExpr, HSum, RealRow;
    if ty == TypeQ80 {
      DotQ80.KernelMeaning(Row(weight, Q80Bytes(cols), rows, r), inp.x, cols / 32, rd);
    } else {
      DotQ50.KernelMeaning(Row(weight, Q50Bytes(cols), rows, r), inp.x, cols / 32, rd);
    }
  }

  lemma Q4Error(w: seq<byte>, x: seq<real>, before: seq<byte>, n: nat, codec: Codec, rd: Reading)
    requires Q4K.WBLOCK * n <= |w| && BLOCK * n <= |before| && |x| == QK * n && rd.bits == codec.fromBits
    ensures WithinBound(Eval(Q4K.RowExpr(w, QuantizedInto(before, x, n, codec.toBits), n), rd),
                        Q4KMeaning.WeightRow(w, n, rd), x, n, codec)
  {
    hide QuantizedInto, Dot, ErrorBound, Abs, Q4KMeaning.WeightRow, Q4K.RowExpr, Eval;
    Q4KMeaning.EndToEnd(w, before, x, n, codec, rd);
  }

  lemma Q6Error(w: seq<byte>, x: seq<real>, before: seq<byte>, n: nat, codec: Codec, rd: Reading)
    requires Q6K.WBLOCK * n <= |w| && BLOCK * n <= |before| && |x| == QK * n && rd.bits == codec.fromBits
    ensures WithinBound(Eval(Q6K.RowExpr(w, QuantizedInto(before, x, n, codec.toBits), n), rd),
                        Q6KMeaning.WeightRow(w, n, rd), x, n, codec)
  {
    hide QuantizedInto, Dot, ErrorBound, Abs, Q6KMeaning.WeightRow, Q6K.RowExpr, Eval;
    Q6KMeaning.EndToEnd(w, before, x, n, codec, rd);
  }
}
