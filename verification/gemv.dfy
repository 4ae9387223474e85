/** Row ranges of a matrix-vector product: rows taken one by one, or in pairs with an odd tail. */
module Gemv {
  import opened Machine
  import opened Float32
  import opened Q8K
  import DotQ50
  import DotQ80
  import FloatLanes
  import Q4K
  import Q6K
  import opened WeightBlocks

  /** The bytes of row `r` of `rows`. */
  function Row(weight: seq<byte>, rowBytes: nat, rows: nat, r: nat): (w: seq<byte>)
    requires r < rows && rows * rowBytes <= |weight|
    ensures |w| == rowBytes
  {
    RowFits(rows, rowBytes, r, |weight|);
    weight[r * rowBytes..r * rowBytes + rowBytes]
  }

  lemma RowFits(rows: nat, rowBytes: nat, r: nat, size: nat)
    requires r < rows && rows * rowBytes <= size
    ensures 0 <= r * rowBytes && r * rowBytes + rowBytes <= size
  {
    var d := rows - r - 1;
    assert rows * rowBytes == r * rowBytes + rowBytes + d * rowBytes;
  }

  /** A matrix laid out row after row gives back each of its rows. */
  lemma RowBack(parts: seq<seq<byte>>, rest: seq<byte>, rowBytes: nat, r: nat)
    requires (forall i :: 0 <= i < |parts| ==> |parts[i]| == rowBytes) && r < |parts|
    ensures |parts| * rowBytes <= |Flatten(parts) + rest|
    ensures Row(Flatten(parts) + rest, rowBytes, |parts|, r) == parts[r]
  {
    FlattenAt(parts, rowBytes, r);
    RowFits(|parts|, rowBytes, r, |Flatten(parts)|);
    assert (Flatten(parts) + rest)[r * rowBytes..r * rowBytes + rowBytes] == Flatten(parts)[r * rowBytes..r * rowBytes + rowBytes];
  }

  /** `weight[rowOffset : rowOffset+rowBytes]`. */
  method SliceRow(weight: seq<byte>, rowBytes: nat, ghost rows: nat, r: nat) returns (w: seq<byte>)
    requires r < rows && rows * rowBytes <= |weight|
    ensures w == Row(weight, rowBytes, rows, r)
  {
    RowFits(rows, rowBytes, r, |weight|);
    w := weight[r * rowBytes..r * rowBytes + rowBytes];
  }

  // ----- Q4_K rows -----

  function Q4Bytes(cols: nat): nat {
    Q4K.WBLOCK * (cols / QK)
  }

  /** The value of output row `r`, as the kernel computes it for that row alone. */
  function Q4Value(weight: seq<byte>, q8k: seq<byte>, cols: nat, rows: nat, r: nat): F32
    requires r < rows && rows * Q4Bytes(cols) <= |weight| && BLOCK * (cols / QK) <= |q8k|
  {
    Q4K.RowExpr(Row(weight, Q4Bytes(cols), rows, r), q8k, cols / QK)
  }

  method Q4Pair(weight: seq<byte>, q8k: seq<byte>, cols: nat, ghost rows: nat, r0: nat, r1: nat, avx2: bool)
    returns (out0: F32, out1: F32)
    requires r0 < rows && r1 < rows && rows * Q4Bytes(cols) <= |weight| && BLOCK * (cols / QK) <= |q8k|
    ensures out0 == Q4Value(weight, q8k, cols, rows, r0) && out1 == Q4Value(weight, q8k, cols, rows, r1)
  {
    hide Row, Q4K.RowExpr;
    var w0 := SliceRow(weight, Q4Bytes(cols), rows, r0);
    var w1 := SliceRow(weight, Q4Bytes(cols), rows, r1);
    out0, out1 := Q4K.Gemv2(w0, w1, q8k, cols, avx2);
  }

  method Q4One(weight: seq<byte>, q8k: seq<byte>, cols: nat, ghost rows: nat, r: nat, avx2: bool) returns (out: F32)
    requires r < rows && rows * Q4Bytes(cols) <= |weight| && BLOCK * (cols / QK) <= |q8k|
    ensures out == Q4Value(weight, q8k, cols, rows, r)
  {
    hide Row, Q4K.RowExpr;
    var w := SliceRow(weight, Q4Bytes(cols), rows, r);
    out := Q4K.DotRow(w, q8k, cols, avx2);
  }

  /** `GEMVQ4_K_Q8_KRange`: whichever rows are paired and whichever is the odd tail, each
      output is that of its own row, and no other output changes. */
  method Q4Range(y: array<F32>, weight: seq<byte>, q8k: seq<byte>, startRow: nat, endRow: nat, cols: nat, avx2: bool)
    requires startRow <= endRow <= y.Length
    requires endRow * Q4Bytes(cols) <= |weight| && BLOCK * (cols / QK) <= |q8k|
    modifies y
    ensures forall r :: startRow <= r < endRow ==> y[r] == Q4Value(weight, q8k, cols, endRow, r)
    ensures forall r :: 0 <= r < y.Length && !(startRow <= r < endRow) ==> y[r] == old(y[r])
  {
    hide Q4Bytes, Q4Value;
    var r := startRow;
    while r + 1 < endRow
      invariant startRow <= r <= endRow
      invariant forall i :: startRow <= i < r ==> y[i] == Q4Value(weight, q8k, cols, endRow, i)
      invariant forall i :: 0 <= i < y.Length && !(startRow <= i < r) ==> y[i] == old(y[i])
    {
      var out0, out1 := Q4Pair(weight, q8k, cols, endRow, r, r + 1, avx2);
      y[r] := out0;
      y[r + 1] := out1;
      r := r + 2;
    }
    if r < endRow {
      y[r] := Q4One(weight, q8k, cols, endRow, r, avx2);
    }
  }

  // ----- Q6_K rows -----

  function Q6Bytes(cols: nat): nat {
    Q6K.WBLOCK * (cols / QK)
  }

  /** The value of output row `r`, as the kernel computes it for that row alone. */
  function Q6Value(weight: seq<byte>, q8k: seq<byte>, cols: nat, rows: nat, r: nat): F32
    requires r < rows && rows * Q6Bytes(cols) <= |weight| && BLOCK * (cols / QK) <= |q8k|
  {
    Q6K.RowExpr(Row(weight, Q6Bytes(cols), rows, r), q8k, cols / QK)
  }

  method Q6Pair(weight: seq<byte>, q8k: seq<byte>, cols: nat, ghost rows: nat, r0: nat, r1: nat, avx2: bool)
    returns (out0: F32, out1: F32)
    requires r0 < rows && r1 < rows && rows * Q6Bytes(cols) <= |weight| && BLOCK * (cols / QK) <= |q8k|
    ensures out0 == Q6Value(weight, q8k, cols, rows, r0) && out1 == Q6Value(weight, q8k, cols, rows, r1)
  {
    hide Row, Q6K.RowExpr;
    var w0 := SliceRow(weight, Q6Bytes(cols), rows, r0);
    var w1 := SliceRow(weight, Q6Bytes(cols), rows, r1);
    out0, out1 := Q6K.Gemv2(w0, w1, q8k, cols, avx2);
  }

  /** `GEMVQ6_K_Q8_KRange`: the odd tail runs the two-row kernel on one row twice and drops
      the second result. */
  method Q6Range(y: array<F32>, weight: seq<byte>, q8k: seq<byte>, startRow: nat, endRow: nat, cols: nat, avx2: bool)
    requires startRow <= endRow <= y.Length
    requires endRow * Q6Bytes(cols) <= |weight| && BLOCK * (cols / QK) <= |q8k|
    modifies y
    ensures forall r :: startRow <= r < endRow ==> y[r] == Q6Value(weight, q8k, cols, endRow, r)
    ensures forall r :: 0 <= r < y.Length && !(startRow <= r < endRow) ==> y[r] == old(y[r])
  {
    hide Q6Bytes, Q6Value;
    var r := startRow;
    while r + 1 < endRow
      invariant startRow <= r <= endRow
      invariant forall i :: startRow <= i < r ==> y[i] == Q6Value(weight, q8k, cols, endRow, i)
      invariant forall i :: 0 <= i < y.Length && !(startRow <= i < r) ==> y[i] == old(y[i])
    {
      var out0, out1 := Q6Pair(weight, q8k, cols, endRow, r, r + 1, avx2);
      y[r] := out0;
      y[r + 1] := out1;
      r := r + 2;
    }
    if r < endRow {
      var out0, unused := Q6Pair(weight, q8k, cols, endRow, r, r, avx2);
      y[r] := out0;
    }
  }

  // ----- Q8_0 and Q5_0 rows, against float activations -----

  function Q80Bytes(cols: nat): nat {
    DotQ80.WBLOCK * (cols / DotQ80.QK8)
  }

  function Q80Value(weight: seq<byte>, x: seq<F32>, cols: nat, rows: nat, r: nat): F32
    requires r < rows && rows * Q80Bytes(cols) <= |weight| && DotQ80.QK8 * (cols / DotQ80.QK8) <= |x|
  {
    FloatLanes.HSum(DotQ80.Lanes(Row(weight, Q80Bytes(cols), rows, r), x, cols / DotQ80.QK8))
  }

  /** `GEMVQ8_0Range`. */
  method Q80Range(y: array<F32>, weight: seq<byte>, x: seq<F32>, startRow: nat, endRow: nat, cols: nat, avx2: bool)
    requires startRow <= endRow <= y.Length
    requires endRow * Q80Bytes(cols) <= |weight| && DotQ80.QK8 * (cols / DotQ80.QK8) <= |x|
    modifies y
    ensures forall r :: startRow <= r < endRow ==> y[r] == Q80Value(weight, x, cols, endRow, r)
    ensures forall r :: 0 <= r < y.Length && !(startRow <= r < endRow) ==> y[r] == old(y[r])
  {
    hide Row, DotQ80.Lane, DotQ80.Lanes, FloatLanes.HSum;
    for r := startRow to endRow
      invariant forall i :: startRow <= i < r ==> y[i] == Q80Value(weight, x, cols, endRow, i)
      invariant forall i :: 0 <= i < y.Length && !(startRow <= i < r) ==> y[i] == old(y[i])
    {
      var w := SliceRow(weight, Q80Bytes(cols), endRow, r);
      y[r] := DotQ80.Dot8(w, x, cols, avx2);
    }
  }

  function Q50Bytes(cols: nat): nat {
    DotQ50.WBLOCK * (cols / DotQ50.QK5)
  }

  function Q50Value(weight: seq<byte>, x: seq<F32>, cols: nat, rows: nat, r: nat): F32
    requires r < rows && rows * Q50Bytes(cols) <= |weight| && DotQ50.QK5 * (cols / DotQ50.QK5) <= |x|
  {
    DotQ50.RowExpr(Row(weight, Q50Bytes(cols), rows, r), x, cols / DotQ50.QK5)
  }

  /** `GEMVQ5_0Range`. */
  method Q50Range(y: array<F32>, weight: seq<byte>, x: seq<F32>, startRow: nat, endRow: nat, cols: nat)
    requires startRow <= endRow <= y.Length
    requires endRow * Q50Bytes(cols) <= |weight| && DotQ50.QK5 * (cols / DotQ50.QK5) <= |x|
    modifies y
    ensures forall r :: startRow <= r < endRow ==> y[r] == Q50Value(weight, x, cols, endRow, r)
    ensures forall r :: 0 <= r < y.Length && !(startRow <= r < endRow) ==> y[r] == old(y[r])
  {
    hide Row, DotQ50.RowExpr;
    for r := startRow to endRow
      invariant forall i :: startRow <= i < r ==> y[i] == Q50Value(weight, x, cols, endRow, i)
      invariant forall i :: 0 <= i < y.Length && !(startRow <= i < r) ==> y[i] == old(y[i])
    {
      var w := SliceRow(weight, Q50Bytes(cols), endRow, r);
      y[r] := DotQ50.DotRow(w, x, cols);
    }
  }
}
