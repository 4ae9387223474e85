/** `Q5_0` weights against float activations: five-bit codes whose fifth bits sit in one word. */
module DotQ50 {
  import opened Machine
  import opened Float32
  import opened RealSums
  import opened FloatLanes

  const QK5: nat := 32
  const WBLOCK: nat := 22     // 2 (d) + 4 (fifth bits) + 16 (low nibbles)

  function HighWord(w: seq<byte>, o: nat): bv32
    requires o + WBLOCK <= |w|
  {
    U32(w[o + 2], w[o + 3], w[o + 4], w[o + 5])
  }

  /** `uint8((qh >> l) & 1)`. */
  function FifthBit(qh: bv32, l: nat): byte
    requires l < 32
  {
    ((qh >> l) & 1) as byte
  }

  /** The five-bit code of element `l`: the first sixteen use the low nibbles, the others the high ones. */
  function CodeOf(low: byte, qh: bv32, l: nat): byte
    requires l < 32
  {
    (if l < 16 then low & 0x0F else low >> 4) | (FifthBit(qh, l) << 4)
  }

  function Code(w: seq<byte>, o: nat, l: nat): byte
    requires o + WBLOCK <= |w| && l < 32
  {
    CodeOf(w[o + 6 + l % 16], HighWord(w, o), l)
  }

  function CodeExpr(w: seq<byte>, o: nat, l: nat): F32
    requires o + WBLOCK <= |w| && l < 32
  {
    OfInt(Code(w, o, l) as int - 16)
  }

  /** The block sum after `i` of sixteen steps, each of which adds elements `i` and `i + 16`. */
  function BlockSum(w: seq<byte>, o: nat, x: seq<F32>, xo: nat, i: nat): F32
    requires o + WBLOCK <= |w| && xo + QK5 <= |x| && i <= 16
  {
    if i == 0 then ZERO
    else Add(Add(BlockSum(w, o, x, xo, i - 1), Mul(CodeExpr(w, o, i - 1), x[xo + (i - 1)])),
             Mul(CodeExpr(w, o, i - 1 + 16), x[xo + (i - 1) + 16]))
  }

  function Scale(w: seq<byte>, o: nat): F32
    requires o + WBLOCK <= |w|
  {
    Half(U16(w[o], w[o + 1]))
  }

  function RowExpr(w: seq<byte>, x: seq<F32>, n: nat): F32
    requires WBLOCK * n <= |w| && QK5 * n <= |x|
  {
    if n == 0 then ZERO
    else Add(RowExpr(w, x, n - 1), Mul(Scale(w, WBLOCK * (n - 1)), BlockSum(w, WBLOCK * (n - 1), x, QK5 * (n - 1), 16)))
  }

  /** The sixteen interleaved steps of one block. */
  method DotBlock(weight: seq<byte>, blkOffset: nat, x: seq<F32>, xBase: nat) returns (sum: F32)
    requires blkOffset + WBLOCK <= |weight| && xBase + QK5 <= |x|
    ensures sum == BlockSum(weight, blkOffset, x, xBase, 16)
  {
    hide CodeOf;
    var qh := HighWord(weight, blkOffset);
    sum := ZERO;
    for i := 0 to 16
      invariant sum == BlockSum(weight, blkOffset, x, xBase, i)
    {
      var byteVal := weight[blkOffset + 6 + i];
      var q0 := OfInt(CodeOf(byteVal, qh, i) as int - 16);
      var q1 := OfInt(CodeOf(byteVal, qh, i + 16) as int - 16);
      sum := Add(sum, Mul(q0, x[xBase + i]));
      sum := Add(sum, Mul(q1, x[xBase + i + 16]));
    }
  }

  method DotRow(weight: seq<byte>, x: seq<F32>, cols: nat) returns (total: F32)
    requires WBLOCK * (cols / QK5) <= |weight| && QK5 * (cols / QK5) <= |x|
    ensures total == RowExpr(weight, x, cols / QK5)
  {
    hide U16, BlockSum;
    total := ZERO;
    var numBlocks := cols / QK5;
    for b := 0 to numBlocks
      invariant total == RowExpr(weight, x, b)
    {
      var blkOffset, xBase := b * WBLOCK, b * QK5;
      var d := Half(U16(weight[blkOffset], weight[blkOffset + 1]));
      var sum := DotBlock(weight, blkOffset, x, xBase);
      total := Add(total, Mul(d, sum));
    }
  }

  // ----- dequantised weights -----

  /** `d*q`, element `i` of a row. */
  function Weight(w: seq<byte>, n: nat, i: nat): F32
    requires WBLOCK * n <= |w| && i < QK5 * n
  {
    Mul(Scale(w, WBLOCK * (i / QK5)), CodeExpr(w, WBLOCK * (i / QK5), i % QK5))
  }

  lemma WeightAt(w: seq<byte>, n: nat, b: nat, l: nat)
    requires WBLOCK * n <= |w| && b < n && l < QK5
    ensures QK5 * b + l < QK5 * n
    ensures Weight(w, n, QK5 * b + l) == Mul(Scale(w, WBLOCK * b), CodeExpr(w, WBLOCK * b, l))
  {
    hide Scale, CodeExpr;
    assert (QK5 * b + l) / QK5 == b && (QK5 * b + l) % QK5 == l;
  }

  /** The two elements that byte `l` of a block holds the low bits of. */
  lemma WeightsOfByte(w: seq<byte>, n: nat, b: nat, l: nat)
    requires WBLOCK * n <= |w| && b < n && l < 16
    ensures QK5 * b + 32 <= QK5 * n && WBLOCK * b + WBLOCK <= |w|
    ensures var o := WBLOCK * b;
            var d, qh, low := Half(U16(w[o], w[o + 1])), HighWord(w, o), w[o + 6 + l];
            && Weight(w, n, QK5 * b + l) == Mul(d, OfInt(CodeOf(low, qh, l) as int - 16))
            && Weight(w, n, QK5 * b + l + 16) == Mul(d, OfInt(CodeOf(low, qh, l + 16) as int - 16))
  {
    hide Weight, U16, HighWord, CodeOf;
    WeightAt(w, n, b, l);
    WeightAt(w, n, b, l + 16);
  }

  /** One block: elements `l` and `l + 16` from byte `l`. */
  method DequantizeBlock(dst: array<F32>, data: seq<byte>, numBlocks: nat, b: nat)
    requires b < numBlocks && WBLOCK * numBlocks <= |data| && QK5 * numBlocks <= dst.Length
    modifies dst
    ensures forall i :: QK5 * b <= i < QK5 * b + QK5 ==> dst[i] == Weight(data, numBlocks, i)
    ensures forall i :: 0 <= i < dst.Length && !(QK5 * b <= i < QK5 * b + QK5) ==> dst[i] == old(dst[i])
  {
    hide Weight, U16, HighWord, CodeOf;
    var blkOffset, base := b * WBLOCK, b * QK5;
    var d, qh := Half(U16(data[blkOffset], data[blkOffset + 1])), HighWord(data, blkOffset);
    for i := 0 to 16
      invariant forall k :: base <= k < base + i ==> dst[k] == Weight(data, numBlocks, k)
      invariant forall k :: base + 16 <= k < base + 16 + i ==> dst[k] == Weight(data, numBlocks, k)
      invariant forall k :: 0 <= k < dst.Length && !(base <= k < base + i) && !(base + 16 <= k < base + 16 + i) ==> dst[k] == old(dst[k])
    {
      WeightsOfByte(data, numBlocks, b, i);
      var byteVal := data[blkOffset + 6 + i];
      dst[base + i] := Mul(d, OfInt(CodeOf(byteVal, qh, i) as int - 16));
      dst[base + i + 16] := Mul(d, OfInt(CodeOf(byteVal, qh, i + 16) as int - 16));
    }
  }

  /** `DequantizeRowQ5_0`. */
  method DequantizeRow(dst: array<F32>, data: seq<byte>, cols: nat)
    requires cols <= dst.Length && WBLOCK * (cols / QK5) <= |data|
    modifies dst
    ensures forall i :: 0 <= i < QK5 * (cols / QK5) ==> dst[i] == Weight(data, cols / QK5, i)
    ensures forall i :: QK5 * (cols / QK5) <= i < dst.Length ==> dst[i] == old(dst[i])
  {
    hide Weight;
    var numBlocks := cols / QK5;
    for b := 0 to numBlocks
      invariant forall i :: 0 <= i < QK5 * b ==> dst[i] == Weight(data, numBlocks, i)
      invariant forall i :: QK5 * b <= i < dst.Length ==> dst[i] == old(dst[i])
    {
      DequantizeBlock(dst, data, numBlocks, b);
    }
  }

  // ----- over the reals -----

  function WeightRow(w: seq<byte>, n: nat, rd: Reading): (r: seq<real>)
    requires WBLOCK * n <= |w|
    ensures |r| == QK5 * n
  {
    seq(QK5 * n, i requires 0 <= i < QK5 * n => Eval(Weight(w, n, i), rd))
  }

  function Terms(w: seq<byte>, x: seq<F32>, n: nat, rd: Reading): (p: seq<real>)
    requires WBLOCK * n <= |w| && QK5 * n == |x|
    ensures |p| == QK5 * n
  {
    Products(WeightRow(w, n, rd), RealRow(x, rd))
  }

  lemma TermElement(w: seq<byte>, x: seq<F32>, n: nat, b: nat, l: nat, rd: Reading)
    requires WBLOCK * n <= |w| && QK5 * n == |x| && b < n && l < QK5
    ensures QK5 * b + l < QK5 * n
    ensures Terms(w, x, n, rd)[QK5 * b + l] ==
            Times(Eval(Scale(w, WBLOCK * b), rd), Eval(Mul(CodeExpr(w, WBLOCK * b, l), x[QK5 * b + l]), rd))
  {
    hide Scale, CodeExpr, Times, Weight;
    WeightAt(w, n, b, l);
    var i, s, c := QK5 * b + l, Scale(w, WBLOCK * b), CodeExpr(w, WBLOCK * b, l);
    assert Eval(Mul(s, c), rd) == Times(Eval(s, rd), Eval(c, rd));
    assert Eval(Mul(c, x[i]), rd) == Times(Eval(c, rd), Eval(x[i], rd));
    Associate(Eval(s, rd), Eval(c, rd), Eval(x[i], rd));
    assert WeightRow(w, n, rd)[i] == Eval(Weight(w, n, i), rd) && RealRow(x, rd)[i] == Eval(x[i], rd);
  }

  lemma Associate(s: real, c: real, x: real)
    ensures Times(Times(s, c), x) == Times(s, Times(c, x))
  {
  }

  lemma TimesSum(k: real, a: real, b: real, c: real)
    ensures Times(k, a + b + c) == Times(k, a) + Times(k, b) + Times(k, c)
  {
  }

  /** The interleaved loop adds up the two halves of the block. */
  lemma {:induction false} BlockMeaning(w: seq<byte>, x: seq<F32>, n: nat, b: nat, i: nat, rd: Reading)
    requires WBLOCK * n <= |w| && QK5 * n == |x| && b < n && i <= 16
    ensures QK5 * b + 32 <= QK5 * n
    ensures Times(Eval(Scale(w, WBLOCK * b), rd), Eval(BlockSum(w, WBLOCK * b, x, QK5 * b, i), rd)) ==
            Sum(Terms(w, x, n, rd), QK5 * b, QK5 * b + i) + Sum(Terms(w, x, n, rd), QK5 * b + 16, QK5 * b + 16 + i)
    decreases i
  {
    hide Scale, CodeExpr, Times, Terms;
    var k, o, at := Eval(Scale(w, WBLOCK * b), rd), WBLOCK * b, QK5 * b;
    if i == 0 {
      TimesZero(k);
    } else {
      BlockMeaning(w, x, n, b, i - 1, rd);
      TermElement(w, x, n, b, i - 1, rd);
      TermElement(w, x, n, b, i - 1 + 16, rd);
      var before := BlockSum(w, o, x, at, i - 1);
      var p, q := Mul(CodeExpr(w, o, i - 1), x[at + (i - 1)]), Mul(CodeExpr(w, o, i - 1 + 16), x[at + (i - 1) + 16]);
      EvalThree(before, p, q, rd);
      TimesSum(k, Eval(before, rd), Eval(p, rd), Eval(q, rd));
    }
  }

  lemma TimesZero(k: real)
    ensures Times(k, 0.0) == 0.0
  {
  }

  lemma EvalThree(a: F32, b: F32, c: F32, rd: Reading)
    ensures Eval(Add(Add(a, b), c), rd) == Eval(a, rd) + Eval(b, rd) + Eval(c, rd)
  {
    assert Eval(Add(a, b), rd) == Eval(a, rd) + Eval(b, rd);
  }

  lemma {:induction false} PrefixMeaning(w: seq<byte>, x: seq<F32>, n: nat, m: nat, rd: Reading)
    requires WBLOCK * n <= |w| && QK5 * n == |x| && m <= n
    ensures Eval(RowExpr(w, x, m), rd) == Sum(Terms(w, x, n, rd), 0, QK5 * m)
    decreases m
  {
    hide Scale, BlockSum, Times, Terms;
    if m > 0 {
      PrefixMeaning(w, x, n, m - 1, rd);
      BlockMeaning(w, x, n, m - 1, 16, rd);
      var p, at := Terms(w, x, n, rd), QK5 * (m - 1);
      SumSplit(p, at, at + 16, at + 32);
      SumSplit(p, 0, at, at + 32);
      var s, sum := Scale(w, WBLOCK * (m - 1)), BlockSum(w, WBLOCK * (m - 1), x, at, 16);
      assert Eval(Mul(s, sum), rd) == Times(Eval(s, rd), Eval(sum, rd));
      assert Eval(Add(RowExpr(w, x, m - 1), Mul(s, sum)), rd) == Eval(RowExpr(w, x, m - 1), rd) + Eval(Mul(s, sum), rd);
    }
  }

  /** Over the reals the loop is the dot product of the dequantised weights with the activations. */
  lemma KernelMeaning(w: seq<byte>, x: seq<F32>, n: nat, rd: Reading)
    requires WBLOCK * n <= |w| && QK5 * n == |x|
    ensures Eval(RowExpr(w, x, n), rd) == Dot(WeightRow(w, n, rd), RealRow(x, rd), 0, QK5 * n)
  {
    hide RowExpr, Sum, WeightRow, RealRow, Products;
    PrefixMeaning(w, x, n, n, rd);
  }
}
