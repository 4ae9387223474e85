/** `Q4_K` weights against `Q8_K` activations: the one-row kernel, the fused two-row
    kernel and their AVX2 and scalar branches. */
module Q4K {
  import opened Machine
  import opened Float32
  import opened Avx2
  import opened Q8K

  const WBLOCK: nat := 144     // 2 (d) + 2 (dmin) + 12 (scales) + 128 (nibbles)
  const SCALES: nat := 4
  const NIBBLES: nat := 16

  // ----- what a weight block holds -----

  /** The 6-bit scale of sub-block `j`, from the twelve packed bytes at `at`. */
  function Scale6(w: seq<byte>, at: nat, j: nat): byte
    requires at + 12 <= |w| && j < 8
  {
    if j < 4 then w[at + j] & 63 else (w[at + j + 4] & 15) | ((w[at + j - 4] >> 6) << 4)
  }

  /** The 6-bit minimum of sub-block `j`. */
  function Min6(w: seq<byte>, at: nat, j: nat): byte
    requires at + 12 <= |w| && j < 8
  {
    if j < 4 then w[at + j + 4] & 63 else (w[at + j + 4] >> 4) | ((w[at + j] >> 6) << 4)
  }

  function Nibble(b: byte, high: bool): byte {
    if high then b >> 4 else b & 15
  }

  /** The 32 low or high nibbles at `at`. */
  function Nibbles(w: seq<byte>, at: nat, high: bool): (u: seq<byte>)
    requires at + 32 <= |w|
    ensures |u| == 32 && forall l :: 0 <= l < 32 ==> u[l] == Nibble(w[at + l], high)
  {
    seq(32, l requires 0 <= l < 32 => Nibble(w[at + l], high))
  }

  lemma NibbleSmall(b: byte, high: bool)
    ensures Nibble(b, high) <= 63
  {
  }

  lemma NibbleRange(w: seq<byte>, at: nat, high: bool)
    requires at + 32 <= |w|
    ensures forall l :: 0 <= l < 32 ==> Nibbles(w, at, high)[l] <= 63
  {
    hide Nibble;
    forall l | 0 <= l < 32
      ensures Nibbles(w, at, high)[l] <= 63
    {
      NibbleSmall(w[at + l], high);
    }
  }

  /** The first `n` of 32 nibbles at `at` against the quants at `qat`. */
  function PartialDot(w: seq<byte>, at: nat, high: bool, q8k: seq<byte>, qat: nat, n: nat): int
    requires at + 32 <= |w| && qat + 32 <= |q8k| && n <= 32
  {
    DotBytes(Nibbles(w, at, high), Load(q8k, qat), 0, n)
  }

  /** The integer dot product of half `high` of pair `j`. */
  function SubDot(w: seq<byte>, o: nat, q8k: seq<byte>, qo: nat, j: nat, high: bool): int
    requires o + WBLOCK <= |w| && qo + BLOCK <= |q8k| && j < 4
  {
    PartialDot(w, o + NIBBLES + 32 * j, high, q8k, qo + QUANTS + 64 * j + if high then 32 else 0, 32)
  }

  /** The two adjacent stored sums that cover those 32 quants. */
  function PairSum(q8k: seq<byte>, qo: nat, j: nat, high: bool): int
    requires qo + BLOCK <= |q8k| && j < 4
  {
    var k := 4 * j + if high then 2 else 0;
    StoredSum(q8k, qo, k) + StoredSum(q8k, qo, k + 1)
  }

  // ----- the float expression the kernels build -----

  function DExpr(w: seq<byte>, o: nat, q8k: seq<byte>, qo: nat): F32
    requires o + WBLOCK <= |w| && qo + BLOCK <= |q8k|
  {
    Mul(Half(U16(w[o], w[o + 1])), Bits(ScaleBits(q8k, qo)))
  }

  function DMinExpr(w: seq<byte>, o: nat, q8k: seq<byte>, qo: nat): F32
    requires o + WBLOCK <= |w| && qo + BLOCK <= |q8k|
  {
    Mul(Half(U16(w[o + 2], w[o + 3])), Bits(ScaleBits(q8k, qo)))
  }

  /** `float32(dot)*(d*float32(scale)) - float32(sum)*(dmin*float32(min))`. */
  function HalfExpr(d: F32, dmin: F32, dot: int, sum: int, scale: byte, min: byte): F32 {
    Sub(Mul(OfInt(dot), Mul(d, OfInt(scale as int))), Mul(OfInt(sum), Mul(dmin, OfInt(min as int))))
  }

  function SubExpr(w: seq<byte>, o: nat, q8k: seq<byte>, qo: nat, j: nat, high: bool): F32
    requires o + WBLOCK <= |w| && qo + BLOCK <= |q8k| && j < 4
  {
    var i := 2 * j + if high then 1 else 0;
    HalfExpr(DExpr(w, o, q8k, qo), DMinExpr(w, o, q8k, qo), SubDot(w, o, q8k, qo, j, high),
             PairSum(q8k, qo, j, high), Scale6(w, o + SCALES, i), Min6(w, o + SCALES, i))
  }

  /** The accumulator after the first `j` pairs of a block. */
  function BlockExpr(acc: F32, w: seq<byte>, o: nat, q8k: seq<byte>, qo: nat, j: nat): F32
    requires o + WBLOCK <= |w| && qo + BLOCK <= |q8k| && j <= 4
  {
    if j == 0 then acc
    else Add(BlockExpr(acc, w, o, q8k, qo, j - 1),
             Add(SubExpr(w, o, q8k, qo, j - 1, false), SubExpr(w, o, q8k, qo, j - 1, true)))
  }

  /** The value of one output row after `n` blocks. */
  function RowExpr(w: seq<byte>, q8k: seq<byte>, n: nat): F32
    requires WBLOCK * n <= |w| && BLOCK * n <= |q8k|
  {
    if n == 0 then ZERO
    else BlockExpr(RowExpr(w, q8k, n - 1), w, WBLOCK * (n - 1), q8k, BLOCK * (n - 1), 4)
  }

  // ----- the kernels -----

  /** The loop that fills the two arrays of eight 6-bit values, in the wide arithmetic the
      kernels use. */
  method UnpackScales(w: seq<byte>, at: nat) returns (scales: seq<byte>, mins: seq<byte>)
    requires at + 12 <= |w|
    ensures |scales| == |mins| == 8
    ensures forall j :: 0 <= j < 8 ==> scales[j] == Scale6(w, at, j) && mins[j] == Min6(w, at, j)
  {
    hide Scale6, Min6, ByteOfWord;
    var sc, m := new byte[8], new byte[8];
    var i := 0;
    while i < 4
      invariant 0 <= i <= 4
      invariant forall j :: 0 <= j < 8 && j % 4 < i ==> sc[j] == Scale6(w, at, j) && m[j] == Min6(w, at, j)
    {
      var a, b, c := w[at + i], w[at + i + 4], w[at + i + 8];
      Unpacked(w, at, i);
      sc[i] := a & 63;
      m[i] := b & 63;
      sc[i + 4] := (c & 15) | ByteOfWord(((a as bv32) >> 6) << 4, 0);
      m[i + 4] := ByteOfWord(((c as bv32) >> 4) | (((b as bv32) >> 6) << 4), 0);
      i := i + 1;
    }
    scales, mins := sc[..], m[..];
  }

  lemma Unpacked(w: seq<byte>, at: nat, i: nat)
    requires at + 12 <= |w| && i < 4
    ensures var a, b, c := w[at + i], w[at + i + 4], w[at + i + 8];
      && Scale6(w, at, i) == a & 63
      && Min6(w, at, i) == b & 63
      && Scale6(w, at, i + 4) == (c & 15) | ByteOfWord(((a as bv32) >> 6) << 4, 0)
      && Min6(w, at, i + 4) == ByteOfWord(((c as bv32) >> 4) | (((b as bv32) >> 6) << 4), 0)
  {
    WideUnpack(w[at + i], w[at + i + 4], w[at + i + 8]);
  }

  /** Widening to 32 bits and truncating back changes nothing. */
  lemma WideUnpack(a: byte, b: byte, c: byte)
    ensures (c & 15) | ByteOfWord(((a as bv32) >> 6) << 4, 0) == (c & 15) | ((a >> 6) << 4)
    ensures ByteOfWord(((c as bv32) >> 4) | (((b as bv32) >> 6) << 4), 0) == (c >> 4) | ((b >> 6) << 4)
  {
  }

  lemma WideNibble(b: byte)
    ensures b & 15 == Nibble(b, false)
    ensures ByteOfWord((b as bv32) >> 4, 0) == Nibble(b, true)
  {
  }

  /** The register whose bytes are the low or high nibbles at `at`. */
  function NibbleVector(w: seq<byte>, at: nat, high: bool): (v: seq<byte>)
    requires at + 32 <= |w|
    ensures |v| == BYTES
  {
    And(if high then ShiftRight16(Load(w, at), 4) else Load(w, at), 15)
  }

  lemma NibbleVectorExact(w: seq<byte>, at: nat, high: bool)
    requires at + 32 <= |w|
    ensures NibbleVector(w, at, high) == Nibbles(w, at, high)
  {
    hide ShiftRight16;
    forall l | 0 <= l < 32
      ensures NibbleVector(w, at, high)[l] == Nibbles(w, at, high)[l]
    {
      MaskedShiftRight(Load(w, at), l);
    }
  }

  /** The 32 stored bytes of one vector dot product. */
  function StoredDot(w: seq<byte>, at: nat, high: bool, q8k: seq<byte>, qat: nat): (b: seq<byte>)
    requires at + 32 <= |w| && qat + 32 <= |q8k|
    ensures |b| == BYTES
  {
    DotLanes(NibbleVector(w, at, high), Load(q8k, qat))
  }

  lemma VectorStep(w: seq<byte>, at: nat, high: bool, q8k: seq<byte>, qat: nat, k: nat)
    requires at + 32 <= |w| && qat + 32 <= |q8k| && k < 8
    ensures Wrap32(PartialDot(w, at, high, q8k, qat, 4 * k) + ReloadLane(StoredDot(w, at, high, q8k, qat), k))
         == PartialDot(w, at, high, q8k, qat, 4 * (k + 1))
  {
    hide Nibbles, NibbleVector, DotLanes, ReloadLane, Wrap32, Load, DotBytes;
    NibbleRange(w, at, high);
    NibbleVectorExact(w, at, high);
    LaneStep(Nibbles(w, at, high), Load(q8k, qat), 0, k);
  }

  lemma ScalarStep(w: seq<byte>, at: nat, high: bool, q8k: seq<byte>, qat: nat, l: nat)
    requires at + 32 <= |w| && qat + 32 <= |q8k| && l < 32
    ensures MulAdd32(PartialDot(w, at, high, q8k, qat, l), Nibble(w[at + l], high) as int, Int8(q8k[qat + l]))
         == PartialDot(w, at, high, q8k, qat, l + 1)
  {
    hide Nibble, Wrap32, Int8, MulAdd32, DotBytes;
    NibbleRange(w, at, high);
    DotStep(Nibbles(w, at, high), Load(q8k, qat), 0, l);
  }

  /** Both halves of one pair, vector form: three instructions and a store each, then
      the stored lanes added in a scalar loop. */
  method SubDotsAvx2(w: seq<byte>, o: nat, q8k: seq<byte>, qo: nat, j: nat) returns (lo: int, hi: int)
    requires o + WBLOCK <= |w| && qo + BLOCK <= |q8k| && j < 4
    ensures lo == SubDot(w, o, q8k, qo, j, false) && hi == SubDot(w, o, q8k, qo, j, true)
  {
    hide StoredDot, ReloadLane, Wrap32, DotBytes, Nibbles;
    var at, qat := o + NIBBLES + 32 * j, qo + QUANTS + 64 * j;
    var x, y := StoredDot(w, at, false, q8k, qat), StoredDot(w, at, true, q8k, qat + 32);
    lo, hi := 0, 0;
    PartialDotZero(w, at, q8k, qat);
    var k := 0;
    while k < 8
      invariant 0 <= k <= 8
      invariant lo == PartialDot(w, at, false, q8k, qat, 4 * k)
      invariant hi == PartialDot(w, at, true, q8k, qat + 32, 4 * k)
    {
      VectorStep(w, at, false, q8k, qat, k);
      VectorStep(w, at, true, q8k, qat + 32, k);
      lo := Wrap32(lo + ReloadLane(x, k));
      hi := Wrap32(hi + ReloadLane(y, k));
      k := k + 1;
    }
  }

  lemma PartialDotZero(w: seq<byte>, at: nat, q8k: seq<byte>, qat: nat)
    requires at + 32 <= |w| && qat + 64 <= |q8k|
    ensures PartialDot(w, at, false, q8k, qat, 0) == 0 && PartialDot(w, at, true, q8k, qat + 32, 0) == 0
  {
  }

  /** Both halves of one pair, scalar form. */
  method SubDotsScalar(w: seq<byte>, o: nat, q8k: seq<byte>, qo: nat, j: nat) returns (lo: int, hi: int)
    requires o + WBLOCK <= |w| && qo + BLOCK <= |q8k| && j < 4
    ensures lo == SubDot(w, o, q8k, qo, j, false) && hi == SubDot(w, o, q8k, qo, j, true)
  {
    hide PartialDot, MulAdd32, Int8, ByteOfWord, Nibble;
    var at, qat := o + NIBBLES + 32 * j, qo + QUANTS + 64 * j;
    lo, hi := 0, 0;
    PartialDotZero(w, at, q8k, qat);
    var l := 0;
    while l < 32
      invariant 0 <= l <= 32
      invariant lo == PartialDot(w, at, false, q8k, qat, l)
      invariant hi == PartialDot(w, at, true, q8k, qat + 32, l)
    {
      var v := w[at + l];
      WideNibble(v);
      ScalarStep(w, at, false, q8k, qat, l);
      ScalarStep(w, at, true, q8k, qat + 32, l);
      lo := MulAdd32(lo, (v & 15) as int, Int8(q8k[qat + l]));
      hi := MulAdd32(hi, ByteOfWord((v as bv32) >> 4, 0) as int, Int8(q8k[qat + 32 + l]));
      l := l + 1;
    }
  }

  /** `C2_tensor_dot_q4_k_q8_k`. Whichever branch runs, the result is `RowExpr`. */
  method DotRow(weight: seq<byte>, q8k: seq<byte>, cols: nat, avx2: bool) returns (acc: F32)
    requires WBLOCK * (cols / QK) <= |weight| && BLOCK * (cols / QK) <= |q8k|
    ensures acc == RowExpr(weight, q8k, cols / QK)
  {
    hide SubDot, Scale6, Min6, PairSum, DExpr, DMinExpr, HalfExpr, SubExpr;
    acc := ZERO;
    var b := 0;
    while b < cols / QK
      invariant 0 <= b <= cols / QK
      invariant acc == RowExpr(weight, q8k, b)
    {
      var o, qo := WBLOCK * b, BLOCK * b;
      ghost var start := acc;
      var scales, mins := UnpackScales(weight, o + SCALES);
      var j := 0;
      while j < 4
        invariant 0 <= j <= 4
        invariant acc == BlockExpr(start, weight, o, q8k, qo, j)
      {
        var lo, hi;
        if avx2 {
          lo, hi := SubDotsAvx2(weight, o, q8k, qo, j);
        } else {
          lo, hi := SubDotsScalar(weight, o, q8k, qo, j);
        }
        var t := PairTerm(weight, o, q8k, qo, j, scales, mins, lo, hi);
        acc := Add(acc, t);
        j := j + 1;
      }
      b := b + 1;
    }
  }

  /** The float expression one pair adds. */
  method PairTerm(w: seq<byte>, o: nat, q8k: seq<byte>, qo: nat, j: nat, scales: seq<byte>, mins: seq<byte>,
                  lo: int, hi: int) returns (t: F32)
    requires o + WBLOCK <= |w| && qo + BLOCK <= |q8k| && j < 4 && |scales| == |mins| == 8
    requires forall i :: 0 <= i < 8 ==> scales[i] == Scale6(w, o + SCALES, i) && mins[i] == Min6(w, o + SCALES, i)
    requires lo == SubDot(w, o, q8k, qo, j, false) && hi == SubDot(w, o, q8k, qo, j, true)
    ensures t == Add(SubExpr(w, o, q8k, qo, j, false), SubExpr(w, o, q8k, qo, j, true))
  {
    hide SubDot, Scale6, Min6, U16, U32, ReadI16;
    var scale := Bits(U32(q8k[qo], q8k[qo + 1], q8k[qo + 2], q8k[qo + 3]));
    var d := Mul(Half(U16(w[o], w[o + 1])), scale);
    var dmin := Mul(Half(U16(w[o + 2], w[o + 3])), scale);
    var s := qo + SUMS + 8 * j;
    var sum0 := ReadI16(q8k[s], q8k[s + 1]) + ReadI16(q8k[s + 2], q8k[s + 3]);
    var sum1 := ReadI16(q8k[s + 4], q8k[s + 5]) + ReadI16(q8k[s + 6], q8k[s + 7]);
    t := Add(HalfExpr(d, dmin, lo, sum0, scales[2 * j], mins[2 * j]),
             HalfExpr(d, dmin, hi, sum1, scales[2 * j + 1], mins[2 * j + 1]));
  }

  /** `C2_tensor_gemv2_q4_k_q8_k`: two rows share each activation load. Fusing them changes
      neither value. */
  method Gemv2(weight0: seq<byte>, weight1: seq<byte>, q8k: seq<byte>, cols: nat, avx2: bool)
    returns (out0: F32, out1: F32)
    requires WBLOCK * (cols / QK) <= |weight0| && WBLOCK * (cols / QK) <= |weight1| && BLOCK * (cols / QK) <= |q8k|
    ensures out0 == RowExpr(weight0, q8k, cols / QK)
    ensures out1 == RowExpr(weight1, q8k, cols / QK)
  {
    hide SubDot, Scale6, Min6, PairSum, DExpr, DMinExpr, HalfExpr, SubExpr;
    out0, out1 := ZERO, ZERO;
    var b := 0;
    while b < cols / QK
      invariant 0 <= b <= cols / QK
      invariant out0 == RowExpr(weight0, q8k, b) && out1 == RowExpr(weight1, q8k, b)
    {
      var o, qo := WBLOCK * b, BLOCK * b;
      ghost var start0, start1 := out0, out1;
      var scales0, mins0 := UnpackScales(weight0, o + SCALES);
      var scales1, mins1 := UnpackScales(weight1, o + SCALES);
      var j := 0;
      while j < 4
        invariant 0 <= j <= 4
        invariant out0 == BlockExpr(start0, weight0, o, q8k, qo, j)
        invariant out1 == BlockExpr(start1, weight1, o, q8k, qo, j)
      {
        var lo0, hi0, lo1, hi1;
        if avx2 {
          lo0, hi0, lo1, hi1 := SubDots2Avx2(weight0, weight1, o, q8k, qo, j);
        } else {
          lo0, hi0, lo1, hi1 := SubDots2Scalar(weight0, weight1, o, q8k, qo, j);
        }
        var t0 := PairTerm(weight0, o, q8k, qo, j, scales0, mins0, lo0, hi0);
        var t1 := PairTerm(weight1, o, q8k, qo, j, scales1, mins1, lo1, hi1);
        out0 := Add(out0, t0);
        out1 := Add(out1, t1);
        j := j + 1;
      }
      b := b + 1;
    }
  }

  method SubDots2Avx2(w0: seq<byte>, w1: seq<byte>, o: nat, q8k: seq<byte>, qo: nat, j: nat)
    returns (lo0: int, hi0: int, lo1: int, hi1: int)
    requires o + WBLOCK <= |w0| && o + WBLOCK <= |w1| && qo + BLOCK <= |q8k| && j < 4
    ensures lo0 == SubDot(w0, o, q8k, qo, j, false) && hi0 == SubDot(w0, o, q8k, qo, j, true)
    ensures lo1 == SubDot(w1, o, q8k, qo, j, false) && hi1 == SubDot(w1, o, q8k, qo, j, true)
  {
    hide StoredDot, ReloadLane, Wrap32, PartialDot;
    var at, qat := o + NIBBLES + 32 * j, qo + QUANTS + 64 * j;
    var x0, y0 := StoredDot(w0, at, false, q8k, qat), StoredDot(w0, at, true, q8k, qat + 32);
    var x1, y1 := StoredDot(w1, at, false, q8k, qat), StoredDot(w1, at, true, q8k, qat + 32);
    lo0, hi0, lo1, hi1 := 0, 0, 0, 0;
    PartialDotZero(w0, at, q8k, qat);
    PartialDotZero(w1, at, q8k, qat);
    var k := 0;
    while k < 8
      invariant 0 <= k <= 8
      invariant lo0 == PartialDot(w0, at, false, q8k, qat, 4 * k)
      invariant hi0 == PartialDot(w0, at, true, q8k, qat + 32, 4 * k)
      invariant lo1 == PartialDot(w1, at, false, q8k, qat, 4 * k)
      invariant hi1 == PartialDot(w1, at, true, q8k, qat + 32, 4 * k)
    {
      VectorStep(w0, at, false, q8k, qat, k);
      VectorStep(w0, at, true, q8k, qat + 32, k);
      VectorStep(w1, at, false, q8k, qat, k);
      VectorStep(w1, at, true, q8k, qat + 32, k);
      lo0 := Wrap32(lo0 + ReloadLane(x0, k));
      hi0 := Wrap32(hi0 + ReloadLane(y0, k));
      lo1 := Wrap32(lo1 + ReloadLane(x1, k));
      hi1 := Wrap32(hi1 + ReloadLane(y1, k));
      k := k + 1;
    }
  }

  method SubDots2Scalar(w0: seq<byte>, w1: seq<byte>, o: nat, q8k: seq<byte>, qo: nat, j: nat)
    returns (lo0: int, hi0: int, lo1: int, hi1: int)
    requires o + WBLOCK <= |w0| && o + WBLOCK <= |w1| && qo + BLOCK <= |q8k| && j < 4
    ensures lo0 == SubDot(w0, o, q8k, qo, j, false) && hi0 == SubDot(w0, o, q8k, qo, j, true)
    ensures lo1 == SubDot(w1, o, q8k, qo, j, false) && hi1 == SubDot(w1, o, q8k, qo, j, true)
  {
    hide PartialDot, MulAdd32, Int8, ByteOfWord, Nibble;
    var at, qat := o + NIBBLES + 32 * j, qo + QUANTS + 64 * j;
    lo0, hi0, lo1, hi1 := 0, 0, 0, 0;
    PartialDotZero(w0, at, q8k, qat);
    PartialDotZero(w1, at, q8k, qat);
    var l := 0;
    while l < 32
      invariant 0 <= l <= 32
      invariant lo0 == PartialDot(w0, at, false, q8k, qat, l)
      invariant hi0 == PartialDot(w0, at, true, q8k, qat + 32, l)
      invariant lo1 == PartialDot(w1, at, false, q8k, qat, l)
      invariant hi1 == PartialDot(w1, at, true, q8k, qat + 32, l)
    {
      var v0, v1 := w0[at + l], w1[at + l];
      var qa, qb := Int8(q8k[qat + l]), Int8(q8k[qat + 32 + l]);
      WideNibble(v0);
      WideNibble(v1);
      ScalarStep(w0, at, false, q8k, qat, l);
      ScalarStep(w0, at, true, q8k, qat + 32, l);
      ScalarStep(w1, at, false, q8k, qat, l);
      ScalarStep(w1, at, true, q8k, qat + 32, l);
      lo0 := MulAdd32(lo0, (v0 & 15) as int, qa);
      hi0 := MulAdd32(hi0, ByteOfWord((v0 as bv32) >> 4, 0) as int, qb);
      lo1 := MulAdd32(lo1, (v1 & 15) as int, qa);
      hi1 := MulAdd32(hi1, ByteOfWord((v1 as bv32) >> 4, 0) as int, qb);
      l := l + 1;
    }
  }
}
