/** `Q6_K` weights against `Q8_K` activations: the fused two-row kernel with its AVX2 and
    scalar branches and its `int32` accumulators. */
module Q6K {
  import opened Machine
  import opened Float32
  import opened Avx2
  import opened Q8K

  const WBLOCK: nat := 210     // 128 (low bits) + 64 (high bits) + 16 (scales) + 2 (d)
  const HIGH: nat := 128
  const SCALES: nat := 192
  const D: nat := 208

  // ----- what a weight block holds -----

  /** The low four bits of a code in quarter `qt`, from its low-bits byte. */
  function LowPart(low: byte, qt: nat): byte
    requires qt < 4
  {
    if qt < 2 then low & 15 else low >> 4
  }

  /** The two high bits, moved to bits 4 and 5. */
  function HighPart(high: byte, qt: nat): byte
    requires qt < 4
  {
    if qt == 0 then (high & 3) << 4
    else if qt == 1 then ((high >> 2) & 3) << 4
    else if qt == 2 then ((high >> 4) & 3) << 4
    else ((high >> 6) & 3) << 4
  }

  /** The 6-bit code in quarter `qt`. */
  function CodeOf(low: byte, high: byte, qt: nat): byte
    requires qt < 4
  {
    LowPart(low, qt) | HighPart(high, qt)
  }

  lemma CodeRange(low: byte, high: byte, qt: nat)
    requires qt < 4
    ensures CodeOf(low, high, qt) <= 63
  {
  }

  /** Where the low bits of quarter `qt` of half `n` start: quarters 1 and 3 use the upper 32 bytes. */
  function LowAt(o: nat, n: nat, qt: nat): nat {
    o + 64 * n + if qt == 0 || qt == 2 then 0 else 32
  }

  function Code(w: seq<byte>, o: nat, n: nat, qt: nat, l: nat): byte
    requires o + WBLOCK <= |w| && n < 2 && qt < 4 && l < 32
  {
    CodeOf(w[LowAt(o, n, qt) + l], w[o + HIGH + 32 * n + l], qt)
  }

  function Codes(w: seq<byte>, o: nat, n: nat, qt: nat): (u: seq<byte>)
    requires o + WBLOCK <= |w| && n < 2 && qt < 4
    ensures |u| == 32 && forall l :: 0 <= l < 32 ==> u[l] == Code(w, o, n, qt, l)
  {
    seq(32, l requires 0 <= l < 32 => Code(w, o, n, qt, l))
  }

  lemma CodesRange(w: seq<byte>, o: nat, n: nat, qt: nat)
    requires o + WBLOCK <= |w| && n < 2 && qt < 4
    ensures forall l :: 0 <= l < 32 ==> Codes(w, o, n, qt)[l] <= 63
  {
    hide CodeOf;
    forall l | 0 <= l < 32
      ensures Codes(w, o, n, qt)[l] <= 63
    {
      CodeRange(w[LowAt(o, n, qt) + l], w[o + HIGH + 32 * n + l], qt);
    }
  }

  /** The signed scale of 16-element group `g` (0 or 1) of a quarter. */
  function Scale(w: seq<byte>, o: nat, n: nat, qt: nat, g: nat): (k: int)
    requires o + WBLOCK <= |w| && n < 2 && qt < 4 && g < 2
    ensures -128 <= k <= 127
  {
    Int8(w[o + SCALES + 8 * n + 2 * qt + g])
  }

  function QuantsAt(qo: nat, n: nat, qt: nat): nat {
    qo + QUANTS + 128 * n + 32 * qt
  }

  /** Codes `lo..hi` of a quarter against their quants. */
  function PartialDot(w: seq<byte>, o: nat, n: nat, qt: nat, q8k: seq<byte>, qo: nat, lo: nat, hi: nat): int
    requires o + WBLOCK <= |w| && qo + BLOCK <= |q8k| && n < 2 && qt < 4 && lo <= hi <= 32
  {
    DotBytes(Codes(w, o, n, qt), Load(q8k, QuantsAt(qo, n, qt)), lo, hi)
  }

  function GroupSum(q8k: seq<byte>, qo: nat, n: nat, qt: nat, g: nat): (s: int)
    requires qo + BLOCK <= |q8k| && n < 2 && qt < 4 && g < 2
    ensures -0x8000 <= s <= 0x7FFF
  {
    StoredSum(q8k, qo, 8 * n + 2 * qt + g)
  }

  // ----- the int32 accumulator -----

  /** `acc += (s0 - 32*b0)*k0 + (s1 - 32*b1)*k1`, every operation on `int32`. */
  function AccStep(acc: int, s0: int, s1: int, b0: int, b1: int, k0: int, k1: int): int {
    Wrap32(acc + Wrap32(Wrap32(Wrap32(s0 - Wrap32(32 * b0)) * k0) + Wrap32(Wrap32(s1 - Wrap32(32 * b1)) * k1)))
  }

  function QuarterStep(acc: int, w: seq<byte>, o: nat, q8k: seq<byte>, qo: nat, n: nat, qt: nat): int
    requires o + WBLOCK <= |w| && qo + BLOCK <= |q8k| && n < 2 && qt < 4
  {
    AccStep(acc, PartialDot(w, o, n, qt, q8k, qo, 0, 16), PartialDot(w, o, n, qt, q8k, qo, 16, 32),
            GroupSum(q8k, qo, n, qt, 0), GroupSum(q8k, qo, n, qt, 1), Scale(w, o, n, qt, 0), Scale(w, o, n, qt, 1))
  }

  /** The accumulator of one block after `t` of its eight quarters. */
  function BlockAcc(w: seq<byte>, o: nat, q8k: seq<byte>, qo: nat, t: nat): int
    requires o + WBLOCK <= |w| && qo + BLOCK <= |q8k| && t <= 8
  {
    if t == 0 then 0
    else QuarterStep(BlockAcc(w, o, q8k, qo, t - 1), w, o, q8k, qo, (t - 1) / 4, (t - 1) % 4)
  }

  /** The value of one output row after `n` blocks. */
  function RowExpr(w: seq<byte>, q8k: seq<byte>, n: nat): F32
    requires WBLOCK * n <= |w| && BLOCK * n <= |q8k|
  {
    if n == 0 then ZERO
    else Add(RowExpr(w, q8k, n - 1), BlockExpr(w, WBLOCK * (n - 1), q8k, BLOCK * (n - 1)))
  }

  function BlockExpr(w: seq<byte>, o: nat, q8k: seq<byte>, qo: nat): F32
    requires o + WBLOCK <= |w| && qo + BLOCK <= |q8k|
  {
    Mul(OfInt(BlockAcc(w, o, q8k, qo, 8)), Mul(Half(U16(w[o + D], w[o + D + 1])), Bits(ScaleBits(q8k, qo))))
  }

  // ----- the vector branch builds the same codes -----

  function LowVector(ql: seq<byte>, qt: nat): (v: seq<byte>)
    requires |ql| % 2 == 0 && qt < 4
    ensures |v| == |ql|
  {
    And(if qt < 2 then ql else ShiftRight16(ql, 4), 15)
  }

  function HighVector(qh: seq<byte>, qt: nat): (v: seq<byte>)
    requires |qh| % 2 == 0 && qt < 4
    ensures |v| == |qh|
  {
    ShiftLeft16(And(if qt == 0 then qh else ShiftRight16(qh, 2 * qt), 3), 4)
  }

  /** The register of quarter `qt`: masked low nibbles joined with two high bits moved up. */
  function CodeVector(w: seq<byte>, o: nat, n: nat, qt: nat): (v: seq<byte>)
    requires o + WBLOCK <= |w| && n < 2 && qt < 4
    ensures |v| == BYTES
  {
    Or(LowVector(Load(w, LowAt(o, n, qt)), qt), HighVector(Load(w, o + HIGH + 32 * n), qt))
  }

  lemma CodeVectorExact(w: seq<byte>, o: nat, n: nat, qt: nat)
    requires o + WBLOCK <= |w| && n < 2 && qt < 4
    ensures CodeVector(w, o, n, qt) == Codes(w, o, n, qt)
  {
    hide CodeVector;
    forall l | 0 <= l < 32
      ensures CodeVector(w, o, n, qt)[l] == Codes(w, o, n, qt)[l]
    {
      VectorCode(w, o, n, qt, l);
    }
  }

  lemma VectorCode(w: seq<byte>, o: nat, n: nat, qt: nat, l: nat)
    requires o + WBLOCK <= |w| && n < 2 && qt < 4 && l < 32
    ensures CodeVector(w, o, n, qt)[l] == Code(w, o, n, qt, l)
  {
    hide LowVector, HighVector, LowPart, HighPart;
    LowVectorAt(Load(w, LowAt(o, n, qt)), qt, l);
    HighVectorAt(Load(w, o + HIGH + 32 * n), qt, l);
  }

  lemma LowVectorAt(ql: seq<byte>, qt: nat, l: nat)
    requires |ql| % 2 == 0 && qt < 4 && l < |ql|
    ensures LowVector(ql, qt)[l] == LowPart(ql[l], qt)
  {
    hide ShiftRight16;
    MaskedShiftRight(ql, l);
  }

  lemma HighVectorAt(qh: seq<byte>, qt: nat, l: nat)
    requires |qh| % 2 == 0 && qt < 4 && l < |qh|
    ensures HighVector(qh, qt)[l] == HighPart(qh[l], qt)
  {
    hide ShiftLeft16, ShiftRight16, And;
    var v := if qt == 0 then qh else ShiftRight16(qh, 2 * qt);
    MaskedShiftRight(qh, l);
    TwoBits(v, l);
    assert v[l] & 3 == if qt == 0 then qh[l] & 3 else if qt == 1 then (qh[l] >> 2) & 3
      else if qt == 2 then (qh[l] >> 4) & 3 else (qh[l] >> 6) & 3;
  }

  lemma TwoBits(v: seq<byte>, l: nat)
    requires |v| % 2 == 0 && l < |v|
    ensures ShiftLeft16(And(v, 3), 4)[l] == (v[l] & 3) << 4
  {
    hide ShiftLeft16;
    forall j | 0 <= j < |v|
      ensures And(v, 3)[j] <= 3
    {
    }
    MaskedShiftLeft(And(v, 3), l);
  }

  function StoredDot(w: seq<byte>, o: nat, n: nat, qt: nat, q8k: seq<byte>, qo: nat): (b: seq<byte>)
    requires o + WBLOCK <= |w| && qo + BLOCK <= |q8k| && n < 2 && qt < 4
    ensures |b| == BYTES
  {
    DotLanes(CodeVector(w, o, n, qt), Load(q8k, QuantsAt(qo, n, qt)))
  }

  lemma VectorStep(w: seq<byte>, o: nat, n: nat, qt: nat, q8k: seq<byte>, qo: nat, lo: nat, k: nat)
    requires o + WBLOCK <= |w| && qo + BLOCK <= |q8k| && n < 2 && qt < 4 && lo <= k < 8
    ensures Wrap32(PartialDot(w, o, n, qt, q8k, qo, 4 * lo, 4 * k) + ReloadLane(StoredDot(w, o, n, qt, q8k, qo), k))
         == PartialDot(w, o, n, qt, q8k, qo, 4 * lo, 4 * (k + 1))
  {
    hide Codes, CodeVector, DotLanes, ReloadLane, Wrap32, Load, DotBytes;
    CodesRange(w, o, n, qt);
    CodeVectorExact(w, o, n, qt);
    LaneStep(Codes(w, o, n, qt), Load(q8k, QuantsAt(qo, n, qt)), lo, k);
  }

  // ----- the scalar branch builds the same codes -----

  /** One code in the scalar branch's mix of 8- and 32-bit arithmetic. */
  function WideCode(low: byte, high: byte, qt: nat): byte
    requires qt < 4
  {
    if qt == 0 then (low & 15) | ByteOfWord(((high & 3) as bv32) << 4, 0)
    else if qt == 1 then (low & 15) | ByteOfWord((((high as bv32) >> 2) & 3) << 4, 0)
    else if qt == 2 then ByteOfWord(((low as bv32) >> 4) | ((((high as bv32) >> 4) & 3) << 4), 0)
    else ByteOfWord(((low as bv32) >> 4) | ((((high as bv32) >> 6) & 3) << 4), 0)
  }

  lemma WideCodeExact(low: byte, high: byte, qt: nat)
    requires qt < 4
    ensures WideCode(low, high, qt) == CodeOf(low, high, qt)
  {
    hide WideCode, CodeOf;
    WideCode0(low, high);
    WideCode1(low, high);
    WideCode2(low, high);
    WideCode3(low, high);
  }

  lemma WideCode0(low: byte, high: byte)
    ensures WideCode(low, high, 0) == CodeOf(low, high, 0)
  {
  }

  lemma WideCode1(low: byte, high: byte)
    ensures WideCode(low, high, 1) == CodeOf(low, high, 1)
  {
  }

  lemma WideCode2(low: byte, high: byte)
    ensures WideCode(low, high, 2) == CodeOf(low, high, 2)
  {
  }

  lemma WideCode3(low: byte, high: byte)
    ensures WideCode(low, high, 3) == CodeOf(low, high, 3)
  {
  }

  lemma ScalarStep(w: seq<byte>, o: nat, n: nat, qt: nat, q8k: seq<byte>, qo: nat, lo: nat, l: nat)
    requires o + WBLOCK <= |w| && qo + BLOCK <= |q8k| && n < 2 && qt < 4 && lo <= l < 32
    ensures MulAdd32(PartialDot(w, o, n, qt, q8k, qo, lo, l), Code(w, o, n, qt, l) as int, Int8(q8k[QuantsAt(qo, n, qt) + l]))
         == PartialDot(w, o, n, qt, q8k, qo, lo, l + 1)
  {
    hide Code, Wrap32, Int8, MulAdd32, DotBytes;
    CodesRange(w, o, n, qt);
    DotStep(Codes(w, o, n, qt), Load(q8k, QuantsAt(qo, n, qt)), lo, l);
  }

  // ----- the kernel -----

  lemma DotZero(w: seq<byte>, o: nat, n: nat, qt: nat, q8k: seq<byte>, qo: nat)
    requires o + WBLOCK <= |w| && qo + BLOCK <= |q8k| && n < 2 && qt < 4
    ensures PartialDot(w, o, n, qt, q8k, qo, 0, 0) == 0 && PartialDot(w, o, n, qt, q8k, qo, 16, 16) == 0
  {
  }

  /** One quarter of both rows, vector form: lanes 0-3 are the first 16-element group,
      lanes 4-7 the second. */
  method QuarterAvx2(w0: seq<byte>, w1: seq<byte>, o: nat, q8k: seq<byte>, qo: nat, n: nat, qt: nat)
    returns (a0: int, b0: int, a1: int, b1: int)
    requires o + WBLOCK <= |w0| && o + WBLOCK <= |w1| && qo + BLOCK <= |q8k| && n < 2 && qt < 4
    ensures a0 == PartialDot(w0, o, n, qt, q8k, qo, 0, 16) && b0 == PartialDot(w0, o, n, qt, q8k, qo, 16, 32)
    ensures a1 == PartialDot(w1, o, n, qt, q8k, qo, 0, 16) && b1 == PartialDot(w1, o, n, qt, q8k, qo, 16, 32)
  {
    hide StoredDot, ReloadLane, Wrap32, PartialDot;
    var x0, x1 := StoredDot(w0, o, n, qt, q8k, qo), StoredDot(w1, o, n, qt, q8k, qo);
    a0, b0, a1, b1 := 0, 0, 0, 0;
    DotZero(w0, o, n, qt, q8k, qo);
    DotZero(w1, o, n, qt, q8k, qo);
    var k := 0;
    while k < 4
      invariant 0 <= k <= 4
      invariant a0 == PartialDot(w0, o, n, qt, q8k, qo, 0, 4 * k)
      invariant a1 == PartialDot(w1, o, n, qt, q8k, qo, 0, 4 * k)
    {
      VectorStep(w0, o, n, qt, q8k, qo, 0, k);
      VectorStep(w1, o, n, qt, q8k, qo, 0, k);
      a0 := Wrap32(a0 + ReloadLane(x0, k));
      a1 := Wrap32(a1 + ReloadLane(x1, k));
      k := k + 1;
    }
    k := 4;
    while k < 8
      invariant 4 <= k <= 8
      invariant b0 == PartialDot(w0, o, n, qt, q8k, qo, 16, 4 * k)
      invariant b1 == PartialDot(w1, o, n, qt, q8k, qo, 16, 4 * k)
    {
      VectorStep(w0, o, n, qt, q8k, qo, 4, k);
      VectorStep(w1, o, n, qt, q8k, qo, 4, k);
      b0 := Wrap32(b0 + ReloadLane(x0, k));
      b1 := Wrap32(b1 + ReloadLane(x1, k));
      k := k + 1;
    }
  }

  /** One quarter of both rows, scalar form. */
  method QuarterScalar(w0: seq<byte>, w1: seq<byte>, o: nat, q8k: seq<byte>, qo: nat, n: nat, qt: nat)
    returns (a0: int, b0: int, a1: int, b1: int)
    requires o + WBLOCK <= |w0| && o + WBLOCK <= |w1| && qo + BLOCK <= |q8k| && n < 2 && qt < 4
    ensures a0 == PartialDot(w0, o, n, qt, q8k, qo, 0, 16) && b0 == PartialDot(w0, o, n, qt, q8k, qo, 16, 32)
    ensures a1 == PartialDot(w1, o, n, qt, q8k, qo, 0, 16) && b1 == PartialDot(w1, o, n, qt, q8k, qo, 16, 32)
  {
    hide PartialDot, MulAdd32, Int8, WideCode, Code;
    a0, b0, a1, b1 := 0, 0, 0, 0;
    DotZero(w0, o, n, qt, q8k, qo);
    DotZero(w1, o, n, qt, q8k, qo);
    var l := 0;
    while l < 16
      invariant 0 <= l <= 16
      invariant a0 == PartialDot(w0, o, n, qt, q8k, qo, 0, l)
      invariant a1 == PartialDot(w1, o, n, qt, q8k, qo, 0, l)
    {
      a0, a1 := Element(w0, w1, o, q8k, qo, n, qt, 0, l, a0, a1);
      l := l + 1;
    }
    l := 16;
    while l < 32
      invariant 16 <= l <= 32
      invariant b0 == PartialDot(w0, o, n, qt, q8k, qo, 16, l)
      invariant b1 == PartialDot(w1, o, n, qt, q8k, qo, 16, l)
    {
      b0, b1 := Element(w0, w1, o, q8k, qo, n, qt, 16, l, b0, b1);
      l := l + 1;
    }
  }

  /** The body shared by the two scalar loops. */
  method Element(w0: seq<byte>, w1: seq<byte>, o: nat, q8k: seq<byte>, qo: nat, n: nat, qt: nat, lo: nat, l: nat,
                 acc0: int, acc1: int) returns (r0: int, r1: int)
    requires o + WBLOCK <= |w0| && o + WBLOCK <= |w1| && qo + BLOCK <= |q8k| && n < 2 && qt < 4 && lo <= l < 32
    requires acc0 == PartialDot(w0, o, n, qt, q8k, qo, lo, l) && acc1 == PartialDot(w1, o, n, qt, q8k, qo, lo, l)
    ensures r0 == PartialDot(w0, o, n, qt, q8k, qo, lo, l + 1) && r1 == PartialDot(w1, o, n, qt, q8k, qo, lo, l + 1)
  {
    hide PartialDot, MulAdd32, Int8, WideCode, CodeOf;
    var low, high := LowAt(o, n, qt) + l, o + HIGH + 32 * n + l;
    var a := Int8(q8k[QuantsAt(qo, n, qt) + l]);
    WideCodeExact(w0[low], w0[high], qt);
    WideCodeExact(w1[low], w1[high], qt);
    ScalarStep(w0, o, n, qt, q8k, qo, lo, l);
    ScalarStep(w1, o, n, qt, q8k, qo, lo, l);
    r0 := MulAdd32(acc0, WideCode(w0[low], w0[high], qt) as int, a);
    r1 := MulAdd32(acc1, WideCode(w1[low], w1[high], qt) as int, a);
  }

  /** `C2_tensor_gemv2_q6_k_q8_k`. Whichever branch runs, each output is the `RowExpr` of
      its own row: the `int32` accumulators agree for every input byte, also where they
      wrap around. */
  method Gemv2(weight0: seq<byte>, weight1: seq<byte>, q8k: seq<byte>, cols: nat, avx2: bool)
    returns (out0: F32, out1: F32)
    requires WBLOCK * (cols / QK) <= |weight0| && WBLOCK * (cols / QK) <= |weight1| && BLOCK * (cols / QK) <= |q8k|
    ensures out0 == RowExpr(weight0, q8k, cols / QK)
    ensures out1 == RowExpr(weight1, q8k, cols / QK)
  {
    hide BlockAcc, U16, ScaleBits;
    out0, out1 := ZERO, ZERO;
    var b := 0;
    while b < cols / QK
      invariant 0 <= b <= cols / QK
      invariant out0 == RowExpr(weight0, q8k, b) && out1 == RowExpr(weight1, q8k, b)
    {
      var o, qo := WBLOCK * b, BLOCK * b;
      var acc0, acc1 := Accumulate(weight0, weight1, o, q8k, qo, avx2);
      var scale := Bits(ScaleBits(q8k, qo));
      out0 := Add(out0, Mul(OfInt(acc0), Mul(Half(U16(weight0[o + D], weight0[o + D + 1])), scale)));
      out1 := Add(out1, Mul(OfInt(acc1), Mul(Half(U16(weight1[o + D], weight1[o + D + 1])), scale)));
      b := b + 1;
    }
  }

  lemma AccZero(w: seq<byte>, o: nat, q8k: seq<byte>, qo: nat)
    requires o + WBLOCK <= |w| && qo + BLOCK <= |q8k|
    ensures BlockAcc(w, o, q8k, qo, 0) == 0
  {
  }

  lemma AccNext(w: seq<byte>, o: nat, q8k: seq<byte>, qo: nat, n: nat, qt: nat)
    requires o + WBLOCK <= |w| && qo + BLOCK <= |q8k| && n < 2 && qt < 4
    ensures BlockAcc(w, o, q8k, qo, 4 * n + qt + 1) == QuarterStep(BlockAcc(w, o, q8k, qo, 4 * n + qt), w, o, q8k, qo, n, qt)
  {
    hide QuarterStep;
    assert (4 * n + qt) / 4 == n && (4 * n + qt) % 4 == qt;
  }

  /** The two nested loops over a block's halves and quarters. */
  method Accumulate(w0: seq<byte>, w1: seq<byte>, o: nat, q8k: seq<byte>, qo: nat, avx2: bool)
    returns (acc0: int, acc1: int)
    requires o + WBLOCK <= |w0| && o + WBLOCK <= |w1| && qo + BLOCK <= |q8k|
    ensures acc0 == BlockAcc(w0, o, q8k, qo, 8) && acc1 == BlockAcc(w1, o, q8k, qo, 8)
  {
    hide PartialDot, AccStep, Int8, ReadI16, BlockAcc;
    AccZero(w0, o, q8k, qo);
    AccZero(w1, o, q8k, qo);
    acc0, acc1 := 0, 0;
    var n := 0;
    while n < 2
      invariant 0 <= n <= 2
      invariant acc0 == BlockAcc(w0, o, q8k, qo, 4 * n) && acc1 == BlockAcc(w1, o, q8k, qo, 4 * n)
    {
      var qt := 0;
      while qt < 4
        invariant 0 <= qt <= 4
        invariant acc0 == BlockAcc(w0, o, q8k, qo, 4 * n + qt) && acc1 == BlockAcc(w1, o, q8k, qo, 4 * n + qt)
      {
        var a0, b0, a1, b1;
        if avx2 {
          a0, b0, a1, b1 := QuarterAvx2(w0, w1, o, q8k, qo, n, qt);
        } else {
          a0, b0, a1, b1 := QuarterScalar(w0, w1, o, q8k, qo, n, qt);
        }
        var s := qo + SUMS + 16 * n + 4 * qt;
        var sum0, sum1 := ReadI16(q8k[s], q8k[s + 1]), ReadI16(q8k[s + 2], q8k[s + 3]);
        var k := o + SCALES + 8 * n + 2 * qt;
        AccNext(w0, o, q8k, qo, n, qt);
        AccNext(w1, o, q8k, qo, n, qt);
        acc0 := AccStep(acc0, a0, b0, sum0, sum1, Int8(w0[k]), Int8(w0[k + 1]));
        acc1 := AccStep(acc1, a1, b1, sum0, sum1, Int8(w1[k]), Int8(w1[k + 1]));
        qt := qt + 1;
      }
      n := n + 1;
    }
  }
}
