/** What the `Q6_K` kernel computes: its `int32` accumulators are exact on quantised rows,
    and over the reals each output is a dot product with the dequantised weights. */
module Q6KMeaning {
  import opened Machine
  import opened Float32
  import opened RealSums
  import opened Avx2
  import opened Q8K
  import opened ActivationRows
  import opened Q6K

  // ----- the accumulators, exactly -----

  /** What one quarter adds, on unbounded integers. */
  function QuarterTerm(w: seq<byte>, o: nat, q8k: seq<byte>, qo: nat, n: nat, qt: nat): int
    requires o + WBLOCK <= |w| && qo + BLOCK <= |q8k| && n < 2 && qt < 4
  {
    (PartialDot(w, o, n, qt, q8k, qo, 0, 16) - 32 * GroupSum(q8k, qo, n, qt, 0)) * Scale(w, o, n, qt, 0)
    + (PartialDot(w, o, n, qt, q8k, qo, 16, 32) - 32 * GroupSum(q8k, qo, n, qt, 1)) * Scale(w, o, n, qt, 1)
  }

  function ExactAcc(w: seq<byte>, o: nat, q8k: seq<byte>, qo: nat, t: nat): int
    requires o + WBLOCK <= |w| && qo + BLOCK <= |q8k| && t <= 8
  {
    if t == 0 then 0 else ExactAcc(w, o, q8k, qo, t - 1) + QuarterTerm(w, o, q8k, qo, (t - 1) / 4, (t - 1) % 4)
  }

  /** Wrapping at every operation is wrapping once at the end. */
  lemma StepModulo(acc: int, s0: int, s1: int, b0: int, b1: int, k0: int, k1: int)
    ensures AccStep(Wrap32(acc), s0, s1, b0, b1, k0, k1) == Wrap32(acc + ((s0 - 32 * b0) * k0 + (s1 - 32 * b1) * k1))
  {
    hide Wrap32;
    var p, q := (s0 - 32 * b0) * k0, (s1 - 32 * b1) * k1;
    TermModulo(s0, b0, k0);
    TermModulo(s1, b1, k1);
    WrapSum(p, q);
    WrapSum(acc, p + q);
  }

  lemma TermModulo(s: int, b: int, k: int)
    ensures Wrap32(Wrap32(s - Wrap32(32 * b)) * k) == Wrap32((s - 32 * b) * k)
  {
    hide Wrap32;
    WrapSub(s, 32 * b);
    WrapMul(s - 32 * b, k);
  }

  lemma WrapSum(x: int, y: int)
    ensures Wrap32(Wrap32(x) + Wrap32(y)) == Wrap32(x + y)
  {
    hide Wrap32;
    WrapAdd(x, Wrap32(y));
    WrapAdd(x, y);
  }

  lemma WrapSub(x: int, y: int)
    ensures Wrap32(x - Wrap32(y)) == Wrap32(x - y)
  {
    WrapShift(y);
    WrapPeriod(x - y, (y + 0x8000_0000) / 0x1_0000_0000);
  }

  /** For every input byte the `int32` accumulator is the exact integer sum reduced
      modulo 2^32. */
  lemma {:induction false} AccModulo(w: seq<byte>, o: nat, q8k: seq<byte>, qo: nat, t: nat)
    requires o + WBLOCK <= |w| && qo + BLOCK <= |q8k| && t <= 8
    ensures BlockAcc(w, o, q8k, qo, t) == Wrap32(ExactAcc(w, o, q8k, qo, t))
    decreases t
  {
    hide Wrap32, PartialDot, GroupSum, Scale, AccStep;
    if t == 0 {
      WrapZero();
    } else {
      AccModulo(w, o, q8k, qo, t - 1);
      var n, qt := (t - 1) / 4, (t - 1) % 4;
      StepModulo(ExactAcc(w, o, q8k, qo, t - 1), PartialDot(w, o, n, qt, q8k, qo, 0, 16), PartialDot(w, o, n, qt, q8k, qo, 16, 32),
                 GroupSum(q8k, qo, n, qt, 0), GroupSum(q8k, qo, n, qt, 1), Scale(w, o, n, qt, 0), Scale(w, o, n, qt, 1));
    }
  }

  lemma WrapZero()
    ensures Wrap32(0) == 0
  {
  }

  // ----- no overflow on quantised rows -----

  predicate Int32(x: int) {
    -0x8000_0000 <= x <= 0x7FFF_FFFF
  }

  /** Every intermediate value of one accumulator update fits `int32`. */
  ghost predicate StepFits(acc: int, s0: int, s1: int, b0: int, b1: int, k0: int, k1: int) {
    && Int32(32 * b0) && Int32(32 * b1)
    && Int32(s0 - 32 * b0) && Int32(s1 - 32 * b1)
    && Int32((s0 - 32 * b0) * k0) && Int32((s1 - 32 * b1) * k1)
    && Int32((s0 - 32 * b0) * k0 + (s1 - 32 * b1) * k1)
    && Int32(acc + ((s0 - 32 * b0) * k0 + (s1 - 32 * b1) * k1))
  }

  lemma GroupBounds(w: seq<byte>, o: nat, q8k: seq<byte>, qo: nat, n: nat, qt: nat, g: nat)
    requires o + WBLOCK <= |w| && qo + BLOCK <= |q8k| && n < 2 && qt < 4 && g < 2 && WellQuantized(q8k, qo)
    ensures -129024 <= PartialDot(w, o, n, qt, q8k, qo, 16 * g, 16 * g + 16) <= 129024
    ensures -2048 <= GroupSum(q8k, qo, n, qt, g) <= 2048
  {
    hide Codes, DotBytes, QuantSum, StoredSum;
    CodesRange(w, o, n, qt);
    DotBytesBound(Codes(w, o, n, qt), Load(q8k, QuantsAt(qo, n, qt)), 16 * g, 16 * g + 16);
    var k := 8 * n + 2 * qt + g;
    assert StoredSum(q8k, qo, k) == QuantSum(q8k, qo, 16 * k, 16 * k + 16);
    QuantSumBound(q8k, qo, 16 * k, 16 * k + 16);
  }

  lemma {:induction false} QuantSumBound(q8k: seq<byte>, qo: nat, lo: nat, hi: nat)
    requires qo + BLOCK <= |q8k| && lo <= hi <= QK
    ensures -128 * (hi - lo) <= QuantSum(q8k, qo, lo, hi) <= 128 * (hi - lo)
    decreases hi - lo
  {
    hide Quant;
    if lo < hi {
      QuantSumBound(q8k, qo, lo, hi - 1);
    }
  }

  lemma StepBound(acc: int, bound: int, s0: int, s1: int, b0: int, b1: int, k0: int, k1: int)
    requires -129024 <= s0 <= 129024 && -129024 <= s1 <= 129024 && -2048 <= b0 <= 2048 && -2048 <= b1 <= 2048
    requires -128 <= k0 <= 127 && -128 <= k1 <= 127 && 0 <= bound <= 348_651_520 && -bound <= acc <= bound
    ensures StepFits(acc, s0, s1, b0, b1, k0, k1)
    ensures -(bound + 49_807_360) <= acc + ((s0 - 32 * b0) * k0 + (s1 - 32 * b1) * k1) <= bound + 49_807_360
  {
    var d0, d1 := s0 - 32 * b0, s1 - 32 * b1;
    MulBound(d0, k0, 194_560, 128);
    MulBound(d1, k1, 194_560, 128);
  }

  /** On a quantised block no `int32` operation overflows, and the accumulator is the exact sum. */
  lemma {:induction false} AccExact(w: seq<byte>, o: nat, q8k: seq<byte>, qo: nat, t: nat)
    requires o + WBLOCK <= |w| && qo + BLOCK <= |q8k| && t <= 8 && WellQuantized(q8k, qo)
    ensures BlockAcc(w, o, q8k, qo, t) == ExactAcc(w, o, q8k, qo, t)
    ensures -49_807_360 * t <= ExactAcc(w, o, q8k, qo, t) <= 49_807_360 * t
    ensures t > 0 ==>
      var n, qt := (t - 1) / 4, (t - 1) % 4;
      StepFits(ExactAcc(w, o, q8k, qo, t - 1), PartialDot(w, o, n, qt, q8k, qo, 0, 16), PartialDot(w, o, n, qt, q8k, qo, 16, 32),
               GroupSum(q8k, qo, n, qt, 0), GroupSum(q8k, qo, n, qt, 1), Scale(w, o, n, qt, 0), Scale(w, o, n, qt, 1))
    decreases t
  {
    hide PartialDot, GroupSum, Scale, AccStep, StepFits, Wrap32, BlockAcc;
    AccModulo(w, o, q8k, qo, t);
    if t > 0 {
      AccExact(w, o, q8k, qo, t - 1);
      var n, qt := (t - 1) / 4, (t - 1) % 4;
      GroupBounds(w, o, q8k, qo, n, qt, 0);
      GroupBounds(w, o, q8k, qo, n, qt, 1);
      StepBound(ExactAcc(w, o, q8k, qo, t - 1), 49_807_360 * (t - 1),
                PartialDot(w, o, n, qt, q8k, qo, 0, 16), PartialDot(w, o, n, qt, q8k, qo, 16, 32),
                GroupSum(q8k, qo, n, qt, 0), GroupSum(q8k, qo, n, qt, 1), Scale(w, o, n, qt, 0), Scale(w, o, n, qt, 1));
    }
  }

  // ----- dequantised weights, in the layout of the C reference -----

  /** Element `l` of quarter `qt` of half `n`: `d * scale * (code - 32)`. */
  function WeightAt(w: seq<byte>, o: nat, n: nat, qt: nat, l: nat): F32
    requires o + WBLOCK <= |w| && n < 2 && qt < 4 && l < 32
  {
    Mul(Mul(Half(U16(w[o + D], w[o + D + 1])), OfInt(Scale(w, o, n, qt, l / 16))),
        OfInt(Code(w, o, n, qt, l) as int - 32))
  }

  /** Element `i` of a block. */
  function BlockWeight(w: seq<byte>, o: nat, i: nat): F32
    requires o + WBLOCK <= |w| && i < QK
  {
    WeightAt(w, o, i / 128, i % 128 / 32, i % 32)
  }

  /** Weight `i` of a row of `n` blocks. */
  function RowWeight(w: seq<byte>, n: nat, i: nat): F32
    requires WBLOCK * n <= |w| && i < QK * n
  {
    BlockWeight(w, WBLOCK * (i / QK), i % QK)
  }

  function WeightRow(w: seq<byte>, n: nat, rd: Reading): (r: seq<real>)
    requires WBLOCK * n <= |w|
    ensures |r| == QK * n
  {
    seq(QK * n, i requires 0 <= i < QK * n => Eval(RowWeight(w, n, i), rd))
  }

  function RowProducts(w: seq<byte>, q8k: seq<byte>, n: nat, rd: Reading): (p: seq<real>)
    requires WBLOCK * n <= |w| && BLOCK * n <= |q8k|
    ensures |p| == QK * n
  {
    Products(WeightRow(w, n, rd), ActivationRow(q8k, n, rd))
  }

  lemma RowWeightAt(w: seq<byte>, m: nat, b: nat, n: nat, qt: nat, l: nat)
    requires WBLOCK * m <= |w| && b < m && n < 2 && qt < 4 && l < 32
    ensures QK * b + 128 * n + 32 * qt + l < QK * m
    ensures RowWeight(w, m, QK * b + 128 * n + 32 * qt + l) == WeightAt(w, WBLOCK * b, n, qt, l)
  {
    hide WeightAt, BlockWeight;
    var k := 128 * n + 32 * qt + l;
    assert (QK * b + k) / QK == b && (QK * b + k) % QK == k;
    BlockWeightAt(w, WBLOCK * b, n, qt, l);
  }

  lemma BlockWeightAt(w: seq<byte>, o: nat, n: nat, qt: nat, l: nat)
    requires o + WBLOCK <= |w| && n < 2 && qt < 4 && l < 32
    ensures BlockWeight(w, o, 128 * n + 32 * qt + l) == WeightAt(w, o, n, qt, l)
  {
    hide WeightAt;
    var k := 128 * n + 32 * qt + l;
    assert k / 128 == n && k % 128 == 32 * qt + l;
    assert (32 * qt + l) / 32 == qt && k % 32 == l;
  }

  // ----- the kernel's value -----

  lemma TermIdentity(d: real, k: real, c: real, s: real, a: real)
    ensures ((d * k) * c) * (s * a) == (k * (c * a)) * (d * s)
  {
  }

  lemma TermValue(d: real, k: int, c: int, s: real, a: int)
    ensures Times(Times(Times(d, k as real), c as real), Times(s, a as real)) == Times((k * (c * a)) as real, Times(d, s))
  {
    var x, y, z := k as real, c as real, a as real;
    TermIdentity(d, x, y, s, z);
    RealProduct(c, a);
    RealProduct(k, c * a);
  }

  lemma EvalWeight(d: F32, k: int, c: int, rd: Reading)
    ensures Eval(Mul(Mul(d, OfInt(k)), OfInt(c)), rd) == Times(Times(Eval(d, rd), k as real), c as real)
  {
    hide Times;
    assert Eval(OfInt(k), rd) == k as real && Eval(OfInt(c), rd) == c as real;
    assert Eval(Mul(d, OfInt(k)), rd) == Times(Eval(d, rd), Eval(OfInt(k), rd));
    assert Eval(Mul(Mul(d, OfInt(k)), OfInt(c)), rd) == Times(Eval(Mul(d, OfInt(k)), rd), Eval(OfInt(c), rd));
  }

  /** The real constant of a block: weight scale times activation scale. */
  function BlockFactor(w: seq<byte>, o: nat, q8k: seq<byte>, qo: nat, rd: Reading): real
    requires o + WBLOCK <= |w| && qo + BLOCK <= |q8k|
  {
    Times(rd.half(U16(w[o + D], w[o + D + 1])), rd.bits(ScaleBits(q8k, qo)))
  }

  lemma ElementValue(w: seq<byte>, q8k: seq<byte>, m: nat, b: nat, n: nat, qt: nat, l: nat, rd: Reading)
    requires WBLOCK * m <= |w| && BLOCK * m <= |q8k| && b < m && n < 2 && qt < 4 && l < 32
    ensures QK * b + 128 * n + 32 * qt + l < QK * m
    ensures var o, qo, k := WBLOCK * b, BLOCK * b, 128 * n + 32 * qt + l;
      var term := Scale(w, o, n, qt, l / 16) * ((Code(w, o, n, qt, l) as int - 32) * Quant(q8k, qo, k));
      RowProducts(w, q8k, m, rd)[QK * b + k] == Times(term as real, BlockFactor(w, o, q8k, qo, rd))
  {
    hide Scale, Code, U16, ScaleBits, Quant, RowWeight, Activation, Times;
    var o, qo, k := WBLOCK * b, BLOCK * b, 128 * n + 32 * qt + l;
    RowWeightAt(w, m, b, n, qt, l);
    ActivationAt(q8k, m, b, k, rd);
    var d := Half(U16(w[o + D], w[o + D + 1]));
    EvalWeight(d, Scale(w, o, n, qt, l / 16), Code(w, o, n, qt, l) as int - 32, rd);
    TermValue(rd.half(U16(w[o + D], w[o + D + 1])), Scale(w, o, n, qt, l / 16), Code(w, o, n, qt, l) as int - 32,
              rd.bits(ScaleBits(q8k, qo)), Quant(q8k, qo, k));
  }

  /** The first `l` elements of a group: scale times (dot product minus 32 times the quant sum). */
  lemma {:induction false} GroupValue(w: seq<byte>, q8k: seq<byte>, m: nat, b: nat, n: nat, qt: nat, g: nat, l: nat, rd: Reading)
    requires WBLOCK * m <= |w| && BLOCK * m <= |q8k| && b < m && n < 2 && qt < 4 && g < 2 && l <= 16
    ensures QK * b + 128 * n + 32 * qt + 16 * g + l <= QK * m
    ensures var o, qo, k := WBLOCK * b, BLOCK * b, 128 * n + 32 * qt + 16 * g;
      Sum(RowProducts(w, q8k, m, rd), QK * b + k, QK * b + k + l)
      == Times((Scale(w, o, n, qt, g) * (PartialDot(w, o, n, qt, q8k, qo, 16 * g, 16 * g + l) - 32 * QuantSum(q8k, qo, k, k + l))) as real,
               BlockFactor(w, o, q8k, qo, rd))
    decreases l
  {
    hide RowProducts, BlockFactor, Scale, Code, Times, PartialDot, Quant;
    var o, qo, k := WBLOCK * b, BLOCK * b, 128 * n + 32 * qt + 16 * g;
    var K := BlockFactor(w, o, q8k, qo, rd);
    if l == 0 {
      GroupEmpty(w, o, n, qt, q8k, qo, g, K);
    } else {
      var i := l - 1;
      GroupValue(w, q8k, m, b, n, qt, g, i, rd);
      ElementValue(w, q8k, m, b, n, qt, 16 * g + i, rd);
      assert (16 * g + i) / 16 == g;
      PartialNext(w, o, n, qt, q8k, qo, 16 * g, 16 * g + i);
      var s, c, a := Scale(w, o, n, qt, g), Code(w, o, n, qt, 16 * g + i) as int, Quant(q8k, qo, k + i);
      var p, q := PartialDot(w, o, n, qt, q8k, qo, 16 * g, 16 * g + i), QuantSum(q8k, qo, k, k + i);
      NextTerm(s, p, q, c, a);
      TimesAdd(s * (p - 32 * q), s * ((c - 32) * a), K);
    }
  }

  lemma NextTerm(s: int, p: int, q: int, c: int, a: int)
    ensures s * ((p + c * a) - 32 * (q + a)) == s * (p - 32 * q) + s * ((c - 32) * a)
  {
  }

  lemma GroupEmpty(w: seq<byte>, o: nat, n: nat, qt: nat, q8k: seq<byte>, qo: nat, g: nat, K: real)
    requires o + WBLOCK <= |w| && qo + BLOCK <= |q8k| && n < 2 && qt < 4 && g < 2
    ensures Times((Scale(w, o, n, qt, g) * (PartialDot(w, o, n, qt, q8k, qo, 16 * g, 16 * g) - 32 * 0)) as real, K) == 0.0
  {
    hide Scale;
  }

  lemma PartialNext(w: seq<byte>, o: nat, n: nat, qt: nat, q8k: seq<byte>, qo: nat, lo: nat, l: nat)
    requires o + WBLOCK <= |w| && qo + BLOCK <= |q8k| && n < 2 && qt < 4 && lo <= l < 32
    ensures PartialDot(w, o, n, qt, q8k, qo, lo, l + 1)
         == PartialDot(w, o, n, qt, q8k, qo, lo, l) + (Code(w, o, n, qt, l) as int) * Quant(q8k, qo, 128 * n + 32 * qt + l)
  {
    hide Code, Int8;
  }

  /** One quarter: its integer term is the sum of its 32 products. */
  lemma QuarterValue(w: seq<byte>, q8k: seq<byte>, m: nat, b: nat, n: nat, qt: nat, rd: Reading)
    requires WBLOCK * m <= |w| && BLOCK * m <= |q8k| && b < m && n < 2 && qt < 4 && WellQuantized(q8k, BLOCK * b)
    ensures QK * b + 128 * n + 32 * qt + 32 <= QK * m
    ensures var o, qo, k := WBLOCK * b, BLOCK * b, 128 * n + 32 * qt;
      Sum(RowProducts(w, q8k, m, rd), QK * b + k, QK * b + k + 32)
      == Times(QuarterTerm(w, o, q8k, qo, n, qt) as real, BlockFactor(w, o, q8k, qo, rd))
  {
    hide RowProducts, BlockFactor, Scale, Times, PartialDot, QuantSum, StoredSum, Sum;
    var o, qo, k := WBLOCK * b, BLOCK * b, 128 * n + 32 * qt;
    GroupValue(w, q8k, m, b, n, qt, 0, 16, rd);
    GroupValue(w, q8k, m, b, n, qt, 1, 16, rd);
    SumSplit(RowProducts(w, q8k, m, rd), QK * b + k, QK * b + k + 16, QK * b + k + 32);
    var t := 8 * n + 2 * qt;
    assert StoredSum(q8k, qo, t) == QuantSum(q8k, qo, 16 * t, 16 * t + 16);
    assert StoredSum(q8k, qo, t + 1) == QuantSum(q8k, qo, 16 * (t + 1), 16 * (t + 1) + 16);
    GroupPair(Scale(w, o, n, qt, 0), PartialDot(w, o, n, qt, q8k, qo, 0, 16), GroupSum(q8k, qo, n, qt, 0),
              Scale(w, o, n, qt, 1), PartialDot(w, o, n, qt, q8k, qo, 16, 32), GroupSum(q8k, qo, n, qt, 1),
              BlockFactor(w, o, q8k, qo, rd));
  }

  lemma GroupPair(k0: int, s0: int, b0: int, k1: int, s1: int, b1: int, K: real)
    ensures Times((k0 * (s0 - 32 * b0)) as real, K) + Times((k1 * (s1 - 32 * b1)) as real, K)
         == Times(((s0 - 32 * b0) * k0 + (s1 - 32 * b1) * k1) as real, K)
  {
    hide Times;
    var p, q := k0 * (s0 - 32 * b0), k1 * (s1 - 32 * b1);
    Commute(k0, s0 - 32 * b0);
    Commute(k1, s1 - 32 * b1);
    TimesAdd(p, q, K);
  }

  lemma Commute(x: int, y: int)
    ensures x * y == y * x
  {
  }

  lemma {:induction false} BlockValue(w: seq<byte>, q8k: seq<byte>, m: nat, b: nat, t: nat, rd: Reading)
    requires WBLOCK * m <= |w| && BLOCK * m <= |q8k| && b < m && t <= 8 && WellQuantized(q8k, BLOCK * b)
    ensures QK * b + 32 * t <= QK * m
    ensures Sum(RowProducts(w, q8k, m, rd), QK * b, QK * b + 32 * t)
         == Times(ExactAcc(w, WBLOCK * b, q8k, BLOCK * b, t) as real, BlockFactor(w, WBLOCK * b, q8k, BLOCK * b, rd))
    decreases t
  {
    hide RowProducts, BlockFactor, QuarterTerm, Times, WellQuantized, Sum;
    var o, qo := WBLOCK * b, BLOCK * b;
    var K := BlockFactor(w, o, q8k, qo, rd);
    if t == 0 {
      SumEmpty(RowProducts(w, q8k, m, rd), QK * b);
      TimesZero(K);
    } else {
      var n, qt := (t - 1) / 4, (t - 1) % 4;
      assert 128 * n + 32 * qt == 32 * (t - 1);
      BlockValue(w, q8k, m, b, t - 1, rd);
      QuarterValue(w, q8k, m, b, n, qt, rd);
      SumSplit(RowProducts(w, q8k, m, rd), QK * b, QK * b + 32 * (t - 1), QK * b + 32 * t);
      TimesAdd(ExactAcc(w, o, q8k, qo, t - 1), QuarterTerm(w, o, q8k, qo, n, qt), K);
    }
  }

  lemma TimesZero(k: real)
    ensures Times(0 as real, k) == 0.0
  {
  }

  lemma {:induction false} PrefixValue(w: seq<byte>, q8k: seq<byte>, n: nat, m: nat, rd: Reading)
    requires WBLOCK * n <= |w| && BLOCK * n <= |q8k| && m <= n && AllWellQuantized(q8k, n)
    ensures Eval(RowExpr(w, q8k, m), rd) == Sum(RowProducts(w, q8k, n, rd), 0, QK * m)
    decreases m
  {
    hide RowProducts, BlockExpr, WellQuantized, Sum;
    var p := RowProducts(w, q8k, n, rd);
    if m == 0 {
      SumEmpty(p, 0);
    } else {
      var b := m - 1;
      PrefixValue(w, q8k, n, b, rd);
      assert WellQuantized(q8k, BLOCK * b);
      BlockExprValue(w, q8k, n, b, rd);
      SumSplit(p, 0, QK * b, QK * m);
      assert Eval(RowExpr(w, q8k, m), rd) == Eval(RowExpr(w, q8k, b), rd) + Eval(BlockExpr(w, WBLOCK * b, q8k, BLOCK * b), rd);
    }
  }

  lemma BlockExprValue(w: seq<byte>, q8k: seq<byte>, n: nat, b: nat, rd: Reading)
    requires WBLOCK * n <= |w| && BLOCK * n <= |q8k| && b < n && WellQuantized(q8k, BLOCK * b)
    ensures QK * b + QK <= QK * n
    ensures Eval(BlockExpr(w, WBLOCK * b, q8k, BLOCK * b), rd) == Sum(RowProducts(w, q8k, n, rd), QK * b, QK * b + QK)
  {
    hide RowProducts, BlockAcc, ExactAcc, WellQuantized, Sum, Times, Eval, BlockExpr, BlockFactor;
    BlockValue(w, q8k, n, b, 8, rd);
    AccExact(w, WBLOCK * b, q8k, BLOCK * b, 8);
    EvalBlock(w, WBLOCK * b, q8k, BLOCK * b, rd);
  }

  lemma EvalBlock(w: seq<byte>, o: nat, q8k: seq<byte>, qo: nat, rd: Reading)
    requires o + WBLOCK <= |w| && qo + BLOCK <= |q8k|
    ensures Eval(BlockExpr(w, o, q8k, qo), rd) == Times(BlockAcc(w, o, q8k, qo, 8) as real, BlockFactor(w, o, q8k, qo, rd))
  {
    hide Times, BlockAcc, U16, ScaleBits;
    var acc, h, s := BlockAcc(w, o, q8k, qo, 8), U16(w[o + D], w[o + D + 1]), ScaleBits(q8k, qo);
    assert Eval(OfInt(acc), rd) == acc as real;
    assert Eval(Mul(Half(h), Bits(s)), rd) == Times(rd.half(h), rd.bits(s));
  }

  /** Over the reals the kernel is the dot product of the dequantised row with the
      dequantised activations, for every weight row and every well-formed `Q8_K` row. */
  lemma KernelMeaning(w: seq<byte>, q8k: seq<byte>, n: nat, rd: Reading)
    requires WBLOCK * n <= |w| && BLOCK * n <= |q8k| && AllWellQuantized(q8k, n)
    ensures Eval(RowExpr(w, q8k, n), rd) == Dot(WeightRow(w, n, rd), ActivationRow(q8k, n, rd), 0, QK * n)
  {
    hide WeightRow, ActivationRow, RowExpr, AllWellQuantized, Sum, Products;
    PrefixValue(w, q8k, n, n, rd);
  }

  /** Quantising `x` over any old buffer and running the kernel, in whichever branch,
      lands within `ErrorBound` of the exact dot product with `x`. */
  lemma EndToEnd(w: seq<byte>, y: seq<byte>, x: seq<real>, n: nat, codec: Codec, rd: Reading)
    requires WBLOCK * n <= |w| && BLOCK * n <= |y| && |x| == QK * n
    requires rd.bits == codec.fromBits
    ensures var weights := WeightRow(w, n, rd);
      Abs(Eval(RowExpr(w, QuantizedInto(y, x, n, codec.toBits), n), rd) - Dot(weights, x, 0, QK * n))
        <= ErrorBound(weights, x, n, codec)
  {
    hide QuantizedInto, RowExpr, WeightRow, ActivationRow, AllWellQuantized, Dot, ErrorBound, Abs;
    var q8k := QuantizedInto(y, x, n, codec.toBits);
    FreshRow(y, x, n, codec);
    QuantizedDot(WeightRow(w, n, rd), y, x, n, codec, rd);
    KernelMeaning(w, q8k, n, rd);
  }

  /** Where the block scales survive storage, that bound is the sum over blocks of the greatest activation
      divided by 254, times the block's absolute dequantised weights. */
  lemma EndToEndExact(w: seq<byte>, y: seq<byte>, x: seq<real>, n: nat, codec: Codec, rd: Reading)
    requires WBLOCK * n <= |w| && BLOCK * n <= |y| && |x| == QK * n
    requires rd.bits == codec.fromBits && ExactScales(x, n, codec)
    ensures var weights := WeightRow(w, n, rd);
      Abs(Eval(RowExpr(w, QuantizedInto(y, x, n, codec.toBits), n), rd) - Dot(weights, x, 0, QK * n))
        <= HalfStepBound(weights, x, n)
  {
    hide QuantizedInto, RowExpr, WeightRow, Dot, ErrorBound, HalfStepBound, ExactScales, Abs;
    EndToEnd(w, y, x, n, codec, rd);
    ExactBound(WeightRow(w, n, rd), x, n, codec);
  }
}
