/** Rows of `Q8_K` activations as rows of reals, and how far they are from the activations
    they were quantised from. */
module ActivationRows {
  import opened Machine
  import opened Float32
  import opened RealSums
  import opened Q8K

  /** Activation `i`: its quant times its block's scale. */
  function Activation(q8k: seq<byte>, n: nat, i: nat, rd: Reading): real
    requires BLOCK * n <= |q8k| && i < QK * n
  {
    Times(rd.bits(ScaleBits(q8k, BLOCK * (i / QK))), Quant(q8k, BLOCK * (i / QK), i % QK) as real)
  }

  function ActivationRow(q8k: seq<byte>, n: nat, rd: Reading): (r: seq<real>)
    requires BLOCK * n <= |q8k|
    ensures |r| == QK * n
  {
    seq(QK * n, i requires 0 <= i < QK * n => Activation(q8k, n, i, rd))
  }

  lemma ActivationAt(q8k: seq<byte>, n: nat, b: nat, k: nat, rd: Reading)
    requires BLOCK * n <= |q8k| && b < n && k < QK
    ensures QK * b + k < QK * n
    ensures Activation(q8k, n, QK * b + k, rd)
         == Times(rd.bits(ScaleBits(q8k, BLOCK * b)), Quant(q8k, BLOCK * b, k) as real)
  {
    hide ScaleBits, Quant, Times;
    assert (QK * b + k) / QK == b && (QK * b + k) % QK == k;
  }

  ghost predicate AllWellQuantized(q8k: seq<byte>, n: nat)
    requires BLOCK * n <= |q8k|
  {
    forall b: nat :: b < n ==> WellQuantized(q8k, BLOCK * b)
  }

  // ----- small facts about sums -----

  lemma SumEmpty(s: seq<real>, lo: nat)
    requires lo <= |s|
    ensures Sum(s, lo, lo) == 0.0
  {
  }

  lemma TimesAdd(x: int, y: int, k: real)
    ensures Times((x + y) as real, k) == Times(x as real, k) + Times(y as real, k)
  {
    assert (x + y) as real == x as real + y as real;
  }

  lemma RealProduct(x: int, y: int)
    ensures (x * y) as real == (x as real) * (y as real)
  {
  }

  // ----- the error of a quantised row -----

  /** Sum over the blocks of the activation error times the absolute weight. */
  function ErrorBound(weights: seq<real>, x: seq<real>, n: nat, codec: Codec): real
    requires QK * n <= |weights| && QK * n <= |x|
  {
    if n == 0 then 0.0
    else ErrorBound(weights, x, n - 1, codec)
         + Times(BlockError(XBlock(x, n - 1), codec), Sum(AbsAll(weights), QK * (n - 1), QK * n))
  }

  /** The error allowed for activation `i`: that of its block. */
  function ErrorAt(x: seq<real>, i: nat, codec: Codec): real
  {
    if QK * (i / QK + 1) <= |x| then BlockError(XBlock(x, i / QK), codec) else 0.0
  }

  /** Each of the first `n` blocks of `a` is within its error of `x`. */
  ghost predicate Close(a: seq<real>, x: seq<real>, n: nat, codec: Codec)
    requires QK * n <= |x| && QK * n <= |a|
  {
    forall i: nat :: i < QK * n ==> Abs(a[i] - x[i]) <= ErrorAt(x, i, codec)
  }

  /** How far apart the dot products of `weights` with `a` and with `x` are. */
  function Deviation(weights: seq<real>, a: seq<real>, x: seq<real>): real
    requires |weights| == |a| == |x|
  {
    Abs(Dot(weights, a, 0, |x|) - Dot(weights, x, 0, |x|))
  }

  /** Perturbing every activation within its block's error moves the dot product by at most `ErrorBound`. */
  lemma {:induction false} PerturbedDot(weights: seq<real>, a: seq<real>, x: seq<real>, m: nat, codec: Codec)
    requires |weights| == |a| == |x| && QK * m <= |x|
    requires Close(a, x, m, codec)
    ensures Abs(Dot(weights, a, 0, QK * m) - Dot(weights, x, 0, QK * m)) <= ErrorBound(weights, x, m, codec)
    decreases m
  {
    hide BlockError, Products, Abs, Times, AbsAll, Sum;
    if m == 0 {
      DotEmpty(weights, a, x);
    } else {
      var lo, hi := QK * (m - 1), QK * m;
      PerturbedDot(weights, a, x, m - 1, codec);
      forall i | lo <= i < hi
        ensures Abs(a[i] - x[i]) <= BlockError(XBlock(x, m - 1), codec)
      {
        assert Abs(a[i] - x[i]) <= ErrorAt(x, i, codec) && i / QK == m - 1;
      }
      var eps := BlockError(XBlock(x, m - 1), codec);
      DotPerturb(weights, a, x, lo, hi, eps);
      SumSplit(Products(weights, a), 0, lo, hi);
      SumSplit(Products(weights, x), 0, lo, hi);
      AddBounds(Dot(weights, a, 0, lo), Dot(weights, x, 0, lo), ErrorBound(weights, x, m - 1, codec),
                Dot(weights, a, lo, hi), Dot(weights, x, lo, hi), Times(eps, Sum(AbsAll(weights), lo, hi)));
    }
  }

  lemma DotEmpty(weights: seq<real>, a: seq<real>, x: seq<real>)
    requires |weights| == |a| == |x|
    ensures Abs(Dot(weights, a, 0, 0) - Dot(weights, x, 0, 0)) <= 0.0
  {
  }

  lemma AddBounds(x: real, y: real, e: real, x': real, y': real, e': real)
    requires Abs(x - y) <= e && Abs(x' - y') <= e'
    ensures Abs((x + x') - (y + y')) <= e + e'
  {
  }

  lemma RowActivationError(y: seq<byte>, x: seq<real>, n: nat, i: nat, codec: Codec, rd: Reading)
    requires BLOCK * n <= |y| && |x| == QK * n && i < QK * n && rd.bits == codec.fromBits
    ensures Abs(ActivationRow(QuantizedInto(y, x, n, codec.toBits), n, rd)[i] - x[i]) <= ErrorAt(x, i, codec)
  {
    hide QuantizedInto, ScaleBits, Quant, WellQuantized, BlockError;
    RowMeaning(y, x, n, i / QK, codec);
    assert XBlock(x, i / QK)[i % QK] == x[i];
  }

  lemma RowClose(y: seq<byte>, x: seq<real>, n: nat, codec: Codec, rd: Reading)
    requires BLOCK * n <= |y| && |x| == QK * n && rd.bits == codec.fromBits
    ensures Close(ActivationRow(QuantizedInto(y, x, n, codec.toBits), n, rd), x, n, codec)
  {
    hide QuantizedInto, ActivationRow, ErrorAt, Abs;
    var a := ActivationRow(QuantizedInto(y, x, n, codec.toBits), n, rd);
    forall i: nat | i < QK * n
      ensures Abs(a[i] - x[i]) <= ErrorAt(x, i, codec)
    {
      RowActivationError(y, x, n, i, codec, rd);
    }
  }

  /** The scales of the first `n` blocks survive storage. */
  ghost predicate ExactScales(x: seq<real>, n: nat, codec: Codec)
    requires QK * n <= |x|
  {
    forall b: nat :: b < n ==> ScaleSurvives(XBlock(x, b), codec)
  }

  predicate ScaleSurvives(x: seq<real>, codec: Codec) {
    AMax(x) != 0.0 ==> codec.fromBits(codec.toBits(AMax(x) / 127.0)) == AMax(x) / 127.0
  }

  /** Sum over the blocks of the greatest magnitude, divided by 254, times the absolute weight. */
  function HalfStepBound(weights: seq<real>, x: seq<real>, n: nat): real
    requires QK * n <= |weights| && QK * n <= |x|
  {
    if n == 0 then 0.0
    else HalfStepBound(weights, x, n - 1)
         + Times(AMax(XBlock(x, n - 1)) / 254.0, Sum(AbsAll(weights), QK * (n - 1), QK * n))
  }

  /** When its scale survives storage, a block contributes `amax / 254` times its absolute weight. */
  lemma ExactCodecError(x: seq<real>, codec: Codec)
    requires ScaleSurvives(x, codec)
    ensures BlockError(x, codec) == AMax(x) / 254.0
  {
    hide AMax;
  }

  lemma {:induction false} ExactBound(weights: seq<real>, x: seq<real>, n: nat, codec: Codec)
    requires QK * n <= |weights| && QK * n <= |x| && ExactScales(x, n, codec)
    ensures ErrorBound(weights, x, n, codec) == HalfStepBound(weights, x, n)
    decreases n
  {
    hide AMax, BlockError, Times, Sum, AbsAll, ScaleSurvives;
    if n > 0 {
      ExactBound(weights, x, n - 1, codec);
      ExactCodecError(XBlock(x, n - 1), codec);
    }
  }

  /** A freshly quantised row is well formed. */
  lemma FreshRow(y: seq<byte>, x: seq<real>, n: nat, codec: Codec)
    requires BLOCK * n <= |y| && QK * n <= |x|
    ensures AllWellQuantized(QuantizedInto(y, x, n, codec.toBits), n)
  {
    hide QuantizedInto, WellQuantized;
    forall b: nat | b < n
      ensures WellQuantized(QuantizedInto(y, x, n, codec.toBits), BLOCK * b)
    {
      RowMeaning(y, x, n, b, codec);
    }
  }

  /** Using a freshly quantised row in place of `x` moves a dot product by at most `ErrorBound`. */
  lemma QuantizedDot(weights: seq<real>, y: seq<byte>, x: seq<real>, n: nat, codec: Codec, rd: Reading)
    requires BLOCK * n <= |y| && |x| == |weights| == QK * n && rd.bits == codec.fromBits
    ensures Deviation(weights, ActivationRow(QuantizedInto(y, x, n, codec.toBits), n, rd), x)
         <= ErrorBound(weights, x, n, codec)
  {
    hide QuantizedInto, ActivationRow, Close, Deviation, ErrorBound;
    RowClose(y, x, n, codec, rd);
    RowDeviation(weights, ActivationRow(QuantizedInto(y, x, n, codec.toBits), n, rd), x, n, codec);
  }

  lemma RowDeviation(weights: seq<real>, a: seq<real>, x: seq<real>, n: nat, codec: Codec)
    requires |weights| == |a| == |x| == QK * n && Close(a, x, n, codec)
    ensures Deviation(weights, a, x) <= ErrorBound(weights, x, n, codec)
  {
    hide Close, Dot, Abs, ErrorBound;
    PerturbedDot(weights, a, x, n, codec);
  }
}
