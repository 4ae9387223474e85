/** What the `Q4_K` kernels compute: over the reals, the dot product of the dequantised
    weights with the dequantised activations, and how far that is from the dot
    product with the original activations. */
module Q4KMeaning {
  import opened Machine
  import opened Float32
  import opened RealSums
  import opened Avx2
  import opened Q8K
  import opened ActivationRows
  import opened Q4K

  // ----- dequantised weights -----

  /** `d0*float32(nibble) - m0`, element `l` of one half of pair `j`. */
  function WeightAt(w: seq<byte>, o: nat, j: nat, high: bool, l: nat): F32
    requires o + WBLOCK <= |w| && j < 4 && l < 32
  {
    var i := 2 * j + if high then 1 else 0;
    var d, dmin := Half(U16(w[o], w[o + 1])), Half(U16(w[o + 2], w[o + 3]));
    Sub(Mul(Mul(d, OfInt(Scale6(w, o + SCALES, i) as int)), OfInt(Nibble(w[o + NIBBLES + 32 * j + l], high) as int)),
        Mul(dmin, OfInt(Min6(w, o + SCALES, i) as int)))
  }

  /** Element `i` of a block. */
  function WeightExpr(w: seq<byte>, o: nat, i: nat): F32
    requires o + WBLOCK <= |w| && i < QK
  {
    WeightAt(w, o, i / 64, i % 64 >= 32, i % 32)
  }

  /** `DequantizeRowQ4_K`. */
  method DequantizeRow(dst: array<F32>, data: seq<byte>, cols: nat)
    requires cols <= dst.Length && WBLOCK * (cols / QK) <= |data|
    modifies dst
    ensures forall i :: 0 <= i < QK * (cols / QK) ==> dst[i] == RowWeight(data, cols / QK, i)
    ensures forall i :: QK * (cols / QK) <= i < dst.Length ==> dst[i] == old(dst[i])
  {
    hide RowWeight;
    var b := 0;
    while b < cols / QK
      invariant 0 <= b <= cols / QK
      invariant forall i :: 0 <= i < QK * b ==> dst[i] == RowWeight(data, cols / QK, i)
      invariant forall i :: QK * b <= i < dst.Length ==> dst[i] == old(dst[i])
    {
      DequantizeBlock(dst, data, b, cols / QK);
      b := b + 1;
    }
  }

  /** Weight `i` of a row of `n` blocks. */
  function RowWeight(w: seq<byte>, n: nat, i: nat): F32
    requires WBLOCK * n <= |w| && i < QK * n
  {
    WeightExpr(w, WBLOCK * (i / QK), i % QK)
  }

  method DequantizeBlock(dst: array<F32>, data: seq<byte>, b: nat, n: nat)
    requires b < n && QK * n <= dst.Length && WBLOCK * n <= |data|
    modifies dst
    ensures forall i :: QK * b <= i < QK * (b + 1) ==> dst[i] == RowWeight(data, n, i)
    ensures forall i :: 0 <= i < dst.Length && !(QK * b <= i < QK * (b + 1)) ==> dst[i] == old(dst[i])
  {
    hide RowWeight, Scale6, Min6, WeightAt;
    var o := WBLOCK * b;
    var sc, m := UnpackScales(data, o + SCALES);
    var sb := 0;
    while sb < 4
      invariant 0 <= sb <= 4
      invariant forall i :: QK * b <= i < QK * b + 64 * sb ==> dst[i] == RowWeight(data, n, i)
      invariant forall i :: 0 <= i < dst.Length && !(QK * b <= i < QK * b + 64 * sb) ==> dst[i] == old(dst[i])
    {
      DequantizePair(dst, data, b, n, sb, sc, m);
      sb := sb + 1;
    }
  }

  method DequantizePair(dst: array<F32>, data: seq<byte>, b: nat, n: nat, sb: nat, sc: seq<byte>, m: seq<byte>)
    requires b < n && QK * n <= dst.Length && WBLOCK * n <= |data| && sb < 4 && |sc| == |m| == 8
    requires forall j :: 0 <= j < 8 ==>
      sc[j] == Scale6(data, WBLOCK * b + SCALES, j) && m[j] == Min6(data, WBLOCK * b + SCALES, j)
    modifies dst
    ensures forall i :: QK * b + 64 * sb <= i < QK * b + 64 * (sb + 1) ==> dst[i] == RowWeight(data, n, i)
    ensures forall i :: 0 <= i < dst.Length && !(QK * b + 64 * sb <= i < QK * b + 64 * (sb + 1)) ==> dst[i] == old(dst[i])
  {
    hide RowWeight, Scale6, Min6, Nibble, U16, WeightAt;
    var o, at := WBLOCK * b, QK * b + 64 * sb;
    var d, dmin := Half(U16(data[o], data[o + 1])), Half(U16(data[o + 2], data[o + 3]));
    var d0, m0 := Mul(d, OfInt(sc[2 * sb] as int)), Mul(dmin, OfInt(m[2 * sb] as int));
    var d1, m1 := Mul(d, OfInt(sc[2 * sb + 1] as int)), Mul(dmin, OfInt(m[2 * sb + 1] as int));
    var l := 0;
    while l < 32
      invariant 0 <= l <= 32
      invariant forall i :: at <= i < at + l ==> dst[i] == RowWeight(data, n, i)
      invariant forall i :: at + 32 <= i < at + 32 + l ==> dst[i] == RowWeight(data, n, i)
      invariant forall i :: 0 <= i < dst.Length && !(at <= i < at + l) && !(at + 32 <= i < at + 32 + l) ==> dst[i] == old(dst[i])
    {
      var v := data[o + NIBBLES + 32 * sb + l];
      WideNibble(v);
      RowWeightAt(data, n, b, sb, false, l);
      RowWeightAt(data, n, b, sb, true, l);
      WeightAtExpr(data, o, sb, l);
      dst[at + l] := Sub(Mul(d0, OfInt((v & 0x0F) as int)), m0);
      dst[at + l + 32] := Sub(Mul(d1, OfInt(Nibble(v, true) as int)), m1);
      l := l + 1;
    }
  }

  lemma WeightAtExpr(w: seq<byte>, o: nat, j: nat, l: nat)
    requires o + WBLOCK <= |w| && j < 4 && l < 32
    ensures var d, dmin := Half(U16(w[o], w[o + 1])), Half(U16(w[o + 2], w[o + 3]));
      var v := w[o + NIBBLES + 32 * j + l];
      && WeightAt(w, o, j, false, l) == Sub(Mul(Mul(d, OfInt(Scale6(w, o + SCALES, 2 * j) as int)), OfInt(Nibble(v, false) as int)),
                                            Mul(dmin, OfInt(Min6(w, o + SCALES, 2 * j) as int)))
      && WeightAt(w, o, j, true, l) == Sub(Mul(Mul(d, OfInt(Scale6(w, o + SCALES, 2 * j + 1) as int)), OfInt(Nibble(v, true) as int)),
                                           Mul(dmin, OfInt(Min6(w, o + SCALES, 2 * j + 1) as int)))
  {
    hide Scale6, Min6, Nibble, U16;
  }

  lemma RowWeightAt(w: seq<byte>, n: nat, b: nat, j: nat, high: bool, l: nat)
    requires WBLOCK * n <= |w| && b < n && j < 4 && l < 32
    ensures QK * b + 64 * j + (if high then 32 else 0) + l < QK * n
    ensures RowWeight(w, n, QK * b + 64 * j + (if high then 32 else 0) + l) == WeightAt(w, WBLOCK * b, j, high, l)
  {
    hide WeightAt;
    var k := 64 * j + (if high then 32 else 0) + l;
    assert (QK * b + k) / QK == b && (QK * b + k) % QK == k;
    assert k / 64 == j && k % 32 == l && (k % 64 >= 32) == high;
  }

  // ----- rows of reals -----

  function WeightRow(w: seq<byte>, n: nat, rd: Reading): (r: seq<real>)
    requires WBLOCK * n <= |w|
    ensures |r| == QK * n
  {
    seq(QK * n, i requires 0 <= i < QK * n => Eval(RowWeight(w, n, i), rd))
  }

  // ----- the kernel's value -----

  /** Distributing one term of the sum: the scale and the minimum move outside. */
  lemma TermIdentity(d: real, sc: real, v: real, dmin: real, m: real, s: real, a: real)
    ensures (((d * sc) * v) - (dmin * m)) * (s * a) == (v * a) * ((d * s) * sc) - a * ((dmin * s) * m)
  {
  }

  /** The block constants of one half: `d * d8 * scale` and `dmin * d8 * min`. */
  function ScaleFactor(w: seq<byte>, o: nat, q8k: seq<byte>, qo: nat, i: nat, rd: Reading): real
    requires o + WBLOCK <= |w| && qo + BLOCK <= |q8k| && i < 8
  {
    Times(Times(rd.half(U16(w[o], w[o + 1])), rd.bits(ScaleBits(q8k, qo))), Scale6(w, o + SCALES, i) as int as real)
  }

  function MinFactor(w: seq<byte>, o: nat, q8k: seq<byte>, qo: nat, i: nat, rd: Reading): real
    requires o + WBLOCK <= |w| && qo + BLOCK <= |q8k| && i < 8
  {
    Times(Times(rd.half(U16(w[o + 2], w[o + 3])), rd.bits(ScaleBits(q8k, qo))), Min6(w, o + SCALES, i) as int as real)
  }

  /** Weight times activation of one element. */
  lemma ElementValue(w: seq<byte>, q8k: seq<byte>, n: nat, b: nat, j: nat, high: bool, l: nat, rd: Reading)
    requires WBLOCK * n <= |w| && BLOCK * n <= |q8k| && b < n && j < 4 && l < 32
    ensures QK * b + 64 * j + (if high then 32 else 0) + l < QK * n
    ensures var i := 2 * j + (if high then 1 else 0);
      var k := 64 * j + (if high then 32 else 0) + l;
      var a := Quant(q8k, BLOCK * b, k);
      var v := Nibble(w[WBLOCK * b + NIBBLES + 32 * j + l], high) as int;
      Products(WeightRow(w, n, rd), ActivationRow(q8k, n, rd))[QK * b + k]
        == Times((v * a) as real, ScaleFactor(w, WBLOCK * b, q8k, BLOCK * b, i, rd))
           - Times(a as real, MinFactor(w, WBLOCK * b, q8k, BLOCK * b, i, rd))
  {
    hide Scale6, Min6, Nibble, U16, ScaleBits, Quant, RowWeight, Activation, Times;
    var i := 2 * j + (if high then 1 else 0);
    var k := 64 * j + (if high then 32 else 0) + l;
    RowWeightAt(w, n, b, j, high, l);
    ActivationAt(q8k, n, b, k, rd);
    WeightValue(w, WBLOCK * b, j, high, l, rd);
    var d, dmin := rd.half(U16(w[WBLOCK * b], w[WBLOCK * b + 1])), rd.half(U16(w[WBLOCK * b + 2], w[WBLOCK * b + 3]));
    var sc, m := Scale6(w, WBLOCK * b + SCALES, i) as int, Min6(w, WBLOCK * b + SCALES, i) as int;
    TermValue(d, sc, Nibble(w[WBLOCK * b + NIBBLES + 32 * j + l], high) as int, dmin, m,
              rd.bits(ScaleBits(q8k, BLOCK * b)), Quant(q8k, BLOCK * b, k));
  }

  lemma WeightValue(w: seq<byte>, o: nat, j: nat, high: bool, l: nat, rd: Reading)
    requires o + WBLOCK <= |w| && j < 4 && l < 32
    ensures var i := 2 * j + (if high then 1 else 0);
      Eval(WeightAt(w, o, j, high, l), rd) ==
        Times(Times(rd.half(U16(w[o], w[o + 1])), Scale6(w, o + SCALES, i) as int as real),
              Nibble(w[o + NIBBLES + 32 * j + l], high) as int as real)
        - Times(rd.half(U16(w[o + 2], w[o + 3])), Min6(w, o + SCALES, i) as int as real)
  {
    hide Scale6, Min6, Nibble, U16, Times;
    var i := 2 * j + (if high then 1 else 0);
    EvalWeight(Half(U16(w[o], w[o + 1])), Half(U16(w[o + 2], w[o + 3])), Scale6(w, o + SCALES, i) as int,
               Min6(w, o + SCALES, i) as int, Nibble(w[o + NIBBLES + 32 * j + l], high) as int, rd);
  }

  lemma EvalWeight(d: F32, dmin: F32, sc: int, m: int, v: int, rd: Reading)
    ensures Eval(Sub(Mul(Mul(d, OfInt(sc)), OfInt(v)), Mul(dmin, OfInt(m))), rd)
         == Times(Times(Eval(d, rd), sc as real), v as real) - Times(Eval(dmin, rd), m as real)
  {
    hide Times;
    assert Eval(OfInt(sc), rd) == sc as real && Eval(OfInt(v), rd) == v as real && Eval(OfInt(m), rd) == m as real;
    assert Eval(Mul(d, OfInt(sc)), rd) == Times(Eval(d, rd), sc as real);
    assert Eval(Mul(Mul(d, OfInt(sc)), OfInt(v)), rd) == Times(Eval(Mul(d, OfInt(sc)), rd), v as real);
    assert Eval(Mul(dmin, OfInt(m)), rd) == Times(Eval(dmin, rd), m as real);
  }

  lemma TermValue(d: real, sc: int, v: int, dmin: real, m: int, s: real, a: int)
    ensures Times(Times(Times(d, sc as real), v as real) - Times(dmin, m as real), Times(s, a as real))
         == Times((v * a) as real, Times(Times(d, s), sc as real)) - Times(a as real, Times(Times(dmin, s), m as real))
  {
    var x, y, z, u := sc as real, v as real, m as real, a as real;
    TermIdentity(d, x, y, dmin, z, s, u);
    RealProduct(v, a);
  }

  function HalfStart(b: nat, j: nat, high: bool): nat {
    QK * b + 64 * j + if high then 32 else 0
  }

  /** The products of one row, in element order. */
  function RowProducts(w: seq<byte>, q8k: seq<byte>, n: nat, rd: Reading): (p: seq<real>)
    requires WBLOCK * n <= |w| && BLOCK * n <= |q8k|
    ensures |p| == QK * n
  {
    Products(WeightRow(w, n, rd), ActivationRow(q8k, n, rd))
  }

  /** After `l` elements of a half: an integer dot product and an integer quant sum, each
      under one constant. */
  lemma {:induction false} PartialValue(w: seq<byte>, q8k: seq<byte>, n: nat, b: nat, j: nat, high: bool, l: nat, rd: Reading)
    requires WBLOCK * n <= |w| && BLOCK * n <= |q8k| && b < n && j < 4 && l <= 32
    ensures HalfStart(b, j, high) + l <= QK * n
    ensures var i, h := 2 * j + (if high then 1 else 0), if high then 32 else 0;
      var o, qo, p := WBLOCK * b, BLOCK * b, HalfStart(b, j, high);
      Sum(RowProducts(w, q8k, n, rd), p, p + l)
        == Times(PartialDot(w, o + NIBBLES + 32 * j, high, q8k, qo + QUANTS + 64 * j + h, l) as real,
                 ScaleFactor(w, o, q8k, qo, i, rd))
           - Times(QuantSum(q8k, qo, 64 * j + h, 64 * j + h + l) as real, MinFactor(w, o, q8k, qo, i, rd))
    decreases l
  {
    hide WeightRow, ActivationRow, Products, ScaleFactor, MinFactor, Nibble, Times, PartialDot, Quant;
    var i, h := 2 * j + (if high then 1 else 0), if high then 32 else 0;
    var o, qo, p := WBLOCK * b, BLOCK * b, HalfStart(b, j, high);
    var at, qat := o + NIBBLES + 32 * j, qo + QUANTS + 64 * j + h;
    var K, M := ScaleFactor(w, o, q8k, qo, i, rd), MinFactor(w, o, q8k, qo, i, rd);
    if l == 0 {
      PartialEmpty(w, at, high, q8k, qat, K, M);
    } else {
      var k := l - 1;
      PartialValue(w, q8k, n, b, j, high, k, rd);
      ElementValue(w, q8k, n, b, j, high, k, rd);
      PartialNext(w, at, high, q8k, qat, k, qo, 64 * j + h + k);
      var v, a := Nibble(w[at + k], high) as int, Quant(q8k, qo, 64 * j + h + k);
      TimesAdd(PartialDot(w, at, high, q8k, qat, k), v * a, K);
      TimesAdd(QuantSum(q8k, qo, 64 * j + h, 64 * j + h + k), a, M);
    }
  }

  lemma PartialEmpty(w: seq<byte>, at: nat, high: bool, q8k: seq<byte>, qat: nat, K: real, M: real)
    requires at + 32 <= |w| && qat + 32 <= |q8k|
    ensures Times(PartialDot(w, at, high, q8k, qat, 0) as real, K) == 0.0 && Times(0 as real, M) == 0.0
  {
  }

  lemma PartialNext(w: seq<byte>, at: nat, high: bool, q8k: seq<byte>, qat: nat, k: nat, qo: nat, i: nat)
    requires at + 32 <= |w| && qat + 32 <= |q8k| && k < 32
    requires qo + BLOCK <= |q8k| && i < QK && qat + k == qo + QUANTS + i
    ensures PartialDot(w, at, high, q8k, qat, k + 1)
         == PartialDot(w, at, high, q8k, qat, k) + (Nibble(w[at + k], high) as int) * Quant(q8k, qo, i)
  {
    hide Nibble, Int8;
  }

  /** One half of a pair: the factored integer form is the sum of its 32 products. */
  lemma HalfValue(w: seq<byte>, q8k: seq<byte>, n: nat, b: nat, j: nat, high: bool, rd: Reading)
    requires WBLOCK * n <= |w| && BLOCK * n <= |q8k| && b < n && j < 4 && WellQuantized(q8k, BLOCK * b)
    ensures HalfStart(b, j, high) + 32 <= QK * n
    ensures Eval(SubExpr(w, WBLOCK * b, q8k, BLOCK * b, j, high), rd)
         == Sum(RowProducts(w, q8k, n, rd), HalfStart(b, j, high), HalfStart(b, j, high) + 32)
  {
    hide RowProducts, PartialDot, QuantSum, Scale6, Min6, U16, ScaleBits, StoredSum, Times, Sum, HalfExpr;
    var i, h := 2 * j + (if high then 1 else 0), if high then 32 else 0;
    var o, qo := WBLOCK * b, BLOCK * b;
    PartialValue(w, q8k, n, b, j, high, 32, rd);
    PairSumValue(q8k, qo, j, high);
    EvalHalf(Half(U16(w[o], w[o + 1])), Half(U16(w[o + 2], w[o + 3])), Bits(ScaleBits(q8k, qo)),
             SubDot(w, o, q8k, qo, j, high), PairSum(q8k, qo, j, high),
             Scale6(w, o + SCALES, i), Min6(w, o + SCALES, i), rd);
  }

  /** Two adjacent stored sums are the sum of the 32 quants they cover. */
  lemma PairSumValue(q8k: seq<byte>, qo: nat, j: nat, high: bool)
    requires qo + BLOCK <= |q8k| && j < 4 && WellQuantized(q8k, qo)
    ensures var h := if high then 32 else 0;
      PairSum(q8k, qo, j, high) == QuantSum(q8k, qo, 64 * j + h, 64 * j + h + 32)
  {
    hide StoredSum, QuantSum, Quant;
    var k := 4 * j + if high then 2 else 0;
    assert StoredSum(q8k, qo, k) == QuantSum(q8k, qo, 16 * k, 16 * k + 16);
    assert StoredSum(q8k, qo, k + 1) == QuantSum(q8k, qo, 16 * (k + 1), 16 * (k + 1) + 16);
    QuantSumSplit(q8k, qo, 16 * k, 16 * k + 16, 16 * k + 32);
  }

  lemma EvalHalf(d: F32, dmin: F32, s: F32, dot: int, sum: int, scale: byte, min: byte, rd: Reading)
    ensures Eval(HalfExpr(Mul(d, s), Mul(dmin, s), dot, sum, scale, min), rd)
         == Times(dot as real, Times(Times(Eval(d, rd), Eval(s, rd)), scale as int as real))
            - Times(sum as real, Times(Times(Eval(dmin, rd), Eval(s, rd)), min as int as real))
  {
    hide Times;
    var x, y := OfInt(scale as int), OfInt(min as int);
    assert Eval(x, rd) == scale as int as real && Eval(y, rd) == min as int as real;
    assert Eval(Mul(d, s), rd) == Times(Eval(d, rd), Eval(s, rd));
    assert Eval(Mul(dmin, s), rd) == Times(Eval(dmin, rd), Eval(s, rd));
    assert Eval(Mul(Mul(d, s), x), rd) == Times(Eval(Mul(d, s), rd), Eval(x, rd));
    assert Eval(Mul(Mul(dmin, s), y), rd) == Times(Eval(Mul(dmin, s), rd), Eval(y, rd));
    assert Eval(OfInt(dot), rd) == dot as real && Eval(OfInt(sum), rd) == sum as real;
    assert Eval(Mul(OfInt(dot), Mul(Mul(d, s), x)), rd) == Times(dot as real, Eval(Mul(Mul(d, s), x), rd));
    assert Eval(Mul(OfInt(sum), Mul(Mul(dmin, s), y)), rd) == Times(sum as real, Eval(Mul(Mul(dmin, s), y), rd));
  }

  lemma {:induction false} BlockValue(acc: F32, w: seq<byte>, q8k: seq<byte>, n: nat, b: nat, j: nat, rd: Reading)
    requires WBLOCK * n <= |w| && BLOCK * n <= |q8k| && b < n && j <= 4 && WellQuantized(q8k, BLOCK * b)
    ensures QK * b + 64 * j <= QK * n
    ensures Eval(BlockExpr(acc, w, WBLOCK * b, q8k, BLOCK * b, j), rd)
         == Eval(acc, rd) + Sum(RowProducts(w, q8k, n, rd), QK * b, QK * b + 64 * j)
    decreases j
  {
    hide RowProducts, SubExpr, WellQuantized, Sum;
    if j == 0 {
      SumEmpty(RowProducts(w, q8k, n, rd), QK * b);
    } else {
      var p := RowProducts(w, q8k, n, rd);
      var o, qo, at := WBLOCK * b, BLOCK * b, QK * b + 64 * (j - 1);
      BlockValue(acc, w, q8k, n, b, j - 1, rd);
      HalfValue(w, q8k, n, b, j - 1, false, rd);
      HalfValue(w, q8k, n, b, j - 1, true, rd);
      SumSplit(p, QK * b, at, at + 64);
      SumSplit(p, at, at + 32, at + 64);
      AddPair(BlockExpr(acc, w, o, q8k, qo, j - 1), SubExpr(w, o, q8k, qo, j - 1, false),
              SubExpr(w, o, q8k, qo, j - 1, true), rd);
    }
  }

  lemma AddPair(x: F32, y: F32, z: F32, rd: Reading)
    ensures Eval(Add(x, Add(y, z)), rd) == Eval(x, rd) + (Eval(y, rd) + Eval(z, rd))
  {
    assert Eval(Add(y, z), rd) == Eval(y, rd) + Eval(z, rd);
  }

  lemma {:induction false} PrefixValue(w: seq<byte>, q8k: seq<byte>, n: nat, m: nat, rd: Reading)
    requires WBLOCK * n <= |w| && BLOCK * n <= |q8k| && m <= n && AllWellQuantized(q8k, n)
    ensures Eval(RowExpr(w, q8k, m), rd) == Sum(RowProducts(w, q8k, n, rd), 0, QK * m)
    decreases m
  {
    hide RowProducts, BlockExpr, WellQuantized, Sum;
    var p := RowProducts(w, q8k, n, rd);
    if m == 0 {
      SumEmpty(p, 0);
    } else {
      PrefixValue(w, q8k, n, m - 1, rd);
      assert WellQuantized(q8k, BLOCK * (m - 1));
      BlockValue(RowExpr(w, q8k, m - 1), w, q8k, n, m - 1, 4, rd);
      SumSplit(p, 0, QK * (m - 1), QK * m);
    }
  }

  /** Over the reals the kernel is the dot product of the dequantised row with the
      dequantised activations, for every weight row and every well-formed `Q8_K` row. */
  lemma KernelMeaning(w: seq<byte>, q8k: seq<byte>, n: nat, rd: Reading)
    requires WBLOCK * n <= |w| && BLOCK * n <= |q8k| && AllWellQuantized(q8k, n)
    ensures Eval(RowExpr(w, q8k, n), rd) == Dot(WeightRow(w, n, rd), ActivationRow(q8k, n, rd), 0, QK * n)
  {
    hide WeightRow, ActivationRow, RowExpr, AllWellQuantized, Sum, Products;
    PrefixValue(w, q8k, n, n, rd);
  }

  // ----- end to end: quantise, then multiply -----

  /** Quantising `x` over any old buffer and running the kernel, in whichever branch,
      lands within `ErrorBound` of the exact dot product with `x`. */
  lemma EndToEnd(w: seq<byte>, y: seq<byte>, x: seq<real>, n: nat, codec: Codec, rd: Reading)
    requires WBLOCK * n <= |w| && BLOCK * n <= |y| && |x| == QK * n
    requires rd.bits == codec.fromBits
    ensures var weights := WeightRow(w, n, rd);
      Abs(Eval(RowExpr(w, QuantizedInto(y, x, n, codec.toBits), n), rd) - Dot(weights, x, 0, QK * n))
        <= ErrorBound(weights, x, n, codec)
  {
    hide QuantizedInto, RowExpr, WeightRow, ActivationRow, AllWellQuantized, Dot, ErrorBound, Abs;
    var q8k := QuantizedInto(y, x, n, codec.toBits);
    FreshRow(y, x, n, codec);
    QuantizedDot(WeightRow(w, n, rd), y, x, n, codec, rd);
    KernelMeaning(w, q8k, n, rd);
  }

  /** Where the block scales survive storage, that bound is the sum over blocks of the greatest activation
      divided by 254, times the block's absolute dequantised weights. */
  lemma EndToEndExact(w: seq<byte>, y: seq<byte>, x: seq<real>, n: nat, codec: Codec, rd: Reading)
    requires WBLOCK * n <= |w| && BLOCK * n <= |y| && |x| == QK * n
    requires rd.bits == codec.fromBits && ExactScales(x, n, codec)
    ensures var weights := WeightRow(w, n, rd);
      Abs(Eval(RowExpr(w, QuantizedInto(y, x, n, codec.toBits), n), rd) - Dot(weights, x, 0, QK * n))
        <= HalfStepBound(weights, x, n)
  {
    hide QuantizedInto, RowExpr, WeightRow, Dot, ErrorBound, HalfStepBound, ExactScales, Abs;
    EndToEnd(w, y, x, n, codec, rd);
    ExactBound(WeightRow(w, n, rd), x, n, codec);
  }
}
