/** `Q8_K` activations: 256 signed bytes per block behind one `float32` scale, with
    the sixteen sums of sixteen neighbouring quants stored alongside. */
module Q8K {
  import opened Machine
  import opened RealSums

  const QK: nat := 256
  const BLOCK: nat := 292      // 4 (scale) + 256 (quants) + 32 (16 int16 sums)
  const QUANTS: nat := 4
  const SUMS: nat := 260

  // ----- reading a block that starts at byte `o` -----

  function ScaleBits(q8k: seq<byte>, o: nat): bv32
    requires o + BLOCK <= |q8k|
  {
    U32(q8k[o], q8k[o + 1], q8k[o + 2], q8k[o + 3])
  }

  function Quant(q8k: seq<byte>, o: nat, i: nat): (q: int)
    requires o + BLOCK <= |q8k| && i < QK
    ensures -128 <= q <= 127
  {
    Int8(q8k[o + QUANTS + i])
  }

  function StoredSum(q8k: seq<byte>, o: nat, k: nat): int
    requires o + BLOCK <= |q8k| && k < 16
  {
    ReadI16(q8k[o + SUMS + 2 * k], q8k[o + SUMS + 2 * k + 1])
  }

  /** `q[lo] + ... + q[hi-1]` of one block. */
  function QuantSum(q8k: seq<byte>, o: nat, lo: nat, hi: nat): int
    requires o + BLOCK <= |q8k| && lo <= hi <= QK
    decreases hi - lo
  {
    if lo == hi then 0 else QuantSum(q8k, o, lo, hi - 1) + Quant(q8k, o, hi - 1)
  }

  lemma {:induction false} QuantSumSplit(q8k: seq<byte>, o: nat, lo: nat, mid: nat, hi: nat)
    requires o + BLOCK <= |q8k| && lo <= mid <= hi <= QK
    ensures QuantSum(q8k, o, lo, hi) == QuantSum(q8k, o, lo, mid) + QuantSum(q8k, o, mid, hi)
    decreases hi - mid
  {
    if mid < hi {
      QuantSumSplit(q8k, o, lo, mid, hi - 1);
    }
  }

  /** What the kernels rely on: quants avoid -128 and every stored sum is the sum of its quants. */
  ghost predicate WellQuantized(q8k: seq<byte>, o: nat)
    requires o + BLOCK <= |q8k|
  {
    && (forall i :: 0 <= i < QK ==> -127 <= Quant(q8k, o, i))
    && (forall k :: 0 <= k < 16 ==> StoredSum(q8k, o, k) == QuantSum(q8k, o, 16 * k, 16 * k + 16))
  }

  // ----- quantising a block, over the reals -----

  /** The running maximum of the absolute values. */
  function AMax(x: seq<real>): real {
    if |x| == 0 then 0.0 else Larger(AMax(x[..|x| - 1]), Abs(x[|x| - 1]))
  }

  function Larger(m: real, a: real): real {
    if a > m then a else m
  }

  lemma {:induction false} AMaxBounds(x: seq<real>)
    ensures AMax(x) >= 0.0
    ensures forall i :: 0 <= i < |x| ==> Abs(x[i]) <= AMax(x)
    ensures AMax(x) != 0.0 ==> exists i :: 0 <= i < |x| && Abs(x[i]) == AMax(x)
  {
    if |x| > 0 {
      var p := x[..|x| - 1];
      AMaxBounds(p);
      forall i | 0 <= i < |x|
        ensures Abs(x[i]) <= AMax(x)
      {
        if i < |p| {
          assert Abs(p[i]) <= AMax(p);
        }
      }
      if AMax(x) != 0.0 {
        if AMax(x) == Abs(x[|x| - 1]) {
        } else {
          var i :| 0 <= i < |p| && Abs(p[i]) == AMax(p);
          assert Abs(x[i]) == AMax(x);
        }
      }
    }
  }

  /** Go's `int(v)`: truncation towards zero. */
  function Truncate(v: real): int {
    if v >= 0.0 then v.Floor else -((-v).Floor)
  }

  /** Round half away from zero, then clamp to `[-127, 127]`. */
  function RoundClamp(v: real): (q: int)
    ensures -127 <= q <= 127
  {
    var t := Truncate(if v >= 0.0 then v + 0.5 else v - 0.5);
    var u := if t > 127 then 127 else t;
    if u < -127 then -127 else u
  }

  /** The nearest integer, halves away from zero, cut off at 127 on either side. */
  lemma RoundsAway(v: real)
    ensures v >= 127.0 ==> RoundClamp(v) == 127
    ensures v <= -127.0 ==> RoundClamp(v) == -127
    ensures 0.0 <= v < 127.0 ==> (RoundClamp(v) as real) - 0.5 <= v < (RoundClamp(v) as real) + 0.5
    ensures -127.0 < v < 0.0 ==> (RoundClamp(v) as real) - 0.5 < v <= (RoundClamp(v) as real) + 0.5
  {
  }

  function QuantOf(v: real, amax: real): int
    requires amax != 0.0
  {
    RoundClamp(v * (127.0 / amax))
  }

  function QuantBytes(x: seq<real>, amax: real): (b: seq<byte>)
    requires amax != 0.0
    ensures |b| == |x|
  {
    seq(|x|, i requires 0 <= i < |x| => Byte(QuantOf(x[i], amax)))
  }

  /** `int8(b[lo]) + ... + int8(b[hi-1])`. */
  function ByteSum(b: seq<byte>, lo: nat, hi: nat): int
    requires lo <= hi <= |b|
    decreases hi - lo
  {
    if lo == hi then 0 else ByteSum(b, lo, hi - 1) + Int8(b[hi - 1])
  }

  /** The low or high byte of sum `k`. */
  function SumByte(qs: seq<byte>, k: nat, high: bool): byte
    requires |qs| == QK && k < 16
  {
    var s := ByteSum(qs, 16 * k, 16 * k + 16);
    if high then Byte(s / 256) else Byte(s)
  }

  function SumBytes(qs: seq<byte>): (b: seq<byte>)
    requires |qs| == QK
    ensures |b| == 32
  {
    seq(32, j requires 0 <= j < 32 => SumByte(qs, j / 2, j % 2 == 1))
  }

  function ScaleBytes(w: bv32): seq<byte> {
    [ByteOfWord(w, 0), ByteOfWord(w, 1), ByteOfWord(w, 2), ByteOfWord(w, 3)]
  }

  /** The 292 bytes of one quantised block. */
  function BlockBytes(x: seq<real>, toBits: real -> bv32): (b: seq<byte>)
    requires |x| == QK
    ensures |b| == BLOCK
  {
    var amax := AMax(x);
    if amax == 0.0 then seq(BLOCK, _ => 0)
    else
      var qs := QuantBytes(x, amax);
      ScaleBytes(toBits(amax / 127.0)) + qs + SumBytes(qs)
  }

  function XBlock(x: seq<real>, b: nat): (r: seq<real>)
    requires QK * (b + 1) <= |x|
    ensures |r| == QK
  {
    x[QK * b..QK * b + QK]
  }

  /** Whether one of the first `n` blocks is all zero. */
  predicate SomeZeroBlock(x: seq<real>, n: nat)
    requires QK * n <= |x|
  {
    n > 0 && (SomeZeroBlock(x, n - 1) || AMax(XBlock(x, n - 1)) == 0.0)
  }

  function Zeros(n: nat): (z: seq<byte>)
    ensures |z| == n && forall i :: 0 <= i < n ==> z[i] == 0
  {
    seq(n, _ => 0)
  }

  /** `s` with the bytes from `at` on replaced by `b`. */
  function Splice(s: seq<byte>, at: nat, b: seq<byte>): (r: seq<byte>)
    requires at + |b| <= |s|
    ensures |r| == |s|
  {
    s[..at] + b + s[at + |b|..]
  }

  lemma SpliceAt(s: seq<byte>, at: nat, b: seq<byte>)
    requires at + |b| <= |s|
    ensures forall i :: 0 <= i < |s| ==>
      Splice(s, at, b)[i] == if at <= i < at + |b| then b[i - at] else s[i]
  {
  }

  /** Writing two adjacent stretches is writing their concatenation. */
  lemma SpliceJoin(s: seq<byte>, at: nat, b: seq<byte>, c: seq<byte>)
    requires at + |b| + |c| <= |s|
    ensures Splice(Splice(s, at, b), at + |b|, c) == Splice(s, at, b + c)
  {
  }

  lemma SpliceSlice(s: seq<byte>, at: nat, b: seq<byte>)
    requires at + |b| <= |s|
    ensures Splice(s, at, b)[..at] == s[..at]
    ensures Splice(s, at, b)[at..at + |b|] == b
    ensures Splice(s, at, b)[at + |b|..] == s[at + |b|..]
  {
  }

  // ----- C2_quantize_row_q8_k -----

  /** Quantises `x[..cols]` into `y`. The whole blocks of `y` become `RowBytes`. A
      zero block clears all of `y` behind it: later blocks overwrite that, earlier
      blocks never notice, and only bytes past the last block can stay cleared. */
  method QuantizeRow(x: seq<real>, y: array<byte>, cols: nat, toBits: real -> bv32)
    requires cols <= |x| && BLOCK * (cols / QK) <= y.Length
    modifies y
    ensures y[..] == QuantizedInto(old(y[..]), x, cols / QK, toBits)
  {
    hide BlockInto;
    var b := 0;
    while b < cols / QK
      invariant 0 <= b <= cols / QK
      invariant y[..] == QuantizedInto(old(y[..]), x, b, toBits)
    {
      QuantizeBlock(x, y, b, toBits);
      b := b + 1;
    }
  }

  /** The buffer after `n` rounds of the block loop. */
  function QuantizedInto(y: seq<byte>, x: seq<real>, n: nat, toBits: real -> bv32): (r: seq<byte>)
    requires QK * n <= |x| && BLOCK * n <= |y|
    ensures |r| == |y|
  {
    if n == 0 then y else BlockInto(QuantizedInto(y, x, n - 1, toBits), x, n - 1, toBits)
  }

  /** The buffer after one round: a zero block clears everything behind its start. */
  function BlockInto(y: seq<byte>, x: seq<real>, b: nat, toBits: real -> bv32): (r: seq<byte>)
    requires QK * (b + 1) <= |x| && BLOCK * (b + 1) <= |y|
    ensures |r| == |y|
  {
    if AMax(XBlock(x, b)) == 0.0
    then Splice(y, BLOCK * b, Zeros(|y| - BLOCK * b))
    else Splice(y, BLOCK * b, BlockBytes(XBlock(x, b), toBits))
  }

  /** One round of the block loop. */
  method QuantizeBlock(x: seq<real>, y: array<byte>, b: nat, toBits: real -> bv32)
    requires QK * (b + 1) <= |x| && BLOCK * (b + 1) <= y.Length
    modifies y
    ensures y[..] == BlockInto(old(y[..]), x, b, toBits)
  {
    hide AMax, QuantBytes, SumBytes, Splice, Zeros;
    var at, o := QK * b, BLOCK * b;
    ghost var was := y[..];
    var amax := FindAMax(x, at);
    if amax == 0.0 {
      WriteScale(y, o, 0);
      Clear(y, o + QUANTS);
      Clear(y, o + SUMS);
      ClearedTwice(was, o);
      return;
    }
    WriteScale(y, o, toBits(amax / 127.0));
    WriteQuants(x, y, at, o, amax);
    ThreeParts(was, o, ScaleBytes(toBits(amax / 127.0)), QuantBytes(XBlock(x, b), amax),
               SumBytes(QuantBytes(XBlock(x, b), amax)));
    WriteSums(y, o);
  }

  lemma ThreeParts(s: seq<byte>, o: nat, a: seq<byte>, b: seq<byte>, c: seq<byte>)
    requires |a| == QUANTS && |b| == QK && |c| == 32 && o + BLOCK <= |s|
    ensures Splice(Splice(s, o, a), o + QUANTS, b)[o + QUANTS..o + SUMS] == b
    ensures Splice(Splice(Splice(s, o, a), o + QUANTS, b), o + SUMS, c) == Splice(s, o, a + b + c)
  {
    SpliceSlice(Splice(s, o, a), o + QUANTS, b);
    SpliceJoin(s, o, a, b);
    SpliceJoin(s, o, a + b, c);
  }

  /** Clearing from the quants and again from the sums leaves zeros from the scale on. */
  lemma ClearedTwice(s: seq<byte>, o: nat)
    requires o + BLOCK <= |s|
    ensures var t := Splice(Splice(s, o, ScaleBytes(0)), o + QUANTS, Zeros(|s| - (o + QUANTS)));
      Splice(t, o + SUMS, Zeros(|s| - (o + SUMS))) == Splice(s, o, Zeros(|s| - o))
  {
    var t := Splice(Splice(s, o, ScaleBytes(0)), o + QUANTS, Zeros(|s| - (o + QUANTS)));
    SpliceJoin(s, o, ScaleBytes(0), Zeros(|s| - (o + QUANTS)));
    assert ScaleBytes(0) + Zeros(|s| - (o + QUANTS)) == Zeros(|s| - o);
    SpliceAt(s, o, Zeros(|s| - o));
    SpliceAt(t, o + SUMS, Zeros(|s| - (o + SUMS)));
  }

  method WriteScale(y: array<byte>, o: nat, w: bv32)
    requires o + BLOCK <= y.Length
    modifies y
    ensures y[..] == Splice(old(y[..]), o, ScaleBytes(w))
  {
    y[o] := ByteOfWord(w, 0);
    y[o + 1] := ByteOfWord(w, 1);
    y[o + 2] := ByteOfWord(w, 2);
    y[o + 3] := ByteOfWord(w, 3);
  }

  method FindAMax(x: seq<real>, at: nat) returns (amax: real)
    requires at + QK <= |x|
    ensures amax == AMax(x[at..at + QK])
  {
    amax := 0.0;
    var i := 0;
    while i < QK
      invariant 0 <= i <= QK
      invariant amax == AMax(x[at..at + i])
    {
      var v := x[at + i];
      var a := if v < 0.0 then -v else v;
      assert x[at..at + i + 1][..i] == x[at..at + i];
      if a > amax {
        amax := a;
      }
      i := i + 1;
    }
  }

  /** `clear(y[from:])`. */
  method Clear(y: array<byte>, from: nat)
    requires from <= y.Length
    modifies y
    ensures y[..] == Splice(old(y[..]), from, Zeros(y.Length - from))
  {
    var i := from;
    while i < y.Length
      invariant from <= i <= y.Length
      invariant forall j :: 0 <= j < from ==> y[j] == old(y[j])
      invariant forall j :: from <= j < i ==> y[j] == 0
    {
      y[i] := 0;
      i := i + 1;
    }
  }

  method QuantizeOne(v: real, amax: real) returns (q: int)
    requires amax != 0.0
    ensures q == QuantOf(v, amax)
  {
    var s := v * (127.0 / amax);
    var r := if s >= 0.0 then s + 0.5 else s - 0.5;
    q := Truncate(r);
    if q > 127 {
      q := 127;
    }
    if q < -127 {
      q := -127;
    }
  }

  method WriteQuants(x: seq<real>, y: array<byte>, at: nat, o: nat, amax: real)
    requires at + QK <= |x| && o + BLOCK <= y.Length && amax != 0.0
    modifies y
    ensures y[..] == Splice(old(y[..]), o + QUANTS, QuantBytes(x[at..at + QK], amax))
  {
    hide QuantOf, Byte, Splice;
    ghost var qs := QuantBytes(x[at..at + QK], amax);
    var i := 0;
    while i < QK
      invariant 0 <= i <= QK
      invariant forall j :: o + QUANTS <= j < o + QUANTS + i ==> y[j] == qs[j - (o + QUANTS)]
      invariant forall j :: 0 <= j < y.Length && !(o + QUANTS <= j < o + QUANTS + i) ==> y[j] == old(y[j])
    {
      var q := QuantizeOne(x[at + i], amax);
      assert qs[i] == Byte(q);
      y[o + i + QUANTS] := Byte(q);
      i := i + 1;
    }
    SpliceAt(old(y[..]), o + QUANTS, qs);
  }

  method WriteSums(y: array<byte>, o: nat)
    requires o + BLOCK <= y.Length
    modifies y
    ensures y[..] == Splice(old(y[..]), o + SUMS, SumBytes(old(y[o + QUANTS..o + SUMS])))
  {
    hide ByteSum, Byte, SumBytes, Splice;
    ghost var qs := y[o + QUANTS..o + SUMS];
    ghost var sums := SumBytes(qs);
    var k := 0;
    while k < 16
      invariant 0 <= k <= 16
      invariant forall j :: o + SUMS <= j < o + SUMS + 2 * k ==> y[j] == sums[j - (o + SUMS)]
      invariant forall j :: 0 <= j < y.Length && !(o + SUMS <= j < o + SUMS + 2 * k) ==> y[j] == old(y[j])
    {
      var s := SumQuants(y, o, k);
      assert y[o + QUANTS..o + SUMS] == qs;
      SumBytePair(qs, k);
      y[o + (SUMS + k * 2)] := Byte(s);
      y[o + (SUMS + k * 2) + 1] := Byte(s / 256);
      k := k + 1;
    }
    SpliceAt(old(y[..]), o + SUMS, sums);
  }

  lemma SumBytePair(qs: seq<byte>, k: nat)
    requires |qs| == QK && k < 16
    ensures SumBytes(qs)[2 * k] == SumByte(qs, k, false)
    ensures SumBytes(qs)[2 * k + 1] == SumByte(qs, k, true)
  {
    assert (2 * k) / 2 == k && (2 * k + 1) / 2 == k;
  }

  method SumQuants(y: array<byte>, o: nat, k: nat) returns (s: int)
    requires o + BLOCK <= y.Length && k < 16
    ensures s == ByteSum(y[o + QUANTS..o + SUMS], 16 * k, 16 * k + 16)
  {
    ghost var qs := y[o + QUANTS..o + SUMS];
    s := 0;
    var i := 0;
    while i < 16
      invariant 0 <= i <= 16
      invariant s == ByteSum(qs, 16 * k, 16 * k + i)
    {
      assert qs[16 * k + i] == y[o + QUANTS + (16 * k + i)];
      s := s + Int8(y[o + ((4 + (k * 16)) + i)]);
      i := i + 1;
    }
  }

  // ----- what the buffer holds afterwards -----

  /** Whatever zero blocks did in between, block `b` of the result is `BlockBytes`. */
  lemma {:induction false} BlocksSurvive(y: seq<byte>, x: seq<real>, n: nat, b: nat, toBits: real -> bv32)
    requires b < n && QK * n <= |x| && BLOCK * n <= |y|
    ensures QuantizedInto(y, x, n, toBits)[BLOCK * b..BLOCK * b + BLOCK] == BlockBytes(XBlock(x, b), toBits)
    decreases n
  {
    hide BlockInto, BlockBytes, XBlock;
    var before := QuantizedInto(y, x, n - 1, toBits);
    if b == n - 1 {
      LastBlock(before, x, b, toBits);
    } else {
      BlocksSurvive(y, x, n - 1, b, toBits);
      EarlierBlock(before, x, n - 1, b, toBits);
    }
  }

  lemma LastBlock(y: seq<byte>, x: seq<real>, b: nat, toBits: real -> bv32)
    requires QK * (b + 1) <= |x| && BLOCK * (b + 1) <= |y|
    ensures BlockInto(y, x, b, toBits)[BLOCK * b..BLOCK * b + BLOCK] == BlockBytes(XBlock(x, b), toBits)
  {
    if AMax(XBlock(x, b)) == 0.0 {
      var r := BlockInto(y, x, b, toBits)[BLOCK * b..BLOCK * b + BLOCK];
      SpliceAt(y, BLOCK * b, Zeros(|y| - BLOCK * b));
      assert r == BlockBytes(XBlock(x, b), toBits);
    } else {
      SpliceSlice(y, BLOCK * b, BlockBytes(XBlock(x, b), toBits));
    }
  }

  lemma EarlierBlock(y: seq<byte>, x: seq<real>, n: nat, b: nat, toBits: real -> bv32)
    requires b < n && QK * (n + 1) <= |x| && BLOCK * (n + 1) <= |y|
    ensures BlockInto(y, x, n, toBits)[BLOCK * b..BLOCK * b + BLOCK] == y[BLOCK * b..BLOCK * b + BLOCK]
  {
    assert BLOCK * b + BLOCK <= BLOCK * n;
    if AMax(XBlock(x, n)) == 0.0 {
      SpliceAt(y, BLOCK * n, Zeros(|y| - BLOCK * n));
    } else {
      SpliceAt(y, BLOCK * n, BlockBytes(XBlock(x, n), toBits));
    }
  }

  /** Past the last block the buffer is untouched, or cleared if some block was zero. */
  lemma {:induction false} TailAfter(y: seq<byte>, x: seq<real>, n: nat, i: nat, toBits: real -> bv32)
    requires QK * n <= |x| && BLOCK * n <= i < |y|
    ensures QuantizedInto(y, x, n, toBits)[i] == if SomeZeroBlock(x, n) then 0 else y[i]
  {
    hide BlockBytes, AMax, XBlock, Splice;
    if n > 0 {
      TailAfter(y, x, n - 1, i, toBits);
      var before := QuantizedInto(y, x, n - 1, toBits);
      SpliceAt(before, BLOCK * (n - 1), Zeros(|y| - BLOCK * (n - 1)));
      SpliceAt(before, BLOCK * (n - 1), BlockBytes(XBlock(x, n - 1), toBits));
    }
  }

  // ----- what a quantised block means -----

  /** A scale codec: how a `float32` scale is written to and read back from its bits. */
  datatype Codec = Codec(toBits: real -> bv32, fromBits: bv32 -> real)

  function ReadScale(q8k: seq<byte>, o: nat, codec: Codec): real
    requires o + BLOCK <= |q8k|
  {
    codec.fromBits(ScaleBits(q8k, o))
  }

  /** How far a dequantised activation can be from the original: half a quantisation
      step, plus 127 times whatever the codec loses on the scale itself. */
  function BlockError(x: seq<real>, codec: Codec): real {
    if AMax(x) == 0.0 then 0.0
    else StepError(AMax(x), codec.fromBits(codec.toBits(AMax(x) / 127.0)))
  }

  function StepError(amax: real, d: real): real {
    amax / 254.0 + 127.0 * Abs(d - amax / 127.0)
  }

  /** `|d q - x|`. */
  function Residual(d: real, q: int, x: real): real {
    Abs(d * (q as real) - x)
  }

  /** Where the kernels read: four bytes of scale, 256 signed quants, sixteen two-byte sums, low byte first. */
  lemma BlockLayout(q8k: seq<byte>, o: nat, i: nat, k: nat)
    requires o + 292 <= |q8k| && i < 256 && k < 16
    ensures ScaleBits(q8k, o) as int == q8k[o] as int + 0x100 * (q8k[o + 1] as int) + 0x1_0000 * (q8k[o + 2] as int)
                                        + 0x100_0000 * (q8k[o + 3] as int)
    ensures Quant(q8k, o, i) == if q8k[o + 4 + i] as int < 128 then q8k[o + 4 + i] as int else q8k[o + 4 + i] as int - 256
    ensures StoredSum(q8k, o, k) == q8k[o + 260 + 2 * k] as int + 256 * Int8(q8k[o + 261 + 2 * k])
  {
    hide Int8, ReadI16;
    Joined32(q8k[o], q8k[o + 1], q8k[o + 2], q8k[o + 3]);
    ReadI16IsSum(q8k[o + 260 + 2 * k], q8k[o + 261 + 2 * k]);
    Int8Is(q8k[o + 4 + i]);
  }

  lemma Int8Is(b: byte)
    ensures Int8(b) == if b as int < 128 then b as int else b as int - 256
  {
    HighByte(b);
  }

  /** The bytes of a block, field by field. */
  lemma BlockFields(x: seq<real>, toBits: real -> bv32, i: nat, k: nat)
    requires |x| == QK && i < QK && k < 16
    ensures var b := BlockBytes(x, toBits);
      AMax(x) != 0.0 ==>
        && ScaleBits(b, 0) == toBits(AMax(x) / 127.0)
        && Quant(b, 0, i) == QuantOf(x[i], AMax(x))
        && StoredSum(b, 0, k) == ByteSum(QuantBytes(x, AMax(x)), 16 * k, 16 * k + 16)
    ensures var b := BlockBytes(x, toBits);
      AMax(x) == 0.0 ==> ScaleBits(b, 0) == 0 && Quant(b, 0, i) == 0 && StoredSum(b, 0, k) == 0
  {
    hide AMax, QuantOf, QuantBytes, SumBytes, ByteSum, ScaleBytes;
    if AMax(x) != 0.0 {
      NonzeroFields(x, toBits, i, k);
    }
  }

  lemma NonzeroFields(x: seq<real>, toBits: real -> bv32, i: nat, k: nat)
    requires |x| == QK && i < QK && k < 16 && AMax(x) != 0.0
    ensures var b := BlockBytes(x, toBits);
      && ScaleBits(b, 0) == toBits(AMax(x) / 127.0)
      && Quant(b, 0, i) == QuantOf(x[i], AMax(x))
      && StoredSum(b, 0, k) == ByteSum(QuantBytes(x, AMax(x)), 16 * k, 16 * k + 16)
  {
    hide AMax, QuantOf, SumBytes, ByteSum, ReadI16, Int8, U32, ByteOfWord, Byte, Quant, StoredSum, ScaleBits;
    var amax := AMax(x);
    var qs := QuantBytes(x, amax);
    var w := toBits(amax / 127.0);
    Fields(ScaleBytes(w), qs, SumBytes(qs), i, k);
    U32RoundTrip(w);
    QuantRange(x[i], amax);
    SumReadsBack(x, amax, k);
  }

  lemma SumReadsBack(x: seq<real>, amax: real, k: nat)
    requires |x| == QK && k < 16 && amax != 0.0
    ensures var c := SumBytes(QuantBytes(x, amax));
      ReadI16(c[2 * k], c[2 * k + 1]) == ByteSum(QuantBytes(x, amax), 16 * k, 16 * k + 16)
  {
    hide QuantBytes, SumBytes, ByteSum, ReadI16, Byte;
    var qs := QuantBytes(x, amax);
    SumBytePair(qs, k);
    ByteSumBound(qs, x, amax, 16 * k, 16 * k + 16);
    ReadI16RoundTrip(ByteSum(qs, 16 * k, 16 * k + 16));
  }

  lemma Fields(a: seq<byte>, b: seq<byte>, c: seq<byte>, i: nat, k: nat)
    requires |a| == QUANTS && |b| == QK && |c| == 32 && i < QK && k < 16
    ensures ScaleBits(a + b + c, 0) == U32(a[0], a[1], a[2], a[3])
    ensures Quant(a + b + c, 0, i) == Int8(b[i])
    ensures StoredSum(a + b + c, 0, k) == ReadI16(c[2 * k], c[2 * k + 1])
  {
    hide U32, Int8, ReadI16;
  }

  /** Sixteen quants sum to well within sixteen bits. */
  lemma {:induction false} ByteSumBound(qs: seq<byte>, x: seq<real>, amax: real, lo: nat, hi: nat)
    requires amax != 0.0 && qs == QuantBytes(x, amax) && lo <= hi <= |x|
    ensures -127 * (hi - lo) <= ByteSum(qs, lo, hi) <= 127 * (hi - lo)
    decreases hi - lo
  {
    hide QuantOf, Int8;
    if lo < hi {
      ByteSumBound(qs, x, amax, lo, hi - 1);
      QuantRange(x[hi - 1], amax);
    }
  }

  lemma QuantRange(v: real, amax: real)
    requires amax != 0.0
    ensures -127 <= QuantOf(v, amax) <= 127
    ensures Int8(Byte(QuantOf(v, amax))) == QuantOf(v, amax)
  {
    hide RoundClamp;
    Int8RoundTrip(QuantOf(v, amax));
  }

  /** The quantiser's promise on one block: quants stay in `[-127, 127]`, the sixteen
      stored sums read back as the sums of their quants, and `d * q` is within
      `BlockError` of `x`, which is `amax / 254` when the scale is stored exactly. */
  lemma BlockMeaning(x: seq<real>, codec: Codec)
    requires |x| == QK
    ensures WellQuantized(BlockBytes(x, codec.toBits), 0)
    ensures forall i :: 0 <= i < QK ==>
      var b := BlockBytes(x, codec.toBits);
      Residual(ReadScale(b, 0, codec), Quant(b, 0, i), x[i]) <= BlockError(x, codec)
  {
    hide AMax, BlockBytes, Quant, ReadScale, BlockError, StoredSum, QuantSum, WellQuantized, Residual;
    var b := BlockBytes(x, codec.toBits);
    forall i | 0 <= i < QK
      ensures -127 <= Quant(b, 0, i)
      ensures Residual(ReadScale(b, 0, codec), Quant(b, 0, i), x[i]) <= BlockError(x, codec)
    {
      ActivationError(x, codec, i);
    }
    forall k | 0 <= k < 16
      ensures StoredSum(b, 0, k) == QuantSum(b, 0, 16 * k, 16 * k + 16)
    {
      SumsMatch(x, codec.toBits, k);
    }
    FromParts(b);
  }

  lemma FromParts(b: seq<byte>)
    requires |b| == BLOCK
    requires forall i :: 0 <= i < QK ==> -127 <= Quant(b, 0, i)
    requires forall k :: 0 <= k < 16 ==> StoredSum(b, 0, k) == QuantSum(b, 0, 16 * k, 16 * k + 16)
    ensures WellQuantized(b, 0)
  {
  }

  lemma SumsMatch(x: seq<real>, toBits: real -> bv32, k: nat)
    requires |x| == QK && k < 16
    ensures var b := BlockBytes(x, toBits); StoredSum(b, 0, k) == QuantSum(b, 0, 16 * k, 16 * k + 16)
  {
    hide AMax, BlockBytes, StoredSum, QuantSum, QuantBytes, ByteSum;
    BlockFields(x, toBits, 0, k);
    if AMax(x) != 0.0 {
      SameSum(x, toBits, 16 * k, 16 * k + 16);
    } else {
      ZeroSum(x, toBits, 16 * k, 16 * k + 16);
    }
  }

  lemma {:induction false} SameSum(x: seq<real>, toBits: real -> bv32, lo: nat, hi: nat)
    requires |x| == QK && lo <= hi <= QK && AMax(x) != 0.0
    ensures QuantSum(BlockBytes(x, toBits), 0, lo, hi) == ByteSum(QuantBytes(x, AMax(x)), lo, hi)
    decreases hi - lo
  {
    hide AMax, BlockBytes, Quant, QuantOf;
    if lo < hi {
      SameSum(x, toBits, lo, hi - 1);
      BlockFields(x, toBits, hi - 1, 0);
      QuantRange(x[hi - 1], AMax(x));
    }
  }

  lemma {:induction false} ZeroSum(x: seq<real>, toBits: real -> bv32, lo: nat, hi: nat)
    requires |x| == QK && lo <= hi <= QK && AMax(x) == 0.0
    ensures QuantSum(BlockBytes(x, toBits), 0, lo, hi) == 0
    decreases hi - lo
  {
    hide AMax, BlockBytes, Quant;
    if lo < hi {
      ZeroSum(x, toBits, lo, hi - 1);
      BlockFields(x, toBits, hi - 1, 0);
    }
  }

  lemma ActivationError(x: seq<real>, codec: Codec, i: nat)
    requires |x| == QK && i < QK
    ensures var b := BlockBytes(x, codec.toBits);
      && -127 <= Quant(b, 0, i)
      && Residual(ReadScale(b, 0, codec), Quant(b, 0, i), x[i]) <= BlockError(x, codec)
  {
    hide AMax, BlockBytes, Quant, ScaleBits, QuantOf, StoredSum, StepError, Residual;
    AMaxBounds(x);
    BlockFields(x, codec.toBits, i, 0);
    if AMax(x) != 0.0 {
      QuantRange(x[i], AMax(x));
      StoredScaleError(x[i], AMax(x), codec.fromBits(codec.toBits(AMax(x) / 127.0)));
    } else {
      ZeroResidual(ReadScale(BlockBytes(x, codec.toBits), 0, codec), x[i]);
    }
  }

  lemma ZeroResidual(d: real, x: real)
    requires Abs(x) <= 0.0
    ensures Residual(d, 0, x) == 0.0
  {
  }

  lemma StoredScaleError(v: real, amax: real, d: real)
    requires amax > 0.0 && Abs(v) <= amax
    ensures Residual(d, QuantOf(v, amax), v) <= StepError(amax, d)
  {
    hide QuantOf, Residual;
    QuantRange(v, amax);
    QuantError(v, amax);
    ScaleError(v, QuantOf(v, amax), amax / 127.0, d, amax / 254.0);
  }

  /** `|d q - x|` when `q` was chosen for the scale `e`. */
  lemma ScaleError(x: real, q: int, e: real, d: real, half: real)
    requires -127 <= q <= 127 && Residual(e, q, x) <= half
    ensures Residual(d, q, x) <= half + 127.0 * Abs(d - e)
  {
    hide Abs;
    var r := q as real;
    var k := d - e;
    Difference(d, e, k, r);
    ProductRange(k, r);
    Combine(d * r, e * r, k * r, x, half, 127.0 * Abs(k));
  }

  lemma Difference(d: real, e: real, k: real, r: real)
    requires k == d - e
    ensures d * r == e * r + k * r
  {
  }

  lemma Combine(p: real, p': real, delta: real, x: real, half: real, bound: real)
    requires p == p' + delta && Abs(p' - x) <= half && -bound <= delta <= bound
    ensures Abs(p - x) <= half + bound
  {
  }

  /** Rounding in the exact scale loses at most half a step. */
  lemma QuantError(v: real, amax: real)
    requires amax > 0.0 && Abs(v) <= amax
    ensures Residual(amax / 127.0, QuantOf(v, amax), v) <= amax / 254.0
  {
    hide RoundClamp, Abs;
    var t := v * (127.0 / amax);
    ScaledRange(v, amax);
    RoundError(t);
    StepResidual(amax / 127.0, QuantOf(v, amax), t, v);
  }

  lemma StepResidual(e: real, q: int, t: real, v: real)
    requires e >= 0.0 && e * t == v && Abs((q as real) - t) <= 0.5
    ensures Residual(e, q, v) <= e * 0.5
  {
    var r := q as real;
    var u := r - t;
    StepDifference(e, r, t, u);
    UpToHalf(e, u);
    var w := -u;
    UpToHalf(e, w);
    assert e * w == -(e * u);
    Combine(e * r, e * t, e * u, v, 0.0, e * 0.5);
  }

  lemma StepDifference(e: real, r: real, t: real, u: real)
    requires u == r - t
    ensures e * r == e * t + e * u
  {
  }

  lemma ScaledRange(v: real, amax: real)
    requires amax > 0.0 && Abs(v) <= amax
    ensures -127.0 <= v * (127.0 / amax) <= 127.0
    ensures (amax / 127.0) * (v * (127.0 / amax)) == v
  {
    var k := 127.0 / amax;
    assert k > 0.0 && k * amax == 127.0;
    WithinScale(v, amax, k);
    Cancel(v, amax, k);
  }

  lemma WithinScale(v: real, amax: real, k: real)
    requires k > 0.0 && k * amax == 127.0 && -amax <= v <= amax
    ensures -127.0 <= v * k <= 127.0
  {
    var u, w := amax - v, amax + v;
    NonNegative(k, u);
    NonNegative(k, w);
    assert k * u == 127.0 - v * k && k * w == 127.0 + v * k;
  }

  lemma Cancel(v: real, amax: real, k: real)
    requires k * amax == 127.0
    ensures (amax / 127.0) * (v * k) == v
  {
    assert amax * (v * k) == v * (k * amax);
  }

  lemma RoundError(t: real)
    requires -127.0 <= t <= 127.0
    ensures Abs((RoundClamp(t) as real) - t) <= 0.5
  {
    if t >= 0.0 {
      FloorRange(t + 0.5);
    } else {
      FloorRange(0.5 - t);
      assert -(t - 0.5) == 0.5 - t;
    }
  }

  lemma FloorRange(u: real)
    requires 0.0 <= u < 128.0
    ensures 0 <= u.Floor <= 127
    ensures (u.Floor as real) <= u < (u.Floor as real) + 1.0
  {
  }

  // ----- the whole row -----

  lemma SameBlock(r: seq<byte>, o: nat, codec: Codec)
    requires o + BLOCK <= |r|
    ensures WellQuantized(r[o..o + BLOCK], 0) ==> WellQuantized(r, o)
    ensures ReadScale(r, o, codec) == ReadScale(r[o..o + BLOCK], 0, codec)
    ensures forall i :: 0 <= i < QK ==> Quant(r, o, i) == Quant(r[o..o + BLOCK], 0, i)
  {
    hide U32, ReadI16, Int8;
    var b := r[o..o + BLOCK];
    forall k | 0 <= k < 16
      ensures StoredSum(r, o, k) == StoredSum(b, 0, k)
      ensures QuantSum(r, o, 16 * k, 16 * k + 16) == QuantSum(b, 0, 16 * k, 16 * k + 16)
    {
      SameQuantSum(r, o, 16 * k, 16 * k + 16);
    }
    forall i | 0 <= i < QK
      ensures Quant(r, o, i) == Quant(b, 0, i)
    {
    }
    if WellQuantized(b, 0) {
      forall i | 0 <= i < QK
        ensures -127 <= Quant(r, o, i)
      {
        assert -127 <= Quant(b, 0, i);
      }
      forall k | 0 <= k < 16
        ensures StoredSum(r, o, k) == QuantSum(r, o, 16 * k, 16 * k + 16)
      {
        assert StoredSum(b, 0, k) == QuantSum(b, 0, 16 * k, 16 * k + 16);
      }
    }
  }

  lemma {:induction false} SameQuantSum(r: seq<byte>, o: nat, lo: nat, hi: nat)
    requires o + BLOCK <= |r| && lo <= hi <= QK
    ensures QuantSum(r, o, lo, hi) == QuantSum(r[o..o + BLOCK], 0, lo, hi)
    decreases hi - lo
  {
    hide Int8;
    if lo < hi {
      SameQuantSum(r, o, lo, hi - 1);
    }
  }

  /** Quantising a row of any length over any old buffer leaves every block well formed
      and every activation within its block's error. */
  lemma RowMeaning(y: seq<byte>, x: seq<real>, n: nat, b: nat, codec: Codec)
    requires b < n && QK * n <= |x| && BLOCK * n <= |y|
    ensures var r := QuantizedInto(y, x, n, codec.toBits);
      && WellQuantized(r, BLOCK * b)
      && forall i :: 0 <= i < QK ==>
        Residual(ReadScale(r, BLOCK * b, codec), Quant(r, BLOCK * b, i), XBlock(x, b)[i]) <= BlockError(XBlock(x, b), codec)
  {
    hide BlockBytes, BlockError, Residual, ReadScale, Quant, WellQuantized, QuantizedInto, XBlock;
    BlocksSurvive(y, x, n, b, codec.toBits);
    BlockMeaning(XBlock(x, b), codec);
    SameBlock(QuantizedInto(y, x, n, codec.toBits), BLOCK * b, codec);
  }
}
