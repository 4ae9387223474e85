/** Blocks of quantised weights, written byte by byte from their fields as the C reference packs them
    (ggml `ggml-common.h` and the packing loops of `ggml-quants.c`), and the weights they stand for. */
module WeightBlocks {
  import opened Machine
  import opened Float32

  /** A block's fields before packing: one code per element, the sub-scales, the half-precision scales. */
  datatype Block =
    | BlockQ4K(codes: seq<byte>, scales: seq<byte>, mins: seq<byte>, d: bv16, dmin: bv16)
    | BlockQ6K(codes: seq<byte>, signed: seq<int>, d: bv16)
    | BlockQ80(quants: seq<int>, d: bv16)
    | BlockQ50(codes: seq<byte>, d: bv16)
    | BlockF32(word: bv32)

  ghost predicate AllBelow(s: seq<byte>, n: byte) {
    forall i :: 0 <= i < |s| ==> s[i] < n
  }

  ghost predicate AllInt8(s: seq<int>) {
    forall i :: 0 <= i < |s| ==> -128 <= s[i] <= 127
  }

  /** The fields have their numbers and widths. */
  ghost predicate Sound(b: Block) {
    match b
    case BlockQ4K(codes, scales, mins, _, _) =>
      |codes| == 256 && AllBelow(codes, 16) && |scales| == 8 && AllBelow(scales, 64) && |mins| == 8 && AllBelow(mins, 64)
    case BlockQ6K(codes, signed, _) => |codes| == 256 && AllBelow(codes, 64) && |signed| == 16 && AllInt8(signed)
    case BlockQ80(quants, _) => |quants| == 32 && AllInt8(quants)
    case BlockQ50(codes, _) => |codes| == 32 && AllBelow(codes, 32)
    case BlockF32(_) => true
  }

  /** How many weights a block holds. */
  function Count(b: Block): (n: nat)
    ensures n > 0
  {
    match b
    case BlockQ4K(_, _, _, _, _) => 256
    case BlockQ6K(_, _, _) => 256
    case BlockQ80(_, _) => 32
    case BlockQ50(_, _) => 32
    case BlockF32(_) => 1
  }

  // ----- what the weights are -----

  /** Weight `e`, as the `float32` expression a dequantiser builds. */
  function Weight(b: Block, e: nat): F32
    requires Sound(b) && e < Count(b)
  {
    match b
    case BlockQ4K(codes, scales, mins, d, dmin) =>
      Sub(Mul(Mul(Half(d), OfInt(scales[e / 32] as int)), OfInt(codes[e] as int)), Mul(Half(dmin), OfInt(mins[e / 32] as int)))
    case BlockQ6K(codes, signed, d) => Mul(Mul(Half(d), OfInt(signed[e / 16])), OfInt(codes[e] as int - 32))
    case BlockQ80(quants, d) => Mul(Half(d), OfInt(quants[e]))
    case BlockQ50(codes, d) => Mul(Half(d), OfInt(codes[e] as int - 16))
    case BlockF32(word) => Bits(word)
  }

  function Plain(d: real, c: int): real {
    d * (c as real)
  }

  function Scaled(d: real, s: int, c: int): real {
    d * (s as real) * (c as real)
  }

  /** Weight `e` as a real number. */
  function Value(b: Block, e: nat, rd: Reading): real
    requires Sound(b) && e < Count(b)
  {
    match b
    case BlockQ4K(codes, scales, mins, d, dmin) =>
      Scaled(rd.half(d), scales[e / 32] as int, codes[e] as int) - Plain(rd.half(dmin), mins[e / 32] as int)
    case BlockQ6K(codes, signed, d) => Scaled(rd.half(d), signed[e / 16], codes[e] as int - 32)
    case BlockQ80(quants, d) => Plain(rd.half(d), quants[e])
    case BlockQ50(codes, d) => Plain(rd.half(d), codes[e] as int - 16)
    case BlockF32(word) => rd.bits(word)
  }

  lemma WeightValue(b: Block, e: nat, rd: Reading)
    requires Sound(b) && e < Count(b)
    ensures Eval(Weight(b, e), rd) == Value(b, e, rd)
  {
    hide Eval, Plain, Scaled, AllBelow, AllInt8;
    if b.BlockQ4K? {
      SuperValue(b.d, b.scales[e / 32] as int, b.codes[e] as int, b.dmin, b.mins[e / 32] as int, rd);
    } else if b.BlockQ6K? {
      ScaledValue(b.d, b.signed[e / 16], b.codes[e] as int - 32, rd);
    } else if b.BlockQ80? {
      PlainValue(b.d, b.quants[e], rd);
    } else if b.BlockQ50? {
      PlainValue(b.d, b.codes[e] as int - 16, rd);
    } else {
      WordValue(b.word, rd);
    }
  }

  lemma PlainValue(d: bv16, c: int, rd: Reading)
    ensures Eval(Mul(Half(d), OfInt(c)), rd) == Plain(rd.half(d), c)
  {
  }

  lemma ScaledValue(d: bv16, s: int, c: int, rd: Reading)
    ensures Eval(Mul(Mul(Half(d), OfInt(s)), OfInt(c)), rd) == Scaled(rd.half(d), s, c)
  {
    assert Eval(Mul(Half(d), OfInt(s)), rd) == rd.half(d) * (s as real);
  }

  lemma SuperValue(d: bv16, s: int, c: int, dmin: bv16, m: int, rd: Reading)
    ensures Eval(Sub(Mul(Mul(Half(d), OfInt(s)), OfInt(c)), Mul(Half(dmin), OfInt(m))), rd)
         == Scaled(rd.half(d), s, c) - Plain(rd.half(dmin), m)
  {
    hide Plain, Scaled;
    var x, y := Mul(Mul(Half(d), OfInt(s)), OfInt(c)), Mul(Half(dmin), OfInt(m));
    ScaledValue(d, s, c, rd);
    PlainValue(dmin, m, rd);
    assert Eval(Sub(x, y), rd) == Eval(x, rd) - Eval(y, rd);
  }

  lemma WordValue(word: bv32, rd: Reading)
    ensures Eval(Bits(word), rd) == rd.bits(word)
  {
  }

  // ----- packing -----

  /** Two four-bit halves in a byte. */
  function TwoNibbles(low: byte, high: byte): byte {
    (low & 15) | ((high & 15) << 4)
  }

  /** The two upper bits of four six-bit codes. */
  function FourTops(a: byte, b: byte, c: byte, d: byte): byte {
    (a >> 4) | ((b >> 4) << 2) | ((c >> 4) << 4) | ((d >> 4) << 6)
  }

  /** Six bits, and above them the two upper bits of another six-bit value. */
  function SixAndTop(a: byte, b: byte): byte {
    (a & 63) | ((b >> 4) << 6)
  }

  /** The fifth bits of eight five-bit codes. */
  function EightTops(c: seq<byte>, at: nat): byte
    requires at + 8 <= |c|
  {
    (c[at] >> 4) | ((c[at + 1] >> 4) << 1) | ((c[at + 2] >> 4) << 2) | ((c[at + 3] >> 4) << 3)
    | ((c[at + 4] >> 4) << 4) | ((c[at + 5] >> 4) << 5) | ((c[at + 6] >> 4) << 6) | ((c[at + 7] >> 4) << 7)
  }

  function HalfBytes(h: bv16): (s: seq<byte>)
    ensures |s| == 2
  {
    [(h & 255) as byte, (h >> 8) as byte]
  }

  function WordBytes(w: bv32): (s: seq<byte>)
    ensures |s| == 4
  {
    [(w & 255) as byte, ((w >> 8) & 255) as byte, ((w >> 16) & 255) as byte, (w >> 24) as byte]
  }

  function SignedBytes(s: seq<int>): (r: seq<byte>)
    ensures |r| == |s|
  {
    seq(|s|, i requires 0 <= i < |s| => (s[i] % 256) as byte)
  }

  /** `Q6_K`: in each half of 128 codes, byte `l` of 64 has the low bits of codes `l` and `l + 64`. */
  function Q6Lows(c: seq<byte>): (r: seq<byte>)
    requires |c| == 256
    ensures |r| == 128
  {
    seq(128, i requires 0 <= i < 128 => var e := 128 * (i / 64) + i % 64; TwoNibbles(c[e], c[e + 64]))
  }

  /** `Q6_K`: in each half, byte `l` of 32 has the upper bits of codes `l`, `l + 32`, `l + 64` and `l + 96`. */
  function Q6Tops(c: seq<byte>): (r: seq<byte>)
    requires |c| == 256
    ensures |r| == 64
  {
    seq(64, i requires 0 <= i < 64 => var e := 128 * (i / 32) + i % 32; FourTops(c[e], c[e + 32], c[e + 64], c[e + 96]))
  }

  /** `Q4_K`: byte `l` of each 32 has codes `l` and `l + 32` of a run of 64. */
  function Q4Nibbles(c: seq<byte>): (r: seq<byte>)
    requires |c| == 256
    ensures |r| == 128
  {
    seq(128, i requires 0 <= i < 128 => var e := 64 * (i / 32) + i % 32; TwoNibbles(c[e], c[e + 32]))
  }

  /** `Q4_K`: eight scales and eight minima of six bits in twelve bytes. */
  function Q4Scales(s: seq<byte>, m: seq<byte>): (r: seq<byte>)
    requires |s| == |m| == 8
    ensures |r| == 12
  {
    [SixAndTop(s[0], s[4]), SixAndTop(s[1], s[5]), SixAndTop(s[2], s[6]), SixAndTop(s[3], s[7]),
     SixAndTop(m[0], m[4]), SixAndTop(m[1], m[5]), SixAndTop(m[2], m[6]), SixAndTop(m[3], m[7]),
     TwoNibbles(s[4], m[4]), TwoNibbles(s[5], m[5]), TwoNibbles(s[6], m[6]), TwoNibbles(s[7], m[7])]
  }

  /** `Q5_0`: byte `l` has the low bits of codes `l` and `l + 16`. */
  function Q5Nibbles(c: seq<byte>): (r: seq<byte>)
    requires |c| == 32
    ensures |r| == 16
  {
    seq(16, i requires 0 <= i < 16 => TwoNibbles(c[i], c[i + 16]))
  }

  /** The bytes of a block, field after field. */
  function BytesOf(b: Block): (r: seq<byte>)
    requires Sound(b)
    ensures |r| == match b case BlockQ4K(_, _, _, _, _) => 144 case BlockQ6K(_, _, _) => 210 case BlockQ80(_, _) => 34 case BlockQ50(_, _) => 22 case BlockF32(_) => 4
  {
    match b
    case BlockQ4K(codes, scales, mins, d, dmin) => HalfBytes(d) + HalfBytes(dmin) + Q4Scales(scales, mins) + Q4Nibbles(codes)
    case BlockQ6K(codes, signed, d) => Q6Lows(codes) + Q6Tops(codes) + SignedBytes(signed) + HalfBytes(d)
    case BlockQ80(quants, d) => HalfBytes(d) + SignedBytes(quants)
    case BlockQ50(codes, d) =>
      HalfBytes(d) + [EightTops(codes, 0), EightTops(codes, 8), EightTops(codes, 16), EightTops(codes, 24)] + Q5Nibbles(codes)
    case BlockF32(word) => WordBytes(word)
  }

  /** What stands at the start of `w` from `o` on. */
  ghost predicate Stands(w: seq<byte>, o: nat, part: seq<byte>) {
    o + |part| <= |w| && forall k :: 0 <= k < |part| ==> w[o + k] == part[k]
  }

  lemma StandsAt(w: seq<byte>, o: nat, part: seq<byte>, k: nat)
    requires Stands(w, o, part) && k < |part|
    ensures o + k < |w| && w[o + k] == part[k]
  {
  }

  lemma StandsParts(w: seq<byte>, o: nat, a: seq<byte>, b: seq<byte>)
    requires Stands(w, o, a + b)
    ensures Stands(w, o, a) && Stands(w, o + |a|, b)
  {
    forall k | 0 <= k < |b|
      ensures w[o + |a| + k] == b[k]
    {
      assert (a + b)[|a| + k] == b[k];
    }
    forall k | 0 <= k < |a|
      ensures w[o + k] == a[k]
    {
      assert (a + b)[k] == a[k];
    }
  }

  // ----- small fields read back -----

  lemma HalfBack(h: bv16)
    ensures U16(HalfBytes(h)[0], HalfBytes(h)[1]) == h
  {
  }

  lemma WordBack(w: bv32)
    ensures U32(WordBytes(w)[0], WordBytes(w)[1], WordBytes(w)[2], WordBytes(w)[3]) == w
  {
  }

  lemma SignedBack(s: seq<int>, i: nat)
    requires i < |s| && AllInt8(s)
    ensures Int8(SignedBytes(s)[i]) == s[i]
  {
    Int8RoundTrip(s[i]);
  }

  // ----- rows and matrices -----

  /** The number of a block's layout in a GGUF file. */
  function KindOf(b: Block): nat {
    match b
    case BlockF32(_) => 0
    case BlockQ50(_, _) => 6
    case BlockQ80(_, _) => 8
    case BlockQ4K(_, _, _, _, _) => 12
    case BlockQ6K(_, _, _) => 14
  }

  function WeightsPerBlock(kind: nat): (n: nat)
    ensures n > 0
  {
    if kind == 12 || kind == 14 then 256 else if kind == 6 || kind == 8 then 32 else 1
  }

  function BytesPerBlock(kind: nat): nat {
    if kind == 12 then 144 else if kind == 14 then 210 else if kind == 8 then 34 else if kind == 6 then 22 else 4
  }

  lemma BlockSizes(b: Block)
    requires Sound(b)
    ensures Count(b) == WeightsPerBlock(KindOf(b)) && |BytesOf(b)| == BytesPerBlock(KindOf(b))
  {
    hide BytesOf;
  }

  /** A row of blocks of one layout. */
  ghost predicate SoundRow(row: seq<Block>, kind: nat) {
    forall i :: 0 <= i < |row| ==> Sound(row[i]) && KindOf(row[i]) == kind
  }

  /** The row's weights, block after block. */
  function Values(row: seq<Block>, kind: nat, rd: Reading): (r: seq<real>)
    requires SoundRow(row, kind)
    ensures |r| == WeightsPerBlock(kind) * |row|
  {
    if row == [] then []
    else
      var last := row[|row| - 1];
      Values(row[..|row| - 1], kind, rd) + seq(Count(last), e requires 0 <= e < Count(last) => Value(last, e, rd))
  }

  lemma {:induction false} ValueAt(row: seq<Block>, kind: nat, rd: Reading, k: nat, e: nat)
    requires SoundRow(row, kind) && k < |row| && e < WeightsPerBlock(kind)
    ensures WeightsPerBlock(kind) * k + e < |Values(row, kind, rd)|
    ensures Count(row[k]) == WeightsPerBlock(kind) && Values(row, kind, rd)[WeightsPerBlock(kind) * k + e] == Value(row[k], e, rd)
    decreases |row|
  {
    hide Value, Sound;
    var n, size := |row| - 1, WeightsPerBlock(kind);
    Inside(size, k, |row|, e);
    if k < n {
      Inside(size, k, n, e);
      ValueAt(row[..n], kind, rd, k, e);
    }
  }

  lemma Inside(size: nat, k: nat, n: nat, e: nat)
    requires k < n && e < size
    ensures size * k + e < size * n
  {
    var d := n - k - 1;
    assert size * n == size * k + size + size * d;
  }

  /** Parts one after the other. */
  function Flatten(parts: seq<seq<byte>>): seq<byte> {
    if parts == [] then [] else Flatten(parts[..|parts| - 1]) + parts[|parts| - 1]
  }

  lemma {:induction false} FlattenAt(parts: seq<seq<byte>>, size: nat, r: nat)
    requires (forall i :: 0 <= i < |parts| ==> |parts[i]| == size) && r < |parts|
    ensures |Flatten(parts)| == |parts| * size && 0 <= r * size && r * size + size <= |parts| * size
    ensures Flatten(parts)[r * size..r * size + size] == parts[r]
    decreases |parts|
  {
    hide Flatten;
    var n := |parts| - 1;
    var front, at := parts[..n], r * size;
    FlattenLength(parts, size);
    FlattenLength(front, size);
    PlaceWithin(r, |parts|, size);
    FlattenLast(parts);
    if r < n {
      PlaceWithin(r, n, size);
      FlattenAt(front, size, r);
      FrontPart(Flatten(front), parts[n], at, at + size);
    }
  }

  lemma FlattenLast(parts: seq<seq<byte>>)
    requires parts != []
    ensures Flatten(parts) == Flatten(parts[..|parts| - 1]) + parts[|parts| - 1]
    ensures Flatten(parts)[|Flatten(parts[..|parts| - 1])|..] == parts[|parts| - 1]
  {
  }

  lemma FrontPart(a: seq<byte>, b: seq<byte>, lo: nat, hi: nat)
    requires lo <= hi <= |a|
    ensures (a + b)[lo..hi] == a[lo..hi]
  {
  }

  lemma PlaceWithin(r: nat, n: nat, size: nat)
    requires r < n
    ensures 0 <= r * size && r * size + size <= n * size
    ensures r == n - 1 ==> r * size + size == n * size
  {
    var d := n - r - 1;
    assert n * size == r * size + size + d * size;
  }

  lemma {:induction false} FlattenLength(parts: seq<seq<byte>>, size: nat)
    requires forall i :: 0 <= i < |parts| ==> |parts[i]| == size
    ensures |Flatten(parts)| == |parts| * size
    decreases |parts|
  {
    if parts != [] {
      var n := |parts| - 1;
      FlattenLength(parts[..n], size);
      assert (n + 1) * size == n * size + size;
    }
  }

  function PackedRow(row: seq<Block>, kind: nat): seq<byte>
    requires SoundRow(row, kind)
  {
    Flatten(seq(|row|, i requires 0 <= i < |row| => BytesOf(row[i])))
  }

  /** Block `k` stands where it was written. */
  lemma RowStands(row: seq<Block>, kind: nat, k: nat)
    requires SoundRow(row, kind) && k < |row|
    ensures |PackedRow(row, kind)| == BytesPerBlock(kind) * |row|
    ensures Stands(PackedRow(row, kind), BytesPerBlock(kind) * k, BytesOf(row[k]))
  {
    hide BytesOf, Sound, Flatten;
    var parts := seq(|row|, i requires 0 <= i < |row| => BytesOf(row[i]));
    var size := BytesPerBlock(kind);
    forall i | 0 <= i < |parts|
      ensures |parts[i]| == size
    {
      BlockSizes(row[i]);
    }
    FlattenAt(parts, size, k);
    var w, o := PackedRow(row, kind), size * k;
    assert k * size == o;
    forall j | 0 <= j < size
      ensures w[o + j] == BytesOf(row[k])[j]
    {
      assert w[o..o + size][j] == w[o + j];
    }
  }

  lemma RowLength(row: seq<Block>, kind: nat)
    requires SoundRow(row, kind)
    ensures |PackedRow(row, kind)| == BytesPerBlock(kind) * |row|
  {
    hide BytesOf, Sound, Stands, PackedRow;
    if row != [] {
      RowStands(row, kind, 0);
    } else {
      EmptyRow(row, kind);
    }
  }

  lemma EmptyRow(row: seq<Block>, kind: nat)
    requires row == []
    ensures PackedRow(row, kind) == []
  {
  }

  /** Rows of `n` blocks each. */
  ghost predicate SoundMatrix(rows: seq<seq<Block>>, kind: nat, n: nat) {
    forall r :: 0 <= r < |rows| ==> SoundRow(rows[r], kind) && |rows[r]| == n
  }

  function PackedMatrix(rows: seq<seq<Block>>, kind: nat, n: nat): seq<byte>
    requires SoundMatrix(rows, kind, n)
  {
    Flatten(seq(|rows|, r requires 0 <= r < |rows| => PackedRow(rows[r], kind)))
  }
}
