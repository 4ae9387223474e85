/** The kernels and dequantisers read, element by element, the weights a block was written from. */
module WrittenWeights {
  import opened Machine
  import opened Float32
  import opened WeightBlocks
  import DotQ50
  import DotQ80
  import Q4K
  import Q4KMeaning
  import Q6K
  import Q6KMeaning

  // ----- Q6_K -----

  /** Packed six-bit codes come apart again, whichever of the four they are. */
  lemma SixBitsBack(a: byte, b: byte, c: byte, d: byte)
    requires a < 64 && b < 64 && c < 64 && d < 64
    ensures Q6K.CodeOf(TwoNibbles(a, c), FourTops(a, b, c, d), 0) == a
    ensures Q6K.CodeOf(TwoNibbles(b, d), FourTops(a, b, c, d), 1) == b
    ensures Q6K.CodeOf(TwoNibbles(a, c), FourTops(a, b, c, d), 2) == c
    ensures Q6K.CodeOf(TwoNibbles(b, d), FourTops(a, b, c, d), 3) == d
  {
  }

  lemma Q6Parts(w: seq<byte>, o: nat, b: Block)
    requires Sound(b) && b.BlockQ6K? && Stands(w, o, BytesOf(b))
    ensures Stands(w, o, Q6Lows(b.codes)) && Stands(w, o + 128, Q6Tops(b.codes))
    ensures Stands(w, o + 192, SignedBytes(b.signed)) && Stands(w, o + 208, HalfBytes(b.d))
  {
    hide Stands, Q6Lows, Q6Tops, SignedBytes, HalfBytes, AllBelow, AllInt8;
    StandsParts(w, o, Q6Lows(b.codes) + Q6Tops(b.codes) + SignedBytes(b.signed), HalfBytes(b.d));
    StandsParts(w, o, Q6Lows(b.codes) + Q6Tops(b.codes), SignedBytes(b.signed));
    StandsParts(w, o, Q6Lows(b.codes), Q6Tops(b.codes));
  }

  lemma Q6LowsAt(c: seq<byte>, n: nat, u: nat, l: nat)
    requires |c| == 256 && n < 2 && u < 2 && l < 32
    ensures Q6Lows(c)[64 * n + 32 * u + l] == TwoNibbles(c[128 * n + 32 * u + l], c[128 * n + 64 + 32 * u + l])
  {
    hide TwoNibbles;
    var i := 64 * n + 32 * u + l;
    assert 128 * (i / 64) + i % 64 == 128 * n + 32 * u + l;
  }

  lemma Q6TopsAt(c: seq<byte>, n: nat, l: nat)
    requires |c| == 256 && n < 2 && l < 32
    ensures Q6Tops(c)[32 * n + l] ==
            FourTops(c[128 * n + l], c[128 * n + 32 + l], c[128 * n + 64 + l], c[128 * n + 96 + l])
  {
    hide FourTops;
    var i := 32 * n + l;
    assert 128 * (i / 32) + i % 32 == 128 * n + l;
  }

  /** The code in quarter `qt`, from the two bytes that hold it. */
  lemma Q6CodeOfBytes(c: seq<byte>, n: nat, qt: nat, l: nat)
    requires |c| == 256 && AllBelow(c, 64) && n < 2 && qt < 4 && l < 32
    ensures Q6K.CodeOf(Q6Lows(c)[64 * n + 32 * (qt % 2) + l], Q6Tops(c)[32 * n + l], qt) == c[128 * n + 32 * qt + l]
  {
    hide Q6K.CodeOf, TwoNibbles, FourTops, Q6Lows, Q6Tops;
    Q6LowsAt(c, n, qt % 2, l);
    Q6TopsAt(c, n, l);
    SixBitsBack(c[128 * n + l], c[128 * n + 32 + l], c[128 * n + 64 + l], c[128 * n + 96 + l]);
  }

  lemma Q6CodeBack(w: seq<byte>, o: nat, b: Block, n: nat, qt: nat, l: nat)
    requires Sound(b) && b.BlockQ6K? && Stands(w, o, BytesOf(b)) && n < 2 && qt < 4 && l < 32
    ensures o + 210 <= |w| && Q6K.Code(w, o, n, qt, l) == b.codes[128 * n + 32 * qt + l]
  {
    hide Q6K.CodeOf, BytesOf, Stands, Q6Lows, Q6Tops, AllBelow, AllInt8;
    Q6Parts(w, o, b);
    StandsAt(w, o, BytesOf(b), 209);
    StandsAt(w, o, Q6Lows(b.codes), 64 * n + 32 * (qt % 2) + l);
    StandsAt(w, o + 128, Q6Tops(b.codes), 32 * n + l);
    Q6CodeOfBytes(b.codes, n, qt, l);
  }

  /** All 256 elements of a written `Q6_K` block: `d * scale * (code - 32)` of the element written. */
  lemma Q6Back(w: seq<byte>, o: nat, b: Block, e: nat)
    requires Sound(b) && b.BlockQ6K? && Stands(w, o, BytesOf(b)) && e < 256
    ensures o + 210 <= |w| && Q6KMeaning.BlockWeight(w, o, e) == Weight(b, e)
  {
    hide Q6K.Code, U16, Int8, BytesOf, Q6Lows, Q6Tops, AllBelow;
    var n, qt, l := e / 128, e % 128 / 32, e % 32;
    Q6Parts(w, o, b);
    Q6CodeBack(w, o, b, n, qt, l);
    assert 128 * n + 32 * qt + l == e;
    assert 8 * n + 2 * qt + l / 16 == e / 16;
    assert w[o + 192 + e / 16] == SignedBytes(b.signed)[e / 16];
    SignedBack(b.signed, e / 16);
    HalfAt(w, o + 208, b.d);
  }

  lemma HalfAt(w: seq<byte>, o: nat, d: bv16)
    requires Stands(w, o, HalfBytes(d))
    ensures U16(w[o], w[o + 1]) == d
  {
    HalfBack(d);
    assert w[o + 0] == HalfBytes(d)[0] && w[o + 1] == HalfBytes(d)[1];
  }

  // ----- Q4_K -----

  /** Six-bit scales and minima come apart again, the first four and the last four. */
  lemma ScaleBitsBack(s: byte, s': byte, m: byte, m': byte)
    requires s < 64 && s' < 64 && m < 64 && m' < 64
    ensures SixAndTop(s, s') & 63 == s && SixAndTop(m, m') & 63 == m
    ensures (TwoNibbles(s', m') & 15) | ((SixAndTop(s, s') >> 6) << 4) == s'
    ensures (TwoNibbles(s', m') >> 4) | ((SixAndTop(m, m') >> 6) << 4) == m'
  {
  }

  lemma NibblesBack(a: byte, b: byte)
    requires a < 16 && b < 16
    ensures TwoNibbles(a, b) & 15 == a && TwoNibbles(a, b) >> 4 == b
  {
  }

  lemma Q4ScalesAt(s: seq<byte>, m: seq<byte>, i: nat)
    requires |s| == |m| == 8 && i < 4
    ensures var r := Q4Scales(s, m);
            r[i] == SixAndTop(s[i], s[i + 4]) && r[i + 4] == SixAndTop(m[i], m[i + 4]) && r[i + 8] == TwoNibbles(s[i + 4], m[i + 4])
  {
    hide SixAndTop, TwoNibbles;
  }

  lemma Q4ScaleBack(w: seq<byte>, at: nat, s: seq<byte>, m: seq<byte>, j: nat)
    requires |s| == |m| == 8 && AllBelow(s, 64) && AllBelow(m, 64) && Stands(w, at, Q4Scales(s, m)) && j < 8
    ensures at + 12 <= |w| && Q4K.Scale6(w, at, j) == s[j] && Q4K.Min6(w, at, j) == m[j]
  {
    hide SixAndTop, TwoNibbles, Q4Scales, Stands;
    var i := j % 4;
    Q4ScalesAt(s, m, i);
    StandsAt(w, at, Q4Scales(s, m), 11);
    StandsAt(w, at, Q4Scales(s, m), i);
    StandsAt(w, at, Q4Scales(s, m), i + 4);
    StandsAt(w, at, Q4Scales(s, m), i + 8);
    ScaleBitsBack(s[i], s[i + 4], m[i], m[i + 4]);
  }

  lemma Q4Parts(w: seq<byte>, o: nat, b: Block)
    requires Sound(b) && b.BlockQ4K? && Stands(w, o, BytesOf(b))
    ensures Stands(w, o, HalfBytes(b.d)) && Stands(w, o + 2, HalfBytes(b.dmin))
    ensures Stands(w, o + 4, Q4Scales(b.scales, b.mins)) && Stands(w, o + 16, Q4Nibbles(b.codes))
  {
    hide Stands, Q4Scales, Q4Nibbles, HalfBytes, AllBelow;
    StandsParts(w, o, HalfBytes(b.d) + HalfBytes(b.dmin) + Q4Scales(b.scales, b.mins), Q4Nibbles(b.codes));
    StandsParts(w, o, HalfBytes(b.d) + HalfBytes(b.dmin), Q4Scales(b.scales, b.mins));
    StandsParts(w, o, HalfBytes(b.d), HalfBytes(b.dmin));
  }

  lemma Q4NibbleBack(c: seq<byte>, j: nat, high: bool, l: nat)
    requires |c| == 256 && AllBelow(c, 16) && j < 4 && l < 32
    ensures Q4K.Nibble(Q4Nibbles(c)[32 * j + l], high) == c[64 * j + (if high then 32 else 0) + l]
  {
    hide TwoNibbles;
    var i := 32 * j + l;
    assert 64 * (i / 32) + i % 32 == 64 * j + l;
    NibblesBack(c[64 * j + l], c[64 * j + l + 32]);
  }

  /** All 256 elements of a written `Q4_K` block: `d * scale * code - dmin * min` of the element written. */
  lemma Q4Back(w: seq<byte>, o: nat, b: Block, e: nat)
    requires Sound(b) && b.BlockQ4K? && Stands(w, o, BytesOf(b)) && e < 256
    ensures o + 144 <= |w| && Q4KMeaning.WeightExpr(w, o, e) == Weight(b, e)
  {
    hide Q4K.Scale6, Q4K.Min6, Q4K.Nibble, U16, BytesOf, Q4Scales, Q4Nibbles, AllBelow, Stands, HalfBytes;
    var j, high, l := e / 64, e % 64 >= 32, e % 32;
    var h := if high then 1 else 0;
    Q4Parts(w, o, b);
    StandsAt(w, o, BytesOf(b), 143);
    Q4NibbleBack(b.codes, j, high, l);
    StandsAt(w, o + 16, Q4Nibbles(b.codes), 32 * j + l);
    assert 64 * j + 32 * h + l == e && 2 * j + h == e / 32;
    Q4ScaleBack(w, o + 4, b.scales, b.mins, e / 32);
    HalfAt(w, o, b.d);
    HalfAt(w, o + 2, b.dmin);
  }

  // ----- Q8_0 and Q5_0 -----

  lemma Q8Parts(w: seq<byte>, o: nat, b: Block)
    requires Sound(b) && b.BlockQ80? && Stands(w, o, BytesOf(b))
    ensures Stands(w, o, HalfBytes(b.d)) && Stands(w, o + 2, SignedBytes(b.quants))
  {
    hide Stands, HalfBytes, SignedBytes, AllInt8;
    StandsParts(w, o, HalfBytes(b.d), SignedBytes(b.quants));
  }

  /** The 32 elements of a written `Q8_0` block, block `k` of a row of `n`: `d * quant`. */
  lemma Q8Back(w: seq<byte>, n: nat, k: nat, b: Block, e: nat)
    requires k < n && 34 * n <= |w| && Sound(b) && b.BlockQ80? && Stands(w, 34 * k, BytesOf(b)) && e < 32
    ensures 32 * k + e < 32 * n && DotQ80.Weight(w, n, 32 * k + e) == Weight(b, e)
  {
    hide U16, Int8, BytesOf, Stands, HalfBytes, SignedBytes;
    assert (32 * k + e) / 32 == k && (32 * k + e) % 32 == e;
    Q8Parts(w, 34 * k, b);
    StandsAt(w, 34 * k + 2, SignedBytes(b.quants), e);
    SignedBack(b.quants, e);
    HalfAt(w, 34 * k, b.d);
  }

  lemma Q5Parts(w: seq<byte>, o: nat, b: Block)
    requires Sound(b) && b.BlockQ50? && Stands(w, o, BytesOf(b))
    ensures var c := b.codes;
            && Stands(w, o, HalfBytes(b.d))
            && Stands(w, o + 2, [EightTops(c, 0), EightTops(c, 8), EightTops(c, 16), EightTops(c, 24)])
            && Stands(w, o + 6, Q5Nibbles(c))
  {
    hide Stands, HalfBytes, EightTops, Q5Nibbles, AllBelow;
    var tops := [EightTops(b.codes, 0), EightTops(b.codes, 8), EightTops(b.codes, 16), EightTops(b.codes, 24)];
    StandsParts(w, o, HalfBytes(b.d) + tops, Q5Nibbles(b.codes));
    StandsParts(w, o, HalfBytes(b.d), tops);
  }

  /** Bit `j` of a byte. */
  function BitOf(t: byte, j: nat): byte
    requires j < 8
  {
    if j == 0 then t & 1 else if j == 1 then (t >> 1) & 1 else if j == 2 then (t >> 2) & 1 else if j == 3 then (t >> 3) & 1
    else if j == 4 then (t >> 4) & 1 else if j == 5 then (t >> 5) & 1 else if j == 6 then (t >> 6) & 1 else t >> 7
  }

  lemma TopsBack(c: seq<byte>, at: nat, j: nat)
    requires at + 8 <= |c| && AllBelow(c, 32) && j < 8
    ensures BitOf(EightTops(c, at), j) == c[at + j] >> 4
  {
    EightBits(c[at], c[at + 1], c[at + 2], c[at + 3], c[at + 4], c[at + 5], c[at + 6], c[at + 7]);
  }

  lemma EightBits(a: byte, b: byte, c: byte, d: byte, e: byte, f: byte, g: byte, h: byte)
    requires a < 32 && b < 32 && c < 32 && d < 32 && e < 32 && f < 32 && g < 32 && h < 32
    ensures var t := (a >> 4) | ((b >> 4) << 1) | ((c >> 4) << 2) | ((d >> 4) << 3)
                     | ((e >> 4) << 4) | ((f >> 4) << 5) | ((g >> 4) << 6) | ((h >> 4) << 7);
            && t & 1 == a >> 4 && (t >> 1) & 1 == b >> 4 && (t >> 2) & 1 == c >> 4 && (t >> 3) & 1 == d >> 4
            && (t >> 4) & 1 == e >> 4 && (t >> 5) & 1 == f >> 4 && (t >> 6) & 1 == g >> 4 && t >> 7 == h >> 4
  {
  }

  lemma FirstByteBit(a: byte, b: byte, c: byte, d: byte, j: nat)
    requires j < 8
    ensures DotQ50.FifthBit(U32(a, b, c, d), j) == BitOf(a, j)
  {
    if j == 0 {
    } else if j == 1 {
    } else if j == 2 {
    } else if j == 3 {
    } else if j == 4 {
    } else if j == 5 {
    } else if j == 6 {
    } else {
    }
  }

  lemma SecondByteBit(a: byte, b: byte, c: byte, d: byte, j: nat)
    requires j < 8
    ensures DotQ50.FifthBit(U32(a, b, c, d), 8 + j) == BitOf(b, j)
  {
    if j == 0 {
    } else if j == 1 {
    } else if j == 2 {
    } else if j == 3 {
    } else if j == 4 {
    } else if j == 5 {
    } else if j == 6 {
    } else {
    }
  }

  lemma ThirdByteBit(a: byte, b: byte, c: byte, d: byte, j: nat)
    requires j < 8
    ensures DotQ50.FifthBit(U32(a, b, c, d), 16 + j) == BitOf(c, j)
  {
    if j == 0 {
    } else if j == 1 {
    } else if j == 2 {
    } else if j == 3 {
    } else if j == 4 {
    } else if j == 5 {
    } else if j == 6 {
    } else {
    }
  }

  lemma FourthByteBit(a: byte, b: byte, c: byte, d: byte, j: nat)
    requires j < 8
    ensures DotQ50.FifthBit(U32(a, b, c, d), 24 + j) == BitOf(d, j)
  {
    if j == 0 {
    } else if j == 1 {
    } else if j == 2 {
    } else if j == 3 {
    } else if j == 4 {
    } else if j == 5 {
    } else if j == 6 {
    } else {
    }
  }

  /** Bit `l` of the little-endian word is the fifth bit of code `l`. */
  lemma FifthBack(c: seq<byte>, l: nat)
    requires |c| == 32 && AllBelow(c, 32) && l < 32
    ensures DotQ50.FifthBit(U32(EightTops(c, 0), EightTops(c, 8), EightTops(c, 16), EightTops(c, 24)), l) == c[l] >> 4
  {
    hide EightTops, DotQ50.FifthBit, U32, BitOf;
    var t0, t1, t2, t3, j := EightTops(c, 0), EightTops(c, 8), EightTops(c, 16), EightTops(c, 24), l % 8;
    if l < 8 {
      FirstByteBit(t0, t1, t2, t3, j);
      TopsBack(c, 0, j);
    } else if l < 16 {
      SecondByteBit(t0, t1, t2, t3, j);
      TopsBack(c, 8, j);
    } else if l < 24 {
      ThirdByteBit(t0, t1, t2, t3, j);
      TopsBack(c, 16, j);
    } else {
      FourthByteBit(t0, t1, t2, t3, j);
      TopsBack(c, 24, j);
    }
  }

  lemma FiveBitsBack(low: byte, high: byte, c: byte)
    requires c < 32 && low == c & 15 && high == c >> 4
    ensures low | (high << 4) == c
  {
  }

  lemma NibbleHalves(a: byte, b: byte)
    ensures TwoNibbles(a, b) & 15 == a & 15 && TwoNibbles(a, b) >> 4 == b & 15
  {
  }

  lemma Q5WordBack(w: seq<byte>, o: nat, b: Block)
    requires Sound(b) && b.BlockQ50? && Stands(w, o, BytesOf(b))
    ensures o + 22 <= |w| && DotQ50.HighWord(w, o) ==
            U32(EightTops(b.codes, 0), EightTops(b.codes, 8), EightTops(b.codes, 16), EightTops(b.codes, 24))
  {
    hide U32, EightTops, Q5Nibbles, BytesOf, Stands, AllBelow;
    var c := b.codes;
    Q5Parts(w, o, b);
    StandsAt(w, o, BytesOf(b), 21);
    var tops := [EightTops(c, 0), EightTops(c, 8), EightTops(c, 16), EightTops(c, 24)];
    StandsAt(w, o + 2, tops, 0);
    StandsAt(w, o + 2, tops, 1);
    StandsAt(w, o + 2, tops, 2);
    StandsAt(w, o + 2, tops, 3);
  }

  lemma Q5LowBack(w: seq<byte>, o: nat, b: Block, i: nat)
    requires Sound(b) && b.BlockQ50? && Stands(w, o, BytesOf(b)) && i < 16
    ensures o + 22 <= |w| && w[o + 6 + i] == TwoNibbles(b.codes[i], b.codes[i + 16])
  {
    hide EightTops, Q5Nibbles, BytesOf, Stands, AllBelow, TwoNibbles;
    Q5Parts(w, o, b);
    StandsAt(w, o, BytesOf(b), 21);
    StandsAt(w, o + 6, Q5Nibbles(b.codes), i);
    Q5NibblesAt(b.codes, i);
  }

  lemma FiveBits(low: byte, qh: bv32, e: nat, a: byte, b: byte, c: byte)
    requires low == TwoNibbles(a, b) && e < 32 && c == (if e < 16 then a else b) && c < 32 && DotQ50.FifthBit(qh, e) == c >> 4
    ensures DotQ50.CodeOf(low, qh, e) == c
  {
    hide DotQ50.FifthBit, TwoNibbles;
    NibbleHalves(a, b);
    FiveBitsBack(c & 15, c >> 4, c);
  }

  lemma Q5CodeBack(w: seq<byte>, o: nat, b: Block, e: nat)
    requires Sound(b) && b.BlockQ50? && Stands(w, o, BytesOf(b)) && e < 32
    ensures o + 22 <= |w| && DotQ50.Code(w, o, e) == b.codes[e]
  {
    hide U32, EightTops, DotQ50.FifthBit, DotQ50.HighWord, DotQ50.CodeOf, TwoNibbles, BytesOf, Stands;
    Q5WordBack(w, o, b);
    Q5LowBack(w, o, b, e % 16);
    FifthBack(b.codes, e);
    FiveBits(w[o + 6 + e % 16], DotQ50.HighWord(w, o), e, b.codes[e % 16], b.codes[e % 16 + 16], b.codes[e]);
  }

  lemma Q5NibblesAt(c: seq<byte>, i: nat)
    requires |c| == 32 && i < 16
    ensures Q5Nibbles(c)[i] == TwoNibbles(c[i], c[i + 16])
  {
    hide TwoNibbles;
  }

  /** The 32 elements of a written `Q5_0` block, block `k` of a row of `n`: `d * (code - 16)`. */
  lemma Q5Back(w: seq<byte>, n: nat, k: nat, b: Block, e: nat)
    requires k < n && 22 * n <= |w| && Sound(b) && b.BlockQ50? && Stands(w, 22 * k, BytesOf(b)) && e < 32
    ensures 32 * k + e < 32 * n && DotQ50.Weight(w, n, 32 * k + e) == Weight(b, e)
  {
    hide U16, DotQ50.Code, BytesOf, Stands, HalfBytes, EightTops, Q5Nibbles, AllBelow;
    assert (32 * k + e) / 32 == k && (32 * k + e) % 32 == e;
    Q5Parts(w, 22 * k, b);
    Q5CodeBack(w, 22 * k, b, e);
    HalfAt(w, 22 * k, b.d);
  }

  // ----- whole rows -----

  lemma Q6Element(row: seq<Block>, i: nat)
    requires SoundRow(row, 14) && i < 256 * |row|
    ensures var w := PackedRow(row, 14);
            |w| == 210 * |row| && Q6KMeaning.RowWeight(w, |row|, i) == Weight(row[i / 256], i % 256)
  {
    hide PackedRow, BytesOf, Stands, Weight, Sound, Q6KMeaning.BlockWeight;
    var w, k, e := PackedRow(row, 14), i / 256, i % 256;
    RowStands(row, 14, k);
    assert Sound(row[k]) && KindOf(row[k]) == 14;
    Q6Back(w, 210 * k, row[k], e);
  }

  lemma Q6Row(row: seq<Block>, rd: Reading)
    requires SoundRow(row, 14)
    ensures 210 * |row| == |PackedRow(row, 14)| && Q6KMeaning.WeightRow(PackedRow(row, 14), |row|, rd) == Values(row, 14, rd)
  {
    hide PackedRow, Weight, Sound, Value, Values, Eval, Q6KMeaning.RowWeight;
    var w := PackedRow(row, 14);
    RowLength(row, 14);
    forall i | 0 <= i < 256 * |row|
      ensures Q6KMeaning.WeightRow(w, |row|, rd)[i] == Values(row, 14, rd)[i]
    {
      Q6Element(row, i);
      assert Sound(row[i / 256]) && KindOf(row[i / 256]) == 14;
      WeightValue(row[i / 256], i % 256, rd);
      ValueAt(row, 14, rd, i / 256, i % 256);
    }
  }

  lemma Q4Element(row: seq<Block>, i: nat)
    requires SoundRow(row, 12) && i < 256 * |row|
    ensures var w := PackedRow(row, 12);
            |w| == 144 * |row| && Q4KMeaning.RowWeight(w, |row|, i) == Weight(row[i / 256], i % 256)
  {
    hide PackedRow, BytesOf, Stands, Weight, Sound, Q4KMeaning.WeightExpr;
    var w, k, e := PackedRow(row, 12), i / 256, i % 256;
    RowStands(row, 12, k);
    assert Sound(row[k]) && KindOf(row[k]) == 12;
    Q4Back(w, 144 * k, row[k], e);
  }

  lemma Q4Row(row: seq<Block>, rd: Reading)
    requires SoundRow(row, 12)
    ensures 144 * |row| == |PackedRow(row, 12)| && Q4KMeaning.WeightRow(PackedRow(row, 12), |row|, rd) == Values(row, 12, rd)
  {
    hide PackedRow, Weight, Sound, Value, Values, Eval, Q4KMeaning.RowWeight;
    var w := PackedRow(row, 12);
    RowLength(row, 12);
    forall i | 0 <= i < 256 * |row|
      ensures Q4KMeaning.WeightRow(w, |row|, rd)[i] == Values(row, 12, rd)[i]
    {
      Q4Element(row, i);
      assert Sound(row[i / 256]) && KindOf(row[i / 256]) == 12;
      WeightValue(row[i / 256], i % 256, rd);
      ValueAt(row, 12, rd, i / 256, i % 256);
    }
  }

  lemma Q8Element(row: seq<Block>, i: nat)
    requires SoundRow(row, 8) && i < 32 * |row|
    ensures var w := PackedRow(row, 8);
            |w| == 34 * |row| && DotQ80.Weight(w, |row|, i) == Weight(row[i / 32], i % 32)
  {
    hide PackedRow, BytesOf, Stands, Weight, Sound, DotQ80.Weight;
    var w, k, e := PackedRow(row, 8), i / 32, i % 32;
    RowStands(row, 8, k);
    assert Sound(row[k]) && KindOf(row[k]) == 8;
    Q8Back(w, |row|, k, row[k], e);
  }

  lemma Q8Row(row: seq<Block>, rd: Reading)
    requires SoundRow(row, 8)
    ensures 34 * |row| == |PackedRow(row, 8)| && DotQ80.WeightRow(PackedRow(row, 8), |row|, rd) == Values(row, 8, rd)
  {
    hide PackedRow, Weight, Sound, Value, Values, Eval, DotQ80.Weight;
    var w := PackedRow(row, 8);
    RowLength(row, 8);
    forall i | 0 <= i < 32 * |row|
      ensures DotQ80.WeightRow(w, |row|, rd)[i] == Values(row, 8, rd)[i]
    {
      Q8Element(row, i);
      assert Sound(row[i / 32]) && KindOf(row[i / 32]) == 8;
      WeightValue(row[i / 32], i % 32, rd);
      ValueAt(row, 8, rd, i / 32, i % 32);
    }
  }

  lemma Q5Element(row: seq<Block>, i: nat)
    requires SoundRow(row, 6) && i < 32 * |row|
    ensures var w := PackedRow(row, 6);
            |w| == 22 * |row| && DotQ50.Weight(w, |row|, i) == Weight(row[i / 32], i % 32)
  {
    hide PackedRow, BytesOf, Stands, Weight, Sound, DotQ50.Weight;
    var w, k, e := PackedRow(row, 6), i / 32, i % 32;
    RowStands(row, 6, k);
    assert Sound(row[k]) && KindOf(row[k]) == 6;
    Q5Back(w, |row|, k, row[k], e);
  }

  lemma Q5Row(row: seq<Block>, rd: Reading)
    requires SoundRow(row, 6)
    ensures 22 * |row| == |PackedRow(row, 6)| && DotQ50.WeightRow(PackedRow(row, 6), |row|, rd) == Values(row, 6, rd)
  {
    hide PackedRow, Weight, Sound, Value, Values, Eval, DotQ50.Weight;
    var w := PackedRow(row, 6);
    RowLength(row, 6);
    forall i | 0 <= i < 32 * |row|
      ensures DotQ50.WeightRow(w, |row|, rd)[i] == Values(row, 6, rd)[i]
    {
      Q5Element(row, i);
      assert Sound(row[i / 32]) && KindOf(row[i / 32]) == 6;
      WeightValue(row[i / 32], i % 32, rd);
      ValueAt(row, 6, rd, i / 32, i % 32);
    }
  }
}
