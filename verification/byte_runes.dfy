/** The byte/rune table of byte-level BPE: printable bytes stand for themselves, the others for
    the runes from 256 on. */
module ByteRunes {
  import opened Octets

  type Rune = nat

  predicate Printable(b: int) {
    33 <= b <= 126 || 161 <= b <= 172 || 174 <= b <= 255
  }

  /** How many bytes below `b` are not printable. */
  function Missing(b: nat): (n: nat)
    ensures n <= b
  {
    if b == 0 then 0 else Missing(b - 1) + if Printable(b - 1) then 0 else 1
  }

  function ByteRune(b: Octet): (r: Rune)
    ensures Printable(b) <==> r < 256
    ensures Printable(b) ==> r == b
  {
    if Printable(b) then b else 256 + Missing(b)
  }

  lemma {:induction false} MissingMonotone(a: nat, b: nat)
    requires a < b
    ensures Missing(a) <= Missing(b)
    ensures !Printable(a) ==> Missing(a) < Missing(b)
    decreases b
  {
    if a + 1 < b {
      MissingMonotone(a, b - 1);
    }
  }

  /** Different bytes stand for different runes. */
  lemma ByteRuneInjective(a: Octet, b: Octet)
    requires ByteRune(a) == ByteRune(b)
    ensures a == b
  {
    if a < b {
      MissingMonotone(a, b);
    } else if b < a {
      MissingMonotone(b, a);
    }
  }

  lemma {:induction false} MissingAt(b: nat)
    requires b <= 256
    ensures Missing(b) == if b <= 33 then b else if b <= 127 then 33 else if b <= 161 then b - 94 else if b <= 173 then 67 else 68
  {
    if b > 0 {
      MissingAt(b - 1);
    }
  }

  /** The 68 bytes that are not printable have the runes 256 to 323, in byte order; every other byte has its own value. */
  lemma RuneOfByte(b: Octet)
    ensures ByteRune(b) == if b <= 32 then 256 + b else if 127 <= b <= 160 then 162 + b else if b == 173 then 323 else b
  {
    MissingAt(b);
  }

  ghost predicate IsTable(b2u: map<Octet, Rune>, u2b: map<Rune, Octet>) {
    && (forall b: Octet :: b in b2u && b2u[b] == ByteRune(b))
    && (forall b: Octet :: ByteRune(b) in u2b && u2b[ByteRune(b)] == b)
    && (forall r :: r in u2b ==> ByteRune(u2b[r]) == r)
  }

  method AppendRange(bs: seq<Octet>, lo: Octet, hi: Octet) returns (r: seq<Octet>)
    requires lo <= hi
    ensures forall x: Octet :: x in r <==> x in bs || lo <= x <= hi
    ensures |r| == |bs| + (hi + 1 - lo)
  {
    r := bs;
    for b := lo to hi + 1
      invariant |r| == |bs| + (b - lo)
      invariant forall x: Octet :: x in r <==> x in bs || lo <= x < b
    {
      r := r + [b];
    }
  }

  method Member(bs: seq<Octet>, b: Octet) returns (found: bool)
    ensures found <==> b in bs
  {
    found := false;
    for i := 0 to |bs|
      invariant !found && b !in bs[..i]
    {
      if bs[i] == b {
        found := true;
        break;
      }
    }
  }

  /** The bytes that stand for themselves. */
  method PrintableBytes() returns (bs: seq<Octet>)
    ensures forall x: Octet :: x in bs <==> Printable(x)
  {
    bs := [];
    bs := AppendRange(bs, 33, 126);
    bs := AppendRange(bs, 161, 172);
    bs := AppendRange(bs, 174, 255);
  }

  /** `bs` and `cs` list bytes and their runes side by side. */
  ghost predicate Paired(bs: seq<Octet>, cs: seq<Rune>) {
    |bs| == |cs| && forall j :: 0 <= j < |bs| ==> cs[j] == ByteRune(bs[j])
  }

  method CopyRunes(bs: seq<Octet>) returns (cs: seq<Rune>)
    requires forall j :: 0 <= j < |bs| ==> Printable(bs[j])
    ensures Paired(bs, cs)
  {
    cs := [];
    for i := 0 to |bs|
      invariant |cs| == i && forall j :: 0 <= j < i ==> cs[j] == bs[j]
    {
      cs := cs + [bs[i]];
    }
  }

  /** Building the table: the printable bytes, then the others numbered in order. */
  method InitByteEncodings() returns (b2u: map<Octet, Rune>, u2b: map<Rune, Octet>)
    ensures IsTable(b2u, u2b)
  {
    hide Printable, ByteRune;
    var bs := PrintableBytes();
    forall j | 0 <= j < |bs|
      ensures Printable(bs[j])
    {
      assert bs[j] in bs;
    }
    var cs := CopyRunes(bs);
    var n := 0;
    for b := 0 to 256
      invariant n == Missing(b) && Paired(bs, cs)
      invariant forall x: Octet :: x in bs <==> Printable(x) || x < b
    {
      var found := Member(bs, b);
      OtherRune(b);
      if !found {
        bs := bs + [b];
        cs := cs + [256 + n];
        n := n + 1;
      }
    }
    b2u, u2b := FillTables(bs, cs);
  }

  lemma OtherRune(b: Octet)
    ensures !Printable(b) ==> ByteRune(b) == 256 + Missing(b)
  {
  }

  method FillTables(bs: seq<Octet>, cs: seq<Rune>) returns (b2u: map<Octet, Rune>, u2b: map<Rune, Octet>)
    requires Paired(bs, cs) && forall x: Octet :: x in bs
    ensures IsTable(b2u, u2b)
  {
    hide ByteRune;
    b2u, u2b := map[], map[];
    for i := 0 to |bs|
      invariant forall b: Octet :: b in bs[..i] ==> b in b2u && ByteRune(b) in u2b
      invariant forall b: Octet :: b in b2u ==> b2u[b] == ByteRune(b)
      invariant forall r :: r in u2b ==> ByteRune(u2b[r]) == r
    {
      b2u := b2u[bs[i] := cs[i]];
      u2b := u2b[cs[i] := bs[i]];
    }
    assert bs[..|bs|] == bs;
    forall b: Octet
      ensures ByteRune(b) in u2b && u2b[ByteRune(b)] == b
    {
      ByteRuneInjective(u2b[ByteRune(b)], b);
    }
  }

  // ----- UTF-8 -----

  /** The bytes of a rune; surrogates and values past U+10FFFF become U+FFFD. */
  function Utf8(r: Rune): (s: seq<Octet>)
    ensures s != []
  {
    if r < 0x80 then [r]
    else if r < 0x800 then [0xC0 + r / 64, 0x80 + r % 64]
    else if 0xD800 <= r < 0xE000 || r > 0x10FFFF then [0xEF, 0xBF, 0xBD]
    else if r < 0x10000 then [0xE0 + r / 4096, 0x80 + r / 64 % 64, 0x80 + r % 64]
    else [0xF0 + r / 262144, 0x80 + r / 4096 % 64, 0x80 + r / 64 % 64, 0x80 + r % 64]
  }

  function Utf8All(s: seq<Rune>): seq<Octet> {
    if s == [] then [] else Utf8All(s[..|s| - 1]) + Utf8(s[|s| - 1])
  }

  predicate Continuation(b: Octet) {
    0x80 <= b <= 0xBF
  }

  /** The payload of a leading or continuation byte. */
  function Minus(b: Octet, base: int): int {
    b as int - base
  }

  lemma SixBits(u: nat)
    ensures u == u / 64 * 64 + u % 64
    ensures u == u / 4096 * 4096 + u / 64 % 64 * 64 + u % 64
    ensures u == u / 262144 * 262144 + u / 4096 % 64 * 4096 + u / 64 % 64 * 64 + u % 64
  {
    var a, b := u / 64, u / 4096;
    assert a / 64 == b && b / 64 == u / 262144;
    assert a == b * 64 + a % 64 && b == b / 64 * 64 + b % 64;
  }

  /** The bytes of a rune are its UTF-8 encoding: leading bytes by length, continuation bytes of six bits each; a
      surrogate or a value past U+10FFFF is written as U+FFFD. */
  lemma Utf8Means(r: Rune)
    ensures var s, u := Utf8(r), if 0xD800 <= r <= 0xDFFF || r > 0x10FFFF then 0xFFFD else r;
            && (u <= 0x7F ==> |s| == 1 && s[0] == u)
            && (0x80 <= u <= 0x7FF ==>
                  |s| == 2 && 0xC2 <= s[0] <= 0xDF && Continuation(s[1])
                  && u == Minus(s[0], 0xC0) * 64 + Minus(s[1], 0x80))
            && (0x800 <= u <= 0xFFFF ==>
                  |s| == 3 && 0xE0 <= s[0] <= 0xEF && Continuation(s[1]) && Continuation(s[2])
                  && u == Minus(s[0], 0xE0) * 4096 + Minus(s[1], 0x80) * 64 + Minus(s[2], 0x80))
            && (0x10000 <= u ==>
                  |s| == 4 && 0xF0 <= s[0] <= 0xF4 && Continuation(s[1]) && Continuation(s[2]) && Continuation(s[3])
                  && u == Minus(s[0], 0xF0) * 262144 + Minus(s[1], 0x80) * 4096 + Minus(s[2], 0x80) * 64 + Minus(s[3], 0x80))
  {
    SixBits(r);
  }
}
