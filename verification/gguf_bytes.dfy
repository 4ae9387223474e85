/** The format written out byte by byte: numbers lowest byte first, the type codes, the header, the alignment. */
module GgufBytes {
  import opened Octets
  import opened GgufFormat
  import opened GgufFile

  // ----- numbers -----

  function Word2(d: Bytes, p: nat): nat
    requires p + 2 <= |d|
  {
    d[p] as int + 256 * (d[p + 1] as int)
  }

  function Word4(d: Bytes, p: nat): nat
    requires p + 4 <= |d|
  {
    d[p] as int + 256 * (d[p + 1] as int) + 65536 * (d[p + 2] as int) + 16777216 * (d[p + 3] as int)
  }

  function Word8(d: Bytes, p: nat): nat
    requires p + 8 <= |d|
  {
    Word4(d, p) + 4294967296 * Word4(d, p + 4)
  }

  lemma NumberOf(d: Bytes, p: nat)
    ensures p + 1 <= |d| ==> Number(d[p..p + 1]) == d[p]
    ensures p + 2 <= |d| ==> Number(d[p..p + 2]) == Word2(d, p)
    ensures p + 4 <= |d| ==> Number(d[p..p + 4]) == Word4(d, p)
    ensures p + 8 <= |d| ==> Number(d[p..p + 8]) == Word8(d, p)
  {
    hide Number;
    if p + 1 <= |d| {
      NumberHead(d, p, 1);
    }
    if p + 2 <= |d| {
      NumberHead(d, p, 2);
      NumberHead(d, p + 1, 1);
    }
    if p + 4 <= |d| {
      FourBytes(d, p);
    }
    if p + 8 <= |d| {
      FourBytes(d, p + 4);
      NumberHead(d, p, 8);
      NumberHead(d, p + 1, 7);
      NumberHead(d, p + 2, 6);
      NumberHead(d, p + 3, 5);
    }
  }

  lemma FourBytes(d: Bytes, p: nat)
    requires p + 4 <= |d|
    ensures Number(d[p..p + 4]) == Word4(d, p)
  {
    hide Number;
    NumberHead(d, p, 4);
    NumberHead(d, p + 1, 3);
    NumberHead(d, p + 2, 2);
    NumberHead(d, p + 3, 1);
  }

  lemma NumberHead(d: Bytes, p: nat, k: nat)
    requires k > 0 && p + k <= |d|
    ensures Number(d[p..p + k]) == d[p] + 256 * Number(d[p + 1..p + 1 + (k - 1)])
    ensures Number(d[p + k..p + k]) == 0
  {
    var s := d[p..p + k];
    assert s[1..] == d[p + 1..p + 1 + (k - 1)];
    assert d[p + k..p + k] == [];
  }

  /** A number of `k` bytes is the little-endian word there, or the data end too early. */
  lemma NumberRead(d: Bytes, p: nat)
    ensures ReadNumber(d, p, 1) == if p + 1 > |d| then Err(UnexpectedEOF) else Ok(Read(d[p], p + 1))
    ensures ReadNumber(d, p, 2) == if p + 2 > |d| then Err(UnexpectedEOF) else Ok(Read(Word2(d, p), p + 2))
    ensures ReadNumber(d, p, 4) == if p + 4 > |d| then Err(UnexpectedEOF) else Ok(Read(Word4(d, p), p + 4))
    ensures ReadNumber(d, p, 8) == if p + 8 > |d| then Err(UnexpectedEOF) else Ok(Read(Word8(d, p), p + 8))
  {
    hide Number, Pow256;
    NumberOf(d, p);
  }

  /** Two's complement. */
  function TwosComplement(n: nat, half: nat): int {
    if n < half then n else n - 2 * half
  }

  lemma SignedIs(n: nat)
    ensures Signed(n, 1) == TwosComplement(n, 128)
    ensures Signed(n, 2) == TwosComplement(n, 32768)
    ensures Signed(n, 4) == TwosComplement(n, 2147483648)
    ensures Signed(n, 8) == TwosComplement(n, 9223372036854775808)
  {
    Powers();
  }

  // ----- values by type code -----

  /** The twelve types of fixed size, by their codes. */
  lemma FixedValues(d: Bytes, p: nat)
    requires p + 8 <= |d|
    ensures ReadValue(d, p, 0) == Ok(Read(U8(d[p]), p + 1))
    ensures ReadValue(d, p, 1) == Ok(Read(I8(TwosComplement(d[p], 128)), p + 1))
    ensures ReadValue(d, p, 2) == Ok(Read(U16(Word2(d, p)), p + 2))
    ensures ReadValue(d, p, 3) == Ok(Read(I16(TwosComplement(Word2(d, p), 32768)), p + 2))
    ensures ReadValue(d, p, 4) == Ok(Read(U32(Word4(d, p)), p + 4))
    ensures ReadValue(d, p, 5) == Ok(Read(I32(TwosComplement(Word4(d, p), 2147483648)), p + 4))
    ensures ReadValue(d, p, 6) == Ok(Read(F32(Word4(d, p)), p + 4))
    ensures ReadValue(d, p, 7) == Ok(Read(Bool(d[p] != 0), p + 1))
    ensures ReadValue(d, p, 10) == Ok(Read(U64(Word8(d, p)), p + 8))
    ensures ReadValue(d, p, 11) == Ok(Read(I64(TwosComplement(Word8(d, p), 9223372036854775808)), p + 8))
    ensures ReadValue(d, p, 12) == Ok(Read(F64(Word8(d, p)), p + 8))
  {
    hide ReadNumber, Signed, Word2, Word4, Word8, TwosComplement;
    NumberRead(d, p);
    SignedIs(d[p]);
    SignedIs(Word2(d, p));
    SignedIs(Word4(d, p));
    SignedIs(Word8(d, p));
  }

  /** Code 8 is a string: eight bytes of length, then the bytes. Above 12 there is no type. */
  lemma StringValue(d: Bytes, p: nat, vt: nat)
    requires p + 8 <= |d| < 9223372036854775808 && Word8(d, p) < 9223372036854775808
    ensures var n := Word8(d, p);
            ReadValue(d, p, 8) == if p + 8 + n <= |d| then Ok(Read(Str(d[p + 8..p + 8 + n]), p + 8 + n)) else Err(UnexpectedEOF)
    ensures vt > 12 ==> ReadValue(d, p, vt) == Err(UnknownType(vt))
  {
    hide ReadNumber, Word8;
    NumberRead(d, p);
  }

  /** Code 9 is an array: four bytes of element type, eight of length, then the elements. Strings, 32-bit floats and
      32-bit integers are kept as such, everything else value by value. */
  lemma ArrayValue(d: Bytes, p: nat)
    requires p + 12 <= |d|
    ensures var items := ReadItems(d, p + 12, Word4(d, p), Word8(d, p + 4));
            ReadValue(d, p, 9) ==
            if items.Err? then Err(items.error) else Ok(Read(Pack(Word4(d, p), items.value.value), items.value.pos))
  {
    hide ReadNumber, Word4, Word8, Pack;
    NumberRead(d, p);
    NumberRead(d, p + 4);
  }

  lemma Packed(elem: nat, items: seq<Value>)
    ensures var v := Pack(elem, items);
            if elem == 8 && (forall i :: 0 <= i < |items| ==> items[i].Str?) then
              v.StrArray? && |v.strings| == |items| && forall i :: 0 <= i < |items| ==> v.strings[i] == items[i].s
            else if elem == 6 && (forall i :: 0 <= i < |items| ==> items[i].F32?) then
              v.F32Array? && |v.floats| == |items| && forall i :: 0 <= i < |items| ==> v.floats[i] == items[i].bits
            else if elem == 5 && (forall i :: 0 <= i < |items| ==> items[i].I32?) then
              v.I32Array? && |v.ints| == |items| && forall i :: 0 <= i < |items| ==> v.ints[i] == items[i].i
            else v == AnyArray(items)
  {
  }

  // ----- the header and the alignment -----

  /** The bytes of a text. */
  function Ascii(s: string): (b: Bytes)
    requires forall i :: 0 <= i < |s| ==> s[i] < 128 as char
    ensures |b| == |s| && forall i :: 0 <= i < |s| ==> b[i] == s[i] as int
  {
    seq(|s|, i requires 0 <= i < |s| => s[i] as int)
  }

  /** A file starts with "GGUF", the version, and the numbers of tensors and metadata pairs. */
  lemma HeaderRead(d: Bytes)
    ensures |d| >= 4 && d[..4] != Ascii("GGUF") ==> Parse(d) == Err(BadMagic)
    ensures |d| >= 8 && d[..4] == Ascii("GGUF") && Word4(d, 4) != 2 && Word4(d, 4) != 3 ==> Parse(d) == Err(BadVersion)
    ensures Parse(d).Ok? ==>
              && |d| >= 24 && d[..4] == Ascii("GGUF") && Parse(d).value.version == Word4(d, 4)
              && Parse(d).value.tensorCount == Word8(d, 8) && Parse(d).value.kvCount == Word8(d, 16)
  {
    hide ReadNumber, ReadKVs, ReadTensors, SliceAll, Align, Alignment, Word8;
    NumberRead(d, 0);
    NumberRead(d, 4);
    NumberRead(d, 8);
    NumberRead(d, 16);
    if |d| >= 4 {
      Magic(d);
    }
  }

  lemma Magic(d: Bytes)
    requires |d| >= 4
    ensures Word4(d, 0) == GGUF_MAGIC <==> d[..4] == Ascii("GGUF")
  {
    var g := Ascii("GGUF");
    assert g[0] == 71 && g[1] == 71 && g[2] == 85 && g[3] == 70;
    assert d[..4] == [d[0], d[1], d[2], d[3]];
    if Word4(d, 0) == GGUF_MAGIC {
      assert d[0] == 71 && d[1] == 71 && d[2] == 85 && d[3] == 70;
    }
  }

  /** Without the key "general.alignment", or with a value there that is no unsigned number, the alignment is 32. */
  lemma AlignmentIs(meta: map<Bytes, Value>)
    ensures var key := Ascii("general.alignment");
            Alignment(meta) ==
            if key in meta && meta[key].U32? then meta[key].n
            else if key in meta && meta[key].U64? then meta[key].n
            else 32
  {
    assert Ascii("general.alignment") == ALIGNMENT_KEY;
  }

  /** A name stands for the last tensor of that name. */
  lemma {:induction false} IndexLast(table: seq<TensorInfo>, name: Bytes)
    ensures name in Index(table) <==> exists k :: 0 <= k < |table| && table[k].name == name
    ensures name in Index(table) ==>
              var k := Index(table)[name];
              k < |table| && table[k].name == name && forall j :: k < j < |table| ==> table[j].name != name
    decreases |table|
  {
    if table != [] {
      var front := table[..|table| - 1];
      IndexLast(front, name);
      assert table[|table| - 1].name == name ==> exists k :: 0 <= k < |table| && table[k].name == name;
      if k :| 0 <= k < |front| && front[k].name == name {
        assert table[k].name == name;
      }
    }
  }
}
