/** Decoding what was encoded. */
module RoundTrip {
  import opened Octets
  import opened ByteRunes
  import opened Bpe
  import opened Tokenizers
  import opened Encoding

  function Concat(texts: seq<Text>): Text {
    if texts == [] then [] else Concat(texts[..|texts| - 1]) + texts[|texts| - 1]
  }

  /** The pre-tokeniser loses nothing. */
  ghost predicate Partitions(pre: PreTokenizer) {
    forall t :: Concat(pre(t)) == t
  }

  /** Printable ASCII, without the space. */
  ghost predicate PrintableAscii(s: Sym) {
    forall i :: 0 <= i < |s| ==> 33 <= s[i] <= 126
  }

  /** A tokenizer as built from its tables, with printable special tokens. */
  ghost predicate Sound(tok: Tokenizer) {
    && IsTable(tok.byteToUnicode, tok.unicodeToByte)
    && (forall s :: s in tok.tokenToID ==>
          tok.tokenToID[s] < |tok.idToToken| && tok.idToToken[tok.tokenToID[s]] == s)
    && (forall s :: s in tok.specialTokens ==>
          s != [] && PrintableAscii(s) && s in tok.tokenToID && tok.specialTokens[s] == tok.tokenToID[s])
  }

  lemma BuiltIsSound(tok: Tokenizer, tokens: seq<Sym>, mergesList: seq<seq<Sym>>)
    requires Built(tok, tokens, mergesList)
    requires forall s :: s in tokens && SpecialName(s) ==> PrintableAscii(s)
    ensures Sound(tok) && NamesNonEmpty(tok) && DistinctRanks(tok.merges)
  {
    hide PrintableAscii, DistinctRanks, IsTable;
    MergesDistinct(mergesList);
  }

  // ----- symbols and their bytes -----

  /** Every rune of a symbol stands for a byte. */
  ghost predicate ByteSym(tok: Tokenizer, s: Sym) {
    forall i :: 0 <= i < |s| ==> s[i] in tok.unicodeToByte
  }

  lemma {:induction false} ByteSymLength(tok: Tokenizer, s: Sym)
    requires ByteSym(tok, s)
    ensures |RunesText(tok, s)| == |s|
    decreases |s|
  {
    if s != [] {
      ByteSymLength(tok, s[..|s| - 1]);
    }
  }

  lemma {:induction false} RunesTextAppend(tok: Tokenizer, a: Sym, b: Sym)
    ensures RunesText(tok, a + b) == RunesText(tok, a) + RunesText(tok, b)
    decreases |b|
  {
    hide RuneText;
    if b == [] {
      assert a + b == a;
    } else {
      RunesTextAppend(tok, a, b[..|b| - 1]);
      assert (a + b)[..|a + b| - 1] == a + b[..|b| - 1];
    }
  }

  /** The runes of some bytes lead back to the bytes. */
  lemma {:induction false} MappedBack(tok: Tokenizer, bytes: Text)
    requires Sound(tok)
    ensures ByteSym(tok, Mapped(tok, bytes)) && RunesText(tok, Mapped(tok, bytes)) == bytes
    decreases |bytes|
  {
    if bytes != [] {
      var front := bytes[..|bytes| - 1];
      MappedBack(tok, front);
      assert Mapped(tok, bytes)[..|bytes| - 1] == Mapped(tok, front);
    }
  }

  /** A printable name is its own text, whichever way it is written out. */
  lemma {:induction false} PrintableText(tok: Tokenizer, s: Sym)
    requires Sound(tok) && PrintableAscii(s)
    ensures Utf8All(s) == RunesText(tok, s)
    decreases |s|
  {
    if s != [] {
      PrintableText(tok, s[..|s| - 1]);
      var r := s[|s| - 1];
      assert Printable(r) && ByteRune(r) == r;
      assert tok.unicodeToByte[ByteRune(r)] == r;
    }
  }

  /** A known symbol decodes to its bytes, even one that coincides with a special token. */
  lemma SymbolText(tok: Tokenizer, s: Sym)
    requires Sound(tok) && s in tok.tokenToID
    ensures DecodeAll(tok, [tok.tokenToID[s]]) == RunesText(tok, s)
  {
    hide RunesText, Utf8All, IsTable, PrintableAscii;
    assert [tok.tokenToID[s]][..0] == [];
    if s in tok.specialTokens {
      PrintableText(tok, s);
    }
  }

  // ----- how decoding relates to the original -----

  /** `decoded` is the original if everything was known, and strictly shorter if something was not. */
  ghost predicate Fate(original: Text, decoded: Text, known: bool) {
    && (known ==> decoded == original)
    && (!known ==> |decoded| < |original|)
  }

  lemma FateAppend(a: Text, a': Text, k: bool, b: Text, b': Text, l: bool)
    requires Fate(a, a', k) && Fate(b, b', l)
    ensures Fate(a + b, a' + b', k && l)
  {
  }

  ghost predicate WordKnown(tok: Tokenizer, word: seq<Sym>) {
    forall i :: 0 <= i < |word| ==> word[i] in tok.tokenToID
  }

  ghost predicate ByteWord(tok: Tokenizer, word: seq<Sym>) {
    forall i :: 0 <= i < |word| ==> word[i] != [] && ByteSym(tok, word[i])
  }

  lemma {:induction false} WordFate(tok: Tokenizer, word: seq<Sym>)
    requires Sound(tok) && ByteWord(tok, word)
    ensures Fate(RunesText(tok, Flat(word)), DecodeAll(tok, KnownIds(tok, word)), WordKnown(tok, word))
    decreases |word|
  {
    hide Sound, RunesText, DecodeAll, ByteSym;
    if word == [] {
      WordNothing(tok);
    } else {
      var front, s := word[..|word| - 1], word[|word| - 1];
      WordFate(tok, front);
      assert word == front + [s];
      FlatAppend(front, [s]);
      assert Flat([s]) == s by { assert s + [] == s; }
      RunesTextAppend(tok, Flat(front), s);
      assert ByteSym(tok, s);
      ByteSymLength(tok, s);
      var last: seq<int> := if s in tok.tokenToID then [tok.tokenToID[s]] else [];
      if s in tok.tokenToID {
        SymbolText(tok, s);
      } else {
        DecodeNothing(tok);
      }
      DecodeAppend(tok, KnownIds(tok, front), last);
      FateAppend(RunesText(tok, Flat(front)), DecodeAll(tok, KnownIds(tok, front)), WordKnown(tok, front),
                 RunesText(tok, s), DecodeAll(tok, last), s in tok.tokenToID);
      assert WordKnown(tok, word) == (WordKnown(tok, front) && s in tok.tokenToID);
    }
  }

  lemma WordNothing(tok: Tokenizer)
    ensures Fate(RunesText(tok, Flat([])), DecodeAll(tok, KnownIds(tok, [])), WordKnown(tok, []))
  {
  }

  // ----- what merging does to symbols -----

  lemma {:induction false} SinglesFlat(token: seq<Rune>)
    ensures Flat(Singles(token)) == token
    decreases |token|
  {
    if token != [] {
      SinglesFlat(token[1..]);
      assert Singles(token)[1..] == Singles(token[1..]);
    }
  }

  /** A symbol that merging can produce: a single rune or the result of a merge. */
  ghost predicate Producible(merges: Merges, s: Sym) {
    |s| == 1 || exists p :: p in merges && s == p.0 + p.1
  }

  ghost predicate AllProducible(merges: Merges, word: seq<Sym>) {
    forall i :: 0 <= i < |word| ==> Producible(merges, word[i])
  }

  lemma {:induction false} MergeAllProducible(merges: Merges, word: seq<Sym>, a: Sym, b: Sym)
    requires AllProducible(merges, word) && (a, b) in merges
    ensures AllProducible(merges, MergeAll(word, a, b))
    decreases |word|
  {
    hide Producible;
    if |word| >= 2 && word[0] == a && word[1] == b {
      MergeAllProducible(merges, word[2..], a, b);
      MergedProducible(merges, a, b);
    } else if word != [] {
      MergeAllProducible(merges, word[1..], a, b);
    }
  }

  lemma MergedProducible(merges: Merges, a: Sym, b: Sym)
    requires (a, b) in merges
    ensures Producible(merges, a + b)
  {
    var p := (a, b);
    assert a + b == p.0 + p.1;
  }

  lemma {:induction false} BatchSymbols(merges: Merges, word: seq<Sym>)
    requires NonEmpty(word)
    ensures NonEmpty(Batch(merges, word))
    ensures AllProducible(merges, word) ==> AllProducible(merges, Batch(merges, word))
    decreases |word|
  {
    hide AllProducible, NonEmpty;
    var i := Best(merges, word);
    if i >= 0 {
      BestInside(merges, word, i);
      var (a, b) := PairAt(word, i);
      MergeAllShrinks(word, a, b, i);
      MergeAllNonEmpty(word, a, b);
      if AllProducible(merges, word) {
        MergeAllProducible(merges, word, a, b);
      }
      BatchSymbols(merges, MergeAll(word, a, b));
    }
  }

  /** The parts of a symbol made of byte runes are made of byte runes. */
  lemma {:induction false} FlatBytes(tok: Tokenizer, word: seq<Sym>)
    requires ByteSym(tok, Flat(word)) && NonEmpty(word)
    ensures ByteWord(tok, word)
    decreases |word|
  {
    if word != [] {
      var whole, rest := Flat(word), Flat(word[1..]);
      assert whole == word[0] + rest;
      forall i | 0 <= i < |rest|
        ensures rest[i] in tok.unicodeToByte
      {
        assert rest[i] == whole[|word[0]| + i];
      }
      forall i | 0 <= i < |word[0]|
        ensures word[0][i] in tok.unicodeToByte
      {
        assert word[0][i] == whole[i];
      }
      FlatBytes(tok, word[1..]);
    }
  }

  lemma PieceFate(tok: Tokenizer, piece: Text)
    requires Sound(tok)
    ensures Fate(piece, DecodeAll(tok, KnownIds(tok, PieceWord(tok, piece))), WordKnown(tok, PieceWord(tok, piece)))
  {
    hide *;
    var token := Mapped(tok, piece);
    MappedBack(tok, piece);
    SinglesFlat(token);
    SinglesNonEmpty(token);
    var word := Batch(tok.merges, Singles(token));
    PieceWordIs(tok, piece);
    BatchResult(tok.merges, Singles(token));
    BatchSymbols(tok.merges, Singles(token));
    FlatBytes(tok, word);
    WordFate(tok, word);
  }

  lemma PieceWordIs(tok: Tokenizer, piece: Text)
    ensures PieceWord(tok, piece) == Batch(tok.merges, Singles(Mapped(tok, piece)))
  {
    hide Batch, Singles, Mapped;
  }

  lemma SinglesNonEmpty(token: seq<Rune>)
    ensures NonEmpty(Singles(token))
  {
  }

  // ----- whole texts -----

  ghost predicate PiecesKnown(tok: Tokenizer, pieces: seq<Text>) {
    pieces != [] ==> PiecesKnown(tok, pieces[..|pieces| - 1]) && WordKnown(tok, PieceWord(tok, pieces[|pieces| - 1]))
  }

  ghost predicate SegmentKnown(tok: Tokenizer, pre: PreTokenizer, seg: Segment) {
    match seg
    case Special(_) => true
    case Chunk(c) => PiecesKnown(tok, pre(c))
  }

  /** Every symbol the text is cut and merged into is in the vocabulary. */
  ghost predicate AllKnown(tok: Tokenizer, pre: PreTokenizer, segs: seq<Segment>) {
    segs != [] ==> AllKnown(tok, pre, segs[..|segs| - 1]) && SegmentKnown(tok, pre, segs[|segs| - 1])
  }

  lemma {:induction false} PiecesFate(tok: Tokenizer, pieces: seq<Text>)
    requires Sound(tok)
    ensures Fate(Concat(pieces), DecodeAll(tok, PiecesIds(tok, pieces)), PiecesKnown(tok, pieces))
    decreases |pieces|
  {
    hide Sound, DecodeAll, KnownIds, PieceWord, WordKnown, Fate;
    if pieces == [] {
      DecodeNothing(tok);
      FateNothing();
    } else {
      var front, piece := pieces[..|pieces| - 1], pieces[|pieces| - 1];
      PiecesFate(tok, front);
      PieceFate(tok, piece);
      var ids := KnownIds(tok, PieceWord(tok, piece));
      DecodeAppend(tok, PiecesIds(tok, front), ids);
      FateAppend(Concat(front), DecodeAll(tok, PiecesIds(tok, front)), PiecesKnown(tok, front),
                 piece, DecodeAll(tok, ids), WordKnown(tok, PieceWord(tok, piece)));
    }
  }

  lemma FateNothing()
    ensures Fate([], [], true)
  {
  }

  function SegmentText(seg: Segment): Text {
    match seg
    case Special(s) => Utf8All(s)
    case Chunk(c) => c
  }

  function SegmentsText(segs: seq<Segment>): Text {
    if segs == [] then [] else SegmentsText(segs[..|segs| - 1]) + SegmentText(segs[|segs| - 1])
  }

  ghost predicate SpecialsIn(tok: Tokenizer, segs: seq<Segment>) {
    forall i :: 0 <= i < |segs| && segs[i].Special? ==> segs[i].s in tok.specialTokens
  }

  lemma SegmentFate(tok: Tokenizer, pre: PreTokenizer, seg: Segment)
    requires Sound(tok) && Partitions(pre) && (seg.Special? ==> seg.s in tok.specialTokens)
    ensures Fate(SegmentText(seg), DecodeAll(tok, SegmentIds(tok, pre, seg)), SegmentKnown(tok, pre, seg))
  {
    hide RunesText, Utf8All, IsTable, PrintableAscii, PiecesKnown, Concat, DecodeAll;
    match seg {
      case Special(s) =>
        SymbolText(tok, s);
        PrintableText(tok, s);
      case Chunk(c) =>
        PiecesFate(tok, pre(c));
    }
  }

  lemma {:induction false} SegmentsFate(tok: Tokenizer, pre: PreTokenizer, segs: seq<Segment>)
    requires Sound(tok) && Partitions(pre) && SpecialsIn(tok, segs)
    ensures Fate(SegmentsText(segs), DecodeAll(tok, SegmentsIds(tok, pre, segs)), AllKnown(tok, pre, segs))
    decreases |segs|
  {
    hide Sound, Partitions, DecodeAll, SegmentIds, SegmentText, SegmentKnown, Fate;
    if segs == [] {
      DecodeNothing(tok);
      FateNothing();
    } else {
      var front, seg := segs[..|segs| - 1], segs[|segs| - 1];
      SegmentsFate(tok, pre, front);
      SegmentFate(tok, pre, seg);
      DecodeAppend(tok, SegmentsIds(tok, pre, front), SegmentIds(tok, pre, seg));
      FateAppend(SegmentsText(front), DecodeAll(tok, SegmentsIds(tok, pre, front)), AllKnown(tok, pre, front),
                 SegmentText(seg), DecodeAll(tok, SegmentIds(tok, pre, seg)), SegmentKnown(tok, pre, seg));
    }
  }

  lemma {:induction false} SegmentsCons(seg: Segment, rest: seq<Segment>)
    ensures SegmentsText([seg] + rest) == SegmentText(seg) + SegmentsText(rest)
    decreases |rest|
  {
    hide SegmentText;
    if rest == [] {
      assert [seg] + rest == [seg] && [seg][..0] == [];
    } else {
      SegmentsCons(seg, rest[..|rest| - 1]);
      assert ([seg] + rest)[..|[seg] + rest| - 1] == [seg] + rest[..|rest| - 1];
    }
  }

  lemma SpecialsCons(tok: Tokenizer, seg: Segment, rest: seq<Segment>)
    requires SpecialsIn(tok, rest) && (seg.Special? ==> seg.s in tok.specialTokens)
    ensures SpecialsIn(tok, [seg] + rest)
  {
    var all := [seg] + rest;
    forall i | 0 <= i < |all| && all[i].Special?
      ensures all[i].s in tok.specialTokens
    {
      if i > 0 {
        assert all[i] == rest[i - 1];
      }
    }
  }

  /** Cutting at special tokens loses nothing. */
  lemma {:induction false} CutText(tok: Tokenizer, text: Text, segs: seq<Segment>)
    requires Cut(tok, text, segs)
    ensures SegmentsText(segs) == text && SpecialsIn(tok, segs)
    decreases |segs|
  {
    hide SegmentsText, NoSpecialBefore, Utf8All, SpecialsIn;
    CutTextNothing(tok);
    if text != [] {
      var first, rest := segs[0], segs[1..];
      assert segs == [first] + rest;
      if forall s, j: nat :: !SpecialAt(tok, text, s, j) {
        assert rest == [];
        SegmentsCons(first, rest);
        SpecialsCons(tok, first, rest);
      } else if first.Special? {
        CutText(tok, text[|Utf8All(first.s)|..], rest);
        AfterSpecial(tok, text, first.s, rest);
      } else {
        var next, tail := segs[1], segs[2..];
        CutText(tok, text[|first.text| + |Utf8All(next.s)|..], tail);
        assert rest == [next] + tail;
        AfterChunk(tok, text, first.text, next.s, tail);
      }
    }
  }

  lemma AfterSpecial(tok: Tokenizer, text: Text, s: Sym, rest: seq<Segment>)
    requires SpecialAt(tok, text, s, 0) && |Utf8All(s)| <= |text|
    requires SegmentsText(rest) == text[|Utf8All(s)|..] && SpecialsIn(tok, rest)
    ensures SegmentsText([Special(s)] + rest) == text && SpecialsIn(tok, [Special(s)] + rest)
  {
    hide SegmentsText, Utf8All, SpecialsIn;
    SegmentsCons(Special(s), rest);
    SpecialsCons(tok, Special(s), rest);
    CutOut(text, 0, Utf8All(s));
    assert text[..0] == [];
  }

  lemma AfterChunk(tok: Tokenizer, text: Text, c: Text, s: Sym, tail: seq<Segment>)
    requires |c| <= |text| && c == text[..|c|] && SpecialAt(tok, text, s, |c|)
    requires |c| + |Utf8All(s)| <= |text|
    requires SegmentsText(tail) == text[|c| + |Utf8All(s)|..] && SpecialsIn(tok, tail)
    ensures SegmentsText([Chunk(c)] + ([Special(s)] + tail)) == text
    ensures SpecialsIn(tok, [Chunk(c)] + ([Special(s)] + tail))
  {
    hide SegmentsText, Utf8All, SpecialsIn;
    SegmentsCons(Special(s), tail);
    SpecialsCons(tok, Special(s), tail);
    SegmentsCons(Chunk(c), [Special(s)] + tail);
    SpecialsCons(tok, Chunk(c), [Special(s)] + tail);
    CutOut(text, |c|, Utf8All(s));
  }

  lemma CutTextNothing(tok: Tokenizer)
    ensures SegmentsText([]) == [] && SpecialsIn(tok, [])
  {
  }

  lemma CutOut(text: Text, i: nat, t: Text)
    requires i <= |text| && t <= text[i..]
    ensures text == text[..i] + (t + text[i + |t|..])
  {
    assert text[i..][..|t|] == t;
  }

  /** Decoding an encoding gives back the text exactly when every symbol it was merged into is in the
      vocabulary, whichever special token won where several start at one place. */
  lemma RoundTripIff(tok: Tokenizer, pre: PreTokenizer, text: Text, segs: seq<Segment>)
    requires Sound(tok) && Partitions(pre) && Cut(tok, text, segs)
    ensures DecodeAll(tok, SegmentsIds(tok, pre, segs)) == text <==> AllKnown(tok, pre, segs)
  {
    hide Sound, Partitions, Cut, DecodeAll, SegmentsIds, AllKnown, SegmentsText;
    CutText(tok, text, segs);
    SegmentsFate(tok, pre, segs);
  }

  // ----- complete vocabularies -----

  /** The vocabulary holds every byte's rune and the result of every merge. */
  ghost predicate Complete(tok: Tokenizer) {
    && (forall b: Octet :: [ByteRune(b)] in tok.tokenToID)
    && (forall p :: p in tok.merges ==> p.0 + p.1 in tok.tokenToID)
  }

  lemma CompleteKnowsPiece(tok: Tokenizer, piece: Text)
    requires Sound(tok) && Complete(tok)
    ensures WordKnown(tok, PieceWord(tok, piece))
  {
    var token := Mapped(tok, piece);
    MappedBack(tok, piece);
    SinglesFlat(token);
    BatchResult(tok.merges, Singles(token));
    BatchSymbols(tok.merges, Singles(token));
    var word := PieceWord(tok, piece);
    FlatBytes(tok, word);
    forall i | 0 <= i < |word|
      ensures word[i] in tok.tokenToID
    {
      CompleteKnows(tok, word[i]);
    }
  }

  lemma CompleteKnows(tok: Tokenizer, s: Sym)
    requires Sound(tok) && Complete(tok) && Producible(tok.merges, s) && ByteSym(tok, s)
    ensures s in tok.tokenToID
  {
    if |s| == 1 {
      var b := tok.unicodeToByte[s[0]];
      assert s == [ByteRune(b)];
    }
  }

  lemma {:induction false} CompleteKnowsPieces(tok: Tokenizer, pieces: seq<Text>)
    requires Sound(tok) && Complete(tok)
    ensures PiecesKnown(tok, pieces)
    decreases |pieces|
  {
    hide Sound, Complete, WordKnown, PieceWord;
    if pieces != [] {
      CompleteKnowsPieces(tok, pieces[..|pieces| - 1]);
      CompleteKnowsPiece(tok, pieces[|pieces| - 1]);
    }
  }

  lemma {:induction false} CompleteKnowsAll(tok: Tokenizer, pre: PreTokenizer, segs: seq<Segment>)
    requires Sound(tok) && Complete(tok)
    ensures AllKnown(tok, pre, segs)
    decreases |segs|
  {
    hide Sound, Complete, PiecesKnown;
    if segs != [] {
      CompleteKnowsAll(tok, pre, segs[..|segs| - 1]);
      if segs[|segs| - 1].Chunk? {
        CompleteKnowsPieces(tok, pre(segs[|segs| - 1].text));
      }
    }
  }

  /** Encoding and decoding through the loops of the code returns every text unchanged. */
  method EncodeDecode(tok: Tokenizer, pre: PreTokenizer, text: Text) returns (back: Text)
    requires Sound(tok) && Complete(tok) && Partitions(pre)
    ensures back == text
  {
    hide IsTable, PrintableAscii, Complete, Partitions, Cut;
    var ids := Encode(tok, pre, text);
    ghost var segs :| Cut(tok, text, segs) && ids == SegmentsIds(tok, pre, segs);
    back := Decode(tok, ids);
    CompleteKnowsAll(tok, pre, segs);
    RoundTripIff(tok, pre, text, segs);
  }

  // ----- a vocabulary with a hole -----

  /** A printable name written out as one byte is that byte. */
  lemma OneByteName(s: Sym, b: Octet)
    requires s != [] && PrintableAscii(s) && |Utf8All(s)| <= 1 && Utf8All(s) <= [b]
    ensures s == [b] && Utf8All(s) == [b] && ByteRune(b) == b
  {
    var front, r := s[..|s| - 1], s[|s| - 1];
    assert 33 <= r <= 126 && Utf8(r) == [r];
    assert Utf8All(s) == Utf8All(front) + [r];
    assert front == [] by {
      if front != [] {
        Utf8NonEmpty(front);
      }
    }
    assert Utf8All(s) == [r] && s == [r];
  }

  /** A special token that starts in a one-byte text is that byte, so its rune is in the vocabulary. */
  lemma SpecialInByte(tok: Tokenizer, b: Octet, s: Sym, j: nat)
    requires Sound(tok) && SpecialAt(tok, [b], s, j)
    ensures j == 0 && s == [ByteRune(b)] && Utf8All(s) == [b] && s in tok.tokenToID
  {
    hide IsTable, ByteRune, PrintableAscii, Utf8All;
    Utf8NonEmpty(s);
    assert |[b][j..]| == 1 - j;
    assert j == 0 && [b][0..] == [b];
    OneByteName(s, b);
  }

  /** A one-byte text is cut into one segment. */
  lemma CutByte(tok: Tokenizer, b: Octet, segs: seq<Segment>)
    requires Sound(tok) && Cut(tok, [b], segs)
    ensures segs == [Chunk([b])] || (segs == [Special([ByteRune(b)])] && [ByteRune(b)] in tok.tokenToID)
  {
    hide Sound, SpecialAt, ByteRune, NoSpecialBefore, Utf8All;
    var text: Text := [b];
    if forall s, j: nat :: !SpecialAt(tok, text, s, j) {
    } else if segs[0].Special? {
      SpecialInByte(tok, b, segs[0].s, 0);
      assert text[|Utf8All(segs[0].s)|..] == [];
    } else {
      SpecialInByte(tok, b, segs[1].s, |segs[0].text|);
      assert false;
    }
  }

  lemma ByteWordKnown(tok: Tokenizer, b: Octet)
    requires Sound(tok)
    ensures WordKnown(tok, PieceWord(tok, []))
    ensures WordKnown(tok, PieceWord(tok, [b])) <==> [ByteRune(b)] in tok.tokenToID
  {
    var word: seq<Sym> := [[ByteRune(b)]];
    assert Singles(Mapped(tok, [b])) == word;
    assert WordKnown(tok, word) <==> word[0] in tok.tokenToID;
  }

  /** Pieces that join to at most one byte are known exactly if that byte's rune is. */
  lemma {:induction false} BytePieces(tok: Tokenizer, pieces: seq<Text>, b: Octet)
    requires Sound(tok) && (Concat(pieces) == [b] || Concat(pieces) == [])
    ensures PiecesKnown(tok, pieces) <==> (Concat(pieces) == [b] ==> [ByteRune(b)] in tok.tokenToID)
    decreases |pieces|
  {
    hide Sound, PieceWord, ByteRune, WordKnown;
    if pieces != [] {
      var front, piece := pieces[..|pieces| - 1], pieces[|pieces| - 1];
      ByteWordKnown(tok, b);
      assert Concat(pieces) == Concat(front) + piece;
      if piece == [] {
        assert Concat(front) == Concat(pieces);
      } else {
        assert piece == [b] && Concat(front) == [] by {
          assert Concat(pieces)[|Concat(front)|..] == piece;
        }
      }
      BytePieces(tok, front, b);
    }
  }

  /** A single byte comes back if and only if its rune is in the vocabulary. */
  lemma ByteBackIff(tok: Tokenizer, pre: PreTokenizer, b: Octet, segs: seq<Segment>)
    requires Sound(tok) && Partitions(pre) && Cut(tok, [b], segs)
    ensures DecodeAll(tok, SegmentsIds(tok, pre, segs)) == [b] <==> [ByteRune(b)] in tok.tokenToID
  {
    hide Sound, DecodeAll, SegmentsIds, ByteRune, Cut, PiecesKnown;
    RoundTripIff(tok, pre, [b], segs);
    CutByte(tok, b, segs);
    assert segs[..0] == [];
    assert AllKnown(tok, pre, segs) == SegmentKnown(tok, pre, segs[0]);
    BytePieces(tok, pre([b]), b);
  }

  /** A vocabulary of one special token: the tokenizer is built without complaint and loses the text "A". */
  method LosesText(pre: PreTokenizer) returns (back: Text)
    requires Partitions(pre)
    ensures back != [65]
  {
    hide IsTable, Cut, Partitions;
    var made := NewTokenizer([IM_END], []);
    var tok := made.value;
    assert SpecialName(IM_END) && IM_END in [IM_END];
    BuiltIsSound(tok, [IM_END], []);
    var ids := Encode(tok, pre, [65]);
    ghost var segs :| Cut(tok, [65], segs) && ids == SegmentsIds(tok, pre, segs);
    back := Decode(tok, ids);
    assert ByteRune(65) == 65 && [65] != IM_END;
    assert [65] !in tok.tokenToID;
    ByteBackIff(tok, pre, 65, segs);
  }
}
