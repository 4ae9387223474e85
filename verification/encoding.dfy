/** Encoding, and what comes back when its result is decoded. The pre-tokeniser is any function
    from a text to its pieces. */
module Encoding {
  import opened Octets
  import opened ByteRunes
  import opened Bpe
  import opened Tokenizers

  type PreTokenizer = Text -> seq<Text>

  datatype Segment = Special(s: Sym) | Chunk(text: Text)

  // ----- one piece -----

  function Mapped(tok: Tokenizer, bytes: Text): (r: seq<Rune>)
    ensures |r| == |bytes|
  {
    seq(|bytes|, i requires 0 <= i < |bytes| =>
      if bytes[i] in tok.byteToUnicode then tok.byteToUnicode[bytes[i]] else bytes[i])
  }

  /** The ids of the symbols that are in the vocabulary; the others are dropped. */
  function KnownIds(tok: Tokenizer, word: seq<Sym>): seq<int> {
    if word == [] then []
    else KnownIds(tok, word[..|word| - 1]) +
         if word[|word| - 1] in tok.tokenToID then [tok.tokenToID[word[|word| - 1]]] else []
  }

  function PieceWord(tok: Tokenizer, piece: Text): seq<Sym> {
    Batch(tok.merges, Singles(Mapped(tok, piece)))
  }

  function PiecesIds(tok: Tokenizer, pieces: seq<Text>): seq<int> {
    if pieces == [] then []
    else PiecesIds(tok, pieces[..|pieces| - 1]) + KnownIds(tok, PieceWord(tok, pieces[|pieces| - 1]))
  }

  method BytesToUnicodeString(tok: Tokenizer, bytes: Text) returns (r: seq<Rune>)
    ensures r == Mapped(tok, bytes)
  {
    r := [];
    for i := 0 to |bytes|
      invariant r == Mapped(tok, bytes)[..i]
    {
      var b := bytes[i];
      if b in tok.byteToUnicode {
        r := r + [tok.byteToUnicode[b]];
      } else {
        r := r + [b];
      }
    }
  }

  method LookUp(tok: Tokenizer, word: seq<Sym>) returns (ids: seq<int>)
    ensures ids == KnownIds(tok, word)
  {
    ids := [];
    for j := 0 to |word|
      invariant ids == KnownIds(tok, word[..j])
    {
      assert word[..j + 1][..j] == word[..j];
      if word[j] in tok.tokenToID {
        ids := ids + [tok.tokenToID[word[j]]];
      }
    }
    assert word[..|word|] == word;
  }

  method EncodeTextChunk(tok: Tokenizer, pre: PreTokenizer, chunk: Text) returns (ids: seq<int>)
    ensures ids == PiecesIds(tok, pre(chunk))
  {
    hide Batch, KnownIds, Mapped;
    ids := [];
    var matches := pre(chunk);
    for k := 0 to |matches|
      invariant ids == PiecesIds(tok, matches[..k])
    {
      assert matches[..k + 1][..k] == matches[..k];
      var encodedBytes := BytesToUnicodeString(tok, matches[k]);
      var word := MergeLoop(tok.merges, encodedBytes);
      var found := LookUp(tok, word);
      ids := ids + found;
    }
    assert matches[..|matches|] == matches;
  }

  // ----- special tokens -----

  predicate At(hay: Text, needle: Text, i: nat) {
    i <= |hay| && needle <= hay[i..]
  }

  /** The first occurrence, or -1. */
  method Index(hay: Text, needle: Text) returns (i: int)
    ensures i >= 0 ==> At(hay, needle, i) && forall j: nat :: j < i ==> !At(hay, needle, j)
    ensures i < 0 ==> i == -1 && forall j: nat :: !At(hay, needle, j)
  {
    i := 0;
    while i <= |hay|
      invariant 0 <= i <= |hay| + 1
      invariant forall j: nat :: j < i ==> !At(hay, needle, j)
    {
      if needle <= hay[i..] {
        return;
      }
      i := i + 1;
    }
    return -1;
  }

  ghost predicate SpecialAt(tok: Tokenizer, text: Text, s: Sym, i: nat) {
    s in tok.specialTokens && At(text, Utf8All(s), i)
  }

  ghost predicate NoSpecialBefore(tok: Tokenizer, text: Text, n: nat) {
    forall s, j: nat :: j < n ==> !SpecialAt(tok, text, s, j)
  }

  /** Some special token that occurs earliest; which one when several start there is left to the
      order in which the table happens to be walked. */
  method FindSpecial(tok: Tokenizer, remainder: Text) returns (earliestIdx: int, earliestSpecial: Sym)
    ensures earliestIdx >= 0 ==> SpecialAt(tok, remainder, earliestSpecial, earliestIdx)
                                 && NoSpecialBefore(tok, remainder, earliestIdx)
    ensures earliestIdx < 0 ==> earliestIdx == -1 && forall s, j: nat :: !SpecialAt(tok, remainder, s, j)
  {
    hide Utf8All, At;
    earliestIdx, earliestSpecial := -1, [];
    var left := tok.specialTokens.Keys;
    while left != {}
      invariant left <= tok.specialTokens.Keys
      invariant earliestIdx >= 0 ==> SpecialAt(tok, remainder, earliestSpecial, earliestIdx)
      invariant earliestIdx >= 0 ==> forall s, j: nat :: s !in left && j < earliestIdx ==> !SpecialAt(tok, remainder, s, j)
      invariant earliestIdx < 0 ==> earliestIdx == -1 && forall s, j: nat :: s !in left ==> !SpecialAt(tok, remainder, s, j)
      decreases |left|
    {
      var st :| st in left;
      var idx := Index(remainder, Utf8All(st));
      if idx != -1 && (earliestIdx == -1 || idx < earliestIdx) {
        earliestIdx := idx;
        earliestSpecial := st;
      }
      left := left - {st};
    }
  }

  /** `segs` cuts `text` at special tokens, each time at the earliest one. */
  ghost predicate Cut(tok: Tokenizer, text: Text, segs: seq<Segment>)
    decreases |segs|
  {
    if text == [] then segs == []
    else if (forall s, j: nat :: !SpecialAt(tok, text, s, j)) then segs == [Chunk(text)]
    else if segs == [] then false
    else
      match segs[0]
      case Special(s) =>
        SpecialAt(tok, text, s, 0) && Cut(tok, text[|Utf8All(s)|..], segs[1..])
      case Chunk(c) =>
        && 0 < |c| <= |text| && c == text[..|c|] && NoSpecialBefore(tok, text, |c|)
        && |segs| > 1 && segs[1].Special? && SpecialAt(tok, text, segs[1].s, |c|)
        && Cut(tok, text[|c| + |Utf8All(segs[1].s)|..], segs[2..])
  }

  function SegmentIds(tok: Tokenizer, pre: PreTokenizer, seg: Segment): seq<int> {
    match seg
    case Special(s) => if s in tok.specialTokens then [tok.specialTokens[s]] else []
    case Chunk(c) => PiecesIds(tok, pre(c))
  }

  function SegmentsIds(tok: Tokenizer, pre: PreTokenizer, segs: seq<Segment>): seq<int> {
    if segs == [] then [] else SegmentsIds(tok, pre, segs[..|segs| - 1]) + SegmentIds(tok, pre, segs[|segs| - 1])
  }

  ghost predicate NamesNonEmpty(tok: Tokenizer) {
    forall s :: s in tok.specialTokens ==> s != []
  }

  lemma Utf8NonEmpty(s: Sym)
    requires s != []
    ensures Utf8All(s) != []
  {
  }

  /** What is still to be cut decides the rest of the cutting. */
  ghost predicate Prefixes(tok: Tokenizer, text: Text, segs: seq<Segment>, remainder: Text) {
    forall tail :: Cut(tok, remainder, tail) ==> Cut(tok, text, segs + tail)
  }

  /** The ids belong to some cutting of the text at its earliest special tokens. */
  ghost predicate IsEncoding(tok: Tokenizer, pre: PreTokenizer, text: Text, ids: seq<int>) {
    exists segs :: Cut(tok, text, segs) && ids == SegmentsIds(tok, pre, segs)
  }

  method Encode(tok: Tokenizer, pre: PreTokenizer, text: Text) returns (ids: seq<int>)
    requires NamesNonEmpty(tok)
    ensures IsEncoding(tok, pre, text, ids)
  {
    hide Cut, SpecialAt, Utf8All, Pieces, PiecesIds, SegmentsIds;
    SegmentsNone(tok, pre);
    ids := [];
    ghost var segs: seq<Segment> := [];
    CutNothing(tok);
    if text == [] {
      return;
    }
    var remainder := text;
    PrefixesStart(tok, text);
    while |remainder| > 0
      invariant Prefixes(tok, text, segs, remainder)
      invariant ids == SegmentsIds(tok, pre, segs)
      decreases |remainder|
    {
      var earliestIdx, earliestSpecial := FindSpecial(tok, remainder);
      ghost var before, was := segs, remainder;
      if earliestIdx == -1 {
        var last := EncodeTextChunk(tok, pre, remainder);
        ids := ids + last;
        segs := segs + [Chunk(remainder)];
        SegmentsSnoc(tok, pre, before, Chunk(remainder));
        CutRest(tok, remainder);
        return;
      }
      SpecialFits(tok, remainder, earliestSpecial, earliestIdx);
      if earliestIdx > 0 {
        var front := EncodeTextChunk(tok, pre, remainder[..earliestIdx]);
        ids := ids + front;
      }
      ids := ids + [tok.specialTokens[earliestSpecial]];
      segs := segs + Pieces(was, earliestIdx, earliestSpecial);
      remainder := remainder[earliestIdx + |Utf8All(earliestSpecial)|..];
      PiecesSnoc(tok, pre, before, was, earliestIdx, earliestSpecial);
      PrefixesStep(tok, text, before, was, earliestIdx, earliestSpecial);
    }
    assert segs + [] == segs;
  }

  lemma CutNothing(tok: Tokenizer)
    ensures Cut(tok, [], [])
  {
  }

  lemma CutRest(tok: Tokenizer, text: Text)
    requires text != [] && forall s, j: nat :: !SpecialAt(tok, text, s, j)
    ensures Cut(tok, text, [Chunk(text)])
  {
    hide SpecialAt;
  }

  lemma PrefixesStart(tok: Tokenizer, text: Text)
    ensures Prefixes(tok, text, [], text)
  {
    hide Cut;
    forall tail | Cut(tok, text, tail)
      ensures Cut(tok, text, [] + tail)
    {
      assert [] + tail == tail;
    }
  }

  lemma SpecialFits(tok: Tokenizer, text: Text, s: Sym, i: nat)
    requires NamesNonEmpty(tok) && SpecialAt(tok, text, s, i)
    ensures s in tok.specialTokens && Utf8All(s) != [] && i + |Utf8All(s)| <= |text|
  {
    Utf8NonEmpty(s);
  }

  function Pieces(text: Text, i: nat, s: Sym): seq<Segment>
    requires i <= |text|
  {
    if i > 0 then [Chunk(text[..i]), Special(s)] else [Special(s)]
  }

  lemma PrefixesStep(tok: Tokenizer, text: Text, segs: seq<Segment>, remainder: Text, i: nat, s: Sym)
    requires Prefixes(tok, text, segs, remainder) && i + |Utf8All(s)| <= |remainder| && remainder != []
    requires SpecialAt(tok, remainder, s, i) && NoSpecialBefore(tok, remainder, i)
    ensures Prefixes(tok, text, segs + Pieces(remainder, i, s), remainder[i + |Utf8All(s)|..])
  {
    hide Cut, SpecialAt, Utf8All;
    var pieces, rest := Pieces(remainder, i, s), remainder[i + |Utf8All(s)|..];
    forall tail | Cut(tok, rest, tail)
      ensures Cut(tok, text, segs + pieces + tail)
    {
      CutStep(tok, remainder, i, s, tail);
      assert segs + pieces + tail == segs + (pieces + tail);
    }
  }

  lemma CutStep(tok: Tokenizer, text: Text, i: nat, s: Sym, tail: seq<Segment>)
    requires i + |Utf8All(s)| <= |text| && text != []
    requires SpecialAt(tok, text, s, i) && NoSpecialBefore(tok, text, i)
    requires Cut(tok, text[i + |Utf8All(s)|..], tail)
    ensures Cut(tok, text, Pieces(text, i, s) + tail)
  {
    hide SpecialAt, Utf8All;
    var all := Pieces(text, i, s) + tail;
    if i > 0 {
      assert all[2..] == tail;
    } else {
      assert all[1..] == tail;
    }
  }

  lemma SegmentsSnoc(tok: Tokenizer, pre: PreTokenizer, segs: seq<Segment>, seg: Segment)
    ensures SegmentsIds(tok, pre, segs + [seg]) == SegmentsIds(tok, pre, segs) + SegmentIds(tok, pre, seg)
  {
    assert (segs + [seg])[..|segs + [seg]| - 1] == segs;
  }

  lemma SegmentsNone(tok: Tokenizer, pre: PreTokenizer)
    ensures SegmentsIds(tok, pre, []) == []
  {
  }

  lemma PiecesSnoc(tok: Tokenizer, pre: PreTokenizer, segs: seq<Segment>, text: Text, i: nat, s: Sym)
    requires i <= |text| && s in tok.specialTokens
    ensures SegmentsIds(tok, pre, segs + Pieces(text, i, s)) ==
            SegmentsIds(tok, pre, segs) + (if i > 0 then PiecesIds(tok, pre(text[..i])) else []) + [tok.specialTokens[s]]
  {
    hide PiecesIds, SegmentsIds;
    if i > 0 {
      SegmentsSnoc(tok, pre, segs, Chunk(text[..i]));
      SegmentsSnoc(tok, pre, segs + [Chunk(text[..i])], Special(s));
      assert segs + Pieces(text, i, s) == segs + [Chunk(text[..i])] + [Special(s)];
    } else {
      SegmentsSnoc(tok, pre, segs, Special(s));
    }
  }
}
