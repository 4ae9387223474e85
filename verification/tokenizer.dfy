/** The byte-level tokenizer: special tokens, pre-tokenisation, merging, and back. */
module Tokenizers {
  import opened Octets
  import opened ByteRunes
  import opened Bpe

  type Text = seq<Octet>

  datatype Option<T> = None | Some(value: T)

  datatype Tokenizer = Tokenizer(
    tokenToID: map<Sym, nat>, idToToken: seq<Sym>, merges: Merges, specialTokens: map<Sym, nat>,
    byteToUnicode: map<Octet, Rune>, unicodeToByte: map<Rune, Octet>)

  const IM_START: Sym := [60, 124, 105, 109, 95, 115, 116, 97, 114, 116, 124, 62]          // <|im_start|>
  const IM_END: Sym := [60, 124, 105, 109, 95, 101, 110, 100, 124, 62]                     // <|im_end|>
  const END_OF_TEXT: Sym := [60, 124, 101, 110, 100, 111, 102, 116, 101, 120, 116, 124, 62] // <|endoftext|>

  /** Starts with "<|" and ends with "|>". */
  predicate SpecialName(s: Sym) {
    |s| >= 2 && s[0] == 60 && s[1] == 124 && s[|s| - 2] == 124 && s[|s| - 1] == 62
  }

  /** Names as texts: a special one is enclosed in "<|" and "|>". */
  lemma SpecialNameIs(s: Sym)
    ensures SpecialName(s) <==> |s| >= 2 && s[..2] == Codes("<|") && s[|s| - 2..] == Codes("|>")
    ensures IM_START == Codes("<|im_start|>") && IM_END == Codes("<|im_end|>") && END_OF_TEXT == Codes("<|endoftext|>")
    ensures SpecialName(IM_START) && SpecialName(IM_END) && SpecialName(END_OF_TEXT)
  {
    if |s| >= 2 {
      assert s[..2] == [s[0], s[1]] && s[|s| - 2..] == [s[|s| - 2], s[|s| - 1]];
      assert Codes("<|") == [60, 124] && Codes("|>") == [124, 62];
    }
  }

  function Codes(s: string): (r: Sym)
    ensures |r| == |s|
  {
    seq(|s|, i requires 0 <= i < |s| => s[i] as int)
  }

  // ----- construction -----

  /** The rank of a merge is its place in the list; a later line for the same pair replaces it. */
  function BuildMerges(list: seq<seq<Sym>>): (m: Merges)
    ensures forall p :: p in m ==> m[p] < |list| && list[m[p]] == [p.0, p.1]
  {
    if list == [] then map[]
    else
      var n := |list| - 1;
      var m := BuildMerges(list[..n]);
      if |list[n]| == 2 then m[(list[n][0], list[n][1]) := n] else m
  }

  /** A pair is in the table if some line lists it, with the place of the last such line as its rank. */
  lemma {:induction false} RankIsLast(list: seq<seq<Sym>>, a: Sym, b: Sym)
    ensures (a, b) in BuildMerges(list) <==> exists i :: 0 <= i < |list| && list[i] == [a, b]
    ensures (a, b) in BuildMerges(list) ==>
              forall i :: BuildMerges(list)[(a, b)] < i < |list| ==> list[i] != [a, b]
    decreases |list|
  {
    if list != [] {
      var n := |list| - 1;
      RankIsLast(list[..n], a, b);
      PairLine(list[n], a, b);
      assert list[n] == [a, b] ==> exists i :: 0 <= i < |list| && list[i] == [a, b];
      if i :| 0 <= i < n && list[..n][i] == [a, b] {
        assert list[i] == [a, b];
      }
    }
  }

  lemma PairLine(line: seq<Sym>, a: Sym, b: Sym)
    ensures line == [a, b] <==> |line| == 2 && line[0] == a && line[1] == b
  {
  }

  lemma MergesDistinct(list: seq<seq<Sym>>)
    ensures DistinctRanks(BuildMerges(list))
  {
    var m := BuildMerges(list);
    forall p, q | p in m && q in m && m[p] == m[q]
      ensures p == q
    {
      assert [p.0, p.1][0] == [q.0, q.1][0] && [p.0, p.1][1] == [q.0, q.1][1];
    }
  }

  /** `id` is the last place of `s`. */
  ghost predicate IsLast(tokens: seq<Sym>, s: Sym, id: nat) {
    id < |tokens| && tokens[id] == s && forall j :: id < j < |tokens| ==> tokens[j] != s
  }

  ghost predicate Built(tok: Tokenizer, tokens: seq<Sym>, mergesList: seq<seq<Sym>>) {
    && tok.idToToken == tokens
    && (forall s :: s in tok.tokenToID <==> s in tokens)
    && (forall s :: s in tok.tokenToID ==> IsLast(tokens, s, tok.tokenToID[s]))
    && (forall s :: s in tok.specialTokens <==> s in tokens && SpecialName(s))
    && (forall s :: s in tok.specialTokens ==> s in tok.tokenToID && tok.specialTokens[s] == tok.tokenToID[s])
    && tok.merges == BuildMerges(mergesList)
    && IsTable(tok.byteToUnicode, tok.unicodeToByte)
  }

  method IndexTokens(tokens: seq<Sym>) returns (tokenToID: map<Sym, nat>, special: map<Sym, nat>)
    ensures forall s :: s in tokenToID <==> s in tokens
    ensures forall s :: s in tokenToID ==> IsLast(tokens, s, tokenToID[s])
    ensures forall s :: s in special <==> s in tokens && SpecialName(s)
    ensures forall s :: s in special ==> s in tokenToID && special[s] == tokenToID[s]
  {
    hide SpecialName;
    tokenToID, special := map[], map[];
    for id := 0 to |tokens|
      invariant forall s :: s in tokenToID <==> s in tokens[..id]
      invariant forall s :: s in tokenToID ==> IsLast(tokens[..id], s, tokenToID[s])
      invariant forall s :: s in special <==> s in tokens[..id] && SpecialName(s)
      invariant forall s :: s in special ==> s in tokenToID && special[s] == tokenToID[s]
    {
      var s := tokens[id];
      assert tokens[..id + 1] == tokens[..id] + [s];
      tokenToID := tokenToID[s := id];
      if SpecialName(s) {
        special := special[s := id];
      }
    }
    assert tokens[..|tokens|] == tokens;
  }

  method IndexMerges(list: seq<seq<Sym>>) returns (m: Merges)
    ensures m == BuildMerges(list)
  {
    m := map[];
    for rank := 0 to |list|
      invariant m == BuildMerges(list[..rank])
    {
      var parts := list[rank];
      assert list[..rank + 1][..rank] == list[..rank];
      if |parts| == 2 {
        m := m[(parts[0], parts[1]) := rank];
      }
    }
    assert list[..|list|] == list;
  }

  /** Tokens and merge lines, the latter already split at spaces. */
  method NewTokenizer(tokens: seq<Sym>, mergesList: seq<seq<Sym>>) returns (r: Option<Tokenizer>)
    ensures r.None? <==> tokens == []
    ensures r.Some? ==> Built(r.value, tokens, mergesList)
  {
    if |tokens| == 0 {
      return None;
    }
    var b2u, u2b := InitByteEncodings();
    var tokenToID, special := IndexTokens(tokens);
    var names := [IM_START, IM_END, END_OF_TEXT];
    for i := 0 to |names|
      invariant forall s :: s in special <==> s in tokens && SpecialName(s)
      invariant forall s :: s in special ==> s in tokenToID && special[s] == tokenToID[s]
    {
      if names[i] in tokenToID {
        special := special[names[i] := tokenToID[names[i]]];
      }
    }
    var merges := IndexMerges(mergesList);
    return Some(Tokenizer(tokenToID, tokens, merges, special, b2u, u2b));
  }

  // ----- decoding -----

  function RuneText(tok: Tokenizer, r: Rune): Text {
    if r in tok.unicodeToByte then [tok.unicodeToByte[r]] else Utf8(r)
  }

  function RunesText(tok: Tokenizer, s: Sym): Text {
    if s == [] then [] else RunesText(tok, s[..|s| - 1]) + RuneText(tok, s[|s| - 1])
  }

  /** The text of one token; an id out of range has none. */
  function TokenText(tok: Tokenizer, id: int): Text {
    if id < 0 || id >= |tok.idToToken| then []
    else if tok.idToToken[id] in tok.specialTokens then Utf8All(tok.idToToken[id])
    else RunesText(tok, tok.idToToken[id])
  }

  function DecodeAll(tok: Tokenizer, ids: seq<int>): Text {
    if ids == [] then [] else DecodeAll(tok, ids[..|ids| - 1]) + TokenText(tok, ids[|ids| - 1])
  }

  /** Decoding with a builder and a byte buffer that is flushed before anything else is written. */
  method Decode(tok: Tokenizer, ids: seq<int>) returns (text: Text)
    ensures text == DecodeAll(tok, ids)
  {
    hide TokenText;
    var sb: Text := [];
    var byteBuf: Text := [];
    for k := 0 to |ids|
      invariant sb + byteBuf == DecodeAll(tok, ids[..k])
    {
      assert ids[..k + 1][..k] == ids[..k];
      sb, byteBuf := DecodeOne(tok, ids[k], sb, byteBuf);
    }
    assert ids[..|ids|] == ids;
    text := sb;
    if |byteBuf| > 0 {
      text := text + byteBuf;
    }
  }

  method DecodeOne(tok: Tokenizer, id: int, before: Text, held: Text) returns (sb: Text, byteBuf: Text)
    ensures sb + byteBuf == before + held + TokenText(tok, id)
  {
    hide Utf8, Utf8All;
    sb, byteBuf := before, held;
    if id < 0 || id >= |tok.idToToken| {
      return;
    }
    var s := tok.idToToken[id];
    if s in tok.specialTokens {
      if |byteBuf| > 0 {
        sb := sb + byteBuf;
        byteBuf := [];
      }
      sb := sb + Utf8All(s);
      return;
    }
    for i := 0 to |s|
      invariant sb + byteBuf == before + held + RunesText(tok, s[..i])
    {
      var r := s[i];
      assert s[..i + 1][..i] == s[..i];
      ghost var soFar := before + held;
      assert soFar + (RunesText(tok, s[..i]) + RuneText(tok, r)) == sb + byteBuf + RuneText(tok, r);
      if r in tok.unicodeToByte {
        byteBuf := byteBuf + [tok.unicodeToByte[r]];
      } else {
        if |byteBuf| > 0 {
          sb := sb + byteBuf;
          byteBuf := [];
        }
        sb := sb + Utf8(r);
      }
    }
    assert s[..|s|] == s;
  }

  /** Decoding is a homomorphism, so decoding a stream token by token is decoding it whole. */
  lemma {:induction false} DecodeAppend(tok: Tokenizer, a: seq<int>, b: seq<int>)
    ensures DecodeAll(tok, a + b) == DecodeAll(tok, a) + DecodeAll(tok, b)
    decreases |b|
  {
    hide TokenText;
    if b == [] {
      assert a + b == a;
    } else {
      var c := b[..|b| - 1];
      DecodeAppend(tok, a, c);
      assert (a + b)[..|a + b| - 1] == a + c;
      assert (a + b)[|a + b| - 1] == b[|b| - 1];
    }
  }

  /** The pieces a caller is streamed, joined. */
  function Streamed(tok: Tokenizer, ids: seq<int>): Text {
    if ids == [] then [] else Streamed(tok, ids[..|ids| - 1]) + DecodeAll(tok, [ids[|ids| - 1]])
  }

  lemma {:induction false} StreamingDecode(tok: Tokenizer, ids: seq<int>)
    ensures Streamed(tok, ids) == DecodeAll(tok, ids)
    decreases |ids|
  {
    hide DecodeAll;
    if ids == [] {
      DecodeNothing(tok);
    } else {
      var front, last := ids[..|ids| - 1], ids[|ids| - 1];
      StreamingDecode(tok, front);
      DecodeAppend(tok, front, [last]);
      assert front + [last] == ids;
    }
  }

  lemma DecodeNothing(tok: Tokenizer)
    ensures DecodeAll(tok, []) == []
  {
  }
}
