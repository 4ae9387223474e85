/** What ingestion and generation do to the token history, as functions of that history alone. */
module Generation {
  import opened Float32
  import opened KVCaches
  import opened Transformer

  const WINDOW: nat := 64

  datatype Option<T> = None | Some(value: T)

  datatype Tokenizer = Tokenizer(imEnd: int, eos: int, encode: string -> seq<int>, decode: seq<int> -> string)

  /** A callback sees every piece so far, so it stands for any stateful callback. */
  type Callback = Option<seq<string> -> bool>

  // ----- ingestion -----

  function Min(a: int, b: int): int {
    if a <= b then a else b
  }

  /** The position a call starts writing at: behind the cursor it rewinds, ahead of it it is clamped. */
  function StartAt(ids: seq<int>, pos: int): (p: nat)
    ensures p <= |ids|
  {
    if pos < 0 then 0 else Min(pos, |ids|)
  }

  function Ingested(max: nat, ids: seq<int>, pos: int, tokens: seq<int>): (r: seq<int>)
    requires |ids| <= max
    ensures |r| <= max
  {
    if tokens == [] then ids
    else
      var p := StartAt(ids, pos);
      ids[..p] + tokens[..Min(|tokens|, max - p)]
  }

  /** From `pos`, or from the start or the end if it is outside the history, the tokens replace what was there, as far
      as the capacity reaches. */
  lemma IngestedIs(max: nat, ids: seq<int>, pos: int, tokens: seq<int>)
    requires |ids| <= max && tokens != []
    ensures var p := if pos < 0 then 0 else if pos > |ids| then |ids| else pos;
            var all := ids[..p] + tokens;
            Ingested(max, ids, pos, tokens) == if |all| <= max then all else all[..max]
  {
    var p := StartAt(ids, pos);
    var all := ids[..p] + tokens;
    if |all| <= max {
      assert tokens[..|tokens|] == tokens;
    } else {
      assert all[..max] == ids[..p] + tokens[..max - p];
    }
  }

  /** Ingesting in two parts leaves the history one call leaves, also where the cache fills up. */
  lemma SplitIngestion(max: nat, ids: seq<int>, pos: nat, a: seq<int>, b: seq<int>)
    requires |ids| <= max && a != [] && b != []
    ensures Ingested(max, Ingested(max, ids, pos, a), pos + |a|, b) == Ingested(max, ids, pos, a + b)
  {
    var p := StartAt(ids, pos);
    if p + |a| <= max {
      SplitFits(max, ids, pos, p, a, b);
    } else {
      SplitFills(max, ids, pos, p, a, b);
    }
  }

  lemma SplitFits(max: nat, ids: seq<int>, pos: nat, p: nat, a: seq<int>, b: seq<int>)
    requires |ids| <= max && a != [] && b != [] && p == StartAt(ids, pos) && p + |a| <= max
    ensures Ingested(max, Ingested(max, ids, pos, a), pos + |a|, b) == Ingested(max, ids, pos, a + b)
  {
    var first := ids[..p] + a;
    assert a[..|a|] == a && first[..|first|] == first;
    assert Ingested(max, ids, pos, a) == first;
    assert StartAt(first, pos + |a|) == |first|;
    var n := Min(|b|, max - |first|);
    assert (a + b)[..|a| + n] == a + b[..n];
    assert first + b[..n] == ids[..p] + (a + b[..n]);
  }

  lemma SplitFills(max: nat, ids: seq<int>, pos: nat, p: nat, a: seq<int>, b: seq<int>)
    requires |ids| <= max && a != [] && b != [] && p == StartAt(ids, pos) && p + |a| > max
    ensures Ingested(max, Ingested(max, ids, pos, a), pos + |a|, b) == Ingested(max, ids, pos, a + b)
  {
    var first := Ingested(max, ids, pos, a);
    assert |first| == max && StartAt(first, pos + |a|) == max;
    assert first[..max] + b[..0] == first;
    assert (a + b)[..max - p] == a[..max - p];
  }

  // ----- choosing a token -----

  predicate IsEnd(tok: Tokenizer, id: int) {
    id == tok.imEnd || id == tok.eos
  }

  const PENALTY: F32 := Const(1.15)

  /** `x > y`. */
  predicate Greater(m: Model, x: F32, y: F32) {
    m.order(x) > m.order(y)
  }

  function Decay(m: Model, x: F32): F32 {
    if Greater(m, x, ZERO) then Div(x, PENALTY) else Mul(x, PENALTY)
  }

  function PenaliseOne(m: Model, tok: Tokenizer, logits: Vec, id: int): (r: Vec)
    ensures |r| == |logits|
  {
    if 0 <= id < |logits| && !IsEnd(tok, id) then logits[id := Decay(m, logits[id])] else logits
  }

  /** The penalty, token by token, for the history from `from` up to `n`. */
  function Penalise(m: Model, tok: Tokenizer, logits: Vec, ids: seq<int>, from: nat, n: nat): (r: Vec)
    requires from <= n <= |ids|
    ensures |r| == |logits|
    decreases n
  {
    if n == from then logits else PenaliseOne(m, tok, Penalise(m, tok, logits, ids, from, n - 1), ids[n - 1])
  }

  lemma PenaliseStep(m: Model, tok: Tokenizer, logits: Vec, ids: seq<int>, from: nat, n: nat)
    requires from <= n < |ids|
    ensures Penalise(m, tok, logits, ids, from, n + 1) == PenaliseOne(m, tok, Penalise(m, tok, logits, ids, from, n), ids[n])
  {
  }

  lemma PenaliseNone(m: Model, tok: Tokenizer, logits: Vec, ids: seq<int>, from: nat)
    requires from <= |ids|
    ensures Penalise(m, tok, logits, ids, from, from) == logits
  {
  }

  function DecayTimes(m: Model, x: F32, k: nat): F32 {
    if k == 0 then x else Decay(m, DecayTimes(m, x, k - 1))
  }

  function Count(ids: seq<int>, from: nat, n: nat, id: int): nat
    requires from <= n <= |ids|
    decreases n
  {
    if n == from then 0 else Count(ids, from, n - 1, id) + if ids[n - 1] == id then 1 else 0
  }

  /** Each logit decays once per occurrence of its token in the window, end tokens never. */
  lemma {:induction false} PenaltyByCount(m: Model, tok: Tokenizer, logits: Vec, ids: seq<int>, from: nat, n: nat, id: nat)
    requires from <= n <= |ids| && id < |logits|
    ensures Penalise(m, tok, logits, ids, from, n)[id] ==
            if IsEnd(tok, id) then logits[id] else DecayTimes(m, logits[id], Count(ids, from, n, id))
    decreases n
  {
    if n > from {
      PenaltyByCount(m, tok, logits, ids, from, n - 1, id);
    }
  }

  /** The comparison with zero is that of the values read as reals. */
  ghost predicate SignsRead(m: Model, rd: Reading) {
    forall x :: Greater(m, x, ZERO) <==> Eval(x, rd) > 0.0
  }

  /** The penalty never raises a logit and never changes which side of zero it is on. */
  lemma {:induction false} DecayLowers(m: Model, x: F32, k: nat, rd: Reading)
    requires SignsRead(m, rd)
    ensures Eval(DecayTimes(m, x, k), rd) <= Eval(x, rd)
    ensures Eval(DecayTimes(m, x, k), rd) > 0.0 <==> Eval(x, rd) > 0.0
  {
    if k > 0 {
      DecayLowers(m, x, k - 1, rd);
      var y := DecayTimes(m, x, k - 1);
      assert Greater(m, y, ZERO) <==> Eval(y, rd) > 0.0;
      assert Eval(Div(y, PENALTY), rd) == Eval(y, rd) / 1.15;
      assert Eval(Mul(y, PENALTY), rd) == Eval(y, rd) * 1.15;
    }
  }

  /** The least index with the greatest value among the first `n`. */
  function ArgMax(m: Model, logits: Vec, n: nat): (r: nat)
    requires 0 < n <= |logits|
    ensures r < n
    ensures forall j :: 0 <= j < n ==> !Greater(m, logits[j], logits[r])
    ensures forall j :: 0 <= j < r ==> Greater(m, logits[r], logits[j])
  {
    if n == 1 then 0
    else
      var r := ArgMax(m, logits, n - 1);
      if Greater(m, logits[n - 1], logits[r]) then n - 1 else r
  }

  function WindowStart(n: nat): (s: nat)
    ensures s <= n && n - s <= WINDOW
  {
    if n - WINDOW < 0 then 0 else n - WINDOW
  }

  /** The greedy choice after a history. */
  ghost function NextToken(m: Model, tok: Tokenizer, ids: seq<int>): (r: nat)
    requires WellFormed(m) && ids != []
    ensures r < m.vocabSize
  {
    ArgMax(m, Penalise(m, tok, m.logits(Final(m, ids)), ids, WindowStart(|ids|), |ids|), m.vocabSize)
  }

  lemma {:induction false} CountIsMultiset(ids: seq<int>, from: nat, n: nat, id: int)
    requires from <= n <= |ids|
    ensures Count(ids, from, n, id) == multiset(ids[from..n])[id]
    decreases n
  {
    if n > from {
      CountIsMultiset(ids, from, n - 1, id);
      assert ids[from..n] == ids[from..n - 1] + [ids[n - 1]];
    }
  }

  /** Before a token is chosen each logit, but for the two end tokens', decays once per occurrence of its token among
      the last 64 tokens, or among all of them while there are fewer. */
  lemma RecentPenalty(m: Model, tok: Tokenizer, logits: Vec, ids: seq<int>, id: nat)
    requires id < |logits|
    ensures var recent := if |ids| <= 64 then ids else ids[|ids| - 64..];
            Penalise(m, tok, logits, ids, WindowStart(|ids|), |ids|)[id] ==
            if id == tok.imEnd || id == tok.eos then logits[id] else DecayTimes(m, logits[id], multiset(recent)[id])
  {
    var from := WindowStart(|ids|);
    PenaltyByCount(m, tok, logits, ids, from, |ids|, id);
    CountIsMultiset(ids, from, |ids|, id);
    assert ids[from..|ids|] == if |ids| <= 64 then ids else ids[|ids| - 64..];
  }

  lemma AllRecent(m: Model, tok: Tokenizer, logits: Vec, ids: seq<int>, after: Vec)
    requires after == Penalise(m, tok, logits, ids, WindowStart(|ids|), |ids|)
    ensures |after| == |logits|
    ensures var recent := if |ids| <= 64 then ids else ids[|ids| - 64..];
            forall id :: 0 <= id < |after| ==>
              after[id] == if id == tok.imEnd || id == tok.eos then logits[id] else DecayTimes(m, logits[id], multiset(recent)[id])
  {
    hide Penalise, DecayTimes, WindowStart;
    forall id | 0 <= id < |after|
      ensures var recent := if |ids| <= 64 then ids else ids[|ids| - 64..];
              after[id] == if id == tok.imEnd || id == tok.eos then logits[id] else DecayTimes(m, logits[id], multiset(recent)[id])
    {
      RecentPenalty(m, tok, logits, ids, id);
    }
  }

  /** The next token is the least one whose logit, so decayed, is the greatest. */
  lemma NextIsGreatest(m: Model, tok: Tokenizer, ids: seq<int>, decayed: Vec)
    requires WellFormed(m) && ids != [] && |decayed| == m.vocabSize
    requires var recent := if |ids| <= 64 then ids else ids[|ids| - 64..];
             forall id :: 0 <= id < m.vocabSize ==>
               decayed[id] == if id == tok.imEnd || id == tok.eos then m.logits(Final(m, ids))[id]
                              else DecayTimes(m, m.logits(Final(m, ids))[id], multiset(recent)[id])
    ensures var r := NextToken(m, tok, ids);
            && (forall j :: 0 <= j < m.vocabSize ==> m.order(decayed[j]) <= m.order(decayed[r]))
            && (forall j :: 0 <= j < r ==> m.order(decayed[j]) < m.order(decayed[r]))
  {
    hide Penalise, DecayTimes, Final, WindowStart;
    var logits := m.logits(Final(m, ids));
    var after := Penalise(m, tok, logits, ids, WindowStart(|ids|), |ids|);
    forall id | 0 <= id < m.vocabSize
      ensures after[id] == decayed[id]
    {
      RecentPenalty(m, tok, logits, ids, id);
    }
    assert after == decayed;
  }

  function Power(b: real, k: nat): (p: real)
    requires b > 0.0
    ensures p > 0.0
  {
    if k == 0 then 1.0 else b * Power(b, k - 1)
  }

  lemma EvalDecay(m: Model, y: F32, rd: Reading)
    requires forall z :: m.order(z) > m.order(OfInt(0)) <==> Eval(z, rd) > 0.0
    ensures Eval(Decay(m, y), rd) == if Eval(y, rd) > 0.0 then Eval(y, rd) / 1.15 else Eval(y, rd) * 1.15
  {
    assert m.order(y) > m.order(ZERO) <==> Eval(y, rd) > 0.0;
  }

  /** Over the reals `k` decays divide a positive logit by 1.15 to the power `k`, and multiply any other by it. */
  lemma {:induction false} DecayedValue(m: Model, x: F32, k: nat, rd: Reading)
    requires forall y :: m.order(y) > m.order(OfInt(0)) <==> Eval(y, rd) > 0.0
    ensures Eval(DecayTimes(m, x, k), rd) ==
            if Eval(x, rd) > 0.0 then Eval(x, rd) / Power(1.15, k) else Eval(x, rd) * Power(1.15, k)
    decreases k
  {
    hide Decay, Eval;
    if k > 0 {
      DecayedValue(m, x, k - 1, rd);
      EvalDecay(m, DecayTimes(m, x, k - 1), rd);
      DecayOnce(Eval(x, rd), Power(1.15, k - 1));
    }
  }

  lemma DecayOnce(v: real, p: real)
    requires p > 0.0
    ensures 1.15 * p > 0.0 && v / p / 1.15 == v / (1.15 * p) && v * p * 1.15 == v * (1.15 * p)
    ensures (v / p > 0.0 <==> v > 0.0) && (v * p > 0.0 <==> v > 0.0)
  {
    var q := v / p;
    assert q * p == v;
    var r := q / 1.15;
    assert r * 1.15 == q;
    assert r * (1.15 * p) == v;
  }

  // ----- a reply -----

  datatype Stop = Exhausted | EndToken | CallbackStop | StopString

  datatype Reply = Reply(pieces: seq<string>, ids: seq<int>, stop: Stop)

  function Join(pieces: seq<string>): string {
    if pieces == [] then "" else Join(pieces[..|pieces| - 1]) + pieces[|pieces| - 1]
  }

  predicate Contains(hay: string, needle: string) {
    exists i :: 0 <= i <= |hay| && needle <= hay[i..]
  }

  predicate Stopped(text: string, stops: seq<string>) {
    exists k :: 0 <= k < |stops| && Contains(text, stops[k])
  }

  /** A text is stopped by a stop string that occurs in it, anywhere. */
  lemma StoppedIff(text: string, stops: seq<string>)
    ensures Stopped(text, stops) <==> exists k, a, b: string :: 0 <= k < |stops| && text == a + stops[k] + b
  {
    if Stopped(text, stops) {
      var k :| 0 <= k < |stops| && Contains(text, stops[k]);
      var i :| 0 <= i <= |text| && stops[k] <= text[i..];
      assert text == text[..i] + stops[k] + text[i + |stops[k]|..];
    }
    if k, a, b: string :| 0 <= k < |stops| && text == a + stops[k] + b {
      assert text[|a|..] == stops[k] + b;
      assert stops[k] <= text[|a|..];
      assert Contains(text, stops[k]);
    }
  }

  lemma {:induction false} JoinAppend(a: seq<string>, b: seq<string>)
    ensures Join(a + b) == Join(a) + Join(b)
    ensures |b| == 1 ==> Join(b) == b[0]
    decreases |b|
  {
    if b == [] {
      assert a + b == a;
    } else {
      var c := b[..|b| - 1];
      JoinAppend(a, c);
      assert (a + b)[..|a + b| - 1] == a + c;
    }
  }

  predicate Continues(onToken: Callback, pieces: seq<string>) {
    onToken.Some? ==> onToken.value(pieces)
  }

  /** The reply to a history, within a budget of tokens and the capacity of the cache. */
  ghost function ReplyTo(m: Model, tok: Tokenizer, max: nat, ids: seq<int>, budget: int, pieces: seq<string>,
                         stops: seq<string>, onToken: Callback): (r: Reply)
    requires WellFormed(m) && |ids| <= max && (budget > 0 && max > 0 ==> ids != [])
    ensures |r.ids| <= max
    decreases budget
  {
    if budget <= 0 || |ids| >= max then Reply(pieces, ids, Exhausted)
    else
      var best := NextToken(m, tok, ids);
      if IsEnd(tok, best) then Reply(pieces, ids + [best], EndToken)
      else
        var more := pieces + [tok.decode([best])];
        if !Continues(onToken, more) then Reply(more, ids + [best], CallbackStop)
        else if Stopped(Join(more), stops) then Reply(more, ids, StopString)
        else ReplyTo(m, tok, max, ids + [best], budget - 1, more, stops, onToken)
  }

  function Decodes(tok: Tokenizer, ids: seq<int>): (r: seq<string>)
    ensures |r| == |ids|
  {
    seq(|ids|, i requires 0 <= i < |ids| => tok.decode([ids[i]]))
  }

  /** Which tokens end up in the cache: those whose decodings form the text, plus the end token
      if there was one, minus the last one exactly on the stop-string exit. */
  ghost predicate Accounted(m: Model, tok: Tokenizer, ids: seq<int>, pieces: seq<string>, r: Reply) {
    && ids <= r.ids
    && var added := r.ids[|ids|..];
       match r.stop
       case Exhausted => r.pieces == pieces + Decodes(tok, added)
       case CallbackStop => added != [] && r.pieces == pieces + Decodes(tok, added)
       case EndToken =>
         && added != [] && IsEnd(tok, added[|added| - 1])
         && r.pieces == pieces + Decodes(tok, added[..|added| - 1])
       case StopString =>
         && WellFormed(m) && r.ids != []
         && r.pieces == pieces + Decodes(tok, added + [NextToken(m, tok, r.ids)])
  }

  lemma {:induction false} ReplyAccounting(m: Model, tok: Tokenizer, max: nat, ids: seq<int>, budget: int,
                                           pieces: seq<string>, stops: seq<string>, onToken: Callback)
    requires WellFormed(m) && |ids| <= max && (budget > 0 && max > 0 ==> ids != [])
    ensures Accounted(m, tok, ids, pieces, ReplyTo(m, tok, max, ids, budget, pieces, stops, onToken))
    decreases budget
  {
    hide WellFormed, NextToken, Stopped, Continues, Join;
    var r := ReplyTo(m, tok, max, ids, budget, pieces, stops, onToken);
    if budget <= 0 || |ids| >= max {
      assert r.ids[|ids|..] == [];
      assert pieces + Decodes(tok, []) == pieces;
    } else {
      var best := NextToken(m, tok, ids);
      var piece := tok.decode([best]);
      assert (ids + [best])[|ids|..] == [best];
      assert Decodes(tok, [best]) == [piece] && [best][..0] == [];
      if !IsEnd(tok, best) && Continues(onToken, pieces + [piece]) {
        if Stopped(Join(pieces + [piece]), stops) {
          assert ids[|ids|..] + [best] == [best];
        } else {
          ReplyAccounting(m, tok, max, ids + [best], budget - 1, pieces + [piece], stops, onToken);
          AccountStep(m, tok, ids, pieces, best, r);
        }
      }
    }
  }

  lemma AccountStep(m: Model, tok: Tokenizer, ids: seq<int>, pieces: seq<string>, best: int, r: Reply)
    requires Accounted(m, tok, ids + [best], pieces + [tok.decode([best])], r)
    ensures Accounted(m, tok, ids, pieces, r)
  {
    hide WellFormed, NextToken;
    var later, added := r.ids[|ids| + 1..], r.ids[|ids|..];
    assert added == [best] + later;
    DecodesCons(tok, best, later);
    if r.stop == EndToken {
      DecodesCons(tok, best, later[..|later| - 1]);
      assert added[..|added| - 1] == [best] + later[..|later| - 1];
    } else if r.stop == StopString {
      DecodesCons(tok, best, later + [NextToken(m, tok, r.ids)]);
      assert added + [NextToken(m, tok, r.ids)] == [best] + (later + [NextToken(m, tok, r.ids)]);
    }
  }

  lemma DecodesCons(tok: Tokenizer, id: int, ids: seq<int>)
    ensures forall p: seq<string> :: p + [tok.decode([id])] + Decodes(tok, ids) == p + Decodes(tok, [id] + ids)
  {
  }

  /** Every generated token is the greedy choice after the tokens before it, and within the budget. */
  lemma {:induction false} ReplyGreedy(m: Model, tok: Tokenizer, max: nat, ids: seq<int>, budget: int,
                                       pieces: seq<string>, stops: seq<string>, onToken: Callback)
    requires WellFormed(m) && |ids| <= max && (budget > 0 && max > 0 ==> ids != [])
    ensures var r := ReplyTo(m, tok, max, ids, budget, pieces, stops, onToken);
            && |r.ids| <= |ids| + (if budget > 0 then budget else 0)
            && ids <= r.ids
            && (forall k: nat :: |ids| <= k < |r.ids| ==> 0 < k && r.ids[k] == NextToken(m, tok, r.ids[..k]))
    decreases budget
  {
    hide WellFormed, NextToken, Stopped, Continues, Join;
    var r := ReplyTo(m, tok, max, ids, budget, pieces, stops, onToken);
    if budget > 0 && |ids| < max {
      var best := NextToken(m, tok, ids);
      var more := pieces + [tok.decode([best])];
      if !IsEnd(tok, best) && Continues(onToken, more) && !Stopped(Join(more), stops) {
        ReplyGreedy(m, tok, max, ids + [best], budget - 1, more, stops, onToken);
      }
      if |r.ids| > |ids| {
        assert r.ids[..|ids|] == ids;
      }
    }
  }

  /** Generation stops at the first piece that completes a stop string or that the callback refuses. */
  lemma {:induction false} ReplyStopsFirst(m: Model, tok: Tokenizer, max: nat, ids: seq<int>, budget: int,
                                           pieces: seq<string>, stops: seq<string>, onToken: Callback)
    requires WellFormed(m) && |ids| <= max && (budget > 0 && max > 0 ==> ids != [])
    ensures var r := ReplyTo(m, tok, max, ids, budget, pieces, stops, onToken);
            && pieces <= r.pieces
            && (forall k :: |pieces| < k < |r.pieces| ==> Passed(r.pieces[..k], stops, onToken))
            && (r.pieces == pieces ==> r.stop == Exhausted || r.stop == EndToken)
            && (|pieces| < |r.pieces| ==>
                (r.stop == CallbackStop <==> !Continues(onToken, r.pieces))
                && (r.stop == StopString <==> Continues(onToken, r.pieces) && Stopped(Join(r.pieces), stops)))
    decreases budget
  {
    hide WellFormed, NextToken, Stopped, Continues, Join;
    var r := ReplyTo(m, tok, max, ids, budget, pieces, stops, onToken);
    if budget > 0 && |ids| < max {
      var best := NextToken(m, tok, ids);
      var more := pieces + [tok.decode([best])];
      if !IsEnd(tok, best) && Continues(onToken, more) && !Stopped(Join(more), stops) {
        ReplyStopsFirst(m, tok, max, ids + [best], budget - 1, more, stops, onToken);
        assert r.pieces[..|more|] == more;
        if |r.pieces| == |more| {
          assert r.pieces == more;
        }
      }
    }
  }

  ghost predicate Passed(pieces: seq<string>, stops: seq<string>, onToken: Callback) {
    Continues(onToken, pieces) && !Stopped(Join(pieces), stops)
  }

  /** A reply cut short by its budget can be resumed: two budgets in a row are their sum. */
  lemma {:induction false} ReplyResumes(m: Model, tok: Tokenizer, max: nat, ids: seq<int>, budget: nat, more: nat,
                                        pieces: seq<string>, stops: seq<string>, onToken: Callback)
    requires WellFormed(m) && |ids| <= max && ids != []
    requires ReplyTo(m, tok, max, ids, budget, pieces, stops, onToken).stop == Exhausted
    ensures var r := ReplyTo(m, tok, max, ids, budget, pieces, stops, onToken);
            r.ids != []
            && ReplyTo(m, tok, max, r.ids, more, r.pieces, stops, onToken)
               == ReplyTo(m, tok, max, ids, budget + more, pieces, stops, onToken)
    decreases budget
  {
    hide WellFormed, NextToken, Stopped, Continues, Join;
    if budget > 0 && |ids| < max {
      var best := NextToken(m, tok, ids);
      ReplyResumes(m, tok, max, ids + [best], budget - 1, more, pieces + [tok.decode([best])], stops, onToken);
    }
  }

  // ----- a turn of a conversation -----

  datatype Result = Ok(text: string) | EmptyPrompt | PromptTooLong(n: nat)

  datatype Turn = Turn(result: Result, ids: seq<int>)

  /** Appending tokens to a history and replying. */
  ghost function Answer(m: Model, tok: Tokenizer, max: nat, ids: seq<int>, tokens: seq<int>, maxNewTokens: int,
                        stops: seq<string>, onToken: Callback): (t: Turn)
    requires WellFormed(m) && |ids| <= max
    ensures |t.ids| <= max
  {
    if tokens == [] then Turn(EmptyPrompt, ids)
    else if |ids| + |tokens| >= MAX_CONTEXT_LEN then Turn(PromptTooLong(|ids| + |tokens|), ids)
    else
      var start := Ingested(max, ids, |ids|, tokens);
      var r := ReplyTo(m, tok, max, start, Min(maxNewTokens, max - |start|), [], stops, onToken);
      Turn(Ok(Join(r.pieces)), r.ids)
  }

  /** The two errors, and what they leave: an empty prompt, and a conversation that would reach 16384 tokens. */
  lemma AnswerFails(m: Model, tok: Tokenizer, max: nat, ids: seq<int>, tokens: seq<int>, maxNewTokens: int,
                    stops: seq<string>, onToken: Callback)
    requires WellFormed(m) && |ids| <= max
    ensures var t := Answer(m, tok, max, ids, tokens, maxNewTokens, stops, onToken);
            && (t.result == EmptyPrompt <==> tokens == [])
            && (t.result.PromptTooLong? <==> tokens != [] && |ids| + |tokens| >= 16384)
            && (t.result.PromptTooLong? ==> t.result.n == |ids| + |tokens|)
            && (!t.result.Ok? ==> t.ids == ids)
  {
    hide WellFormed, ReplyTo, Ingested;
  }

  /** A turn that reuses the cached conversation answers exactly as one that replays the whole
      conversation from an empty cache. */
  lemma SessionIsReplay(m: Model, tok: Tokenizer, max: nat, ids: seq<int>, tokens: seq<int>, maxNewTokens: int,
                        stops: seq<string>, onToken: Callback)
    requires WellFormed(m) && |ids| <= max && tokens != []
    requires |ids| + |tokens| < MAX_CONTEXT_LEN
    ensures Answer(m, tok, max, ids, tokens, maxNewTokens, stops, onToken)
            == Answer(m, tok, max, [], ids + tokens, maxNewTokens, stops, onToken)
  {
    hide WellFormed, ReplyTo, Ingested, Join;
    ReplayIngests(max, ids, tokens);
  }

  lemma ReplayIngests(max: nat, ids: seq<int>, tokens: seq<int>)
    requires |ids| <= max && tokens != []
    ensures Ingested(max, ids, |ids|, tokens) == Ingested(max, [], 0, ids + tokens)
  {
    var n := Min(|tokens|, max - |ids|);
    assert Min(|ids + tokens|, max) == |ids| + n;
    assert (ids + tokens)[..|ids| + n] == ids + tokens[..n];
    assert ids[..|ids|] == ids;
  }
}
