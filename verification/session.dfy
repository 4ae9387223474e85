/** The engine: one cache and one arena shared by every ingestion and generation. Between any two
    calls the cache agrees with recomputing its tokens from scratch, and what a call returns is a
    function of the token history, whatever stale entries the cache carries behind its cursor. */
module Session {
  import opened Float32
  import opened KVCaches
  import opened Transformer
  import opened AttentionHeads
  import opened Forward
  import opened Generation

  class Engine {
    const model: Model
    const tokenizer: Tokenizer
    const cache: KVCache
    const arena: Arena

    ghost predicate Linked()
      reads this, cache, arena
    {
      && WellFormed(model) && cache.Valid() && arena.Valid(model)
      && SameShape(model, cache.sh) && Separate(cache, arena)
      && cache.sh.maxTokens <= MAX_CONTEXT_LEN
    }

    /** The cache holds the keys and values of exactly its tokens. */
    ghost predicate Valid()
      reads this, cache, arena, cache.data, cache.tokenIDs
    {
      Linked() && Agrees(model, cache.sh, cache.data[..], cache.Ids())
    }

    constructor (m: Model, tok: Tokenizer, sh: Shape, workers: nat)
      requires WellFormed(m) && SameShape(m, sh) && sh.maxTokens <= MAX_CONTEXT_LEN
      ensures Valid() && cache.Ids() == [] && model == m && cache.sh == sh
      ensures fresh(cache) && fresh(arena) && fresh(cache.data) && fresh(cache.tokenIDs)
      ensures fresh(arena.x) && fresh(arena.attnScores) && fresh(arena.attnOut) && fresh(arena.attnScratch) && fresh(arena.logits)
    {
      model, tokenizer := m, tok;
      var c := new KVCache(sh);
      var a := new Arena(m, workers);
      cache, arena := c, a;
    }

    method Reset()
      requires Valid()
      modifies cache`seqLen
      ensures Valid() && cache.Ids() == []
    {
      hide WellFormed, TotalElements, SameShape;
      cache.Reset();
      AgreesPrefix(model, cache.sh, cache.data[..], old(cache.Ids()), 0);
      assert old(cache.Ids())[..0] == [];
    }

    method Rewind(n: int)
      requires Valid()
      modifies cache`seqLen
      ensures Valid()
      ensures cache.Ids() == old(cache.Ids())[..|old(cache.Ids())| - Min(if n < 0 then 0 else n, |old(cache.Ids())|)]
    {
      hide WellFormed, TotalElements, SameShape, Agrees;
      ghost var ids := cache.Ids();
      cache.Rewind(n);
      AgreesPrefix(model, cache.sh, cache.data[..], ids, cache.seqLen);
      assert ids[..|ids|] == ids;
    }

    /** One token at the cursor: forward, record, advance. */
    method Advance(tokID: int) returns (hidden: Vec)
      requires Valid() && cache.seqLen < cache.sh.maxTokens
      modifies cache`seqLen, cache.data, cache.tokenIDs, arena, arena.x, arena.attnScores, arena.attnOut, arena.attnScratch
      ensures Valid() && cache.Ids() == old(cache.Ids()) + [tokID]
      ensures hidden == Final(model, cache.Ids())
      ensures OnlyAt(cache.sh, old(cache.data[..]), cache.data[..], old(cache.seqLen))
    {
      hide WellFormed, TotalElements, SameShape, Agrees, OnlyAt;
      ghost var ids := cache.Ids();
      var p := cache.seqLen;
      hidden := Forward.Forward(model, cache, arena, tokID, p, ids);
      cache.StoreTokenID(p, tokID);
      cache.seqLen := p + 1;
      assert cache.Ids() == ids + [tokID];
    }

    /** The position ingestion starts at: clamped to the cursor, or the cursor moved back to it. */
    method MoveTo(pos: int) returns (at: nat)
      requires Valid()
      modifies cache`seqLen
      ensures Valid() && at == StartAt(old(cache.Ids()), pos) && cache.Ids() == old(cache.Ids())[..at]
    {
      hide WellFormed, TotalElements, SameShape, Agrees;
      ghost var ids := cache.Ids();
      var p := pos;
      if p < 0 {
        p := 0;
      }
      if p > cache.seqLen {
        p := cache.seqLen;
      }
      if p < cache.seqLen {
        cache.Rewind(cache.seqLen - p);
        AgreesPrefix(model, cache.sh, cache.data[..], ids, p);
      }
      at := p;
    }

    /** The hidden state of the last ingested token, or nothing if none was. */
    method IngestFrom(pos: int, tokens: seq<int>) returns (last: Option<Vec>)
      requires Valid()
      modifies cache`seqLen, cache.data, cache.tokenIDs, arena, arena.x, arena.attnScores, arena.attnOut, arena.attnScratch
      ensures Valid()
      ensures cache.Ids() == Ingested(cache.sh.maxTokens, old(cache.Ids()), pos, tokens)
      ensures last == if tokens != [] && StartAt(old(cache.Ids()), pos) < cache.sh.maxTokens
                      then Some(Final(model, cache.Ids())) else None
    {
      hide WellFormed, TotalElements, SameShape, Agrees, OnlyAt, Final, Separate;
      last := None;
      ghost var ids := cache.Ids();
      if |tokens| == 0 {
        return;
      }
      var at := MoveTo(pos);
      FedNothing(ids[..at], tokens);
      var i := 0;
      while i < |tokens|
        invariant 0 <= i <= |tokens| && at + i <= cache.sh.maxTokens
        invariant Valid() && cache.Ids() == ids[..at] + tokens[..i]
        invariant last == if i > 0 then Some(Final(model, cache.Ids())) else None
      {
        var p := at + i;
        if p >= cache.sh.maxTokens {
          break;
        }
        FedMore(ids[..at], tokens, i);
        var hidden := Advance(tokens[i]);
        last := Some(hidden);
        i := i + 1;
      }
    }

    /** The penalised logits of the current state, in the arena. */
    method ProjectLogits(hidden: Vec, currentPos: nat)
      requires Valid() && currentPos == cache.seqLen
      modifies arena.logits
      ensures Valid()
      ensures arena.logits[..] ==
              Penalise(model, tokenizer, model.logits(hidden), cache.Ids(), WindowStart(currentPos), currentPos)
      ensures var ids := cache.Ids();
              var recent := if |ids| <= 64 then ids else ids[|ids| - 64..];
              forall id :: 0 <= id < arena.logits.Length ==>
                arena.logits[id] == if id == tokenizer.imEnd || id == tokenizer.eos then model.logits(hidden)[id]
                                    else DecayTimes(model, model.logits(hidden)[id], multiset(recent)[id])
    {
      hide Decay, DecayTimes, Penalise, TotalElements, Agrees, SameShape;
      var raw := model.logits(hidden);
      assert |raw| == arena.logits.Length;
      for id := 0 to arena.logits.Length
        invariant arena.logits[..id] == raw[..id]
      {
        arena.logits[id] := raw[id];
      }
      assert arena.logits[..] == raw;
      var startWindow: int := currentPos - WINDOW;
      if startWindow < 0 {
        startWindow := 0;
      }
      PenaliseNone(model, tokenizer, raw, cache.Ids(), startWindow);
      for p := startWindow to currentPos
        invariant arena.logits[..] == Penalise(model, tokenizer, raw, cache.Ids(), startWindow, p)
      {
        ghost var before := arena.logits[..];
        PenaliseStep(model, tokenizer, raw, cache.Ids(), startWindow, p);
        var tok := cache.tokenIDs[p];
        assert tok == cache.Ids()[p];
        if tok >= 0 && tok < model.vocabSize && tok != tokenizer.imEnd && tok != tokenizer.eos {
          arena.logits[tok] := Decay(model, arena.logits[tok]);
        }
        assert arena.logits[..] == PenaliseOne(model, tokenizer, before, tok);
      }
      AllRecent(model, tokenizer, raw, cache.Ids(), arena.logits[..]);
    }

    /** Greedy selection: the least index among the greatest logits. */
    method SelectGreedy() returns (bestID: nat)
      requires Linked()
      ensures bestID == ArgMax(model, arena.logits[..], model.vocabSize)
    {
      bestID := 0;
      var bestLogit := arena.logits[0];
      for id := 1 to model.vocabSize
        invariant bestID == ArgMax(model, arena.logits[..], id) && bestLogit == arena.logits[bestID]
      {
        if Greater(model, arena.logits[id], bestLogit) {
          bestLogit := arena.logits[id];
          bestID := id;
        }
      }
    }

    /** The greedy choice after the current history. */
    method ChooseToken(hidden: Vec) returns (bestID: nat)
      requires Valid() && cache.Ids() != [] && hidden == Final(model, cache.Ids())
      modifies arena.logits
      ensures Valid() && bestID == NextToken(model, tokenizer, cache.Ids())
    {
      hide WellFormed, TotalElements, SameShape, Agrees, Final, Penalise, ArgMax, Separate;
      ghost var ids := cache.Ids();
      ProjectLogits(hidden, cache.seqLen);
      bestID := SelectGreedy();
      Chosen(model, tokenizer, ids, arena.logits[..]);
    }

    method AnyStop(text: string, stopStrings: seq<string>) returns (stopped: bool)
      ensures stopped == Stopped(text, stopStrings)
    {
      stopped := false;
      for k := 0 to |stopStrings|
        invariant !stopped && forall j :: 0 <= j < k ==> !Contains(text, stopStrings[j])
      {
        if Contains(text, stopStrings[k]) {
          stopped := true;
          break;
        }
      }
    }

    /** The autoregressive loop. */
    method Generate(lastNormX: Option<Vec>, maxNewTokens: int, stopStrings: seq<string>, onToken: Callback) returns (text: string, ghost reply: Reply)
      requires Valid()
      requires maxNewTokens > 0 && cache.seqLen < cache.sh.maxTokens ==>
                 cache.Ids() != [] && lastNormX == Some(Final(model, cache.Ids()))
      requires maxNewTokens > 0 && cache.sh.maxTokens > 0 ==> cache.Ids() != []
      modifies cache`seqLen, cache.data, cache.tokenIDs, arena, arena.x, arena.attnScores, arena.attnOut, arena.attnScratch, arena.logits
      ensures Valid()
      ensures reply == ReplyTo(model, tokenizer, cache.sh.maxTokens, old(cache.Ids()), maxNewTokens, [], stopStrings, onToken)
      ensures text == Join(reply.pieces) && cache.Ids() == reply.ids
    {
      hide WellFormed, TotalElements, SameShape, Agrees, OnlyAt, Final, Stopped, Continues, Separate, ReplyTo, NextToken, Join;
      ghost var max := cache.sh.maxTokens;
      JoinNothing();
      reply := ReplyTo(model, tokenizer, max, cache.Ids(), maxNewTokens, [], stopStrings, onToken);
      ghost var whole := reply;
      var hidden := lastNormX;
      var pieces: seq<string> := [];
      text := "";
      var step: int := 0;
      while step < maxNewTokens
        invariant 0 <= step && Valid() && text == Join(pieces)
        invariant maxNewTokens > 0 && max > 0 ==> cache.Ids() != []
        invariant step < maxNewTokens && cache.seqLen < max ==> hidden == Some(Final(model, cache.Ids()))
        invariant whole == ReplyTo(model, tokenizer, max, cache.Ids(), maxNewTokens - step, pieces, stopStrings, onToken)
        decreases maxNewTokens - step
      {
        var currentPos := cache.seqLen;
        if currentPos >= cache.sh.maxTokens {
          break;
        }
        ghost var ids := cache.Ids();
        var bestID := ChooseToken(hidden.value);
        ReplyStep(model, tokenizer, max, ids, maxNewTokens - step, pieces, stopStrings, onToken);
        if bestID == tokenizer.imEnd || bestID == tokenizer.eos {
          var _ := Advance(bestID);
          return text, Reply(pieces, cache.Ids(), EndToken);
        }
        var piece := tokenizer.decode([bestID]);
        pieces := pieces + [piece];
        text := text + piece;
        JoinMore(pieces);
        if onToken.Some? {
          if !onToken.value(pieces) {
            var _ := Advance(bestID);
            Refused(onToken, pieces);
            return text, Reply(pieces, cache.Ids(), CallbackStop);
          }
        }
        Accepted(onToken, pieces);
        var stopped := AnyStop(text, stopStrings);
        if stopped {
          return text, Reply(pieces, ids, StopString);
        }
        var next := Advance(bestID);
        hidden := Some(next);
        step := step + 1;
      }
      ReplyOver(model, tokenizer, max, cache.Ids(), maxNewTokens - step, pieces, stopStrings, onToken);
      return text, Reply(pieces, cache.Ids(), Exhausted);
    }

    /** Appends a prompt to the ongoing conversation and replies, reusing the cached prefix. */
    method GenerateStreamSession(newPromptTokens: seq<int>, maxNewTokens: int, stopStrings: seq<string>, onToken: Callback) returns (r: Result)
      requires Valid()
      modifies cache`seqLen, cache.data, cache.tokenIDs, arena, arena.x, arena.attnScores, arena.attnOut, arena.attnScratch, arena.logits
      ensures Valid()
      ensures Turn(r, cache.Ids()) ==
              Answer(model, tokenizer, cache.sh.maxTokens, old(cache.Ids()), newPromptTokens, maxNewTokens, stopStrings, onToken)
    {
      hide WellFormed, TotalElements, SameShape, Agrees, Final, ReplyTo, Join;
      if |newPromptTokens| == 0 {
        return EmptyPrompt;
      }
      if cache.seqLen + |newPromptTokens| >= MAX_CONTEXT_LEN {
        return PromptTooLong(cache.seqLen + |newPromptTokens|);
      }
      var last := IngestFrom(cache.seqLen, newPromptTokens);
      var budget := maxNewTokens;
      var remaining := cache.sh.maxTokens - cache.seqLen;
      if budget > remaining {
        budget := remaining;
      }
      var text, reply := Generate(last, budget, stopStrings, onToken);
      return Ok(text);
    }

    /** Resets the cache and replies to a whole prompt. Errors leave the conversation as it was. */
    method GenerateStream(prompt: string, maxNewTokens: int, stopStrings: seq<string>, onToken: Callback) returns (r: Result)
      requires Valid()
      modifies cache`seqLen, cache.data, cache.tokenIDs, arena, arena.x, arena.attnScores, arena.attnOut, arena.attnScratch, arena.logits
      ensures Valid()
      ensures var tokens := tokenizer.encode(prompt);
              var t := Answer(model, tokenizer, cache.sh.maxTokens, [], tokens, maxNewTokens, stopStrings, onToken);
              r == t.result && cache.Ids() == if r.Ok? then t.ids else old(cache.Ids())
    {
      hide WellFormed, TotalElements, SameShape, Agrees, Final, ReplyTo, Join;
      var promptTokens := tokenizer.encode(prompt);
      if |promptTokens| == 0 {
        return EmptyPrompt;
      }
      if |promptTokens| >= MAX_CONTEXT_LEN {
        return PromptTooLong(|promptTokens|);
      }
      Reset();
      var last := IngestFrom(0, promptTokens);
      var budget := maxNewTokens;
      var remaining := cache.sh.maxTokens - cache.seqLen;
      if budget > remaining {
        budget := remaining;
      }
      var text, reply := Generate(last, budget, stopStrings, onToken);
      return Ok(text);
    }
  }

  lemma FedNothing(front: seq<int>, tokens: seq<int>)
    ensures front + tokens[..0] == front
  {
  }

  lemma FedMore(front: seq<int>, tokens: seq<int>, i: nat)
    requires i < |tokens|
    ensures (front + tokens[..i]) + [tokens[i]] == front + tokens[..i + 1]
  {
  }

  lemma Chosen(m: Model, tok: Tokenizer, ids: seq<int>, logits: Vec)
    requires WellFormed(m) && ids != []
    requires logits == Penalise(m, tok, m.logits(Final(m, ids)), ids, WindowStart(|ids|), |ids|)
    ensures |logits| == m.vocabSize && ArgMax(m, logits, m.vocabSize) == NextToken(m, tok, ids)
  {
  }

  lemma JoinNothing()
    ensures Join([]) == ""
  {
  }

  lemma ReplyOver(m: Model, tok: Tokenizer, max: nat, ids: seq<int>, budget: int, pieces: seq<string>,
                  stops: seq<string>, onToken: Callback)
    requires WellFormed(m) && |ids| <= max && (budget > 0 && max > 0 ==> ids != []) && (budget <= 0 || |ids| >= max)
    ensures ReplyTo(m, tok, max, ids, budget, pieces, stops, onToken) == Reply(pieces, ids, Exhausted)
  {
  }

  lemma ReplyStep(m: Model, tok: Tokenizer, max: nat, ids: seq<int>, budget: int, pieces: seq<string>,
                  stops: seq<string>, onToken: Callback)
    requires WellFormed(m) && |ids| < max && budget > 0 && ids != []
    ensures var best := NextToken(m, tok, ids);
            var r, more := ReplyTo(m, tok, max, ids, budget, pieces, stops, onToken), pieces + [tok.decode([best])];
            r == if IsEnd(tok, best) then Reply(pieces, ids + [best], EndToken)
                 else if !Continues(onToken, more) then Reply(more, ids + [best], CallbackStop)
                 else if Stopped(Join(more), stops) then Reply(more, ids, StopString)
                 else ReplyTo(m, tok, max, ids + [best], budget - 1, more, stops, onToken)
  {
    hide WellFormed, NextToken;
  }

  lemma JoinMore(pieces: seq<string>)
    requires pieces != []
    ensures Join(pieces) == Join(pieces[..|pieces| - 1]) + pieces[|pieces| - 1]
  {
  }

  lemma Refused(onToken: Callback, pieces: seq<string>)
    requires onToken.Some? && !onToken.value(pieces)
    ensures !Continues(onToken, pieces)
  {
  }

  lemma Accepted(onToken: Callback, pieces: seq<string>)
    requires onToken.Some? ==> onToken.value(pieces)
    ensures Continues(onToken, pieces)
  {
  }
}
