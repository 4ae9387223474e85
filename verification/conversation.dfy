/** Whole runs of an engine. */
module Conversation {
  import opened Float32
  import opened KVCaches
  import opened Transformer
  import opened AttentionHeads
  import opened Forward
  import opened Generation
  import opened Session

  datatype Op =
    | Reset
    | Rewind(n: int)
    | Ingest(pos: int, tokens: seq<int>)
    | Stream(prompt: string, maxNewTokens: int, stops: seq<string>, onToken: Callback)
    | Continue(tokens: seq<int>, maxNewTokens: int, stops: seq<string>, onToken: Callback)

  /** What an operation does to the history. */
  ghost function AfterOp(m: Model, tok: Tokenizer, max: nat, ids: seq<int>, op: Op): (r: seq<int>)
    requires WellFormed(m) && |ids| <= max
    ensures |r| <= max
  {
    match op
    case Reset => []
    case Rewind(n) => ids[..|ids| - Min(if n < 0 then 0 else n, |ids|)]
    case Ingest(pos, tokens) => Ingested(max, ids, pos, tokens)
    case Stream(prompt, k, stops, cb) =>
      var t := Answer(m, tok, max, [], tok.encode(prompt), k, stops, cb);
      if t.result.Ok? then t.ids else ids
    case Continue(tokens, k, stops, cb) => Answer(m, tok, max, ids, tokens, k, stops, cb).ids
  }

  ghost function AfterAll(m: Model, tok: Tokenizer, max: nat, ids: seq<int>, ops: seq<Op>): (r: seq<int>)
    requires WellFormed(m) && |ids| <= max
    ensures |r| <= max
  {
    if ops == [] then ids
    else AfterOp(m, tok, max, AfterAll(m, tok, max, ids, ops[..|ops| - 1]), ops[|ops| - 1])
  }

  method PerformOne(e: Engine, op: Op)
    requires e.Valid()
    modifies e.cache`seqLen, e.cache.data, e.cache.tokenIDs, e.arena
    modifies e.arena.x, e.arena.attnScores, e.arena.attnOut, e.arena.attnScratch, e.arena.logits
    ensures e.Valid()
    ensures e.cache.Ids() == AfterOp(e.model, e.tokenizer, e.cache.sh.maxTokens, old(e.cache.Ids()), op)
  {
    hide WellFormed, TotalElements, SameShape, Agrees, Answer, Ingested;
    match op {
      case Reset => e.Reset();
      case Rewind(n) => e.Rewind(n);
      case Ingest(pos, tokens) => var _ := e.IngestFrom(pos, tokens);
      case Stream(prompt, k, stops, cb) => var _ := e.GenerateStream(prompt, k, stops, cb);
      case Continue(tokens, k, stops, cb) => var _ := e.GenerateStreamSession(tokens, k, stops, cb);
    }
  }

  /** After any sequence of operations the cache agrees with recomputing its tokens, and the tokens
      are determined by the operations. */
  method Perform(e: Engine, ops: seq<Op>)
    requires e.Valid()
    modifies e.cache`seqLen, e.cache.data, e.cache.tokenIDs, e.arena
    modifies e.arena.x, e.arena.attnScores, e.arena.attnOut, e.arena.attnScratch, e.arena.logits
    ensures e.Valid()
    ensures e.cache.Ids() == AfterAll(e.model, e.tokenizer, e.cache.sh.maxTokens, old(e.cache.Ids()), ops)
  {
    hide WellFormed, TotalElements, SameShape, Agrees, AfterOp;
    ghost var ids := e.cache.Ids();
    assert ops[..0] == [];
    for i := 0 to |ops|
      invariant e.Valid()
      invariant e.cache.Ids() == AfterAll(e.model, e.tokenizer, e.cache.sh.maxTokens, ids, ops[..i])
    {
      PerformOne(e, ops[i]);
      assert ops[..i + 1][..i] == ops[..i];
    }
    assert ops[..|ops|] == ops;
  }

  /** Two caches that agree with the same tokens hold the same vectors at all their positions. */
  lemma SameTokensSameCells(m: Model, sh: Shape, one: Vec, two: Vec, ids: seq<int>, c: Coord)
    requires WellFormed(m) && SameShape(m, sh) && |one| == |two| == TotalElements(sh)
    requires Agrees(m, sh, one, ids) && Agrees(m, sh, two, ids) && InRange(sh, c) && c.pos < |ids|
    ensures Cell(sh, one, c) == Cell(sh, two, c)
  {
    hide WellFormed, Cell, TotalElements, InRange, SameShape;
    assert Holds(m, sh, one, ids, c) && Holds(m, sh, two, ids, c);
  }

  /** Feeding the recorded tokens to a fresh cache from position 0 rebuilds every cached vector. */
  method Recompute(e: Engine) returns (f: Engine)
    requires e.Valid()
    ensures fresh(f) && f.Valid() && f.cache.sh == e.cache.sh && f.cache.Ids() == e.cache.Ids()
    ensures forall c :: InRange(e.cache.sh, c) && c.pos < e.cache.seqLen ==>
              Cell(e.cache.sh, f.cache.data[..], c) == Cell(e.cache.sh, e.cache.data[..], c)
  {
    hide WellFormed, Cell, TotalElements, SameShape, Agrees, InRange;
    ghost var ids := e.cache.Ids();
    f := new Engine(e.model, e.tokenizer, e.cache.sh, e.arena.workers);
    var _ := f.IngestFrom(0, e.cache.tokenIDs[..e.cache.seqLen]);
    assert ids[..|ids|] == ids && [] + ids == ids;
    forall c | InRange(e.cache.sh, c) && c.pos < e.cache.seqLen
      ensures Cell(e.cache.sh, f.cache.data[..], c) == Cell(e.cache.sh, e.cache.data[..], c)
    {
      SameTokensSameCells(e.model, e.cache.sh, f.cache.data[..], e.cache.data[..], ids, c);
    }
  }
}
