/** One decoder step on the cache: it writes position `pos` at every layer, then attends to the
    positions up to `pos`. If the cache agrees with recomputation before, it does so after. */
module Forward {
  import opened Float32
  import opened KVCaches
  import opened Embedding
  import opened Transformer
  import opened AttentionHeads
  import opened Machine

  /** The vector at a coordinate is the one recomputation gives for these tokens. */
  ghost predicate Holds(m: Model, sh: Shape, data: Vec, ids: seq<int>, c: Coord)
    requires WellFormed(m) && SameShape(m, sh) && |data| == TotalElements(sh)
  {
    && InRange(sh, c) && c.pos < |ids|
    && (HeadFits(c.head, m.numKVHeads, m.headDim);
        Cell(sh, data, c) ==
        HeadPart(if c.isV then ValueAt(m, c.layer, ids, c.pos) else KeyAt(m, c.layer, ids, c.pos), c.head, m.headDim))
  }

  /** All keys and values of the given tokens are in the cache. What lies behind them is not constrained. */
  ghost predicate Agrees(m: Model, sh: Shape, data: Vec, ids: seq<int>)
    requires WellFormed(m) && SameShape(m, sh) && |data| == TotalElements(sh)
  {
    forall c :: InRange(sh, c) && c.pos < |ids| ==> Holds(m, sh, data, ids, c)
  }

  lemma HoldsPrefix(m: Model, sh: Shape, data: Vec, ids: seq<int>, other: seq<int>, c: Coord)
    requires WellFormed(m) && SameShape(m, sh) && |data| == TotalElements(sh)
    requires Holds(m, sh, data, ids, c) && c.pos < |other| && ids[..c.pos + 1] == other[..c.pos + 1]
    ensures Holds(m, sh, data, other, c)
  {
    hide WellFormed, TotalElements, Cell;
    Causal(m, c.layer, ids, other, c.pos);
  }

  /** Forgetting the last tokens keeps the rest of the cache right. */
  lemma AgreesPrefix(m: Model, sh: Shape, data: Vec, ids: seq<int>, n: nat)
    requires WellFormed(m) && SameShape(m, sh) && |data| == TotalElements(sh)
    requires Agrees(m, sh, data, ids) && n <= |ids|
    ensures Agrees(m, sh, data, ids[..n])
  {
    hide WellFormed, TotalElements, Holds, InRange;
    forall c | InRange(sh, c) && c.pos < n
      ensures Holds(m, sh, data, ids[..n], c)
    {
      assert ids[..n][..c.pos + 1] == ids[..c.pos + 1];
      HoldsPrefix(m, sh, data, ids, ids[..n], c);
    }
  }

  /** Only the vectors of one position differ. */
  ghost predicate OnlyAt(sh: Shape, before: Vec, after: Vec, pos: nat)
    requires |before| == |after| == TotalElements(sh)
  {
    forall c :: InRange(sh, c) && c.pos != pos ==> Cell(sh, after, c) == Cell(sh, before, c)
  }

  /** During a step: every earlier position and, at the last one, the layers below `l` are right. */
  ghost predicate UpToLayer(m: Model, sh: Shape, data: Vec, ids: seq<int>, l: nat)
    requires WellFormed(m) && SameShape(m, sh) && |data| == TotalElements(sh)
  {
    forall c :: InRange(sh, c) && c.pos < |ids| && (c.pos < |ids| - 1 || c.layer < l) ==> Holds(m, sh, data, ids, c)
  }

  lemma StartStep(m: Model, sh: Shape, data: Vec, ids: seq<int>, tok: int)
    requires WellFormed(m) && SameShape(m, sh) && |data| == TotalElements(sh) && Agrees(m, sh, data, ids)
    ensures UpToLayer(m, sh, data, ids + [tok], 0)
  {
    hide WellFormed, TotalElements, Holds, InRange;
    forall c | InRange(sh, c) && c.pos < |ids|
      ensures Holds(m, sh, data, ids + [tok], c)
    {
      assert (ids + [tok])[..c.pos + 1] == ids[..c.pos + 1];
      HoldsPrefix(m, sh, data, ids, ids + [tok], c);
    }
  }

  /** Storing the keys and values of one layer at the last position. */
  lemma StoreStep(m: Model, sh: Shape, before: Vec, after: Vec, ids: seq<int>, l: nat, k: Vec, v: Vec)
    requires WellFormed(m) && SameShape(m, sh) && |before| == |after| == TotalElements(sh)
    requires ids != [] && |ids| <= sh.maxTokens && l < m.numLayers && UpToLayer(m, sh, before, ids, l)
    requires k == KeyAt(m, l, ids, |ids| - 1) && v == ValueAt(m, l, ids, |ids| - 1)
    requires forall c :: InRange(sh, c) ==> Stored(sh, before, after, l, |ids| - 1, k, v, c)
    ensures UpToLayer(m, sh, after, ids, l + 1)
    ensures OnlyAt(sh, before, after, |ids| - 1)
  {
    hide WellFormed, TotalElements, Cell, KeyAt, ValueAt, HeadPart;
    forall c | InRange(sh, c) && c.pos < |ids| && (c.pos < |ids| - 1 || c.layer < l + 1)
      ensures Holds(m, sh, after, ids, c)
    {
      assert Stored(sh, before, after, l, |ids| - 1, k, v, c);
      if c.layer != l || c.pos != |ids| - 1 {
        assert Holds(m, sh, before, ids, c);
      }
    }
    forall c | InRange(sh, c) && c.pos != |ids| - 1
      ensures Cell(sh, after, c) == Cell(sh, before, c)
    {
      assert Stored(sh, before, after, l, |ids| - 1, k, v, c);
    }
  }

  /** What attention finds in the cache is what recomputation would attend to. */
  lemma CachedIsRecomputed(m: Model, sh: Shape, data: Vec, ids: seq<int>, l: nat, isV: bool, head: nat)
    requires WellFormed(m) && SameShape(m, sh) && |data| == TotalElements(sh)
    requires l < m.numLayers && head < m.numKVHeads && |ids| <= sh.maxTokens
    requires UpToLayer(m, sh, data, ids, l + 1)
    ensures var xs := HiddenUpTo(m, l, ids, |ids|);
            Cached(sh, data, isV, l, head, |ids|) ==
            Part(if isV then ValuesOf(m, l, xs) else KeysOf(m, l, xs), head, m.numKVHeads, m.headDim)
  {
    hide WellFormed, TotalElements, Cell, Hidden;
    var xs := HiddenUpTo(m, l, ids, |ids|);
    var vs := if isV then ValuesOf(m, l, xs) else KeysOf(m, l, xs);
    var cached := Cached(sh, data, isV, l, head, |ids|);
    var parts := Part(vs, head, m.numKVHeads, m.headDim);
    forall p | 0 <= p < |ids|
      ensures cached[p] == parts[p]
    {
      assert Holds(m, sh, data, ids, Coord(isV, l, head, p));
    }
  }

  lemma TargetIsHead(m: Model, sh: Shape, data: Vec, ids: seq<int>, l: nat, q: Vec, h: nat)
    requires WellFormed(m) && SameShape(m, sh) && |data| == TotalElements(sh)
    requires l < m.numLayers && ids != [] && |ids| <= sh.maxTokens && h < m.numHeads
    requires |q| == m.numHeads * m.headDim && UpToLayer(m, sh, data, ids, l + 1)
    ensures var xs := HiddenUpTo(m, l, ids, |ids|);
            HeadTarget(m, sh, data, l, |ids| - 1, q, h) == HeadOf(m, q, KeysOf(m, l, xs), ValuesOf(m, l, xs), h)
  {
    hide WellFormed, TotalElements, UpToLayer, HeadOut, Cached, Part, KeysOf, ValuesOf, HiddenUpTo, HeadPart;
    KVHeadBound(m, h);
    CachedIsRecomputed(m, sh, data, ids, l, false, KVHead(m, h));
    CachedIsRecomputed(m, sh, data, ids, l, true, KVHead(m, h));
  }

  /** The head slices, put together. */
  lemma {:induction false} SlicesAttended(m: Model, sh: Shape, data: Vec, ids: seq<int>, pos: nat, l: nat, q: Vec, out: Vec, n: nat)
    requires WellFormed(m) && SameShape(m, sh) && |data| == TotalElements(sh)
    requires l < m.numLayers && |ids| == pos + 1 && |ids| <= sh.maxTokens && n <= m.numHeads
    requires |q| == m.numHeads * m.headDim && UpToLayer(m, sh, data, ids, l + 1)
    requires forall h: nat :: h < n ==> Done(m, sh, data, l, pos, q, out, h)
    requires n * m.headDim <= |out|
    ensures var xs := HiddenUpTo(m, l, ids, |ids|);
            out[..n * m.headDim] == Attended(m, q, KeysOf(m, l, xs), ValuesOf(m, l, xs), n)
    decreases n
  {
    hide WellFormed, TotalElements, UpToLayer, HeadTarget, HeadOf, KeysOf, ValuesOf, HiddenUpTo;
    var hd := m.headDim;
    if n == 0 {
      assert out[..0] == [];
    } else {
      assert n * hd == (n - 1) * hd + hd;
      SlicesAttended(m, sh, data, ids, pos, l, q, out, n - 1);
      TargetIsHead(m, sh, data, ids, l, q, n - 1);
      assert Done(m, sh, data, l, pos, q, out, n - 1);
      assert out[..n * hd] == out[..(n - 1) * hd] + out[(n - 1) * hd..(n - 1) * hd + hd];
    }
  }

  lemma StepDone(m: Model, sh: Shape, data: Vec, ids: seq<int>)
    requires WellFormed(m) && SameShape(m, sh) && |data| == TotalElements(sh)
    requires UpToLayer(m, sh, data, ids, m.numLayers)
    ensures Agrees(m, sh, data, ids)
  {
    hide WellFormed, TotalElements, Holds;
  }

  /** The activation buffers of a step; `workers` is 0 when there is no pool. */
  class Arena {
    const x: array<F32>
    var normX: Vec
    var q: Vec
    var k: Vec
    var v: Vec
    const attnScores: array<F32>
    const attnOut: array<F32>
    const attnScratch: array<F32>
    const logits: array<F32>
    const workers: nat

    ghost predicate Valid(m: Model)
      reads this
    {
      && attnScores.Length == MAX_CONTEXT_LEN
      && attnOut.Length == m.numHeads * m.headDim
      && attnScratch.Length == workers * MAX_CONTEXT_LEN
      && logits.Length == m.vocabSize && x.Length == m.embed.length
      && x != attnOut && x != attnScores && x != attnScratch && x != logits
      && attnOut != attnScratch && attnOut != attnScores
      && logits != attnOut && logits != attnScores && logits != attnScratch
    }

    constructor (m: Model, workers: nat)
      ensures Valid(m) && fresh(x) && fresh(attnScores) && fresh(attnOut) && fresh(attnScratch) && fresh(logits)
    {
      normX, q, k, v := [], [], [], [];
      x := new F32[m.embed.length];
      attnScores := new F32[MAX_CONTEXT_LEN];
      attnOut := new F32[m.numHeads * m.headDim];
      attnScratch := new F32[workers * MAX_CONTEXT_LEN];
      logits := new F32[m.vocabSize];
      this.workers := workers;
    }
  }

  ghost predicate Separate(cache: KVCache, a: Arena) {
    cache.data != a.x && cache.data != a.attnOut && cache.data != a.attnScores && cache.data != a.attnScratch && cache.data != a.logits
  }

  /** What is kept between two layers of a step: the hidden state, the layers below, the other positions. */
  ghost predicate BetweenLayers(m: Model, sh: Shape, before: Vec, data: Vec, all: seq<int>, pos: nat, l: nat, x: Vec)
    requires WellFormed(m) && SameShape(m, sh) && |before| == |data| == TotalElements(sh)
  {
    |all| == pos + 1 && x == Hidden(m, l, all, pos) && UpToLayer(m, sh, data, all, l) && OnlyAt(sh, before, data, pos)
  }

  /** One layer: project, store, attend, merge. */
  method Layer(m: Model, cache: KVCache, a: Arena, l: nat, pos: nat, ghost all: seq<int>, ghost before: Vec)
    requires WellFormed(m) && cache.Valid() && SameShape(m, cache.sh) && a.Valid(m) && Separate(cache, a)
    requires pos < cache.sh.maxTokens && pos < MAX_CONTEXT_LEN && l < m.numLayers
    requires |before| == TotalElements(cache.sh) && BetweenLayers(m, cache.sh, before, cache.data[..], all, pos, l, a.x[..])
    modifies cache.data, a, a.x, a.attnScores, a.attnOut, a.attnScratch
    ensures BetweenLayers(m, cache.sh, before, cache.data[..], all, pos, l + 1, a.x[..])
  {
    hide WellFormed, TotalElements, UpToLayer, Done, OnlyAt, LayerOut;
    ghost var middle := cache.data[..];
    ghost var x := a.x[..];
    Lengths(m, l, x, pos);
    a.q := m.query(l, a.x[..], pos);
    a.k := m.key(l, a.x[..], pos);
    a.v := m.value(l, a.x[..]);
    cache.StoreKV(l, pos, a.k, a.v);
    StoreStep(m, cache.sh, middle, cache.data[..], all, l, a.k, a.v);
    OnlyAtTrans(cache.sh, before, middle, cache.data[..], pos);
    DispatchAttention(a.workers > 0, m, cache, l, pos, a.q, a.attnOut, a.attnScores, a.attnScratch, a.workers);
    SlicesAttended(m, cache.sh, cache.data[..], all, pos, l, a.q, a.attnOut[..], m.numHeads);
    assert a.attnOut[..][..m.numHeads * m.headDim] == a.attnOut[..];
    LayerStep(m, l, all, pos, a.attnOut[..]);
    assert a.x[..] == x;
    Overwrite(a.x, m.merge(l, a.x[..], a.attnOut[..]));
  }

  method Overwrite(dst: array<F32>, src: Vec)
    requires |src| == dst.Length
    modifies dst
    ensures dst[..] == src
  {
    for i := 0 to dst.Length
      invariant dst[..i] == src[..i]
    {
      dst[i] := src[i];
    }
  }

  /** The layer loop. `ids` are the tokens the cache holds below `pos`. */
  method Forward(m: Model, cache: KVCache, a: Arena, tokenID: int, pos: nat, ghost ids: seq<int>) returns (hidden: Vec)
    requires WellFormed(m) && cache.Valid() && SameShape(m, cache.sh) && a.Valid(m) && Separate(cache, a)
    requires pos < cache.sh.maxTokens && pos < MAX_CONTEXT_LEN && |ids| == pos
    requires Agrees(m, cache.sh, cache.data[..], ids)
    modifies cache.data, a, a.x, a.attnScores, a.attnOut, a.attnScratch
    ensures Agrees(m, cache.sh, cache.data[..], ids + [tokenID])
    ensures hidden == Final(m, ids + [tokenID])
    ensures OnlyAt(cache.sh, old(cache.data[..]), cache.data[..], pos)
  {
    hide WellFormed, TotalElements, Agrees, UpToLayer, OnlyAt, LayerOut, EmbedToken;
    ghost var all, before := ids + [tokenID], cache.data[..];
    StartStep(m, cache.sh, before, ids, tokenID);
    OnlyAtSelf(cache.sh, before, pos);
    EmbedFresh(m, a.x[..], tokenID);
    EmbedInto(m.embed, a.x, tokenID);
    for l := 0 to m.numLayers
      invariant BetweenLayers(m, cache.sh, before, cache.data[..], all, pos, l, a.x[..])
    {
      Layer(m, cache, a, l, pos, all, before);
    }
    StepDone(m, cache.sh, cache.data[..], all);
    a.normX := m.finish(a.x[..]);
    return a.normX;
  }

  lemma EmbedFresh(m: Model, x: Vec, tokenID: int)
    requires WellFormed(m) && |x| == m.embed.length
    ensures Fits(m.embed) && EmbedToken(m.embed, x, tokenID) == TokenRow(m.embed, tokenID)
  {
    PastForgotten(m.embed, x, tokenID);
  }

  lemma Lengths(m: Model, l: nat, x: Vec, pos: nat)
    requires WellFormed(m)
    ensures |m.query(l, x, pos)| == m.numHeads * m.headDim
    ensures |m.key(l, x, pos)| == |m.value(l, x)| == m.numKVHeads * m.headDim
    ensures forall o :: |m.merge(l, x, o)| == m.embed.length
  {
  }

  lemma LayerStep(m: Model, l: nat, all: seq<int>, pos: nat, out: Vec)
    requires WellFormed(m) && pos + 1 == |all|
    requires var xs, x := HiddenUpTo(m, l, all, |all|), Hidden(m, l, all, pos);
             |m.query(l, x, pos)| == m.numHeads * m.headDim
             && out == Attended(m, m.query(l, x, pos), KeysOf(m, l, xs), ValuesOf(m, l, xs), m.numHeads)
    ensures Hidden(m, l + 1, all, pos) == m.merge(l, Hidden(m, l, all, pos), out)
  {
    hide WellFormed, Attended, KeysOf, ValuesOf;
  }

  lemma OnlyAtSelf(sh: Shape, data: Vec, pos: nat)
    requires |data| == TotalElements(sh)
    ensures OnlyAt(sh, data, data, pos)
  {
  }

  lemma OnlyAtTrans(sh: Shape, before: Vec, middle: Vec, after: Vec, pos: nat)
    requires |before| == |middle| == |after| == TotalElements(sh)
    requires OnlyAt(sh, before, middle, pos) && OnlyAt(sh, middle, after, pos)
    ensures OnlyAt(sh, before, after, pos)
  {
    hide Cell, InRange, TotalElements;
    forall c | InRange(sh, c) && c.pos != pos
      ensures Cell(sh, after, c) == Cell(sh, before, c)
    {
      assert Cell(sh, middle, c) == Cell(sh, before, c);
    }
  }
}
