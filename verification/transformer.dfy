/** What a decoder computes for a token sequence, from scratch, in `float32`. What a layer does to a
    single position (norms, projections, rotation, feed-forward) is any function of that position's
    hidden state; attention is spelled out as the expressions its kernels build on this machine. */
module Transformer {
  import opened Machine
  import opened Float32
  import opened FloatLanes
  import opened RealSums
  import opened Attention
  import opened KVCaches
  import opened Embedding

  const MAX_CONTEXT_LEN: nat := 16384

  datatype Model = Model(
    avx2: bool,                      // what the processor has
    numLayers: nat, numHeads: nat, numKVHeads: nat, headDim: nat, vocabSize: nat,
    embed: Table,                    // the embedding; its length is that of a hidden state
    query: (nat, Vec, nat) -> Vec,   // layer, hidden state, position
    key: (nat, Vec, nat) -> Vec,
    value: (nat, Vec) -> Vec,
    scale: F32,
    softmax: Vec -> Vec,
    merge: (nat, Vec, Vec) -> Vec,   // layer, hidden state, attention output
    finish: Vec -> Vec,
    logits: Vec -> Vec,
    order: F32 -> int)               // the place of a value among the float32 numbers

  ghost predicate WellFormed(m: Model) {
    && Fits(m.embed) && Whole(m.embed) && m.embed.rows == m.vocabSize
    && m.numKVHeads > 0 && m.numHeads % m.numKVHeads == 0
    && (forall l, x, o :: |m.merge(l, x, o)| == m.embed.length)
    && (forall l, x, p :: |m.query(l, x, p)| == m.numHeads * m.headDim)
    && (forall l, x, p :: |m.key(l, x, p)| == m.numKVHeads * m.headDim)
    && (forall l, x :: |m.value(l, x)| == m.numKVHeads * m.headDim)
    && (forall s :: |m.softmax(s)| == |s|)
    && (forall x :: |m.logits(x)| == m.vocabSize)
  }

  // ----- attention, by its definition -----

  ghost predicate Uniform(vs: seq<Vec>, n: nat) {
    forall j :: 0 <= j < |vs| ==> |vs[j]| == n
  }

  function Scores(m: Model, q: Vec, keys: seq<Vec>): (r: Vec)
    requires |q| == m.headDim && forall j :: 0 <= j < |keys| ==> |keys[j]| == m.headDim
    ensures |r| == |keys|
  {
    seq(|keys|, p requires 0 <= p < |keys| => Score(m.avx2, q, keys[p], m.scale))
  }

  /** Coordinate `d` of the weighted sum of the first `n` vectors. */
  function Mix(fused: bool, weights: Vec, vals: seq<Vec>, d: nat, n: nat): F32
    requires n <= |weights| && n <= |vals| && forall j :: 0 <= j < n ==> d < |vals[j]|
  {
    if n == 0 then ZERO else Accumulate(fused, weights[n - 1], vals[n - 1][d], Mix(fused, weights, vals, d, n - 1))
  }

  ghost function HeadOut(m: Model, q: Vec, keys: seq<Vec>, vals: seq<Vec>): (r: Vec)
    requires WellFormed(m) && |q| == m.headDim && |keys| == |vals|
    requires Uniform(keys, m.headDim) && Uniform(vals, m.headDim)
    ensures |r| == m.headDim
  {
    var w := m.softmax(Scores(m, q, keys));
    seq(m.headDim, d requires 0 <= d < m.headDim => Mix(Fused(m.avx2, m.headDim, d), w, vals, d, |vals|))
  }

  /** Coordinate `d` of every vector, read as reals. */
  function Coordinate(vals: seq<Vec>, d: nat, rd: Reading): (r: seq<real>)
    requires forall j :: 0 <= j < |vals| ==> d < |vals[j]|
    ensures |r| == |vals|
  {
    seq(|vals|, p requires 0 <= p < |vals| => Eval(vals[p][d], rd))
  }

  lemma {:induction false} MixMeaning(fused: bool, weights: Vec, vals: seq<Vec>, d: nat, n: nat, rd: Reading)
    requires n <= |weights| == |vals| && forall j :: 0 <= j < |vals| ==> d < |vals[j]|
    ensures Eval(Mix(fused, weights, vals, d, n), rd) == Dot(RealRow(weights, rd), Coordinate(vals, d, rd), 0, n)
    decreases n
  {
    hide Times;
    if n > 0 {
      MixMeaning(fused, weights, vals, d, n - 1, rd);
      var w, v, acc := weights[n - 1], vals[n - 1][d], Mix(fused, weights, vals, d, n - 1);
      assert Eval(Accumulate(fused, w, v, acc), rd) == Eval(acc, rd) + Times(Eval(w, rd), Eval(v, rd));
      assert Products(RealRow(weights, rd), Coordinate(vals, d, rd))[n - 1] == Times(Eval(w, rd), Eval(v, rd));
    }
  }

  /** Over the reals a head's output is attention as it is defined: the sum of the value vectors,
      weighted by the softmax of the scaled dot products, with or without vector registers. */
  lemma HeadMeaning(m: Model, q: Vec, keys: seq<Vec>, vals: seq<Vec>, d: nat, rd: Reading)
    requires WellFormed(m) && |q| == m.headDim && |keys| == |vals|
    requires Uniform(keys, m.headDim) && Uniform(vals, m.headDim) && d < m.headDim
    ensures forall p :: 0 <= p < |keys| ==>
              Eval(Scores(m, q, keys)[p], rd) ==
              Times(Dot(RealRow(q, rd), RealRow(keys[p], rd), 0, m.headDim), Eval(m.scale, rd))
    ensures Eval(HeadOut(m, q, keys, vals)[d], rd) ==
            Dot(RealRow(m.softmax(Scores(m, q, keys)), rd), Coordinate(vals, d, rd), 0, |vals|)
  {
    hide Times, Dot, Score, Mix, RealRow, Coordinate;
    forall p | 0 <= p < |keys|
      ensures Eval(Scores(m, q, keys)[p], rd) ==
              Times(Dot(RealRow(q, rd), RealRow(keys[p], rd), 0, m.headDim), Eval(m.scale, rd))
    {
      ScoreMeaning(m.avx2, q, keys[p], m.scale, rd);
    }
    MixMeaning(Fused(m.avx2, m.headDim, d), m.softmax(Scores(m, q, keys)), vals, d, |vals|, rd);
  }

  ghost function Part(vs: seq<Vec>, h: nat, heads: nat, headDim: nat): (r: seq<Vec>)
    requires h < heads && Uniform(vs, heads * headDim)
    ensures |r| == |vs| && Uniform(r, headDim)
  {
    HeadFits(h, heads, headDim);
    seq(|vs|, j requires 0 <= j < |vs| => HeadPart(vs[j], h, headDim))
  }

  /** Which key/value head a query head reads. */
  function KVHead(m: Model, h: nat): (r: nat)
    requires m.numKVHeads > 0 && m.numHeads % m.numKVHeads == 0 && h < m.numHeads
    ensures r < m.numKVHeads
  {
    GroupBound(h, m.numHeads, m.numKVHeads);
    h / (m.numHeads / m.numKVHeads)
  }

  lemma GroupBound(h: nat, heads: nat, kv: nat)
    requires kv > 0 && heads % kv == 0 && h < heads
    ensures heads / kv > 0 && h / (heads / kv) < kv
  {
    var g := heads / kv;
    assert heads == g * kv;
    if h / g >= kv {
      Monotone(kv, h / g, g);
    }
  }

  ghost function HeadOf(m: Model, q: Vec, keys: seq<Vec>, vals: seq<Vec>, h: nat): (r: Vec)
    requires WellFormed(m) && |q| == m.numHeads * m.headDim && |keys| == |vals| && h < m.numHeads
    requires Uniform(keys, m.numKVHeads * m.headDim) && Uniform(vals, m.numKVHeads * m.headDim)
    ensures |r| == m.headDim
  {
    HeadFits(h, m.numHeads, m.headDim);
    HeadOut(m, HeadPart(q, h, m.headDim),
            Part(keys, KVHead(m, h), m.numKVHeads, m.headDim), Part(vals, KVHead(m, h), m.numKVHeads, m.headDim))
  }

  /** The outputs of the first `n` heads, one after the other. */
  ghost function Attended(m: Model, q: Vec, keys: seq<Vec>, vals: seq<Vec>, n: nat): (r: Vec)
    requires WellFormed(m) && |q| == m.numHeads * m.headDim && |keys| == |vals| && n <= m.numHeads
    requires Uniform(keys, m.numKVHeads * m.headDim) && Uniform(vals, m.numKVHeads * m.headDim)
    ensures |r| == n * m.headDim
  {
    if n == 0 then [] else Attended(m, q, keys, vals, n - 1) + HeadOf(m, q, keys, vals, n - 1)
  }

  // ----- recomputing from scratch -----

  ghost function KeysOf(m: Model, l: nat, xs: seq<Vec>): (r: seq<Vec>)
    requires WellFormed(m)
    ensures |r| == |xs| && Uniform(r, m.numKVHeads * m.headDim)
  {
    seq(|xs|, j requires 0 <= j < |xs| => m.key(l, xs[j], j))
  }

  ghost function ValuesOf(m: Model, l: nat, xs: seq<Vec>): (r: seq<Vec>)
    requires WellFormed(m)
    ensures |r| == |xs| && Uniform(r, m.numKVHeads * m.headDim)
  {
    seq(|xs|, j requires 0 <= j < |xs| => m.value(l, xs[j]))
  }

  /** One layer at the last of the positions whose hidden states are given. */
  ghost function LayerOut(m: Model, l: nat, xs: seq<Vec>): Vec
    requires WellFormed(m) && xs != []
  {
    var p := |xs| - 1;
    var q := m.query(l, xs[p], p);
    m.merge(l, xs[p], Attended(m, q, KeysOf(m, l, xs), ValuesOf(m, l, xs), m.numHeads))
  }

  /** The hidden state entering layer `l` at position `p` of a token sequence. */
  ghost function Hidden(m: Model, l: nat, ids: seq<int>, p: nat): Vec
    requires WellFormed(m) && p < |ids|
    decreases l, 0
  {
    if l == 0 then TokenRow(m.embed, ids[p])
    else LayerOut(m, l - 1, HiddenUpTo(m, l - 1, ids, p + 1))
  }

  ghost function HiddenUpTo(m: Model, l: nat, ids: seq<int>, n: nat): (xs: seq<Vec>)
    requires WellFormed(m) && n <= |ids|
    ensures |xs| == n
    decreases l, 1
  {
    seq(n, j requires 0 <= j < n => Hidden(m, l, ids, j))
  }

  /** What a forward pass over all of `ids` returns for the last one. */
  ghost function Final(m: Model, ids: seq<int>): Vec
    requires WellFormed(m) && ids != []
  {
    m.finish(Hidden(m, m.numLayers, ids, |ids| - 1))
  }

  ghost function KeyAt(m: Model, l: nat, ids: seq<int>, p: nat): (r: Vec)
    requires WellFormed(m) && p < |ids|
    ensures |r| == m.numKVHeads * m.headDim
  {
    m.key(l, Hidden(m, l, ids, p), p)
  }

  ghost function ValueAt(m: Model, l: nat, ids: seq<int>, p: nat): (r: Vec)
    requires WellFormed(m) && p < |ids|
    ensures |r| == m.numKVHeads * m.headDim
  {
    m.value(l, Hidden(m, l, ids, p))
  }

  /** A position depends on the tokens up to it and on nothing behind it. */
  lemma {:induction false} Causal(m: Model, l: nat, ids: seq<int>, other: seq<int>, p: nat)
    requires WellFormed(m) && p < |ids| && p < |other| && ids[..p + 1] == other[..p + 1]
    ensures Hidden(m, l, ids, p) == Hidden(m, l, other, p)
    decreases l
  {
    hide LayerOut;
    if l == 0 {
      assert ids[p] == ids[..p + 1][p] == other[p];
    } else {
      var k, n := l - 1, p + 1;
      forall j | 0 <= j < n
        ensures Hidden(m, k, ids, j) == Hidden(m, k, other, j)
      {
        assert ids[..j + 1] == ids[..p + 1][..j + 1];
        assert other[..j + 1] == other[..p + 1][..j + 1];
        Causal(m, l - 1, ids, other, j);
      }
      assert HiddenUpTo(m, l - 1, ids, p + 1) == HiddenUpTo(m, l - 1, other, p + 1);
    }
  }
}
