/** Attention over the cache, one head after the other or split over the workers. */
module AttentionHeads {
  import opened Float32
  import opened Attention
  import opened KVCaches
  import opened Transformer
  import opened Partition

  const ATTN_PARALLEL_THRESHOLD: nat := 256

  /** The cached keys (or values) of one head at the first `n` positions. */
  ghost function Cached(sh: Shape, data: Vec, isV: bool, layer: nat, head: nat, n: nat): (r: seq<Vec>)
    requires |data| == TotalElements(sh) && layer < sh.numLayers && head < sh.numKVHeads && n <= sh.maxTokens
    ensures |r| == n && Uniform(r, sh.headDim)
  {
    seq(n, p requires 0 <= p < n => Cell(sh, data, Coord(isV, layer, head, p)))
  }

  ghost predicate SameShape(m: Model, sh: Shape) {
    sh.numLayers == m.numLayers && sh.numKVHeads == m.numKVHeads && sh.headDim == m.headDim
  }

  ghost predicate RowEquals(base: Vec, hd: nat, p: nat, row: Vec) {
    p * hd + hd <= |base| && base[p * hd..p * hd + hd] == row
  }

  /** The strided rows behind a head's base offset are its cached vectors. */
  lemma RowsAreCells(sh: Shape, data: Vec, isV: bool, layer: nat, head: nat, p: nat)
    requires |data| == TotalElements(sh)
    requires InRange(sh, Coord(isV, layer, head, p)) && InRange(sh, Coord(isV, layer, head, 0))
    ensures 0 <= GetOffset(sh, Coord(isV, layer, head, 0)) <= |data|
    ensures RowEquals(data[GetOffset(sh, Coord(isV, layer, head, 0))..], sh.headDim, p, Cell(sh, data, Coord(isV, layer, head, p)))
  {
    hide GetOffset;
    var c := Coord(isV, layer, head, p);
    Inside(sh, c);
    Inside(sh, c.(pos := 0));
    Strided(sh, c);
  }

  /** Over the cached rows, a strided column is the mix of the cached vectors. */
  lemma {:induction false} ColumnIsMix(mx: Mixing, fused: bool, cells: seq<Vec>, d: nat, n: nat)
    requires n <= |mx.scores| && n <= |cells| && Uniform(cells, mx.hd) && d < mx.hd && mx.stride == mx.hd
    requires forall p: nat :: p < n ==> RowIs(mx.vbase, mx.hd, p, cells)
    ensures RowsReach(mx, d, n)
    ensures Column(mx, fused, d, n) == Mix(fused, mx.scores, cells, d, n)
    decreases n
  {
    hide Accumulate;
    var hd := mx.hd;
    forall p: nat | p < n
      ensures p * hd + d < |mx.vbase|
    {
      assert RowIs(mx.vbase, hd, p, cells);
    }
    if n > 0 {
      ColumnIsMix(mx, fused, cells, d, n - 1);
      assert RowIs(mx.vbase, hd, n - 1, cells);
      assert mx.vbase[(n - 1) * hd..(n - 1) * hd + hd][d] == mx.vbase[(n - 1) * hd + d];
    }
  }

  ghost predicate RowIs(base: Vec, hd: nat, p: nat, cells: seq<Vec>) {
    p < |cells| && RowEquals(base, hd, p, cells[p])
  }

  /** What one head makes of the cache. */
  ghost function HeadTarget(m: Model, sh: Shape, data: Vec, layer: nat, pos: nat, q: Vec, h: nat): (r: Vec)
    requires WellFormed(m) && SameShape(m, sh) && |data| == TotalElements(sh)
    requires layer < sh.numLayers && pos < sh.maxTokens && h < m.numHeads && |q| == m.numHeads * m.headDim
    ensures |r| == m.headDim
  {
    HeadFits(h, m.numHeads, m.headDim);
    HeadOut(m, HeadPart(q, h, m.headDim), Cached(sh, data, false, layer, KVHead(m, h), pos + 1),
            Cached(sh, data, true, layer, KVHead(m, h), pos + 1))
  }

  lemma ScoresMatch(m: Model, q: Vec, kbase: Vec, cells: seq<Vec>, scores: Vec)
    requires |q| == m.headDim && Uniform(cells, m.headDim) && |scores| == |cells|
    requires RowsAre(kbase, m.headDim, cells)
    requires forall p: nat :: p < |cells| ==>
               RowIs(kbase, m.headDim, p, cells) && scores[p] == Score(m.avx2, q[..m.headDim], Row(kbase, p, m.headDim, m.headDim), m.scale)
    ensures scores == Scores(m, q, cells)
  {
    hide Score;
    assert q[..m.headDim] == q;
    forall p: nat | p < |cells|
      ensures scores[p] == Scores(m, q, cells)[p]
    {
      assert RowIs(kbase, m.headDim, p, cells);
    }
  }

  /** The columns the kernel wrote are the coordinates of the head's output. */
  lemma ColumnsMatch(m: Model, q: Vec, keys: seq<Vec>, vals: seq<Vec>, weights: Vec, vbase: Vec,
                     before: Vec, after: Vec, o: nat)
    requires WellFormed(m) && |q| == m.headDim && |keys| == |vals| == |weights|
    requires Uniform(keys, m.headDim) && Uniform(vals, m.headDim)
    requires weights == m.softmax(Scores(m, q, keys))
    requires RowsAre(vbase, m.headDim, vals)
    requires OutDone(before, after, o, m.headDim, Mixing(m.avx2, m.headDim, weights, vbase, m.headDim), |vals|)
    ensures o + m.headDim <= |after| && after[o..o + m.headDim] == HeadOut(m, q, keys, vals)
  {
    hide Scores, RowIs, Column, Mix, Fused;
    var mx, target := Mixing(m.avx2, m.headDim, weights, vbase, m.headDim), HeadOut(m, q, keys, vals);
    forall d: nat | d < m.headDim
      ensures after[o..o + m.headDim][d] == target[d]
    {
      ColumnIsMix(mx, Fused(m.avx2, m.headDim, d), vals, d, |vals|);
      assert ColumnAt(after, o, mx, d, |vals|);
    }
  }

  /** Which head an output slice belongs to. */
  ghost predicate HeadDone(out: Vec, h: nat, hd: nat, target: Vec) {
    h * hd + hd <= |out| && out[h * hd..h * hd + hd] == target
  }

  ghost predicate HeadKept(before: Vec, after: Vec, h: nat, hd: nat) {
    h * hd + hd <= |before| && h * hd + hd <= |after| && after[h * hd..h * hd + hd] == before[h * hd..h * hd + hd]
  }

  ghost predicate OnlyHead(before: Vec, after: Vec, h: nat, heads: nat, hd: nat) {
    forall g: nat :: g < heads && g != h ==> HeadKept(before, after, g, hd)
  }

  lemma OthersKept(before: Vec, after: Vec, h: nat, g: nat, mx: Mixing, n: nat)
    requires g != h && g * mx.hd + mx.hd <= |before|
    requires OutDone(before, after, h * mx.hd, mx.hd, mx, n)
    ensures HeadKept(before, after, g, mx.hd)
  {
    hide ColumnAt;
    Apart(g, h, mx.hd);
  }

  ghost predicate RowsAre(base: Vec, hd: nat, cells: seq<Vec>) {
    forall p: nat :: p < |cells| ==> RowIs(base, hd, p, cells)
  }

  /** A head's base offset lies in the buffer and what follows it are the cached rows. */
  lemma CachedRows(sh: Shape, data: Vec, isV: bool, layer: nat, head: nat, pos: nat)
    requires |data| == TotalElements(sh)
    requires InRange(sh, Coord(isV, layer, head, pos))
    ensures var base := GetOffset(sh, Coord(isV, layer, head, 0));
            0 <= base <= |data| && RowsAre(data[base..], sh.headDim, Cached(sh, data, isV, layer, head, pos + 1))
  {
    hide GetOffset, TotalElements;
    var base := GetOffset(sh, Coord(isV, layer, head, 0));
    RowsAreCells(sh, data, isV, layer, head, 0);
    var cells, rows := Cached(sh, data, isV, layer, head, pos + 1), data[base..];
    forall p: nat | p < |cells|
      ensures RowIs(rows, sh.headDim, p, cells)
    {
      RowsAreCells(sh, data, isV, layer, head, p);
    }
  }

  /** Scaled scores and softmax, in the scratch that starts at `s0`. */
  method HeadWeights(m: Model, qHead: Vec, kbase: Vec, pos: nat, scores: array<F32>, s0: nat, ghost keys: seq<Vec>)
    requires WellFormed(m) && |qHead| == m.headDim && s0 + pos < scores.Length
    requires |keys| == pos + 1 && Uniform(keys, m.headDim) && RowsAre(kbase, m.headDim, keys)
    modifies scores
    ensures scores[s0..s0 + pos + 1] == m.softmax(Scores(m, qHead, keys))
    ensures forall i :: 0 <= i < scores.Length && !(s0 <= i <= s0 + pos) ==> scores[i] == old(scores[i])
  {
    hide Scores, Score;
    forall p: nat | p <= pos
      ensures p * m.headDim + m.headDim <= |kbase|
    {
      assert RowIs(kbase, m.headDim, p, keys);
    }
    AttnQk(m.avx2, qHead, kbase, pos, m.headDim, m.scale, scores, s0, m.headDim);
    ScoresMatch(m, qHead, kbase, keys, scores[s0..s0 + pos + 1]);
    SoftmaxInPlace(m, scores, s0, pos + 1);
  }

  /** The weighted sum of the values, in the slice of `out` that belongs to the head. */
  method HeadMix(m: Model, weights: Vec, vbase: Vec, pos: nat, out: array<F32>, h: nat,
                 ghost qHead: Vec, ghost keys: seq<Vec>, ghost vals: seq<Vec>)
    requires WellFormed(m) && |qHead| == m.headDim && h < m.numHeads && out.Length == m.numHeads * m.headDim
    requires |keys| == |vals| == |weights| == pos + 1
    requires Uniform(keys, m.headDim) && Uniform(vals, m.headDim) && RowsAre(vbase, m.headDim, vals)
    requires weights == m.softmax(Scores(m, qHead, keys))
    modifies out
    ensures HeadDone(out[..], h, m.headDim, HeadOut(m, qHead, keys, vals))
    ensures OnlyHead(old(out[..]), out[..], h, m.numHeads, m.headDim)
  {
    hide Scores, HeadOut, OutDone, HeadKept;
    var hd := m.headDim;
    HeadFits(h, m.numHeads, hd);
    forall p: nat | p <= pos
      ensures p * hd + hd <= |vbase|
    {
      assert RowIs(vbase, hd, p, vals);
    }
    ghost var before := out[..];
    AttnAv(m.avx2, weights, vbase, pos, hd, out, h * hd, hd);
    ghost var after := out[..];
    ColumnsMatch(m, qHead, keys, vals, weights, vbase, before, after, h * hd);
    forall g: nat | g < m.numHeads && g != h
      ensures HeadKept(before, after, g, hd)
    {
      HeadFits(g, m.numHeads, hd);
      OthersKept(before, after, h, g, Mixing(m.avx2, hd, weights, vbase, hd), pos + 1);
    }
    assert OnlyHead(before, after, h, m.numHeads, hd);
  }

  /** One head: scaled scores, softmax in place, weighted sum into its own slice of `out`. */
  method AttentionHead(m: Model, cache: KVCache, layer: nat, pos: nat, q: Vec, out: array<F32>, h: nat,
                       scores: array<F32>, s0: nat)
    requires WellFormed(m) && cache.Valid() && SameShape(m, cache.sh)
    requires layer < m.numLayers && pos < cache.sh.maxTokens && h < m.numHeads
    requires |q| == m.numHeads * m.headDim == out.Length && s0 + pos < scores.Length
    requires out != scores && out != cache.data && scores != cache.data
    modifies out, scores
    ensures HeadDone(out[..], h, m.headDim, HeadTarget(m, cache.sh, cache.data[..], layer, pos, q, h))
    ensures OnlyHead(old(out[..]), out[..], h, m.numHeads, m.headDim)
    ensures forall i :: 0 <= i < scores.Length && !(s0 <= i <= s0 + pos) ==> scores[i] == old(scores[i])
  {
    hide GetOffset, TotalElements, Scores, HeadOut, RowsAre, HeadDone, OnlyHead, WellFormed, KVHead;
    ghost var data := cache.data[..];
    KVHeadBound(m, h);
    var kvHead := KVHead(m, h);
    HeadFits(h, m.numHeads, m.headDim);
    CachedRows(cache.sh, data, false, layer, kvHead, pos);
    CachedRows(cache.sh, data, true, layer, kvHead, pos);
    var qHead := HeadPart(q, h, m.headDim);
    ghost var keys, vals := Cached(cache.sh, data, false, layer, kvHead, pos + 1), Cached(cache.sh, data, true, layer, kvHead, pos + 1);
    var kOff := cache.Offset(false, layer, kvHead, 0);
    HeadWeights(m, qHead, cache.data[kOff..], pos, scores, s0, keys);
    var vOff := cache.Offset(true, layer, kvHead, 0);
    HeadMix(m, scores[s0..s0 + pos + 1], cache.data[vOff..], pos, out, h, qHead, keys, vals);
  }

  lemma KVHeadBound(m: Model, h: nat)
    requires WellFormed(m) && h < m.numHeads
    ensures m.numKVHeads > 0 && m.numHeads % m.numKVHeads == 0 && KVHead(m, h) < m.numKVHeads
  {
  }

  method SoftmaxInPlace(m: Model, scores: array<F32>, s0: nat, n: nat)
    requires WellFormed(m) && s0 + n <= scores.Length
    modifies scores
    ensures scores[s0..s0 + n] == m.softmax(old(scores[s0..s0 + n]))
    ensures forall i :: 0 <= i < scores.Length && !(s0 <= i < s0 + n) ==> scores[i] == old(scores[i])
  {
    var w := m.softmax(scores[s0..s0 + n]);
    assert |w| == n;
    for i := 0 to n
      invariant forall j :: 0 <= j < scores.Length ==>
                  scores[j] == if s0 <= j < s0 + i then w[j - s0] else old(scores[j])
    {
      scores[s0 + i] := w[i];
    }
  }

  // ----- all heads -----

  ghost predicate Done(m: Model, sh: Shape, data: Vec, layer: nat, pos: nat, q: Vec, out: Vec, h: nat)
    requires WellFormed(m) && SameShape(m, sh) && |data| == TotalElements(sh)
    requires layer < sh.numLayers && pos < sh.maxTokens && |q| == m.numHeads * m.headDim
  {
    h < m.numHeads && HeadDone(out, h, m.headDim, HeadTarget(m, sh, data, layer, pos, q, h))
  }

  /** The heads from `first` up to `last`, one after the other. */
  method AttentionRange(m: Model, cache: KVCache, layer: nat, pos: nat, q: Vec, out: array<F32>, first: nat, last: nat,
                        scores: array<F32>, s0: nat)
    requires WellFormed(m) && cache.Valid() && SameShape(m, cache.sh)
    requires layer < m.numLayers && pos < cache.sh.maxTokens && first <= last <= m.numHeads
    requires |q| == m.numHeads * m.headDim == out.Length && s0 + pos < scores.Length
    requires out != scores && out != cache.data && scores != cache.data
    modifies out, scores
    ensures forall h: nat :: first <= h < last ==> Done(m, cache.sh, cache.data[..], layer, pos, q, out[..], h)
    ensures forall g: nat :: g < m.numHeads && !(first <= g < last) ==> HeadKept(old(out[..]), out[..], g, m.headDim)
    ensures forall i :: 0 <= i < scores.Length && !(s0 <= i <= s0 + pos) ==> scores[i] == old(scores[i])
  {
    hide HeadTarget, WellFormed, TotalElements, HeadDone, OnlyHead;
    ghost var before, data := out[..], cache.data[..];
    NothingKept(m, before);
    for h := first to last
      invariant RangeDone(m, cache.sh, data, layer, pos, q, before, out[..], first, h)
      invariant forall i :: 0 <= i < scores.Length && !(s0 <= i <= s0 + pos) ==> scores[i] == old(scores[i])
    {
      ghost var middle := out[..];
      AttentionHead(m, cache, layer, pos, q, out, h, scores, s0);
      RangeStep(m, cache.sh, data, layer, pos, q, before, middle, out[..], first, h);
    }
  }

  ghost predicate RangeDone(m: Model, sh: Shape, data: Vec, layer: nat, pos: nat, q: Vec, before: Vec, after: Vec, first: nat, h: nat)
    requires WellFormed(m) && SameShape(m, sh) && |data| == TotalElements(sh)
    requires layer < sh.numLayers && pos < sh.maxTokens && |q| == m.numHeads * m.headDim
  {
    && (forall k: nat :: first <= k < h ==> Done(m, sh, data, layer, pos, q, after, k))
    && (forall g: nat :: g < m.numHeads && !(first <= g < h) ==> HeadKept(before, after, g, m.headDim))
  }

  lemma RangeStep(m: Model, sh: Shape, data: Vec, layer: nat, pos: nat, q: Vec,
                  before: Vec, middle: Vec, after: Vec, first: nat, h: nat)
    requires WellFormed(m) && SameShape(m, sh) && |data| == TotalElements(sh)
    requires layer < sh.numLayers && pos < sh.maxTokens && |q| == m.numHeads * m.headDim
    requires first <= h < m.numHeads && RangeDone(m, sh, data, layer, pos, q, before, middle, first, h)
    requires HeadDone(after, h, m.headDim, HeadTarget(m, sh, data, layer, pos, q, h))
    requires OnlyHead(middle, after, h, m.numHeads, m.headDim)
    ensures RangeDone(m, sh, data, layer, pos, q, before, after, first, h + 1)
  {
    hide WellFormed, SameShape, TotalElements, HeadTarget;
    forall k: nat | first <= k < h + 1
      ensures Done(m, sh, data, layer, pos, q, after, k)
    {
      if k < h {
        assert Done(m, sh, data, layer, pos, q, middle, k);
        assert HeadKept(middle, after, k, m.headDim);
      }
    }
    forall g: nat | g < m.numHeads && !(first <= g < h + 1)
      ensures HeadKept(before, after, g, m.headDim)
    {
      assert HeadKept(before, middle, g, m.headDim);
      assert HeadKept(middle, after, g, m.headDim);
    }
  }

  /** What worker `w` of `n` does with the task fields: its own heads, its own scratch region. */
  method RunAttnHeads(m: Model, cache: KVCache, layer: nat, pos: nat, q: Vec, out: array<F32>,
                      scratch: array<F32>, w: nat, n: nat)
    requires WellFormed(m) && cache.Valid() && SameShape(m, cache.sh)
    requires layer < m.numLayers && pos < cache.sh.maxTokens && pos < MAX_CONTEXT_LEN && w < n
    requires |q| == m.numHeads * m.headDim == out.Length && scratch.Length == n * MAX_CONTEXT_LEN
    requires out != scratch && out != cache.data && scratch != cache.data
    modifies out, scratch
    ensures forall h: nat :: Owns(m.numHeads, n, w, h) ==> Done(m, cache.sh, cache.data[..], layer, pos, q, out[..], h)
    ensures forall g: nat :: g < m.numHeads && !Owns(m.numHeads, n, w, g) ==> HeadKept(old(out[..]), out[..], g, m.headDim)
    ensures forall i :: 0 <= i < scratch.Length && !(w * MAX_CONTEXT_LEN <= i < w * MAX_CONTEXT_LEN + MAX_CONTEXT_LEN)
                        ==> scratch[i] == old(scratch[i])
  {
    hide Done, HeadKept, WellFormed, TotalElements;
    RangeWithin(m.numHeads, n, w);
    var startHead := (w * m.numHeads) / n;
    var endHead := ((w + 1) * m.numHeads) / n;
    if startHead >= m.numHeads {
      NothingKept(m, out[..]);
      return;
    }
    if endHead > m.numHeads {
      endHead := m.numHeads;
    }
    var base := w * MAX_CONTEXT_LEN;
    HeadFits(w, n, MAX_CONTEXT_LEN);
    AttentionRange(m, cache, layer, pos, q, out, startHead, endHead, scratch, base);
  }

  lemma NothingKept(m: Model, out: Vec)
    requires |out| == m.numHeads * m.headDim
    ensures forall g: nat :: g < m.numHeads ==> HeadKept(out, out, g, m.headDim)
  {
    forall g: nat | g < m.numHeads
      ensures HeadKept(out, out, g, m.headDim)
    {
      HeadFits(g, m.numHeads, m.headDim);
    }
  }

  /** One worker after the other in an arbitrary order; the outputs are those of the head loop. */
  method ParallelAttention(m: Model, cache: KVCache, layer: nat, pos: nat, q: Vec, out: array<F32>,
                           scores: array<F32>, scratch: array<F32>, n: nat)
    requires WellFormed(m) && cache.Valid() && SameShape(m, cache.sh)
    requires layer < m.numLayers && pos < cache.sh.maxTokens && pos < MAX_CONTEXT_LEN
    requires |q| == m.numHeads * m.headDim == out.Length && pos < scores.Length
    requires scratch.Length == n * MAX_CONTEXT_LEN
    requires out != scratch && out != scores && out != cache.data && scratch != cache.data && scores != cache.data
    modifies out, scores, scratch
    ensures forall h: nat :: h < m.numHeads ==> Done(m, cache.sh, cache.data[..], layer, pos, q, out[..], h)
  {
    hide HeadTarget, WellFormed, TotalElements, Owns;
    if n <= 1 || m.numHeads < 2 || pos < ATTN_PARALLEL_THRESHOLD {
      AttentionRange(m, cache, layer, pos, q, out, 0, m.numHeads, scores, 0);
      return;
    }
    var order := Schedule(n);
    for i := 0 to |order|
      invariant forall h: nat :: h < m.numHeads && Covered(m.numHeads, n, order[..i], h) ==>
                  Done(m, cache.sh, cache.data[..], layer, pos, q, out[..], h)
    {
      ghost var middle := out[..];
      assert order[i] in order;
      RunAttnHeads(m, cache, layer, pos, q, out, scratch, order[i], n);
      forall h: nat | h < m.numHeads && Covered(m.numHeads, n, order[..i + 1], h)
        ensures Done(m, cache.sh, cache.data[..], layer, pos, q, out[..], h)
      {
        if !Owns(m.numHeads, n, order[i], h) {
          assert Covered(m.numHeads, n, order[..i], h);
          assert HeadKept(middle, out[..], h, m.headDim);
        }
      }
    }
    forall h: nat | h < m.numHeads
      ensures Covered(m.numHeads, n, order[..|order|], h)
    {
      AllCovered(m.numHeads, n, order, h);
      assert order[..|order|] == order;
    }
  }

  /** With a pool or without one, every head's slice holds that head's output. */
  method DispatchAttention(pool: bool, m: Model, cache: KVCache, layer: nat, pos: nat, q: Vec, out: array<F32>,
                           scores: array<F32>, scratch: array<F32>, n: nat)
    requires WellFormed(m) && cache.Valid() && SameShape(m, cache.sh)
    requires layer < m.numLayers && pos < cache.sh.maxTokens && pos < MAX_CONTEXT_LEN
    requires |q| == m.numHeads * m.headDim == out.Length && pos < scores.Length
    requires scratch.Length == n * MAX_CONTEXT_LEN
    requires out != scratch && out != scores && out != cache.data && scratch != cache.data && scores != cache.data
    modifies out, scores, scratch
    ensures forall h: nat :: h < m.numHeads ==> Done(m, cache.sh, cache.data[..], layer, pos, q, out[..], h)
  {
    hide HeadTarget, WellFormed, TotalElements;
    if pool {
      ParallelAttention(m, cache, layer, pos, q, out, scores, scratch, n);
    } else {
      AttentionRange(m, cache, layer, pos, q, out, 0, m.numHeads, scores, 0);
    }
  }
}
