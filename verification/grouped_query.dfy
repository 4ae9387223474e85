/** Grouped-query attention written out: key/value head `k` serves a run of query heads, and an output coordinate is a
    weighted sum over the entries of that head's slices. */
module GroupedQuery {
  import opened Machine
  import opened Float32
  import opened FloatLanes
  import opened RealSums
  import opened Attention
  import opened KVCaches
  import opened Transformer
  import opened AttentionHeads
  import opened Embedding

  /** With `g` query heads to a key/value head, head `k` serves exactly the heads `k*g` up to `(k+1)*g`. */
  lemma GroupOf(m: Model, h: nat, k: nat)
    requires WellFormed(m) && h < m.numHeads
    ensures var g := m.numHeads / m.numKVHeads;
            KVHead(m, h) == k <==> k * g <= h < (k + 1) * g
  {
    var g := m.numHeads / m.numKVHeads;
    GroupBound(h, m.numHeads, m.numKVHeads);
    QuotientIff(h, g, k);
  }

  lemma QuotientIff(h: nat, g: nat, k: nat)
    requires g > 0
    ensures h / g == k <==> k * g <= h < (k + 1) * g
  {
    var q, r := h / g, h % g;
    assert h == q * g + r;
    assert (k + 1) * g == k * g + g;
    if k * g <= h < (k + 1) * g {
      DivModUnique(h, k, h - k * g, g);
    }
    assert (q + 1) * g == q * g + g;
  }

  /** Query head `h` is one of those that key/value head `k` serves. */
  ghost predicate Serves(m: Model, k: nat, h: nat)
    requires WellFormed(m)
  {
    var g := m.numHeads / m.numKVHeads;
    h < m.numHeads && k < m.numKVHeads && k * g <= h < k * g + g
  }

  lemma ServesIff(m: Model, k: nat, h: nat)
    requires WellFormed(m) && h < m.numHeads
    ensures Serves(m, k, h) <==> KVHead(m, h) == k
  {
    var g := m.numHeads / m.numKVHeads;
    GroupOf(m, h, k);
    assert (k + 1) * g == k * g + g;
  }

  lemma ServesHead(m: Model, k: nat, h: nat)
    requires WellFormed(m) && Serves(m, k, h)
    ensures h < m.numHeads && k < m.numKVHeads && KVHead(m, h) == k
  {
    hide WellFormed, KVHead;
    ServesIff(m, k, h);
  }

  /** The slice of each vector that belongs to key/value head `k`. */
  ghost function Slices(m: Model, vs: seq<Vec>, k: nat): (r: seq<Vec>)
    requires k < m.numKVHeads && Uniform(vs, m.numKVHeads * m.headDim)
    ensures |r| == |vs| && Uniform(r, m.headDim)
  {
    HeadFits(k, m.numKVHeads, m.headDim);
    seq(|vs|, j requires 0 <= j < |vs| => vs[j][k * m.headDim..k * m.headDim + m.headDim])
  }

  lemma PartIsSlices(m: Model, vs: seq<Vec>, k: nat)
    requires k < m.numKVHeads && Uniform(vs, m.numKVHeads * m.headDim)
    ensures Part(vs, k, m.numKVHeads, m.headDim) == Slices(m, vs, k)
  {
    HeadFits(k, m.numKVHeads, m.headDim);
  }

  /** The output of a query head is attention over the slices of the key/value head that serves it. */
  lemma HeadOfGroup(m: Model, q: Vec, keys: seq<Vec>, vals: seq<Vec>, k: nat, h: nat)
    requires WellFormed(m) && |q| == m.numHeads * m.headDim && |keys| == |vals|
    requires Uniform(keys, m.numKVHeads * m.headDim) && Uniform(vals, m.numKVHeads * m.headDim) && Serves(m, k, h)
    ensures 0 <= h * m.headDim && h * m.headDim + m.headDim <= |q|
    ensures HeadOf(m, q, keys, vals, h) ==
            HeadOut(m, q[h * m.headDim..h * m.headDim + m.headDim], Slices(m, keys, k), Slices(m, vals, k))
  {
    hide WellFormed, HeadOut, KVHead, Part, Slices, Uniform, Serves;
    ServesHead(m, k, h);
    KVHeadBound(m, h);
    HeadFits(h, m.numHeads, m.headDim);
    PartIsSlices(m, keys, k);
    PartIsSlices(m, vals, k);
  }

  /** The outputs of the heads stand one after the other. */
  lemma {:induction false} AttendedSlice(m: Model, q: Vec, keys: seq<Vec>, vals: seq<Vec>, n: nat, h: nat)
    requires WellFormed(m) && |q| == m.numHeads * m.headDim && |keys| == |vals| && h < n <= m.numHeads
    requires Uniform(keys, m.numKVHeads * m.headDim) && Uniform(vals, m.numKVHeads * m.headDim)
    ensures 0 <= h * m.headDim && h * m.headDim + m.headDim <= n * m.headDim
    ensures Attended(m, q, keys, vals, n)[h * m.headDim..h * m.headDim + m.headDim] == HeadOf(m, q, keys, vals, h)
    decreases n
  {
    hide WellFormed, HeadOf;
    var hd, a := m.headDim, Attended(m, q, keys, vals, n - 1);
    HeadFits(h, n, hd);
    assert n * hd == (n - 1) * hd + hd;
    if h < n - 1 {
      AttendedSlice(m, q, keys, vals, n - 1, h);
      assert Attended(m, q, keys, vals, n)[h * hd..h * hd + hd] == a[h * hd..h * hd + hd];
    }
  }

  /** What a query head makes of the cache: attention over the cached vectors of the key/value head that serves it. */
  lemma TargetOfGroup(m: Model, sh: Shape, data: Vec, layer: nat, pos: nat, q: Vec, k: nat, h: nat)
    requires WellFormed(m) && SameShape(m, sh) && |data| == TotalElements(sh)
    requires layer < sh.numLayers && pos < sh.maxTokens && |q| == m.numHeads * m.headDim && Serves(m, k, h)
    ensures 0 <= h * m.headDim && h * m.headDim + m.headDim <= |q|
    ensures HeadTarget(m, sh, data, layer, pos, q, h) ==
            HeadOut(m, q[h * m.headDim..h * m.headDim + m.headDim],
                    seq(pos + 1, p requires 0 <= p < pos + 1 => Cell(sh, data, Coord(false, layer, k, p))),
                    seq(pos + 1, p requires 0 <= p < pos + 1 => Cell(sh, data, Coord(true, layer, k, p))))
  {
    hide WellFormed, HeadOut, KVHead, Cell, TotalElements;
    ServesIff(m, k, h);
    HeadFits(h, m.numHeads, m.headDim);
    assert Cached(sh, data, false, layer, k, pos + 1) ==
           seq(pos + 1, p requires 0 <= p < pos + 1 => Cell(sh, data, Coord(false, layer, k, p)));
    assert Cached(sh, data, true, layer, k, pos + 1) ==
           seq(pos + 1, p requires 0 <= p < pos + 1 => Cell(sh, data, Coord(true, layer, k, p)));
  }

  // ----- a layer, entry by entry -----

  /** The scaled dot product of the slice of `q` at `qo` with the slice of `key` at `ko`. */
  function ScaledDot(q: Vec, qo: nat, key: Vec, ko: nat, n: nat, scale: F32, rd: Reading): real
    requires qo + n <= |q| && ko + n <= |key|
  {
    Dot(RealRow(q[qo..qo + n], rd), RealRow(key[ko..ko + n], rd), 0, n) * Eval(scale, rd)
  }

  /** Entry `e` of each vector, as reals. */
  function Entries(vs: seq<Vec>, e: nat, rd: Reading): (r: seq<real>)
    requires forall j :: 0 <= j < |vs| ==> e < |vs[j]|
    ensures |r| == |vs|
  {
    seq(|vs|, j requires 0 <= j < |vs| => Eval(vs[j][e], rd))
  }

  /** `s` holds the scaled dot products of the query's slice `h` with the slices `k` of the keys. */
  ghost predicate ScoredBy(m: Model, q: Vec, keys: seq<Vec>, k: nat, h: nat, s: Vec, rd: Reading)
    requires |q| == m.numHeads * m.headDim && h < m.numHeads && k < m.numKVHeads && Uniform(keys, m.numKVHeads * m.headDim)
  {
    HeadFits(h, m.numHeads, m.headDim);
    HeadFits(k, m.numKVHeads, m.headDim);
    |s| == |keys| && forall j :: 0 <= j < |s| ==>
      Eval(s[j], rd) == ScaledDot(q, h * m.headDim, keys[j], k * m.headDim, m.headDim, m.scale, rd)
  }

  /** `v` is the sum over the positions of entry `k*headDim + d` of the value, weighted by `w`. */
  ghost predicate Weighted(m: Model, w: Vec, vals: seq<Vec>, k: nat, d: nat, v: F32, rd: Reading)
    requires k < m.numKVHeads && d < m.headDim && Uniform(vals, m.numKVHeads * m.headDim)
  {
    HeadFits(k, m.numKVHeads, m.headDim);
    |w| == |vals| && Eval(v, rd) == Dot(RealRow(w, rd), Entries(vals, k * m.headDim + d, rd), 0, |vals|)
  }

  lemma OneScore(avx2: bool, q: Vec, qo: nat, key: Vec, ko: nat, n: nat, scale: F32, rd: Reading)
    requires qo + n <= |q| && ko + n <= |key|
    ensures Eval(Score(avx2, q[qo..qo + n], key[ko..ko + n], scale), rd) == ScaledDot(q, qo, key, ko, n, scale, rd)
  {
    hide Dot, RealRow, Eval, Score;
    ScoreMeaning(avx2, q[qo..qo + n], key[ko..ko + n], scale, rd);
  }

  lemma SliceAt(m: Model, vs: seq<Vec>, k: nat, j: nat)
    requires k < m.numKVHeads && Uniform(vs, m.numKVHeads * m.headDim) && j < |vs|
    ensures 0 <= k * m.headDim && k * m.headDim + m.headDim <= |vs[j]|
    ensures Slices(m, vs, k)[j] == vs[j][k * m.headDim..k * m.headDim + m.headDim]
  {
    HeadFits(k, m.numKVHeads, m.headDim);
  }

  lemma SlicesScored(m: Model, q: Vec, keys: seq<Vec>, k: nat, h: nat, rd: Reading)
    requires |q| == m.numHeads * m.headDim && h < m.numHeads && k < m.numKVHeads && Uniform(keys, m.numKVHeads * m.headDim)
    ensures 0 <= h * m.headDim && h * m.headDim + m.headDim <= |q|
    ensures ScoredBy(m, q, keys, k, h, Scores(m, q[h * m.headDim..h * m.headDim + m.headDim], Slices(m, keys, k)), rd)
  {
    hide Eval, Score, ScaledDot, Slices, Uniform;
    HeadFits(h, m.numHeads, m.headDim);
    var qo, ko := h * m.headDim, k * m.headDim;
    var part := q[qo..qo + m.headDim];
    UniformSlices(m, keys, k);
    forall j | 0 <= j < |keys|
      ensures ko + m.headDim <= |keys[j]|
      ensures Eval(Scores(m, part, Slices(m, keys, k))[j], rd) == ScaledDot(q, qo, keys[j], ko, m.headDim, m.scale, rd)
    {
      SliceAt(m, keys, k, j);
      OneScore(m.avx2, q, qo, keys[j], ko, m.headDim, m.scale, rd);
    }
  }

  lemma UniformSlices(m: Model, vs: seq<Vec>, k: nat)
    requires k < m.numKVHeads && Uniform(vs, m.numKVHeads * m.headDim)
    ensures forall j :: 0 <= j < |vs| ==> |Slices(m, vs, k)[j]| == m.headDim
  {
  }

  lemma SlicesWeighted(m: Model, q: Vec, ks: seq<Vec>, vals: seq<Vec>, k: nat, d: nat, rd: Reading)
    requires WellFormed(m) && |q| == m.headDim && Uniform(ks, m.headDim) && |ks| == |vals|
    requires k < m.numKVHeads && d < m.headDim && Uniform(vals, m.numKVHeads * m.headDim)
    ensures Weighted(m, m.softmax(Scores(m, q, ks)), vals, k, d, HeadOut(m, q, ks, Slices(m, vals, k))[d], rd)
  {
    hide Dot, RealRow, Eval, HeadOut, Scores, WellFormed;
    HeadFits(k, m.numKVHeads, m.headDim);
    HeadMeaning(m, q, ks, Slices(m, vals, k), d, rd);
    assert Coordinate(Slices(m, vals, k), d, rd) == Entries(vals, k * m.headDim + d, rd);
    SoftmaxLength(m, Scores(m, q, ks));
  }

  lemma AttendedAt(m: Model, q: Vec, keys: seq<Vec>, vals: seq<Vec>, k: nat, h: nat, d: nat)
    requires WellFormed(m) && |q| == m.numHeads * m.headDim && |keys| == |vals| && d < m.headDim
    requires Uniform(keys, m.numKVHeads * m.headDim) && Uniform(vals, m.numKVHeads * m.headDim) && Serves(m, k, h)
    ensures 0 <= h * m.headDim && h * m.headDim + m.headDim <= |q|
    ensures Attended(m, q, keys, vals, m.numHeads)[h * m.headDim + d] ==
            HeadOut(m, q[h * m.headDim..h * m.headDim + m.headDim], Slices(m, keys, k), Slices(m, vals, k))[d]
  {
    hide WellFormed, HeadOut, Uniform, Attended, HeadOf, Slices;
    AttendedSlice(m, q, keys, vals, m.numHeads, h);
    HeadOfGroup(m, q, keys, vals, k, h);
    SliceEntry(Attended(m, q, keys, vals, m.numHeads), h * m.headDim, m.headDim, d);
  }

  /** Coordinate `d` of the output of query head `h`, which key/value head `k` serves: the values' entries of head `k`,
      weighted by the softmax of the scores of the query's slice `h` against the keys' slices `k`. */
  lemma AttendedEntry(m: Model, q: Vec, keys: seq<Vec>, vals: seq<Vec>, k: nat, h: nat, d: nat, rd: Reading) returns (s: Vec)
    requires WellFormed(m) && |q| == m.numHeads * m.headDim && |keys| == |vals| && d < m.headDim
    requires Uniform(keys, m.numKVHeads * m.headDim) && Uniform(vals, m.numKVHeads * m.headDim) && Serves(m, k, h)
    ensures ScoredBy(m, q, keys, k, h, s, rd)
    ensures 0 <= h * m.headDim && h * m.headDim + d < |Attended(m, q, keys, vals, m.numHeads)|
    ensures Weighted(m, m.softmax(s), vals, k, d, Attended(m, q, keys, vals, m.numHeads)[h * m.headDim + d], rd)
  {
    hide WellFormed, Scores, HeadOut, Uniform, Attended, Slices, ScoredBy, Weighted;
    HeadFits(h, m.numHeads, m.headDim);
    AttendedAt(m, q, keys, vals, k, h, d);
    var part := q[h * m.headDim..h * m.headDim + m.headDim];
    UniformSlices(m, keys, k);
    s := Scores(m, part, Slices(m, keys, k));
    SlicesScored(m, q, keys, k, h, rd);
    SlicesWeighted(m, part, Slices(m, keys, k), vals, k, d, rd);
  }

  lemma SliceEntry(v: Vec, at: nat, n: nat, d: nat)
    requires at + n <= |v| && d < n
    ensures v[at..at + n][d] == v[at + d]
  {
  }

  lemma SoftmaxLength(m: Model, s: Vec)
    requires WellFormed(m)
    ensures |m.softmax(s)| == |s|
  {
  }

  // ----- a whole layer -----

  /** The keys of layer `l` up to position `p`, each at its own position. */
  ghost function LayerKeys(m: Model, l: nat, ids: seq<int>, p: nat): (r: seq<Vec>)
    requires WellFormed(m) && p < |ids|
    ensures |r| == p + 1 && Uniform(r, m.numKVHeads * m.headDim)
  {
    seq(p + 1, j requires 0 <= j < p + 1 => KeyAt(m, l, ids, j))
  }

  ghost function LayerValues(m: Model, l: nat, ids: seq<int>, p: nat): (r: seq<Vec>)
    requires WellFormed(m) && p < |ids|
    ensures |r| == p + 1 && Uniform(r, m.numKVHeads * m.headDim)
  {
    seq(p + 1, j requires 0 <= j < p + 1 => ValueAt(m, l, ids, j))
  }

  /** The hidden state behind a layer, from the hidden states before it. */
  lemma LayerUnfolded(m: Model, l: nat, ids: seq<int>, p: nat)
    requires WellFormed(m) && p < |ids|
    ensures Hidden(m, 0, ids, p) == TokenRow(m.embed, ids[p])
    ensures forall j :: 0 <= j <= p ==> LayerKeys(m, l, ids, p)[j] == m.key(l, Hidden(m, l, ids, j), j)
    ensures forall j :: 0 <= j <= p ==> LayerValues(m, l, ids, p)[j] == m.value(l, Hidden(m, l, ids, j))
    ensures var x := Hidden(m, l, ids, p);
            Hidden(m, l + 1, ids, p) ==
            m.merge(l, x, Attended(m, m.query(l, x, p), LayerKeys(m, l, ids, p), LayerValues(m, l, ids, p), m.numHeads))
  {
    hide Attended, TokenRow;
    var xs := HiddenUpTo(m, l, ids, p + 1);
    assert KeysOf(m, l, xs) == LayerKeys(m, l, ids, p);
    assert ValuesOf(m, l, xs) == LayerValues(m, l, ids, p);
  }
}
