/** The key/value cache: one flat buffer [2][layers][heads][positions][headDim], a cursor, and
    the token recorded at each position. Stale entries beyond the cursor stay in the buffer. */
module KVCaches {
  import opened Float32
  import opened Machine

  datatype Shape = Shape(numLayers: nat, numKVHeads: nat, headDim: nat, maxTokens: nat)

  /** One key or value vector of one head at one position. */
  datatype Coord = Coord(isV: bool, layer: nat, head: nat, pos: nat)

  predicate InRange(sh: Shape, c: Coord) {
    c.layer < sh.numLayers && c.head < sh.numKVHeads && c.pos < sh.maxTokens
  }

  function GetOffset(sh: Shape, c: Coord): int {
    var headStride := sh.headDim;
    var posStride := sh.headDim;
    var headGroupStride := sh.maxTokens * headStride;
    var layerStride := sh.numKVHeads * headGroupStride;
    var kvStride := sh.numLayers * layerStride;
    var base := if c.isV then kvStride else 0;
    base + c.layer * layerStride + c.head * headGroupStride + c.pos * posStride
  }

  function TotalElements(sh: Shape): nat {
    2 * sh.numLayers * sh.numKVHeads * sh.maxTokens * sh.headDim
  }

  // ----- the layout is a bijection -----

  /** Number of vectors before this one. */
  function Slot(sh: Shape, c: Coord): nat {
    HeadSlot(sh, c) * sh.maxTokens + c.pos
  }

  function HeadSlot(sh: Shape, c: Coord): nat {
    ((if c.isV then sh.numLayers else 0) + c.layer) * sh.numKVHeads + c.head
  }

  function Slots(sh: Shape): nat {
    2 * sh.numLayers * sh.numKVHeads * sh.maxTokens
  }

  lemma OffsetIsSlot(sh: Shape, c: Coord)
    ensures GetOffset(sh, c) == Slot(sh, c) * sh.headDim
    ensures var plane := if c.isV then sh.numLayers else 0;
            GetOffset(sh, c) == (((plane + c.layer) * sh.numKVHeads + c.head) * sh.maxTokens + c.pos) * sh.headDim
  {
    var a, h, m, d := (if c.isV then sh.numLayers else 0) + c.layer, sh.numKVHeads, sh.maxTokens, sh.headDim;
    var head, pos := c.head, c.pos;
    var group := m * d;
    var layer := h * group;
    var b := if c.isV then sh.numLayers else 0;
    var l := c.layer;
    assert b * layer + l * layer == a * layer by { Factor(b, l, layer); }
    assert a * layer == (a * h) * group by { Reassociate(a, h, group); }
    assert (a * h) * group + head * group == (a * h + head) * group by { Factor(a * h, head, group); }
    var r := a * h + head;
    assert r * group == (r * m) * d by { Reassociate(r, m, d); }
    assert (r * m) * d + pos * d == (r * m + pos) * d by { Factor(r * m, pos, d); }
  }

  lemma Factor(a: int, b: int, k: int)
    ensures a * k + b * k == (a + b) * k
  {
  }

  lemma Reassociate(a: int, b: int, k: int)
    ensures a * (b * k) == (a * b) * k
  {
  }

  /** A digit below its base keeps a mixed-radix number below the next power. */
  lemma DigitBound(a: nat, n: nat, d: nat, b: nat)
    requires a < n && d < b
    ensures a * b + d < n * b
  {
    assert (a + 1) * b <= n * b by { Monotone(a + 1, n, b); }
    assert (a + 1) * b == a * b + b;
  }

  lemma SlotBound(sh: Shape, c: Coord)
    requires InRange(sh, c)
    ensures Slot(sh, c) < Slots(sh)
  {
    var a := (if c.isV then sh.numLayers else 0) + c.layer;
    var n := 2 * sh.numLayers;
    DigitBound(a, n, c.head, sh.numKVHeads);
    DigitBound(a * sh.numKVHeads + c.head, n * sh.numKVHeads, c.pos, sh.maxTokens);
  }

  lemma SameDigits(a: nat, d: nat, a': nat, d': nat, b: nat)
    requires d < b && d' < b && a * b + d == a' * b + d'
    ensures a == a' && d == d'
  {
    DivModUnique(a * b + d, a, d, b);
    DivModUnique(a' * b + d', a', d', b);
  }

  lemma SlotInjective(sh: Shape, c: Coord, c': Coord)
    requires InRange(sh, c) && InRange(sh, c') && Slot(sh, c) == Slot(sh, c')
    ensures c == c'
  {
    hide HeadSlot;
    SameDigits(HeadSlot(sh, c), c.pos, HeadSlot(sh, c'), c'.pos, sh.maxTokens);
    HeadSlotInjective(sh, c, c');
  }

  lemma HeadSlotInjective(sh: Shape, c: Coord, c': Coord)
    requires InRange(sh, c) && InRange(sh, c') && HeadSlot(sh, c) == HeadSlot(sh, c')
    ensures c.isV == c'.isV && c.layer == c'.layer && c.head == c'.head
  {
    var a := (if c.isV then sh.numLayers else 0) + c.layer;
    var a' := (if c'.isV then sh.numLayers else 0) + c'.layer;
    SameDigits(a, c.head, a', c'.head, sh.numKVHeads);
  }

  /** Every place in the buffer belongs to some vector. */
  lemma SlotSurjective(sh: Shape, s: nat) returns (c: Coord)
    requires s < Slots(sh)
    ensures InRange(sh, c) && Slot(sh, c) == s
  {
    hide Slot;
    var m, h, n := sh.maxTokens, sh.numKVHeads, 2 * sh.numLayers;
    var nh := n * h;
    PositiveFactors(nh, m);
    PositiveFactors(n, h);
    var r, pos := Quotient(s, nh, m);
    var a, head := Quotient(r, n, h);
    c := SlotDigits(sh, a, head, pos);
  }

  lemma SlotDigits(sh: Shape, a: nat, head: nat, pos: nat) returns (c: Coord)
    requires a < 2 * sh.numLayers && head < sh.numKVHeads && pos < sh.maxTokens
    ensures InRange(sh, c) && Slot(sh, c) == (a * sh.numKVHeads + head) * sh.maxTokens + pos
  {
    c := if a < sh.numLayers then Coord(false, a, head, pos) else Coord(true, a - sh.numLayers, head, pos);
  }

  lemma PositiveFactors(a: nat, b: nat)
    requires a * b > 0
    ensures a > 0 && b > 0
  {
  }

  lemma Quotient(s: nat, n: nat, b: nat) returns (q: nat, r: nat)
    requires b > 0 && s < n * b
    ensures q < n && r < b && s == q * b + r
  {
    q, r := s / b, s % b;
    if q >= n {
      Monotone(n, q, b);
    }
  }

  /** The vectors lie inside the buffer and no two overlap. */
  lemma Inside(sh: Shape, c: Coord)
    requires InRange(sh, c)
    ensures 0 <= GetOffset(sh, c) && GetOffset(sh, c) + sh.headDim <= TotalElements(sh)
  {
    OffsetIsSlot(sh, c);
    SlotBound(sh, c);
    var s, n, d := Slot(sh, c), Slots(sh), sh.headDim;
    Monotone(s + 1, n, d);
    assert (s + 1) * d == s * d + d;
  }

  lemma Disjoint(sh: Shape, c: Coord, c': Coord)
    requires InRange(sh, c) && InRange(sh, c') && c != c'
    ensures GetOffset(sh, c) + sh.headDim <= GetOffset(sh, c')
            || GetOffset(sh, c') + sh.headDim <= GetOffset(sh, c)
  {
    hide Slot, GetOffset;
    OffsetIsSlot(sh, c);
    OffsetIsSlot(sh, c');
    if Slot(sh, c) == Slot(sh, c') {
      SlotInjective(sh, c, c');
    }
    Apart(Slot(sh, c), Slot(sh, c'), sh.headDim);
  }

  lemma Apart(s: nat, t: nat, d: nat)
    requires s != t
    ensures s * d + d <= t * d || t * d + d <= s * d
  {
    if s < t {
      Monotone(s + 1, t, d);
    } else {
      Monotone(t + 1, s, d);
    }
    assert (s + 1) * d == s * d + d && (t + 1) * d == t * d + d;
  }

  /** The positions of one head follow each other: the base a kernel strides from. */
  lemma Strided(sh: Shape, c: Coord)
    ensures GetOffset(sh, c) == GetOffset(sh, c.(pos := 0)) + c.pos * sh.headDim
  {
  }

  // ----- the cache -----

  /** The vector at a coordinate of a buffer. */
  function Cell(sh: Shape, data: Vec, c: Coord): (r: Vec)
    requires InRange(sh, c) && |data| == TotalElements(sh)
    ensures |r| == sh.headDim
  {
    Inside(sh, c);
    data[GetOffset(sh, c)..GetOffset(sh, c) + sh.headDim]
  }

  /** The part of a per-position vector that belongs to a head. */
  function HeadPart(v: Vec, h: nat, headDim: nat): (r: Vec)
    requires h * headDim + headDim <= |v|
    ensures |r| == headDim
  {
    v[h * headDim..h * headDim + headDim]
  }

  class KVCache {
    const sh: Shape
    const data: array<F32>
    const tokenIDs: array<int>
    var seqLen: nat

    ghost predicate Valid()
      reads this
    {
      && data.Length == TotalElements(sh)
      && tokenIDs.Length == sh.maxTokens
      && seqLen <= sh.maxTokens
    }

    /** The tokens the cache stands for. */
    ghost function Ids(): seq<int>
      reads this, tokenIDs
      requires Valid()
    {
      tokenIDs[..seqLen]
    }

    constructor (sh: Shape)
      ensures Valid() && this.sh == sh && seqLen == 0 && fresh(data) && fresh(tokenIDs)
    {
      this.sh := sh;
      data := new F32[TotalElements(sh)];
      tokenIDs := new int[sh.maxTokens];
      seqLen := 0;
    }

    method Reset()
      requires Valid()
      modifies this`seqLen
      ensures Valid() && Ids() == []
    {
      seqLen := 0;
    }

    /** Moves the cursor back; never below 0 and never forward. */
    method Rewind(n: int)
      requires Valid()
      modifies this`seqLen
      ensures Valid()
      ensures Ids() == if n < 0 then old(Ids()) else if n > |old(Ids())| then [] else old(Ids())[..|old(Ids())| - n]
    {
      var m := n;
      if m < 0 {
        m := 0;
      }
      if m > seqLen {
        m := seqLen;
      }
      seqLen := seqLen - m;
    }

    method StoreTokenID(pos: int, tokenID: int)
      requires Valid()
      modifies tokenIDs
      ensures tokenIDs[..] == if 0 <= pos < sh.maxTokens then old(tokenIDs[..])[pos := tokenID] else old(tokenIDs[..])
    {
      if pos < 0 || pos >= sh.maxTokens {
        return;
      }
      tokenIDs[pos] := tokenID;
    }

    function Offset(isV: bool, layer: nat, kvHead: nat, pos: nat): int {
      GetOffset(sh, Coord(isV, layer, kvHead, pos))
    }

    /** Writes the vectors of all heads at one layer and position; every other vector keeps its value.
        A position outside the cache is ignored. */
    method StoreKV(layer: nat, pos: int, k: Vec, v: Vec)
      requires Valid() && layer < sh.numLayers
      requires |k| == |v| == sh.numKVHeads * sh.headDim
      modifies data
      ensures forall c :: InRange(sh, c) ==>
                Stored(sh, old(data[..]), data[..], layer, pos, k, v, c)
    {
      if pos < 0 || pos >= sh.maxTokens {
        return;
      }
      ghost var before := data[..];
      for h := 0 to sh.numKVHeads
        invariant forall c :: InRange(sh, c) ==>
                    if c.head < h then Stored(sh, before, data[..], layer, pos, k, v, c)
                    else Cell(sh, data[..], c) == Cell(sh, before, c)
      {
        ghost var middle := data[..];
        HeadFits(h, sh.numKVHeads, sh.headDim);
        CopyVector(Coord(false, layer, h, pos), HeadPart(k, h, sh.headDim));
        CopyVector(Coord(true, layer, h, pos), HeadPart(v, h, sh.headDim));
        forall c | InRange(sh, c)
          ensures if c.head < h + 1 then Stored(sh, before, data[..], layer, pos, k, v, c)
                  else Cell(sh, data[..], c) == Cell(sh, before, c)
        {
          assert c.head < h ==> Stored(sh, before, middle, layer, pos, k, v, c);
        }
      }
    }

    method CopyVector(c: Coord, src: Vec)
      requires Valid() && InRange(sh, c) && |src| == sh.headDim
      modifies data
      ensures forall e :: InRange(sh, e) ==>
                Cell(sh, data[..], e) == if e == c then src else Cell(sh, old(data[..]), e)
    {
      hide GetOffset, TotalElements, InRange;
      Inside(sh, c);
      var at := GetOffset(sh, c);
      for i := 0 to sh.headDim
        invariant forall j :: 0 <= j < data.Length ==>
                    data[j] == if at <= j < at + i then src[j - at] else old(data[j])
      {
        data[at + i] := src[i];
      }
      ghost var before, after := old(data[..]), data[..];
      forall e | InRange(sh, e)
        ensures Cell(sh, after, e) == if e == c then src else Cell(sh, before, e)
      {
        CellAfter(sh, before, after, c, src, e);
      }
    }

    function GetKey(layer: nat, kvHead: nat, pos: nat): (r: Vec)
      reads this, data
      requires Valid() && InRange(sh, Coord(false, layer, kvHead, pos))
      ensures r == Cell(sh, data[..], Coord(false, layer, kvHead, pos))
    {
      Inside(sh, Coord(false, layer, kvHead, pos));
      var offset := Offset(false, layer, kvHead, pos);
      data[offset..offset + sh.headDim]
    }

    function GetValue(layer: nat, kvHead: nat, pos: nat): (r: Vec)
      reads this, data
      requires Valid() && InRange(sh, Coord(true, layer, kvHead, pos))
      ensures r == Cell(sh, data[..], Coord(true, layer, kvHead, pos))
    {
      Inside(sh, Coord(true, layer, kvHead, pos));
      var offset := Offset(true, layer, kvHead, pos);
      data[offset..offset + sh.headDim]
    }
  }

  /** What is stored for a head is what is read back for it. */
  method StoreThenGet(cache: KVCache, layer: nat, pos: nat, k: Vec, v: Vec, h: nat) returns (gotK: Vec, gotV: Vec)
    requires cache.Valid() && layer < cache.sh.numLayers && pos < cache.sh.maxTokens && h < cache.sh.numKVHeads
    requires |k| == |v| == cache.sh.numKVHeads * cache.sh.headDim
    modifies cache.data
    ensures h * cache.sh.headDim + cache.sh.headDim <= |k|
    ensures gotK == HeadPart(k, h, cache.sh.headDim) && gotV == HeadPart(v, h, cache.sh.headDim)
  {
    hide Cell, TotalElements;
    HeadFits(h, cache.sh.numKVHeads, cache.sh.headDim);
    ghost var before := cache.data[..];
    cache.StoreKV(layer, pos, k, v);
    assert Stored(cache.sh, before, cache.data[..], layer, pos, k, v, Coord(false, layer, h, pos));
    assert Stored(cache.sh, before, cache.data[..], layer, pos, k, v, Coord(true, layer, h, pos));
    gotK := cache.GetKey(layer, h, pos);
    gotV := cache.GetValue(layer, h, pos);
  }

  /** What one StoreKV does to the vector at `c`. */
  ghost predicate Stored(sh: Shape, before: Vec, after: Vec, layer: nat, pos: int, k: Vec, v: Vec, c: Coord)
    requires |before| == |after| == TotalElements(sh)
    requires |k| == |v| == sh.numKVHeads * sh.headDim && InRange(sh, c)
  {
    HeadFits(c.head, sh.numKVHeads, sh.headDim);
    Cell(sh, after, c) ==
    if c.layer == layer && c.pos == pos then HeadPart(if c.isV then v else k, c.head, sh.headDim)
    else Cell(sh, before, c)
  }

  lemma HeadFits(h: nat, heads: nat, headDim: nat)
    requires h < heads
    ensures h * headDim + headDim <= heads * headDim
  {
    Monotone(h + 1, heads, headDim);
    assert (h + 1) * headDim == h * headDim + headDim;
  }

  lemma CellAfter(sh: Shape, before: Vec, after: Vec, c: Coord, src: Vec, e: Coord)
    requires InRange(sh, c) && InRange(sh, e) && |src| == sh.headDim
    requires |before| == |after| == TotalElements(sh)
    requires 0 <= GetOffset(sh, c)
    requires forall j :: 0 <= j < |after| ==>
               after[j] == if GetOffset(sh, c) <= j < GetOffset(sh, c) + |src| then src[j - GetOffset(sh, c)] else before[j]
    ensures Cell(sh, after, e) == if e == c then src else Cell(sh, before, e)
  {
    hide GetOffset, TotalElements;
    Inside(sh, e);
    if e != c {
      Disjoint(sh, c, e);
    }
  }
}
