/** Rotary position embedding in place, and why attention scores see only relative positions. */
module RoPE {
  import opened Float32
  import opened FloatLanes
  import opened RealSums
  import opened KVCaches

  /** A table of cosines and sines, or no table. */
  datatype Table = Missing | Table(cos: Vec, sin: Vec, headDim: nat, halfDim: nat, maxLen: nat)

  ghost predicate TableOk(t: Table) {
    t.Table? ==>
      && t.halfDim == t.headDim / 2
      && |t.cos| == |t.sin| == t.maxLen * t.halfDim
  }

  function Angles(a: Vec, pos: nat, half: nat, maxLen: nat): (r: Vec)
    requires |a| == maxLen * half && pos < maxLen
    ensures |r| == half
  {
    HeadFits(pos, maxLen, half);
    a[pos * half..pos * half + half]
  }

  /** Pairs `(x[i], x[i+half])` turned by the angle with cosine `c[i]` and sine `s[i]`; an odd last
      coordinate stays. */
  function Turned(x: Vec, c: Vec, s: Vec): (r: Vec)
    requires |c| == |s| && 2 * |c| <= |x|
    ensures |r| == |x|
  {
    var half := |c|;
    seq(|x|, k requires 0 <= k < |x| =>
      if k < half then Sub(Mul(x[k], c[k]), Mul(x[k + half], s[k]))
      else if k < 2 * half then Add(Mul(x[k - half], s[k - half]), Mul(x[k], c[k - half]))
      else x[k])
  }

  /** The calls that change nothing. */
  predicate Rejected(t: Table, size: nat, numHeads: int, pos: int) {
    t.Missing? || pos < 0 || pos >= t.maxLen || numHeads <= 0 || numHeads * t.headDim > size
  }

  /** The slice of head `h` has been rotated by the given angles. */
  ghost predicate HeadRotated(before: Vec, after: Vec, c: Vec, s: Vec, d: nat, h: nat) {
    && |c| == |s| && 2 * |c| <= d
    && h * d + d <= |before| && h * d + d <= |after|
    && HeadPart(after, h, d) == Turned(HeadPart(before, h, d), c, s)
  }

  /** Rotates every head at a position inside the table; any other call is ignored. */
  method Apply(t: Table, vec: array<F32>, numHeads: int, pos: int)
    requires TableOk(t)
    modifies vec
    ensures Rejected(t, vec.Length, numHeads, pos) ==> vec[..] == old(vec[..])
    ensures !Rejected(t, vec.Length, numHeads, pos) ==>
              && (forall h: nat :: h < numHeads ==>
                    HeadRotated(old(vec[..]), vec[..], Angles(t.cos, pos, t.halfDim, t.maxLen),
                                Angles(t.sin, pos, t.halfDim, t.maxLen), t.headDim, h))
              && (forall k :: numHeads * t.headDim <= k < vec.Length ==> vec[k] == old(vec[k]))
  {
    hide Angles;
    if t.Missing? || pos < 0 || pos >= t.maxLen {
      return;
    }
    if numHeads <= 0 || numHeads * t.headDim > vec.Length {
      return;
    }
    var cosSlice, sinSlice := Angles(t.cos, pos, t.halfDim, t.maxLen), Angles(t.sin, pos, t.halfDim, t.maxLen);
    RotateHeads(vec, numHeads, cosSlice, sinSlice, t.headDim);
  }

  method RotateHeads(vec: array<F32>, numHeads: nat, c: Vec, s: Vec, headDim: nat)
    requires |c| == |s| == headDim / 2 && numHeads * headDim <= vec.Length
    modifies vec
    ensures forall h: nat :: h < numHeads ==> HeadRotated(old(vec[..]), vec[..], c, s, headDim, h)
    ensures forall k :: numHeads * headDim <= k < vec.Length ==> vec[k] == old(vec[k])
  {
    hide HeadRotated, Turned;
    ghost var before := vec[..];
    for h := 0 to numHeads
      invariant UpToHead(before, vec[..], c, s, headDim, h)
    {
      ghost var middle := vec[..];
      HeadFits(h, numHeads, headDim);
      RotateHead(vec, h * headDim, c, s, headDim);
      OneMore(before, middle, vec[..], c, s, headDim, h);
    }
  }

  /** The heads before `h` are rotated, everything from head `h` on is as it was. */
  ghost predicate UpToHead(before: Vec, after: Vec, c: Vec, s: Vec, d: nat, h: nat) {
    && |before| == |after|
    && (forall g: nat :: g < h ==> HeadRotated(before, after, c, s, d, g))
    && (forall k :: h * d <= k < |after| ==> after[k] == before[k])
  }

  /** Coordinate `k` of a head of which the first `i` pairs have been rotated. */
  function PartAt(x: Vec, c: Vec, s: Vec, i: nat, k: nat): F32
    requires |c| == |s| && 2 * |c| <= |x| && k < |x|
  {
    if k < i || |c| <= k < |c| + i then Turned(x, c, s)[k] else x[k]
  }

  lemma PartStep(x: Vec, c: Vec, s: Vec, i: nat)
    requires |c| == |s| && 2 * |c| <= |x| && i < |c|
    ensures forall k: nat :: k < |x| ==>
              PartAt(x, c, s, i + 1, k) == if k == i || k == i + |c| then Turned(x, c, s)[k] else PartAt(x, c, s, i, k)
    ensures PartAt(x, c, s, i, i) == x[i] && PartAt(x, c, s, i, i + |c|) == x[i + |c|]
  {
    hide Turned;
  }

  lemma PartEnds(x: Vec, c: Vec, s: Vec)
    requires |c| == |s| && 2 * |c| <= |x|
    ensures forall k: nat :: k < |x| ==> PartAt(x, c, s, 0, k) == x[k]
    ensures forall k: nat :: k < |x| ==> PartAt(x, c, s, |c|, k) == Turned(x, c, s)[k]
  {
  }

  lemma TurnedAt(x: Vec, c: Vec, s: Vec, i: nat)
    requires |c| == |s| && 2 * |c| <= |x| && i < |c|
    ensures Turned(x, c, s)[i] == Sub(Mul(x[i], c[i]), Mul(x[i + |c|], s[i]))
    ensures Turned(x, c, s)[i + |c|] == Add(Mul(x[i], s[i]), Mul(x[i + |c|], c[i]))
  {
  }

  /** One head, pair by pair. */
  method RotateHead(vec: array<F32>, headOffset: nat, c: Vec, s: Vec, headDim: nat)
    requires |c| == |s| == headDim / 2 && headOffset + headDim <= vec.Length
    modifies vec
    ensures vec[headOffset..headOffset + headDim] == Turned(old(vec[headOffset..headOffset + headDim]), c, s)
    ensures forall k :: 0 <= k < vec.Length && !(headOffset <= k < headOffset + headDim) ==> vec[k] == old(vec[k])
  {
    hide PartAt, Turned;
    var halfDim := |c|;
    ghost var x := vec[headOffset..headOffset + headDim];
    PartEnds(x, c, s);
    for i := 0 to halfDim
      invariant forall k :: headOffset <= k < headOffset + headDim ==> vec[k] == PartAt(x, c, s, i, k - headOffset)
      invariant forall k :: 0 <= k < vec.Length && !(headOffset <= k < headOffset + headDim) ==> vec[k] == old(vec[k])
    {
      PartStep(x, c, s, i);
      TurnedAt(x, c, s, i);
      var x0, x1 := vec[headOffset + i], vec[headOffset + i + halfDim];
      vec[headOffset + i] := Sub(Mul(x0, c[i]), Mul(x1, s[i]));
      vec[headOffset + i + halfDim] := Add(Mul(x0, s[i]), Mul(x1, c[i]));
    }
  }

  lemma HeadElsewhere(middle: Vec, after: Vec, h: nat, g: nat, d: nat)
    requires g != h && |middle| == |after| && g * d + d <= |after|
    requires forall k :: 0 <= k < |after| && !(h * d <= k < h * d + d) ==> after[k] == middle[k]
    ensures HeadPart(after, g, d) == HeadPart(middle, g, d)
  {
    Apart(g, h, d);
  }

  lemma OneMore(before: Vec, middle: Vec, after: Vec, c: Vec, s: Vec, d: nat, h: nat)
    requires |c| == |s| && 2 * |c| <= d && h * d + d <= |before| == |middle| == |after|
    requires UpToHead(before, middle, c, s, d, h)
    requires HeadPart(after, h, d) == Turned(HeadPart(middle, h, d), c, s)
    requires forall k :: 0 <= k < |after| && !(h * d <= k < h * d + d) ==> after[k] == middle[k]
    ensures UpToHead(before, after, c, s, d, h + 1)
  {
    hide Turned;
    assert HeadPart(middle, h, d) == HeadPart(before, h, d);
    forall g: nat | g < h + 1
      ensures HeadRotated(before, after, c, s, d, g)
    {
      if g < h {
        assert HeadRotated(before, middle, c, s, d, g);
        HeadElsewhere(middle, after, h, g, d);
      }
    }
    assert (h + 1) * d == h * d + d;
  }

  // ----- over the reals -----

  /** The same turn of real numbers. */
  function Rotated(x: seq<real>, c: seq<real>, s: seq<real>): (r: seq<real>)
    requires |c| == |s| && 2 * |c| <= |x|
    ensures |r| == |x|
  {
    var half := |c|;
    seq(|x|, k requires 0 <= k < |x| =>
      if k < half then Times(x[k], c[k]) - Times(x[k + half], s[k])
      else if k < 2 * half then Times(x[k - half], s[k - half]) + Times(x[k], c[k - half])
      else x[k])
  }

  lemma TurnedMeaning(x: Vec, c: Vec, s: Vec, rd: Reading)
    requires |c| == |s| && 2 * |c| <= |x|
    ensures RealRow(Turned(x, c, s), rd) == Rotated(RealRow(x, rd), RealRow(c, rd), RealRow(s, rd))
  {
    hide Times;
    var one, two := RealRow(Turned(x, c, s), rd), Rotated(RealRow(x, rd), RealRow(c, rd), RealRow(s, rd));
    forall k | 0 <= k < |x|
      ensures one[k] == two[k]
    {
      if k < |c| {
        ProductsRead(x[k], c[k], x[k + |c|], s[k], rd);
      } else if k < 2 * |c| {
        ProductsRead(x[k - |c|], s[k - |c|], x[k], c[k - |c|], rd);
      }
    }
  }

  lemma ProductsRead(x: F32, a: F32, y: F32, b: F32, rd: Reading)
    ensures Eval(Sub(Mul(x, a), Mul(y, b)), rd) == Times(Eval(x, rd), Eval(a, rd)) - Times(Eval(y, rd), Eval(b, rd))
    ensures Eval(Add(Mul(x, a), Mul(y, b)), rd) == Times(Eval(x, rd), Eval(a, rd)) + Times(Eval(y, rd), Eval(b, rd))
  {
    hide Times;
    assert Eval(Mul(x, a), rd) == Times(Eval(x, rd), Eval(a, rd));
  }

  lemma RotatedAt(x: seq<real>, c: seq<real>, s: seq<real>, i: nat)
    requires |c| == |s| && 2 * |c| <= |x| && i < |c|
    ensures Rotated(x, c, s)[i] == Times(x[i], c[i]) - Times(x[i + |c|], s[i])
    ensures Rotated(x, c, s)[i + |c|] == Times(x[i], s[i]) + Times(x[i + |c|], c[i])
  {
    hide Times;
  }

  /** The turn that takes the angle `(c', s')` to `(c, s)`. */
  function Relative(c: seq<real>, s: seq<real>, c': seq<real>, s': seq<real>): (r: (seq<real>, seq<real>))
    requires |c| == |s| == |c'| == |s'|
    ensures |r.0| == |r.1| == |c|
  {
    (seq(|c|, i requires 0 <= i < |c| => Times(c[i], c'[i]) + Times(s[i], s'[i])),
     seq(|c|, i requires 0 <= i < |c| => Times(s[i], c'[i]) - Times(c[i], s'[i])))
  }

  /** The inner product over the first `n` pairs. */
  function Pairs(x: seq<real>, y: seq<real>, half: nat, n: nat): real
    requires n <= half && 2 * half <= |x| == |y|
  {
    if n == 0 then 0.0
    else Pairs(x, y, half, n - 1) + Times(x[n - 1], y[n - 1]) + Times(x[n - 1 + half], y[n - 1 + half])
  }

  lemma {:induction false} PairsSum(x: seq<real>, y: seq<real>, half: nat, n: nat)
    requires n <= half && 2 * half <= |x| == |y|
    ensures Pairs(x, y, half, n) == Dot(x, y, 0, n) + Dot(x, y, half, half + n)
  {
    hide Times;
    if n > 0 {
      PairsSum(x, y, half, n - 1);
    }
  }

  lemma DotInParts(x: seq<real>, y: seq<real>, half: nat)
    requires 2 * half <= |x| == |y|
    ensures Dot(x, y, 0, |x|) == Pairs(x, y, half, half) + Dot(x, y, 2 * half, |x|)
  {
    hide Times;
    PairsSum(x, y, half, half);
    var p := Products(x, y);
    SumSplit(p, 0, half, 2 * half);
    SumSplit(p, 0, 2 * half, |x|);
  }

  lemma Minus(a: real, b: real, k: real)
    ensures Times(a - b, k) == Times(a, k) - Times(b, k)
    ensures Times(k, a - b) == Times(k, a) - Times(k, b)
  {
  }

  lemma Plus(a: real, b: real, k: real)
    ensures Times(a + b, k) == Times(a, k) + Times(b, k)
    ensures Times(k, a + b) == Times(k, a) + Times(k, b)
  {
  }

  lemma Swap(x: real, a: real, y: real)
    ensures Times(Times(x, a), y) == Times(Times(x, y), a)
  {
  }

  lemma Four(a: real, b: real, c: real, d: real)
    ensures Times(Times(a, b), Times(c, d)) == Times(Times(a, c), Times(b, d))
  {
    var k, m := c * d, b * d;
    assert (a * b) * k == a * (b * k);
    assert b * k == c * m;
    assert a * (c * m) == (a * c) * m;
  }

  lemma FirstPart(x0: real, x1: real, y0: real, y1: real, c: real, s: real, c': real, s': real)
    ensures Times(Times(x0, c) - Times(x1, s), Times(y0, c') - Times(y1, s')) ==
            Times(Times(x0, y0), Times(c, c')) - Times(Times(x0, y1), Times(c, s'))
            - Times(Times(x1, y0), Times(s, c')) + Times(Times(x1, y1), Times(s, s'))
  {
    hide Times;
    var p, q, u, v := Times(x0, c), Times(x1, s), Times(y0, c'), Times(y1, s');
    Minus(p, q, u - v);
    Minus(u, v, p);
    Minus(u, v, q);
    Four(x0, c, y0, c');
    Four(x0, c, y1, s');
    Four(x1, s, y0, c');
    Four(x1, s, y1, s');
  }

  lemma SecondPart(x0: real, x1: real, y0: real, y1: real, c: real, s: real, c': real, s': real)
    ensures Times(Times(x0, s) + Times(x1, c), Times(y0, s') + Times(y1, c')) ==
            Times(Times(x0, y0), Times(s, s')) + Times(Times(x0, y1), Times(s, c'))
            + Times(Times(x1, y0), Times(c, s')) + Times(Times(x1, y1), Times(c, c'))
  {
    hide Times;
    var p, q, u, v := Times(x0, s), Times(x1, c), Times(y0, s'), Times(y1, c');
    Plus(p, q, u + v);
    Plus(u, v, p);
    Plus(u, v, q);
    Four(x0, s, y0, s');
    Four(x0, s, y1, c');
    Four(x1, c, y0, s');
    Four(x1, c, y1, c');
  }

  /** Turning both vectors of a pair is turning one of them by the difference of the angles. */
  lemma TurnedTimes(x0: real, x1: real, y0: real, y1: real, c: real, s: real, c': real, s': real)
    ensures var a, b := Times(c, c') + Times(s, s'), Times(s, c') - Times(c, s');
            Times(Times(x0, c) - Times(x1, s), Times(y0, c') - Times(y1, s'))
            + Times(Times(x0, s) + Times(x1, c), Times(y0, s') + Times(y1, c'))
            == Times(Times(x0, a) - Times(x1, b), y0) + Times(Times(x0, b) + Times(x1, a), y1)
  {
    hide Times;
    var cc, ss, sc, cs := Times(c, c'), Times(s, s'), Times(s, c'), Times(c, s');
    var a, b := cc + ss, sc - cs;
    FirstPart(x0, x1, y0, y1, c, s, c', s');
    SecondPart(x0, x1, y0, y1, c, s, c', s');
    Minus(Times(x0, a), Times(x1, b), y0);
    Plus(Times(x0, b), Times(x1, a), y1);
    Swap(x0, a, y0);
    Swap(x1, b, y0);
    Swap(x0, b, y1);
    Swap(x1, a, y1);
    Plus(cc, ss, Times(x0, y0));
    Minus(sc, cs, Times(x1, y0));
    Minus(sc, cs, Times(x0, y1));
    Plus(cc, ss, Times(x1, y1));
  }

  lemma PairTurned(x: seq<real>, y: seq<real>, c: seq<real>, s: seq<real>, c': seq<real>, s': seq<real>, i: nat)
    requires |c| == |s| == |c'| == |s'| && 2 * |c| <= |x| == |y| && i < |c|
    ensures var half, r := |c|, Relative(c, s, c', s');
            var rx, ry, z := Rotated(x, c, s), Rotated(y, c', s'), Rotated(x, r.0, r.1);
            Times(rx[i], ry[i]) + Times(rx[i + half], ry[i + half]) == Times(z[i], y[i]) + Times(z[i + half], y[i + half])
  {
    hide Times, Rotated, Relative;
    var half, r := |c|, Relative(c, s, c', s');
    RotatedAt(x, c, s, i);
    RotatedAt(y, c', s', i);
    RotatedAt(x, r.0, r.1, i);
    RelativeAt(c, s, c', s', i);
    TurnedTimes(x[i], x[i + half], y[i], y[i + half], c[i], s[i], c'[i], s'[i]);
  }

  lemma RelativeAt(c: seq<real>, s: seq<real>, c': seq<real>, s': seq<real>, i: nat)
    requires |c| == |s| == |c'| == |s'| && i < |c|
    ensures Relative(c, s, c', s').0[i] == Times(c[i], c'[i]) + Times(s[i], s'[i])
    ensures Relative(c, s, c', s').1[i] == Times(s[i], c'[i]) - Times(c[i], s'[i])
  {
    hide Times;
  }

  lemma {:induction false} PairsTurned(x: seq<real>, y: seq<real>, c: seq<real>, s: seq<real>, c': seq<real>, s': seq<real>, n: nat)
    requires |c| == |s| == |c'| == |s'| && 2 * |c| <= |x| == |y| && n <= |c|
    ensures var r := Relative(c, s, c', s');
            Pairs(Rotated(x, c, s), Rotated(y, c', s'), |c|, n) == Pairs(Rotated(x, r.0, r.1), y, |c|, n)
    decreases n
  {
    hide Times, Rotated, Relative;
    if n > 0 {
      PairsTurned(x, y, c, s, c', s', n - 1);
      PairTurned(x, y, c, s, c', s', n - 1);
    }
  }

  lemma TailKept(x: seq<real>, y: seq<real>, c: seq<real>, s: seq<real>, c': seq<real>, s': seq<real>)
    requires |c| == |s| == |c'| == |s'| && 2 * |c| <= |x| == |y|
    ensures var r := Relative(c, s, c', s');
            Dot(Rotated(x, c, s), Rotated(y, c', s'), 2 * |c|, |x|) == Dot(Rotated(x, r.0, r.1), y, 2 * |c|, |x|)
  {
    hide Times;
    var r := Relative(c, s, c', s');
    SumAgree(Products(Rotated(x, c, s), Rotated(y, c', s')), Products(Rotated(x, r.0, r.1), y), 2 * |c|, |x|, 0);
  }

  /** The score of a rotated query against a rotated key is that of the query turned by the difference
      of the two angles against the key as it was. */
  lemma RelativeScore(x: seq<real>, y: seq<real>, c: seq<real>, s: seq<real>, c': seq<real>, s': seq<real>)
    requires |c| == |s| == |c'| == |s'| && 2 * |c| <= |x| == |y|
    ensures var r := Relative(c, s, c', s');
            Dot(Rotated(x, c, s), Rotated(y, c', s'), 0, |x|) == Dot(Rotated(x, r.0, r.1), y, 0, |x|)
  {
    hide Dot, Rotated, Relative, Pairs;
    var r := Relative(c, s, c', s');
    DotInParts(Rotated(x, c, s), Rotated(y, c', s'), |c|);
    DotInParts(Rotated(x, r.0, r.1), y, |c|);
    PairsTurned(x, y, c, s, c', s', |c|);
    TailKept(x, y, c, s, c', s');
  }

  /** Row `p` of the table, read as reals. */
  function Cosines(t: Table, p: nat, rd: Reading): (r: seq<real>)
    requires t.Table? && TableOk(t) && p < t.maxLen
    ensures |r| == t.halfDim
  {
    RealRow(Angles(t.cos, p, t.halfDim, t.maxLen), rd)
  }

  function Sines(t: Table, p: nat, rd: Reading): (r: seq<real>)
    requires t.Table? && TableOk(t) && p < t.maxLen
    ensures |r| == t.halfDim
  {
    RealRow(Angles(t.sin, p, t.halfDim, t.maxLen), rd)
  }

  /** Entry `i` of row `p` stands in place `p*halfDim + i`. Those of the distance of two positions are the cosine and the
      sine of the difference of their angles. */
  ghost predicate DifferenceAt(t: Table, p: nat, q: nat, i: nat, rd: Reading)
    requires t.Table? && |t.cos| == |t.sin|
  {
    var n, at, at', d := |t.cos|, p * t.halfDim + i, q * t.halfDim + i, (p - q) * t.halfDim + i;
    && 0 <= at < n && 0 <= at' < n && 0 <= d < n
    && var c, s, c', s' := Eval(t.cos[at], rd), Eval(t.sin[at], rd), Eval(t.cos[at'], rd), Eval(t.sin[at'], rd);
       Eval(t.cos[d], rd) == c * c' + s * s' && Eval(t.sin[d], rd) == s * c' - c * s'
  }

  /** The entries of the table obey the subtraction formulas of cosine and sine. */
  ghost predicate AngleTable(t: Table, rd: Reading)
    requires t.Table? && TableOk(t)
  {
    forall p: nat, q: nat, i: nat :: q <= p < t.maxLen && i < t.halfDim ==> DifferenceAt(t, p, q, i, rd)
  }

  /** Row `p` consists of the entries `p*half` up to `(p+1)*half`. */
  lemma RowEntries(t: Table, p: nat, i: nat)
    requires t.Table? && TableOk(t) && p < t.maxLen && i < t.halfDim
    ensures p * t.halfDim + i < |t.cos| == |t.sin|
    ensures Angles(t.cos, p, t.halfDim, t.maxLen)[i] == t.cos[p * t.halfDim + i]
    ensures Angles(t.sin, p, t.halfDim, t.maxLen)[i] == t.sin[p * t.halfDim + i]
  {
    HeadFits(p, t.maxLen, t.halfDim);
  }

  lemma RowReads(t: Table, p: nat, i: nat, rd: Reading)
    requires t.Table? && TableOk(t) && p < t.maxLen && i < t.halfDim
    ensures p * t.halfDim + i < |t.cos| == |t.sin|
    ensures Cosines(t, p, rd)[i] == Eval(t.cos[p * t.halfDim + i], rd)
    ensures Sines(t, p, rd)[i] == Eval(t.sin[p * t.halfDim + i], rd)
  {
    hide Angles, Eval;
    RowEntries(t, p, i);
  }

  lemma DifferenceRead(t: Table, p: nat, q: nat, i: nat, rd: Reading)
    requires t.Table? && TableOk(t) && AngleTable(t, rd) && q <= p < t.maxLen && i < t.halfDim
    ensures var c, s, c', s' := Cosines(t, p, rd)[i], Sines(t, p, rd)[i], Cosines(t, q, rd)[i], Sines(t, q, rd)[i];
            && Cosines(t, p - q, rd)[i] == Times(c, c') + Times(s, s')
            && Sines(t, p - q, rd)[i] == Times(s, c') - Times(c, s')
  {
    hide Cosines, Sines, Eval;
    RowReads(t, p, i, rd);
    RowReads(t, q, i, rd);
    RowReads(t, p - q, i, rd);
    assert DifferenceAt(t, p, q, i, rd);
  }

  lemma Differences(t: Table, p: nat, q: nat, rd: Reading)
    requires t.Table? && TableOk(t) && AngleTable(t, rd) && q <= p < t.maxLen
    ensures Relative(Cosines(t, p, rd), Sines(t, p, rd), Cosines(t, q, rd), Sines(t, q, rd))
            == (Cosines(t, p - q, rd), Sines(t, p - q, rd))
  {
    hide Cosines, Sines, AngleTable, Relative, Times;
    var r := Relative(Cosines(t, p, rd), Sines(t, p, rd), Cosines(t, q, rd), Sines(t, q, rd));
    forall i: nat | i < t.halfDim
      ensures r.0[i] == Cosines(t, p - q, rd)[i] && r.1[i] == Sines(t, p - q, rd)[i]
    {
      RelativeAt(Cosines(t, p, rd), Sines(t, p, rd), Cosines(t, q, rd), Sines(t, q, rd), i);
      DifferenceRead(t, p, q, i, rd);
    }
    assert r.0 == Cosines(t, p - q, rd) && r.1 == Sines(t, p - q, rd);
  }

  function AtPosition(t: Table, x: Vec, p: nat): (r: Vec)
    requires t.Table? && TableOk(t) && p < t.maxLen && |x| == t.headDim
    ensures |r| == |x|
  {
    Turned(x, Angles(t.cos, p, t.halfDim, t.maxLen), Angles(t.sin, p, t.halfDim, t.maxLen))
  }

  /** A query at position `p` against a key at position `q`, over the reals. */
  function ScoreAt(t: Table, x: Vec, y: Vec, p: nat, q: nat, rd: Reading): real
    requires t.Table? && TableOk(t) && p < t.maxLen && q < t.maxLen && |x| == |y| == t.headDim
  {
    Dot(RealRow(AtPosition(t, x, p), rd), RealRow(AtPosition(t, y, q), rd), 0, t.headDim)
  }

  /** The score of a query turned by `d` positions against a key as it was. */
  function ScoreTurned(t: Table, x: Vec, y: Vec, d: nat, rd: Reading): real
    requires t.Table? && TableOk(t) && d < t.maxLen && |x| == |y| == t.headDim
  {
    Dot(Rotated(RealRow(x, rd), Cosines(t, d, rd), Sines(t, d, rd)), RealRow(y, rd), 0, t.headDim)
  }

  lemma ScoreIsRelative(t: Table, x: Vec, y: Vec, p: nat, q: nat, rd: Reading)
    requires t.Table? && TableOk(t) && AngleTable(t, rd) && |x| == |y| == t.headDim
    requires q <= p < t.maxLen
    ensures ScoreAt(t, x, y, p, q, rd) == ScoreTurned(t, x, y, p - q, rd)
  {
    hide Dot, Rotated, Relative, Turned, RealRow, Angles;
    TurnedMeaning(x, Angles(t.cos, p, t.halfDim, t.maxLen), Angles(t.sin, p, t.halfDim, t.maxLen), rd);
    TurnedMeaning(y, Angles(t.cos, q, t.halfDim, t.maxLen), Angles(t.sin, q, t.halfDim, t.maxLen), rd);
    RelativeScore(RealRow(x, rd), RealRow(y, rd), Cosines(t, p, rd), Sines(t, p, rd), Cosines(t, q, rd), Sines(t, q, rd));
    Differences(t, p, q, rd);
  }

  /** With such a table a query at position `p` scores a key at position `q` by their distance alone. */
  lemma ScoreByDistance(t: Table, x: Vec, y: Vec, p: nat, q: nat, p': nat, q': nat, rd: Reading)
    requires t.Table? && TableOk(t) && AngleTable(t, rd) && |x| == |y| == t.headDim
    requires q <= p < t.maxLen && q' <= p' < t.maxLen && p - q == p' - q'
    ensures ScoreAt(t, x, y, p, q, rd) == ScoreAt(t, x, y, p', q', rd)
  {
    hide *;
    ScoreIsRelative(t, x, y, p, q, rd);
    ScoreIsRelative(t, x, y, p', q', rd);
  }

  /** What a head rotated at position `p` holds, over the table's own entries: pair `i` is turned by the angle in place
      `p*halfDim + i`, and an odd last coordinate stays. */
  lemma RotatedEntries(t: Table, before: Vec, after: Vec, p: nat, h: nat, i: nat)
    requires t.Table? && TableOk(t) && p < t.maxLen && i < t.halfDim
    requires HeadRotated(before, after, Angles(t.cos, p, t.halfDim, t.maxLen), Angles(t.sin, p, t.halfDim, t.maxLen), t.headDim, h)
    ensures 0 <= h * t.headDim && h * t.headDim + t.headDim <= |before| && h * t.headDim + t.headDim <= |after|
    ensures 0 <= p * t.halfDim && p * t.halfDim + i < |t.cos| && i + t.halfDim < t.headDim
    ensures var o, c, s := h * t.headDim, t.cos[p * t.halfDim + i], t.sin[p * t.halfDim + i];
            && after[o + i] == Sub(Mul(before[o + i], c), Mul(before[o + i + t.halfDim], s))
            && after[o + i + t.halfDim] == Add(Mul(before[o + i], s), Mul(before[o + i + t.halfDim], c))
    ensures t.headDim % 2 == 1 ==> after[h * t.headDim + t.headDim - 1] == before[h * t.headDim + t.headDim - 1]
  {
    hide Angles, Turned;
    RowEntries(t, p, i);
    var c, s := Angles(t.cos, p, t.halfDim, t.maxLen), Angles(t.sin, p, t.halfDim, t.maxLen);
    var x, y := HeadPart(before, h, t.headDim), HeadPart(after, h, t.headDim);
    TurnedAt(x, c, s, i);
    LastStays(x, c, s);
  }

  lemma LastStays(x: Vec, c: Vec, s: Vec)
    requires |c| == |s| && 2 * |c| <= |x|
    ensures 2 * |c| < |x| ==> Turned(x, c, s)[|x| - 1] == x[|x| - 1]
  {
  }
}
