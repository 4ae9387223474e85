/** The two attention kernels: blocked loops with fused vector accumulators and plain scalar loops.
    Each branch is proved to build one expression per output; read over the reals, both branches
    are the same scaled dot product and the same weighted sum. Slices that a kernel only reads are
    sequences. */
module Attention {
  import opened Float32
  import opened FloatLanes
  import opened RealSums

  // ----- scaled scores: what a branch builds -----

  /** The first accumulator after `n` groups of sixteen. */
  function Even(q: Vec, k: Vec, n: nat): (v: Vec)
    requires 16 * n <= |q| == |k|
    ensures |v| == LANES
  {
    if n == 0 then Splat(ZERO)
    else VFma(LoadF(q, 16 * (n - 1)), LoadF(k, 16 * (n - 1)), Even(q, k, n - 1))
  }

  /** The second one, eight places further on. */
  function Odd(q: Vec, k: Vec, n: nat): (v: Vec)
    requires 16 * n <= |q| == |k|
    ensures |v| == LANES
  {
    if n == 0 then Splat(ZERO)
    else VFma(LoadF(q, 16 * (n - 1) + 8), LoadF(k, 16 * (n - 1) + 8), Odd(q, k, n - 1))
  }

  /** A remaining group of eight goes to the first accumulator. */
  function EvenAndEight(q: Vec, k: Vec): (v: Vec)
    requires |q| == |k|
    ensures |v| == LANES
  {
    var n := |q| / 16;
    if 16 * n + 8 <= |q| then VFma(LoadF(q, 16 * n), LoadF(k, 16 * n), Even(q, k, n)) else Even(q, k, n)
  }

  /** The horizontal sum, pair by pair. */
  function Across(v: Vec): F32
    requires |v| == LANES
  {
    Add(Add(Add(v[0], v[1]), Add(v[2], v[3])), Add(Add(v[4], v[5]), Add(v[6], v[7])))
  }

  /** Products added one after the other, each product rounded. */
  function Chain(q: Vec, k: Vec, from: nat, upto: nat, start: F32): F32
    requires from <= upto <= |q| == |k|
    decreases upto
  {
    if upto == from then start else Add(Chain(q, k, from, upto - 1, start), Mul(q[upto - 1], k[upto - 1]))
  }

  function VectorSum(q: Vec, k: Vec): F32
    requires |q| == |k|
  {
    Across(VAdd(EvenAndEight(q, k), Odd(q, k, |q| / 16)))
  }

  function VectorDot(q: Vec, k: Vec): F32
    requires |q| == |k|
  {
    Chain(q, k, 8 * (|q| / 8), |q|, VectorSum(q, k))
  }

  function ScalarDot(q: Vec, k: Vec): F32
    requires |q| == |k|
  {
    Chain(q, k, 0, |q|, ZERO)
  }

  /** The score of a query against a key. */
  function Score(avx2: bool, q: Vec, k: Vec, scale: F32): F32
    requires |q| == |k|
  {
    Mul(if avx2 then VectorDot(q, k) else ScalarDot(q, k), scale)
  }

  /** Row `p` of a matrix stored with a stride. */
  function Row(base: Vec, p: nat, stride: nat, hd: nat): (r: Vec)
    requires p * stride + hd <= |base|
    ensures |r| == hd
  {
    base[p * stride..p * stride + hd]
  }

  // ----- scaled scores: the loops -----

  lemma SameLoad(s: Vec, part: Vec, at: nat, from: nat)
    requires at + 8 <= |part| && from + |part| <= |s| && part == s[from..from + |part|]
    ensures LoadF(part, at) == LoadF(s, from + at)
  {
    var a, b := LoadF(part, at), LoadF(s, from + at);
    forall i | 0 <= i < 8
      ensures a[i] == b[i]
    {
      assert part[at + i] == s[from + (at + i)];
    }
  }

  /** A row of the key matrix and the query, as the loops see them. */
  ghost predicate IsRow(q: Vec, kbase: Vec, rowStart: nat, a: Vec, b: Vec) {
    && |a| == |b| <= |q| && rowStart + |b| <= |kbase|
    && a == q[..|a|] && b == kbase[rowStart..rowStart + |b|]
  }

  lemma GroupStep(q: Vec, kbase: Vec, rowStart: nat, a: Vec, b: Vec, n: nat)
    requires IsRow(q, kbase, rowStart, a, b) && 16 * n + 16 <= |a|
    ensures VFma(LoadF(q, 16 * n), LoadF(kbase, rowStart + 16 * n), Even(a, b, n)) == Even(a, b, n + 1)
    ensures VFma(LoadF(q, 16 * n + 8), LoadF(kbase, rowStart + 16 * n + 8), Odd(a, b, n)) == Odd(a, b, n + 1)
  {
    hide LoadF, VFma;
    SameLoad(q, a, 16 * n, 0);
    SameLoad(q, a, 16 * n + 8, 0);
    SameLoad(kbase, b, 16 * n, rowStart);
    SameLoad(kbase, b, 16 * n + 8, rowStart);
  }

  lemma EvenOddNothing(a: Vec, b: Vec)
    requires |a| == |b|
    ensures Even(a, b, 0) == Odd(a, b, 0) == Splat(ZERO)
  {
  }

  lemma EightStep(q: Vec, kbase: Vec, rowStart: nat, a: Vec, b: Vec, n: nat)
    requires IsRow(q, kbase, rowStart, a, b) && n == |a| / 16 && 16 * n + 8 <= |a|
    ensures VFma(LoadF(q, 16 * n), LoadF(kbase, rowStart + 16 * n), Even(a, b, n)) == EvenAndEight(a, b)
  {
    hide LoadF, VFma;
    SameLoad(q, a, 16 * n, 0);
    SameLoad(kbase, b, 16 * n, rowStart);
  }

  /** Where the two vector loops end. */
  lemma EightsEnd(hd: nat, n: nat, i: nat)
    requires n == hd / 16 && i <= hd < i + 8 && (i == 16 * n || i == 16 * n + 8)
    ensures i == 8 * (hd / 8)
  {
  }

  lemma NoEight(a: Vec, b: Vec, n: nat)
    requires |a| == |b| < 16 * n + 8 && n == |a| / 16
    ensures EvenAndEight(a, b) == Even(a, b, n)
  {
    hide Even;
  }

  lemma ChainStep(q: Vec, kbase: Vec, rowStart: nat, a: Vec, b: Vec, from: nat, i: nat, start: F32)
    requires IsRow(q, kbase, rowStart, a, b) && from <= i < |a|
    ensures Add(Chain(a, b, from, i, start), Mul(q[i], kbase[rowStart + i])) == Chain(a, b, from, i + 1, start)
  {
  }

  /** Sixteen elements at a time, in two registers. */
  method Sixteens(q: Vec, kbase: Vec, rowStart: nat, hd: nat, ghost a: Vec, ghost b: Vec)
      returns (even: Vec, odd: Vec, i: nat)
    requires IsRow(q, kbase, rowStart, a, b) && |a| == |b| == hd <= |q| && rowStart + hd <= |kbase|
    ensures i == 16 * (hd / 16) && |even| == |odd| == LANES
    ensures even == Even(a, b, hd / 16) && odd == Odd(a, b, hd / 16)
  {
    hide LoadF, VFma, Splat, IsRow, Even, Odd;
    EvenOddNothing(a, b);
    even := Splat(ZERO);
    odd := even;
    i := 0;
    ghost var n: nat := 0;
    while i + 16 <= hd
      invariant i == 16 * n <= hd
      invariant even == Even(a, b, n) && odd == Odd(a, b, n)
    {
      GroupStep(q, kbase, rowStart, a, b, n);
      even := VFma(LoadF(q, i), LoadF(kbase, rowStart + i), even);
      odd := VFma(LoadF(q, i + 8), LoadF(kbase, rowStart + i + 8), odd);
      i := i + 16;
      n := n + 1;
    }
  }

  /** The group of eight that may be left. */
  method Eights(q: Vec, kbase: Vec, rowStart: nat, hd: nat, start: Vec, from: nat, ghost a: Vec, ghost b: Vec)
      returns (even: Vec, i: nat)
    requires IsRow(q, kbase, rowStart, a, b) && |a| == |b| == hd <= |q| && rowStart + hd <= |kbase|
    requires from == 16 * (hd / 16) && start == Even(a, b, hd / 16)
    ensures i == 8 * (hd / 8) && |even| == LANES && even == EvenAndEight(a, b)
  {
    hide LoadF, VFma, IsRow, Even, EvenAndEight;
    ghost var n := hd / 16;
    even, i := start, from;
    while i + 8 <= hd
      invariant i <= hd && |even| == LANES
      invariant (i == 16 * n && even == Even(a, b, n)) || (i == 16 * n + 8 && even == EvenAndEight(a, b))
    {
      EightStep(q, kbase, rowStart, a, b, n);
      even := VFma(LoadF(q, i), LoadF(kbase, rowStart + i), even);
      i := i + 8;
    }
    EightsEnd(hd, n, i);
    if i == 16 * n {
      NoEight(a, b, n);
    }
  }

  /** One row with vector registers: sixteen at a time, then eight, then one. */
  method QkRowAvx2(q: Vec, kbase: Vec, rowStart: nat, hd: nat) returns (total: F32)
    requires hd <= |q| && rowStart + hd <= |kbase|
    ensures total == VectorDot(q[..hd], kbase[rowStart..rowStart + hd])
  {
    hide VAdd, Across, EvenAndEight, Odd, Even, Chain, IsRow;
    ghost var a, b := q[..hd], kbase[rowStart..rowStart + hd];
    RowOf(q, kbase, rowStart, hd);
    var even, odd, i := Sixteens(q, kbase, rowStart, hd, a, b);
    even, i := Eights(q, kbase, rowStart, hd, even, i, a, b);
    ghost var cut := i;
    total := Across(VAdd(even, odd));
    ghost var start := total;
    ChainNothing(a, b, cut, start);
    while i < hd
      invariant cut <= i <= hd
      invariant total == Chain(a, b, cut, i, start)
    {
      ChainStep(q, kbase, rowStart, a, b, cut, i, start);
      total := Add(total, Mul(q[i], kbase[rowStart + i]));
      i := i + 1;
    }
  }

  lemma RowOf(q: Vec, kbase: Vec, rowStart: nat, hd: nat)
    requires hd <= |q| && rowStart + hd <= |kbase|
    ensures IsRow(q, kbase, rowStart, q[..hd], kbase[rowStart..rowStart + hd])
  {
  }

  lemma ChainNothing(a: Vec, b: Vec, at: nat, start: F32)
    requires at <= |a| == |b|
    ensures Chain(a, b, at, at, start) == start
  {
  }

  method QkRowScalar(q: Vec, kbase: Vec, rowStart: nat, hd: nat) returns (total: F32)
    requires hd <= |q| && rowStart + hd <= |kbase|
    ensures total == ScalarDot(q[..hd], kbase[rowStart..rowStart + hd])
  {
    ghost var a, b := q[..hd], kbase[rowStart..rowStart + hd];
    total := ZERO;
    for i := 0 to hd
      invariant total == Chain(a, b, 0, i, ZERO)
    {
      total := Add(total, Mul(q[i], kbase[rowStart + i]));
    }
  }

  /** Fills `scores[0..pos]` with the score of every row and touches nothing else. */
  method AttnQk(avx2: bool, q: Vec, kbase: Vec, pos: nat, stride: nat, scale: F32, scores: array<F32>, s0: nat, hd: nat)
    requires hd <= |q| && s0 + pos < scores.Length
    requires forall p: nat :: p <= pos ==> p * stride + hd <= |kbase|
    modifies scores
    ensures forall p: nat :: p <= pos ==> scores[s0 + p] == Score(avx2, q[..hd], Row(kbase, p, stride, hd), scale)
    ensures forall i :: 0 <= i < scores.Length && !(s0 <= i <= s0 + pos) ==> scores[i] == old(scores[i])
  {
    hide VectorDot, ScalarDot;
    for p := 0 to pos + 1
      invariant forall r: nat :: r < p ==> scores[s0 + r] == Score(avx2, q[..hd], Row(kbase, r, stride, hd), scale)
      invariant forall i :: 0 <= i < scores.Length && !(s0 <= i < s0 + p) ==> scores[i] == old(scores[i])
    {
      var dot;
      if avx2 {
        dot := QkRowAvx2(q, kbase, p * stride, hd);
      } else {
        dot := QkRowScalar(q, kbase, p * stride, hd);
      }
      scores[s0 + p] := Mul(dot, scale);
    }
  }

  // ----- scaled scores: over the reals -----

  function LaneSum(v: Vec, rd: Reading): real
    requires |v| == LANES
  {
    Eval(v[0], rd) + Eval(v[1], rd) + Eval(v[2], rd) + Eval(v[3], rd)
    + Eval(v[4], rd) + Eval(v[5], rd) + Eval(v[6], rd) + Eval(v[7], rd)
  }

  lemma FusedAt(x: Vec, y: Vec, acc: Vec, j: nat, rd: Reading)
    requires |x| == |y| == |acc| == LANES && j < LANES
    ensures Eval(VFma(x, y, acc)[j], rd) == Times(Eval(x[j], rd), Eval(y[j], rd)) + Eval(acc[j], rd)
  {
    hide Times;
  }

  /** Eight more products in the lanes are eight more terms of the dot product. */
  lemma EightMore(q: Vec, k: Vec, at: nat, acc: Vec, rd: Reading)
    requires |q| == |k| && at + 8 <= |q| && |acc| == LANES
    ensures LaneSum(VFma(LoadF(q, at), LoadF(k, at), acc), rd) ==
            LaneSum(acc, rd) + Dot(RealRow(q, rd), RealRow(k, rd), at, at + 8)
  {
    hide Sum, Times, VFma, Eval;
    var p, x, y := Products(RealRow(q, rd), RealRow(k, rd)), LoadF(q, at), LoadF(k, at);
    forall j: nat | j < LANES
      ensures Eval(VFma(x, y, acc)[j], rd) == p[at + j] + Eval(acc[j], rd)
    {
      FusedAt(x, y, acc, j, rd);
    }
    SumEight(p, at);
  }

  lemma ZeroLanes(rd: Reading)
    ensures LaneSum(Splat(ZERO), rd) == 0.0
  {
  }

  lemma {:induction false} LanesMeaning(q: Vec, k: Vec, n: nat, rd: Reading)
    requires 16 * n <= |q| == |k|
    ensures LaneSum(Even(q, k, n), rd) + LaneSum(Odd(q, k, n), rd) == Dot(RealRow(q, rd), RealRow(k, rd), 0, 16 * n)
  {
    hide LaneSum, LoadF, VFma, RealRow, Products;
    var p := Products(RealRow(q, rd), RealRow(k, rd));
    if n == 0 {
      ZeroLanes(rd);
      SumNothing(p);
    } else {
      var at := 16 * (n - 1);
      LanesMeaning(q, k, n - 1, rd);
      EightMore(q, k, at, Even(q, k, n - 1), rd);
      EightMore(q, k, at + 8, Odd(q, k, n - 1), rd);
      SumSplit(p, 0, at, at + 8);
      SumSplit(p, 0, at + 8, at + 16);
    }
  }

  lemma AcrossMeaning(a: Vec, b: Vec, rd: Reading)
    requires |a| == |b| == LANES
    ensures Eval(Across(VAdd(a, b)), rd) == LaneSum(a, rd) + LaneSum(b, rd)
  {
    var v := VAdd(a, b);
    FourWays(v[0], v[1], v[2], v[3], rd);
    FourWays(v[4], v[5], v[6], v[7], rd);
    forall j | 0 <= j < LANES
      ensures Eval(v[j], rd) == Eval(a[j], rd) + Eval(b[j], rd)
    {
    }
  }

  lemma FourWays(a: F32, b: F32, c: F32, d: F32, rd: Reading)
    ensures Eval(Add(Add(a, b), Add(c, d)), rd) == Eval(a, rd) + Eval(b, rd) + Eval(c, rd) + Eval(d, rd)
  {
    assert Eval(Add(a, b), rd) == Eval(a, rd) + Eval(b, rd);
  }

  lemma {:induction false} ChainMeaning(q: Vec, k: Vec, from: nat, upto: nat, start: F32, rd: Reading)
    requires from <= upto <= |q| == |k|
    ensures Eval(Chain(q, k, from, upto, start), rd) ==
            Eval(start, rd) + Dot(RealRow(q, rd), RealRow(k, rd), from, upto)
    decreases upto
  {
    hide Times;
    if upto > from {
      ChainMeaning(q, k, from, upto - 1, start, rd);
      var last := Mul(q[upto - 1], k[upto - 1]);
      assert Eval(last, rd) == Times(Eval(q[upto - 1], rd), Eval(k[upto - 1], rd));
      assert Products(RealRow(q, rd), RealRow(k, rd))[upto - 1] == Eval(last, rd);
    }
  }

  lemma VectorSumMeaning(q: Vec, k: Vec, rd: Reading)
    requires |q| == |k|
    ensures Eval(VectorSum(q, k), rd) == Dot(RealRow(q, rd), RealRow(k, rd), 0, 8 * (|q| / 8))
  {
    hide Across, LaneSum, LoadF, VFma, VAdd, Even, Odd, RealRow, Products;
    var n := |q| / 16;
    LanesMeaning(q, k, n, rd);
    AcrossMeaning(EvenAndEight(q, k), Odd(q, k, n), rd);
    if 16 * n + 8 <= |q| {
      EightMore(q, k, 16 * n, Even(q, k, n), rd);
      SumSplit(Products(RealRow(q, rd), RealRow(k, rd)), 0, 16 * n, 16 * n + 8);
      assert 8 * (|q| / 8) == 16 * n + 8;
    } else {
      assert 8 * (|q| / 8) == 16 * n;
    }
  }

  /** Over the reals both branches give the scaled dot product: neither the blocking nor the fused
      products matter. */
  lemma ScoreMeaning(avx2: bool, q: Vec, k: Vec, scale: F32, rd: Reading)
    requires |q| == |k|
    ensures Eval(Score(avx2, q, k, scale), rd) ==
            Times(Dot(RealRow(q, rd), RealRow(k, rd), 0, |q|), Eval(scale, rd))
  {
    hide Times, Chain, VectorSum, RealRow, Products;
    var p, cut := Products(RealRow(q, rd), RealRow(k, rd)), 8 * (|q| / 8);
    if avx2 {
      VectorSumMeaning(q, k, rd);
      ChainMeaning(q, k, cut, |q|, VectorSum(q, k), rd);
      SumSplit(p, 0, cut, |q|);
    } else {
      ChainMeaning(q, k, 0, |q|, ZERO, rd);
    }
    var dot := if avx2 then VectorDot(q, k) else ScalarDot(q, k);
    assert Eval(Mul(dot, scale), rd) == Times(Eval(dot, rd), Eval(scale, rd));
  }

  // ----- weighted values: what a branch builds -----

  /** What a call works on. */
  datatype Mixing = Mixing(avx2: bool, hd: nat, scores: Vec, vbase: Vec, stride: nat)

  /** The columns that vector registers cover: whole groups of eight. */
  predicate Fused(avx2: bool, hd: nat, d: nat) {
    avx2 && d < 8 * (hd / 8)
  }

  /** One more row in a column's accumulator. */
  function Accumulate(fused: bool, weight: F32, v: F32, acc: F32): F32 {
    if fused then Fma(weight, v, acc) else Add(acc, Mul(weight, v))
  }

  ghost predicate RowsReach(mx: Mixing, d: nat, n: nat) {
    n <= |mx.scores| && forall p: nat :: p < n ==> p * mx.stride + d < |mx.vbase|
  }

  /** Column `d` over the first `n` rows. */
  ghost function Column(mx: Mixing, fused: bool, d: nat, n: nat): F32
    requires RowsReach(mx, d, n)
  {
    if n == 0 then ZERO
    else Accumulate(fused, mx.scores[n - 1], mx.vbase[(n - 1) * mx.stride + d], Column(mx, fused, d, n - 1))
  }

  // ----- weighted values: the loops -----

  ghost predicate ColumnOk(x: F32, mx: Mixing, fused: bool, d: nat, n: nat) {
    RowsReach(mx, d, n) && x == Column(mx, fused, d, n)
  }

  /** The lanes hold eight adjacent columns over the first `n` rows. */
  ghost predicate LanesAt(v: Vec, mx: Mixing, d: nat, n: nat) {
    |v| == LANES && forall l: nat :: l < LANES ==> LaneOk(v, mx, d, n, l)
  }

  ghost predicate LaneOk(v: Vec, mx: Mixing, d: nat, n: nat, l: nat) {
    l < |v| && ColumnOk(v[l], mx, true, d + l, n)
  }

  lemma LanesStart(mx: Mixing, d: nat)
    ensures LanesAt(Splat(ZERO), mx, d, 0)
  {
    var v := Splat(ZERO);
    assert forall l: nat :: l < LANES ==> LaneOk(v, mx, d, 0, l);
  }

  /** One row further. */
  lemma LanesStep(v: Vec, mx: Mixing, d: nat, n: nat)
    requires n < |mx.scores| && LanesAt(v, mx, d, n) && n * mx.stride + d + 8 <= |mx.vbase|
    ensures LanesAt(VFma(Splat(mx.scores[n]), LoadF(mx.vbase, n * mx.stride + d), v), mx, d, n + 1)
  {
    var w, m := VFma(Splat(mx.scores[n]), LoadF(mx.vbase, n * mx.stride + d), v), n + 1;
    forall l: nat | l < LANES
      ensures LaneOk(w, mx, d, m, l)
    {
      assert LaneOk(v, mx, d, n, l);
      assert LoadF(mx.vbase, n * mx.stride + d)[l] == mx.vbase[n * mx.stride + (d + l)];
    }
  }

  ghost predicate ColumnAt(out: Vec, o: nat, mx: Mixing, d: nat, n: nat) {
    o + d < |out| && ColumnOk(out[o + d], mx, Fused(mx.avx2, mx.hd, d), d, n)
  }

  /** The first `done` columns of the output are written, everything else is as it was. */
  ghost predicate OutDone(before: Vec, after: Vec, o: nat, done: nat, mx: Mixing, n: nat) {
    && |after| == |before|
    && o + done <= |after|
    && (forall d: nat :: d < done ==> ColumnAt(after, o, mx, d, n))
    && (forall i :: 0 <= i < |after| && !(o <= i < o + done) ==> after[i] == before[i])
  }

  lemma OutStart(before: Vec, o: nat, mx: Mixing, n: nat)
    requires o <= |before|
    ensures OutDone(before, before, o, 0, mx, n)
  {
  }

  /** Eight more columns, stored from a register. */
  lemma OutMore(before: Vec, middle: Vec, after: Vec, o: nat, done: nat, v: Vec, mx: Mixing, n: nat)
    requires OutDone(before, middle, o, done, mx, n) && LanesAt(v, mx, done, n)
    requires mx.avx2 && done % 8 == 0 && done + 8 <= mx.hd && o + done + 8 <= |middle| == |after|
    requires forall i :: 0 <= i < |after| ==> after[i] == if o + done <= i < o + done + 8 then v[i - (o + done)] else middle[i]
    ensures OutDone(before, after, o, done + 8, mx, n)
  {
    hide ColumnOk;
    forall d: nat | d < done + 8
      ensures ColumnAt(after, o, mx, d, n)
    {
      if d < done {
        assert ColumnAt(middle, o, mx, d, n);
      } else {
        assert LaneOk(v, mx, done, n, d - done);
        assert Fused(mx.avx2, mx.hd, d);
      }
    }
  }

  /** One more column. */
  lemma OutNext(before: Vec, middle: Vec, o: nat, d: nat, x: F32, mx: Mixing, n: nat)
    requires OutDone(before, middle, o, d, mx, n) && o + d < |middle|
    requires ColumnOk(x, mx, Fused(mx.avx2, mx.hd, d), d, n)
    ensures OutDone(before, middle[o + d := x], o, d + 1, mx, n)
  {
    hide ColumnOk;
    var after := middle[o + d := x];
    forall c: nat | c < d + 1
      ensures ColumnAt(after, o, mx, c, n)
    {
      if c < d {
        assert ColumnAt(middle, o, mx, c, n);
      }
    }
  }

  method Store8(v: Vec, out: array<F32>, at: nat)
    requires |v| == 8 && at + 8 <= out.Length
    modifies out
    ensures forall i :: 0 <= i < out.Length ==> out[i] == if at <= i < at + 8 then v[i - at] else old(out[i])
  {
    for l := 0 to 8
      invariant forall i :: 0 <= i < out.Length ==> out[i] == if at <= i < at + l then v[i - at] else old(out[i])
    {
      out[at + l] := v[l];
    }
  }

  method StoreLanes(v: Vec, out: array<F32>, o: nat, d: nat, ghost before: Vec, ghost mx: Mixing, ghost n: nat)
    requires LanesAt(v, mx, d, n) && |v| == 8 && OutDone(before, out[..], o, d, mx, n)
    requires mx.avx2 && d % 8 == 0 && d + 8 <= mx.hd && o + d + 8 <= out.Length
    modifies out
    ensures OutDone(before, out[..], o, d + 8, mx, n)
  {
    hide LanesAt, OutDone;
    ghost var middle := out[..];
    Store8(v, out, o + d);
    OutMore(before, middle, out[..], o, d, v, mx, n);
  }

  method StoreColumn(x: F32, out: array<F32>, o: nat, d: nat, ghost before: Vec, ghost mx: Mixing, ghost n: nat)
    requires ColumnOk(x, mx, Fused(mx.avx2, mx.hd, d), d, n)
    requires OutDone(before, out[..], o, d, mx, n) && o + d < out.Length
    modifies out
    ensures OutDone(before, out[..], o, d + 1, mx, n)
  {
    hide ColumnOk, OutDone;
    OutNext(before, out[..], o, d, x, mx, n);
    ghost var middle := out[..];
    out[o + d] := x;
    assert out[..] == middle[o + d := x];
  }

  /** Eight columns in one register. */
  method Columns8(scores: Vec, vbase: Vec, pos: nat, stride: nat, d: nat, ghost mx: Mixing) returns (acc: Vec)
    requires mx.scores == scores && mx.vbase == vbase && mx.stride == stride && pos < |scores|
    requires forall p: nat :: p <= pos ==> p * stride + d + 8 <= |vbase|
    ensures |acc| == LANES && LanesAt(acc, mx, d, pos + 1)
  {
    hide LanesAt, VFma, LoadF, Splat;
    acc := Splat(ZERO);
    LanesStart(mx, d);
    for p := 0 to pos + 1
      invariant |acc| == LANES && LanesAt(acc, mx, d, p)
    {
      LanesStep(acc, mx, d, p);
      acc := VFma(Splat(scores[p]), LoadF(vbase, p * stride + d), acc);
    }
  }

  /** One column, product by product. */
  method OneColumn(scores: Vec, vbase: Vec, pos: nat, stride: nat, d: nat, ghost mx: Mixing) returns (acc: F32)
    requires mx.scores == scores && mx.vbase == vbase && mx.stride == stride && pos < |scores|
    requires forall p: nat :: p <= pos ==> p * stride + d < |vbase|
    ensures ColumnOk(acc, mx, false, d, pos + 1)
  {
    acc := ZERO;
    for p := 0 to pos + 1
      invariant ColumnOk(acc, mx, false, d, p)
    {
      acc := Add(acc, Mul(scores[p], vbase[p * stride + d]));
    }
  }

  /** Sixty-four columns in eight registers, all advanced row by row. */
  method Columns64(scores: Vec, vbase: Vec, pos: nat, stride: nat, d: nat, ghost mx: Mixing)
      returns (acc0: Vec, acc1: Vec, acc2: Vec, acc3: Vec, acc4: Vec, acc5: Vec, acc6: Vec, acc7: Vec)
    requires mx.scores == scores && mx.vbase == vbase && mx.stride == stride && pos < |scores|
    requires forall p: nat :: p <= pos ==> p * stride + d + 64 <= |vbase|
    ensures |acc0| == |acc1| == |acc2| == |acc3| == |acc4| == |acc5| == |acc6| == |acc7| == LANES
    ensures LanesAt(acc0, mx, d, pos + 1) && LanesAt(acc1, mx, d + 8, pos + 1)
    ensures LanesAt(acc2, mx, d + 16, pos + 1) && LanesAt(acc3, mx, d + 24, pos + 1)
    ensures LanesAt(acc4, mx, d + 32, pos + 1) && LanesAt(acc5, mx, d + 40, pos + 1)
    ensures LanesAt(acc6, mx, d + 48, pos + 1) && LanesAt(acc7, mx, d + 56, pos + 1)
  {
    hide LanesAt, VFma, LoadF, Splat;
    acc0 := Splat(ZERO);
    acc1, acc2, acc3, acc4, acc5, acc6, acc7 := acc0, acc0, acc0, acc0, acc0, acc0, acc0;
    LanesStart(mx, d);
    LanesStart(mx, d + 8);
    LanesStart(mx, d + 16);
    LanesStart(mx, d + 24);
    LanesStart(mx, d + 32);
    LanesStart(mx, d + 40);
    LanesStart(mx, d + 48);
    LanesStart(mx, d + 56);
    for p := 0 to pos + 1
      invariant |acc0| == |acc1| == |acc2| == |acc3| == |acc4| == |acc5| == |acc6| == |acc7| == LANES
      invariant LanesAt(acc0, mx, d, p) && LanesAt(acc1, mx, d + 8, p)
      invariant LanesAt(acc2, mx, d + 16, p) && LanesAt(acc3, mx, d + 24, p)
      invariant LanesAt(acc4, mx, d + 32, p) && LanesAt(acc5, mx, d + 40, p)
      invariant LanesAt(acc6, mx, d + 48, p) && LanesAt(acc7, mx, d + 56, p)
    {
      var weight := Splat(scores[p]);
      var at := p * stride + d;
      LanesStep(acc0, mx, d, p);
      acc0 := VFma(weight, LoadF(vbase, at), acc0);
      LanesStep(acc1, mx, d + 8, p);
      acc1 := VFma(weight, LoadF(vbase, at + 8), acc1);
      LanesStep(acc2, mx, d + 16, p);
      acc2 := VFma(weight, LoadF(vbase, at + 16), acc2);
      LanesStep(acc3, mx, d + 24, p);
      acc3 := VFma(weight, LoadF(vbase, at + 24), acc3);
      LanesStep(acc4, mx, d + 32, p);
      acc4 := VFma(weight, LoadF(vbase, at + 32), acc4);
      LanesStep(acc5, mx, d + 40, p);
      acc5 := VFma(weight, LoadF(vbase, at + 40), acc5);
      LanesStep(acc6, mx, d + 48, p);
      acc6 := VFma(weight, LoadF(vbase, at + 48), acc6);
      LanesStep(acc7, mx, d + 56, p);
      acc7 := VFma(weight, LoadF(vbase, at + 56), acc7);
    }
  }

  /** Sixty-four more columns of the output. */
  method Block64(scores: Vec, vbase: Vec, pos: nat, stride: nat, out: array<F32>, o: nat, d: nat,
                 ghost before: Vec, ghost mx: Mixing)
    requires mx.scores == scores && mx.vbase == vbase && mx.stride == stride && pos < |scores|
    requires forall p: nat :: p <= pos ==> p * stride + d + 64 <= |vbase|
    requires OutDone(before, out[..], o, d, mx, pos + 1)
    requires mx.avx2 && d % 8 == 0 && d + 64 <= mx.hd && o + d + 64 <= out.Length
    modifies out
    ensures OutDone(before, out[..], o, d + 64, mx, pos + 1)
  {
    hide OutDone, LanesAt;
    var acc0, acc1, acc2, acc3, acc4, acc5, acc6, acc7 := Columns64(scores, vbase, pos, stride, d, mx);
    StoreLanes(acc0, out, o, d, before, mx, pos + 1);
    StoreLanes(acc1, out, o, d + 8, before, mx, pos + 1);
    StoreLanes(acc2, out, o, d + 16, before, mx, pos + 1);
    StoreLanes(acc3, out, o, d + 24, before, mx, pos + 1);
    StoreLanes(acc4, out, o, d + 32, before, mx, pos + 1);
    StoreLanes(acc5, out, o, d + 40, before, mx, pos + 1);
    StoreLanes(acc6, out, o, d + 48, before, mx, pos + 1);
    StoreLanes(acc7, out, o, d + 56, before, mx, pos + 1);
  }

  /** Whatever the head dimension leaves over, column `d` is the expression its branch builds. */
  method AttnAv(avx2: bool, scores: Vec, vbase: Vec, pos: nat, stride: nat, out: array<F32>, o: nat, hd: nat)
    requires pos < |scores| && o + hd <= out.Length
    requires forall p: nat :: p <= pos ==> p * stride + hd <= |vbase|
    modifies out
    ensures OutDone(old(out[..]), out[..], o, hd, Mixing(avx2, hd, scores, vbase, stride), pos + 1)
  {
    hide OutDone, LanesAt, ColumnOk;
    ghost var before, mx := out[..], Mixing(avx2, hd, scores, vbase, stride);
    OutStart(before, o, mx, pos + 1);
    var d := 0;
    if avx2 && hd % 64 == 0 {
      while d < hd
        invariant d <= hd && d % 64 == 0
        invariant OutDone(before, out[..], o, d, mx, pos + 1)
      {
        Block64(scores, vbase, pos, stride, out, o, d, before, mx);
        d := d + 64;
      }
    } else {
      while avx2 && d + 8 <= hd
        invariant d <= hd && d % 8 == 0 && (!avx2 ==> d == 0)
        invariant OutDone(before, out[..], o, d, mx, pos + 1)
        decreases hd - d
      {
        var acc := Columns8(scores, vbase, pos, stride, d, mx);
        StoreLanes(acc, out, o, d, before, mx, pos + 1);
        d := d + 8;
      }
      while d < hd
        invariant d <= hd && !Fused(avx2, hd, d)
        invariant OutDone(before, out[..], o, d, mx, pos + 1)
      {
        var acc := OneColumn(scores, vbase, pos, stride, d, mx);
        StoreColumn(acc, out, o, d, before, mx, pos + 1);
        d := d + 1;
      }
    }
  }
}
