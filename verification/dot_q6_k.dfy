/** `Q6_K` weights against float activations: 6-bit codes rebuilt in 16-byte registers or byte by
    byte, four quarter sums per lane. */
module DotQ6K {
  import opened Machine
  import opened Float32
  import opened RealSums
  import opened Avx2
  import opened FloatLanes
  import opened Q6K
  import Q6KMeaning

  const QK: nat := 256

  function ScaleExpr(w: seq<byte>, o: nat, n: nat, qt: nat, g: nat): F32
    requires o + WBLOCK <= |w| && n < 2 && qt < 4 && g < 2
  {
    Mul(Half(U16(w[o + D], w[o + D + 1])), OfInt(Scale(w, o, n, qt, g)))
  }

  /** `(float32(code-32)*s)*x`. */
  function Element(code: byte, s: F32, x: F32): F32 {
    Mul(Mul(OfInt(code as int - 32), s), x)
  }

  /** What lane `j` of quarter `qt` gets from group `g`. */
  function GroupTerm(w: seq<byte>, o: nat, x: seq<F32>, xo: nat, n: nat, qt: nat, g: nat, j: nat): F32
    requires o + WBLOCK <= |w| && xo + QK <= |x| && n < 2 && qt < 4 && g < 2 && j < LANES
  {
    var at := xo + 128 * n + 32 * qt;
    Add(Element(Code(w, o, n, qt, 16 * g + j), ScaleExpr(w, o, n, qt, g), x[at + 16 * g + j]),
        Element(Code(w, o, n, qt, 16 * g + 8 + j), ScaleExpr(w, o, n, qt, g), x[at + 16 * g + 8 + j]))
  }

  /** A quarter's lane after `g` groups. */
  function Quarter(w: seq<byte>, o: nat, x: seq<F32>, xo: nat, n: nat, qt: nat, g: nat, j: nat): F32
    requires o + WBLOCK <= |w| && xo + QK <= |x| && n < 2 && qt < 4 && g <= 2 && j < LANES
  {
    if g == 0 then ZERO
    else Add(Quarter(w, o, x, xo, n, qt, g - 1, j), GroupTerm(w, o, x, xo, n, qt, g - 1, j))
  }

  /** What lane `j` adds for half `n` of a block. */
  function Term(w: seq<byte>, o: nat, x: seq<F32>, xo: nat, n: nat, j: nat): F32
    requires o + WBLOCK <= |w| && xo + QK <= |x| && n < 2 && j < LANES
  {
    Add(Add(Quarter(w, o, x, xo, n, 0, 2, j), Quarter(w, o, x, xo, n, 1, 2, j)),
        Add(Quarter(w, o, x, xo, n, 2, 2, j), Quarter(w, o, x, xo, n, 3, 2, j)))
  }

  ghost predicate Fits(w: seq<byte>, x: seq<F32>, b: nat, n: nat) {
    n <= 2 && WBLOCK * (if n == 0 then b else b + 1) <= |w| && QK * (if n == 0 then b else b + 1) <= |x|
  }

  /** A lane after `b` blocks and `n` halves of the next one. */
  ghost function Lane(w: seq<byte>, x: seq<F32>, b: nat, n: nat, j: nat): F32
    requires Fits(w, x, b, n) && j < LANES
    decreases b, n
  {
    if n > 0 then Add(Lane(w, x, b, n - 1, j), Term(w, WBLOCK * b, x, QK * b, n - 1, j))
    else if b > 0 then Lane(w, x, b - 1, 2, j)
    else ZERO
  }

  ghost function Lanes(w: seq<byte>, x: seq<F32>, b: nat, n: nat): (v: seq<F32>)
    requires Fits(w, x, b, n)
    ensures |v| == LANES && forall j :: 0 <= j < LANES ==> v[j] == Lane(w, x, b, n, j)
  {
    seq(LANES, j requires 0 <= j < LANES => Lane(w, x, b, n, j))
  }

  lemma NextLanes(w: seq<byte>, x: seq<F32>, b: nat, n: nat, before: seq<F32>, after: seq<F32>)
    requires n < 2 && Fits(w, x, b, n + 1)
    requires before == Lanes(w, x, b, n) && |after| == LANES
    requires forall j :: 0 <= j < LANES ==> after[j] == Add(before[j], Term(w, WBLOCK * b, x, QK * b, n, j))
    ensures after == Lanes(w, x, b, n + 1)
  {
    hide Term;
  }

  lemma NextBlock(w: seq<byte>, x: seq<F32>, b: nat)
    requires Fits(w, x, b, 2)
    ensures Lanes(w, x, b, 2) == Lanes(w, x, b + 1, 0)
  {
    hide Term;
    assert Lanes(w, x, b, 2) == Lanes(w, x, b + 1, 0);
  }

  // ----- vector registers -----

  /** `v.Sub(BroadcastUint8x16(32))`, byte by byte with wrap-around. */
  function Sub32(v: seq<byte>): (r: seq<byte>)
    ensures |r| == |v| && forall i :: 0 <= i < |v| ==> r[i] == v[i] - 32
  {
    seq(|v|, i requires 0 <= i < |v| => v[i] - 32)
  }

  /** A six-bit code minus 32 as a wrapped byte, read back as a signed one. */
  lemma SignedCode(c: byte)
    requires c <= 63
    ensures Int8(c - 32) == c as int - 32
  {
    if c >= 32 {
      BorrowFree(c);
    } else {
      Borrow(c);
    }
  }

  lemma BorrowFree(c: byte)
    requires 32 <= c <= 63
    ensures c - 32 < 128 && (c - 32) as int == c as int - 32
  {
  }

  lemma Borrow(c: byte)
    requires c < 32
    ensures c - 32 >= 128 && (c - 32) as int == c as int + 224
  {
  }

  /** The sixteen codes of group `g` of a quarter. */
  function CodeVector16(w: seq<byte>, o: nat, n: nat, qt: nat, g: nat): (v: seq<byte>)
    requires o + WBLOCK <= |w| && n < 2 && qt < 4 && g < 2
    ensures |v| == 16
  {
    Sub32(Or(LowVector(Load16(w, LowAt(o, n, qt) + 16 * g), qt), HighVector(Load16(w, o + HIGH + 32 * n + 16 * g), qt)))
  }

  lemma CodeVectorAt(w: seq<byte>, o: nat, n: nat, qt: nat, g: nat, l: nat)
    requires o + WBLOCK <= |w| && n < 2 && qt < 4 && g < 2 && l < 16
    ensures Int8(CodeVector16(w, o, n, qt, g)[l]) == Code(w, o, n, qt, 16 * g + l) as int - 32
  {
    hide LowVector, HighVector, LowPart, HighPart, Int8;
    var ql, qh := Load16(w, LowAt(o, n, qt) + 16 * g), Load16(w, o + HIGH + 32 * n + 16 * g);
    LowVectorAt(ql, qt, l);
    HighVectorAt(qh, qt, l);
    CodeRange(ql[l], qh[l], qt);
    SignedCode(CodeOf(ql[l], qh[l], qt));
  }

  /** Sixteen codes of one group, scaled, against their activations, added to a quarter register. */
  method GroupAvx2(codes: seq<byte>, scale: F32, x: seq<F32>, at: nat, acc: seq<F32>) returns (quarter: seq<F32>)
    requires |codes| == 16 && at + 16 <= |x| && |acc| == LANES
    ensures |quarter| == LANES
    ensures forall j :: 0 <= j < LANES ==> quarter[j] == Add(acc[j],
              Add(Mul(Mul(OfInt(Int8(codes[j])), scale), x[at + j]), Mul(Mul(OfInt(Int8(codes[j + 8])), scale), x[at + j + 8])))
  {
    hide VAdd, VMul, Splat, LoadF, SignedFloats, SwapHalves, Int8;
    var low := VMul(VMul(SignedFloats(codes), Splat(scale)), LoadF(x, at));
    var high := VMul(VMul(SignedFloats(SwapHalves(codes)), Splat(scale)), LoadF(x, at + 8));
    var both := VAdd(low, high);
    quarter := VAdd(acc, both);
  }

  ghost predicate QuarterIs(v: seq<F32>, w: seq<byte>, o: nat, x: seq<F32>, xo: nat, n: nat, qt: nat, g: nat)
    requires o + WBLOCK <= |w| && xo + QK <= |x| && n < 2 && qt < 4 && g <= 2
  {
    |v| == LANES && forall j :: 0 <= j < LANES ==> v[j] == Quarter(w, o, x, xo, n, qt, g, j)
  }

  /** One more group in the register of a quarter. */
  method QuarterAvx2(w: seq<byte>, o: nat, x: seq<F32>, xo: nat, n: nat, qt: nat, g: nat, acc: seq<F32>) returns (v: seq<F32>)
    requires o + WBLOCK <= |w| && xo + QK <= |x| && n < 2 && qt < 4 && g < 2
    requires QuarterIs(acc, w, o, x, xo, n, qt, g)
    ensures QuarterIs(v, w, o, x, xo, n, qt, g + 1)
  {
    hide Int8, U16, CodeVector16, Code;
    var s := Mul(Half(U16(w[o + D], w[o + D + 1])), OfInt(Int8(w[o + SCALES + 8 * n + 2 * qt + g])));
    var codes := CodeVector16(w, o, n, qt, g);
    var at := xo + 128 * n + 32 * qt + 16 * g;
    v := GroupAvx2(codes, s, x, at, acc);
    forall j | 0 <= j < LANES
      ensures v[j] == Quarter(w, o, x, xo, n, qt, g + 1, j)
    {
      CodeVectorAt(w, o, n, qt, g, j);
      CodeVectorAt(w, o, n, qt, g, j + 8);
    }
  }

  /** Four quarter registers over two groups, added up into the running register. */
  method HalfAvx2(w: seq<byte>, x: seq<F32>, b: nat, n: nat, acc: seq<F32>) returns (reg: seq<F32>)
    requires n < 2 && Fits(w, x, b, n + 1) && acc == Lanes(w, x, b, n)
    ensures reg == Lanes(w, x, b, n + 1)
  {
    hide Quarter, VAdd, Lane, Lanes;
    var o, xo := b * 210, b * 256;
    var quarter0 := Splat(ZERO);
    var quarter1, quarter2, quarter3 := quarter0, quarter0, quarter0;
    QuarterStart(w, o, x, xo, n);
    for g := 0 to 2
      invariant QuarterIs(quarter0, w, o, x, xo, n, 0, g) && QuarterIs(quarter1, w, o, x, xo, n, 1, g)
      invariant QuarterIs(quarter2, w, o, x, xo, n, 2, g) && QuarterIs(quarter3, w, o, x, xo, n, 3, g)
    {
      quarter0 := QuarterAvx2(w, o, x, xo, n, 0, g, quarter0);
      quarter1 := QuarterAvx2(w, o, x, xo, n, 1, g, quarter1);
      quarter2 := QuarterAvx2(w, o, x, xo, n, 2, g, quarter2);
      quarter3 := QuarterAvx2(w, o, x, xo, n, 3, g, quarter3);
    }
    var total := VAdd(VAdd(quarter0, quarter1), VAdd(quarter2, quarter3));
    reg := VAdd(acc, total);
    NextLanes(w, x, b, n, acc, reg);
  }

  lemma QuarterStart(w: seq<byte>, o: nat, x: seq<F32>, xo: nat, n: nat)
    requires o + WBLOCK <= |w| && xo + QK <= |x| && n < 2
    ensures forall qt: nat :: qt < 4 ==> QuarterIs(Splat(ZERO), w, o, x, xo, n, qt, 0)
  {
  }

  // ----- lane arrays -----

  /** One group of one half, for all lanes of the four quarter arrays. */
  method GroupScalar(w: seq<byte>, o: nat, x: seq<F32>, xo: nat, n: nat, g: nat,
                     lanes0: array<F32>, lanes1: array<F32>, lanes2: array<F32>, lanes3: array<F32>)
    requires o + WBLOCK <= |w| && xo + QK <= |x| && n < 2 && g < 2
    requires lanes0.Length == lanes1.Length == lanes2.Length == lanes3.Length == LANES
    requires lanes0 != lanes1 && lanes0 != lanes2 && lanes0 != lanes3 && lanes1 != lanes2 && lanes1 != lanes3 && lanes2 != lanes3
    requires QuarterIs(lanes0[..], w, o, x, xo, n, 0, g) && QuarterIs(lanes1[..], w, o, x, xo, n, 1, g)
    requires QuarterIs(lanes2[..], w, o, x, xo, n, 2, g) && QuarterIs(lanes3[..], w, o, x, xo, n, 3, g)
    modifies lanes0, lanes1, lanes2, lanes3
    ensures QuarterIs(lanes0[..], w, o, x, xo, n, 0, g + 1) && QuarterIs(lanes1[..], w, o, x, xo, n, 1, g + 1)
    ensures QuarterIs(lanes2[..], w, o, x, xo, n, 2, g + 1) && QuarterIs(lanes3[..], w, o, x, xo, n, 3, g + 1)
  {
    LanesScalar(w, o, x, xo, n, 0, g, lanes0);
    LanesScalar(w, o, x, xo, n, 1, g, lanes1);
    LanesScalar(w, o, x, xo, n, 2, g, lanes2);
    LanesScalar(w, o, x, xo, n, 3, g, lanes3);
  }

  lemma QuarterNext(w: seq<byte>, o: nat, x: seq<F32>, xo: nat, n: nat, qt: nat, g: nat, j: nat)
    requires o + WBLOCK <= |w| && xo + QK <= |x| && n < 2 && qt < 4 && g < 2 && j < LANES
    ensures var s, lo, hi := ScaleExpr(w, o, n, qt, g), LowAt(o, n, qt) + 16 * g + j, o + HIGH + 32 * n + 16 * g + j;
            var at := xo + 128 * n + 32 * qt + 16 * g + j;
            Quarter(w, o, x, xo, n, qt, g + 1, j) == Add(Quarter(w, o, x, xo, n, qt, g, j),
              Add(Mul(Mul(OfInt(CodeOf(w[lo], w[hi], qt) as int - 32), s), x[at]),
                  Mul(Mul(OfInt(CodeOf(w[lo + 8], w[hi + 8], qt) as int - 32), s), x[at + 8])))
  {
    hide CodeOf, ScaleExpr;
  }

  /** A code as this branch computes it: in bytes for the first two quarters, in 32-bit words for the
      last two. */
  function WideInt(low: byte, high: byte, qt: nat): int
    requires qt < 4
  {
    if qt < 2 then WideCode(low, high, qt) as int
    else if qt == 2 then (((low as bv32) >> 4) | ((((high as bv32) >> 4) & 3) << 4)) as int
    else (((low as bv32) >> 4) | ((((high as bv32) >> 6) & 3) << 4)) as int
  }

  lemma WideWord2(low: byte, high: byte)
    ensures (((low as bv32) >> 4) | ((((high as bv32) >> 4) & 3) << 4)) as int == ((low >> 4) | (((high >> 4) & 3) << 4)) as int
  {
  }

  lemma WideWord3(low: byte, high: byte)
    ensures (((low as bv32) >> 4) | ((((high as bv32) >> 6) & 3) << 4)) as int == ((low >> 4) | (((high >> 6) & 3) << 4)) as int
  {
  }

  lemma CodeBits(low: byte, high: byte)
    ensures CodeOf(low, high, 2) == (low >> 4) | (((high >> 4) & 3) << 4)
    ensures CodeOf(low, high, 3) == (low >> 4) | (((high >> 6) & 3) << 4)
  {
  }

  lemma WideIntExact(low: byte, high: byte, qt: nat)
    requires qt < 4
    ensures WideInt(low, high, qt) == CodeOf(low, high, qt) as int
  {
    hide WideCode, CodeOf;
    WideCodeExact(low, high, qt);
    WideWord2(low, high);
    WideWord3(low, high);
    CodeBits(low, high);
  }

  method LanesScalar(w: seq<byte>, o: nat, x: seq<F32>, xo: nat, n: nat, qt: nat, g: nat, lanes: array<F32>)
    requires o + WBLOCK <= |w| && xo + QK <= |x| && n < 2 && qt < 4 && g < 2 && lanes.Length == LANES
    requires QuarterIs(lanes[..], w, o, x, xo, n, qt, g)
    modifies lanes
    ensures QuarterIs(lanes[..], w, o, x, xo, n, qt, g + 1)
  {
    hide U16, CodeOf, WideInt, Int8, Quarter;
    var s := Mul(Half(U16(w[o + D], w[o + D + 1])), OfInt(Int8(w[o + SCALES + 8 * n + 2 * qt + g])));
    for lane := 0 to LANES
      invariant forall j :: 0 <= j < lane ==> lanes[j] == Quarter(w, o, x, xo, n, qt, g + 1, j)
      invariant forall j :: lane <= j < LANES ==> lanes[j] == Quarter(w, o, x, xo, n, qt, g, j)
    {
      var first, second := g * 16 + lane, g * 16 + 8 + lane;
      var c0 := WideInt(w[LowAt(o, n, qt) + first], w[o + HIGH + 32 * n + first], qt);
      var c1 := WideInt(w[LowAt(o, n, qt) + second], w[o + HIGH + 32 * n + second], qt);
      WideIntExact(w[LowAt(o, n, qt) + first], w[o + HIGH + 32 * n + first], qt);
      WideIntExact(w[LowAt(o, n, qt) + second], w[o + HIGH + 32 * n + second], qt);
      var at := xo + 128 * n + 32 * qt;
      QuarterNext(w, o, x, xo, n, qt, g, lane);
      lanes[lane] := Add(lanes[lane],
        Add(Mul(Mul(OfInt(c0 - 32), s), x[at + first]), Mul(Mul(OfInt(c1 - 32), s), x[at + second])));
    }
  }

  method HalfScalar(w: seq<byte>, x: seq<F32>, b: nat, n: nat, lanes: array<F32>)
    requires n < 2 && Fits(w, x, b, n + 1) && lanes.Length == LANES && lanes[..] == Lanes(w, x, b, n)
    modifies lanes
    ensures lanes[..] == Lanes(w, x, b, n + 1)
  {
    hide Quarter, Lane, Lanes;
    ghost var before := lanes[..];
    var o, xo := b * 210, b * 256;
    var lanes0, lanes1, lanes2, lanes3 := new F32[8](i => ZERO), new F32[8](i => ZERO), new F32[8](i => ZERO), new F32[8](i => ZERO);
    assert lanes0[..] == Splat(ZERO) && lanes1[..] == Splat(ZERO) && lanes2[..] == Splat(ZERO) && lanes3[..] == Splat(ZERO);
    QuarterStart(w, o, x, xo, n);
    for g := 0 to 2
      invariant lanes[..] == before
      invariant QuarterIs(lanes0[..], w, o, x, xo, n, 0, g) && QuarterIs(lanes1[..], w, o, x, xo, n, 1, g)
      invariant QuarterIs(lanes2[..], w, o, x, xo, n, 2, g) && QuarterIs(lanes3[..], w, o, x, xo, n, 3, g)
    {
      GroupScalar(w, o, x, xo, n, g, lanes0, lanes1, lanes2, lanes3);
    }
    AddQuarters(lanes0[..], lanes1[..], lanes2[..], lanes3[..], lanes);
    NextLanes(w, x, b, n, before, lanes[..]);
  }

  method AddQuarters(lanes0: seq<F32>, lanes1: seq<F32>, lanes2: seq<F32>, lanes3: seq<F32>, lanes: array<F32>)
    requires |lanes0| == |lanes1| == |lanes2| == |lanes3| == lanes.Length == LANES
    modifies lanes
    ensures forall l :: 0 <= l < LANES ==>
              lanes[l] == Add(old(lanes[l]), Add(Add(lanes0[l], lanes1[l]), Add(lanes2[l], lanes3[l])))
  {
    for j := 0 to LANES
      invariant forall l :: 0 <= l < j ==>
                  lanes[l] == Add(old(lanes[l]), Add(Add(lanes0[l], lanes1[l]), Add(lanes2[l], lanes3[l])))
      invariant forall l :: j <= l < LANES ==> lanes[l] == old(lanes[l])
    {
      lanes[j] := Add(lanes[j], Add(Add(lanes0[j], lanes1[j]), Add(lanes2[j], lanes3[j])));
    }
  }

  /** Both branches build the same expression. */
  method Dot6(w: seq<byte>, x: seq<F32>, cols: nat, avx2: bool) returns (r: F32)
    requires WBLOCK * (cols / QK) <= |w| && QK * (cols / QK) <= |x|
    ensures r == HSum(Lanes(w, x, cols / QK, 0))
  {
    hide Term, HSum;
    var blocks := cols / 256;
    var reg, lanes := Splat(ZERO), new F32[8](i => ZERO);
    assert reg == Lanes(w, x, 0, 0) && lanes[..] == Lanes(w, x, 0, 0);
    for b := 0 to blocks
      invariant fresh(lanes)
      invariant avx2 ==> reg == Lanes(w, x, b, 0)
      invariant !avx2 ==> lanes[..] == Lanes(w, x, b, 0)
    {
      hide Lanes, Lane;
      for n := 0 to 2
        invariant fresh(lanes)
        invariant avx2 ==> reg == Lanes(w, x, b, n)
        invariant !avx2 ==> lanes[..] == Lanes(w, x, b, n)
      {
        if avx2 {
          reg := HalfAvx2(w, x, b, n, reg);
        } else {
          HalfScalar(w, x, b, n, lanes);
        }
      }
      NextBlock(w, x, b);
    }
    return if avx2 then HSum(reg) else HSum(lanes[..]);
  }

  // ----- over the reals -----

  function Terms(w: seq<byte>, x: seq<F32>, m: nat, rd: Reading): (p: seq<real>)
    requires WBLOCK * m <= |w| && QK * m == |x|
    ensures |p| == QK * m
  {
    Products(Q6KMeaning.WeightRow(w, m, rd), RealRow(x, rd))
  }

  lemma ElementMeaning(w: seq<byte>, x: seq<F32>, m: nat, b: nat, n: nat, qt: nat, l: nat, rd: Reading)
    requires WBLOCK * m <= |w| && QK * m == |x| && b < m && n < 2 && qt < 4 && l < 32
    ensures var at := QK * b + 128 * n + 32 * qt + l;
            at < QK * m && Terms(w, x, m, rd)[at] ==
            Eval(Element(Code(w, WBLOCK * b, n, qt, l), ScaleExpr(w, WBLOCK * b, n, qt, l / 16), x[at]), rd)
  {
    hide Code, Scale, U16, Times, Q6KMeaning.RowWeight;
    var o, at := WBLOCK * b, QK * b + 128 * n + 32 * qt + l;
    Q6KMeaning.RowWeightAt(w, m, b, n, qt, l);
    var s, c := ScaleExpr(w, o, n, qt, l / 16), OfInt(Code(w, o, n, qt, l) as int - 32);
    assert Q6KMeaning.RowWeight(w, m, at) == Mul(s, c);
    assert Eval(Mul(s, c), rd) == Times(Eval(s, rd), Eval(c, rd));
    assert Eval(Mul(Mul(c, s), x[at]), rd) == Times(Eval(Mul(c, s), rd), Eval(x[at], rd));
    Commute(Eval(s, rd), Eval(c, rd));
    assert Q6KMeaning.WeightRow(w, m, rd)[at] == Eval(Q6KMeaning.RowWeight(w, m, at), rd) && RealRow(x, rd)[at] == Eval(x[at], rd);
  }

  lemma Commute(a: real, b: real)
    ensures Times(a, b) == Times(b, a)
  {
  }

  lemma QuarterMeaning(w: seq<byte>, x: seq<F32>, m: nat, b: nat, n: nat, qt: nat, j: nat, rd: Reading)
    requires WBLOCK * m <= |w| && QK * m == |x| && b < m && n < 2 && qt < 4 && j < LANES
    ensures Eval(Quarter(w, WBLOCK * b, x, QK * b, n, qt, 2, j), rd) == Quad(Terms(w, x, m, rd), 8 * b + 4 * n + qt, j)
  {
    hide Code, ScaleExpr, Element, Times, Terms, Quarter;
    var o, xo := WBLOCK * b, QK * b;
    ElementMeaning(w, x, m, b, n, qt, j, rd);
    ElementMeaning(w, x, m, b, n, qt, 8 + j, rd);
    ElementMeaning(w, x, m, b, n, qt, 16 + j, rd);
    ElementMeaning(w, x, m, b, n, qt, 24 + j, rd);
    var g0, g1 := GroupTerm(w, o, x, xo, n, qt, 0, j), GroupTerm(w, o, x, xo, n, qt, 1, j);
    QuarterIsSum(w, o, x, xo, n, qt, j);
    var one := Add(ZERO, g0);
    EvalTwo(one, g1, rd);
    EvalTwo(ZERO, g0, rd);
    assert Eval(ZERO, rd) == 0.0;
    assert xo + 128 * n + 32 * qt == 32 * (8 * b + 4 * n + qt);
  }

  lemma QuarterIsSum(w: seq<byte>, o: nat, x: seq<F32>, xo: nat, n: nat, qt: nat, j: nat)
    requires o + WBLOCK <= |w| && xo + QK <= |x| && n < 2 && qt < 4 && j < LANES
    ensures Quarter(w, o, x, xo, n, qt, 2, j) ==
            Add(Add(ZERO, GroupTerm(w, o, x, xo, n, qt, 0, j)), GroupTerm(w, o, x, xo, n, qt, 1, j))
  {
    hide GroupTerm;
    assert Quarter(w, o, x, xo, n, qt, 0, j) == ZERO;
    assert Quarter(w, o, x, xo, n, qt, 1, j) == Add(ZERO, GroupTerm(w, o, x, xo, n, qt, 0, j));
  }

  lemma EvalTwo(a: F32, b: F32, rd: Reading)
    ensures Eval(Add(a, b), rd) == Eval(a, rd) + Eval(b, rd)
  {
  }

  lemma TermMeaning(w: seq<byte>, x: seq<F32>, m: nat, b: nat, n: nat, j: nat, rd: Reading)
    requires WBLOCK * m <= |w| && QK * m == |x| && b < m && n < 2 && j < LANES
    ensures var p, s := Terms(w, x, m, rd), 8 * b + 4 * n;
            Eval(Term(w, WBLOCK * b, x, QK * b, n, j), rd) ==
            Quad(p, s, j) + Quad(p, s + 1, j) + Quad(p, s + 2, j) + Quad(p, s + 3, j)
  {
    hide Quarter, Terms, Quad;
    QuarterMeaning(w, x, m, b, n, 0, j, rd);
    QuarterMeaning(w, x, m, b, n, 1, j, rd);
    QuarterMeaning(w, x, m, b, n, 2, j, rd);
    QuarterMeaning(w, x, m, b, n, 3, j, rd);
    var q0, q1 := Quarter(w, WBLOCK * b, x, QK * b, n, 0, 2, j), Quarter(w, WBLOCK * b, x, QK * b, n, 1, 2, j);
    var q2, q3 := Quarter(w, WBLOCK * b, x, QK * b, n, 2, 2, j), Quarter(w, WBLOCK * b, x, QK * b, n, 3, 2, j);
    EvalTwo(Add(q0, q1), Add(q2, q3), rd);
    EvalTwo(q0, q1, rd);
    EvalTwo(q2, q3, rd);
  }

  lemma FourGroups(p: seq<real>, s: nat, j: nat)
    requires 32 * (s + 4) <= |p| && j < LANES
    ensures LaneTotal(p, s + 4, j) ==
            LaneTotal(p, s, j) + Quad(p, s, j) + Quad(p, s + 1, j) + Quad(p, s + 2, j) + Quad(p, s + 3, j)
  {
    hide Quad;
    assert LaneTotal(p, s + 2, j) == LaneTotal(p, s + 1, j) + Quad(p, s + 1, j);
    assert LaneTotal(p, s + 3, j) == LaneTotal(p, s + 2, j) + Quad(p, s + 2, j);
  }

  lemma {:induction false} LaneMeaning(w: seq<byte>, x: seq<F32>, m: nat, b: nat, n: nat, j: nat, rd: Reading)
    requires WBLOCK * m <= |w| && QK * m == |x| && n <= 2 && (if n == 0 then b else b + 1) <= m && j < LANES
    ensures Fits(w, x, b, n) && Eval(Lane(w, x, b, n, j), rd) == LaneTotal(Terms(w, x, m, rd), 8 * b + 4 * n, j)
    decreases b, n
  {
    hide Terms, Term, Quad, LaneTotal;
    if n > 0 {
      LaneMeaning(w, x, m, b, n - 1, j, rd);
      TermMeaning(w, x, m, b, n - 1, j, rd);
      FourGroups(Terms(w, x, m, rd), 8 * b + 4 * (n - 1), j);
    } else if b > 0 {
      LaneMeaning(w, x, m, b - 1, 2, j, rd);
    } else {
      NoGroups(Terms(w, x, m, rd), j);
    }
  }

  lemma NoGroups(p: seq<real>, j: nat)
    requires j < LANES
    ensures LaneTotal(p, 0, j) == 0.0
  {
  }

  /** Over the reals the kernel is the dot product of the dequantised weights with the activations. */
  lemma KernelMeaning(w: seq<byte>, x: seq<F32>, m: nat, rd: Reading)
    requires WBLOCK * m <= |w| && QK * m == |x|
    ensures Eval(HSum(Lanes(w, x, m, 0)), rd) == Dot(Q6KMeaning.WeightRow(w, m, rd), RealRow(x, rd), 0, QK * m)
  {
    hide HSum, Lane, LaneTotal, Sum, Q6KMeaning.WeightRow, RealRow, Products;
    var lanes := Lanes(w, x, m, 0);
    forall j | 0 <= j < LANES
      ensures Eval(lanes[j], rd) == LaneTotal(Terms(w, x, m, rd), 8 * m, j)
    {
      LaneMeaning(w, x, m, m, 0, j, rd);
    }
    HSumTotal(lanes, Terms(w, x, m, rd), 8 * m, rd);
  }
}
