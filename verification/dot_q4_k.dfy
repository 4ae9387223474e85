/** `Q4_K` weights against float activations, with the minimum factored out of each lane. */
module DotQ4K {
  import opened Machine
  import opened Float32
  import opened RealSums
  import opened Avx2
  import opened FloatLanes
  import opened Q4K
  import Q4KMeaning

  const QK: nat := 256

  /** Nibble `l` of sub-block `i`. */
  function NibbleAt(w: seq<byte>, o: nat, i: nat, l: nat): byte
    requires o + WBLOCK <= |w| && i < 8 && l < 32
  {
    Nibble(w[o + NIBBLES + 32 * (i / 2) + l], i % 2 == 1)
  }

  /** `((n0*x0 + n1*x1) + (n2*x2 + n3*x3))*ds - ((x0 + x1) + (x2 + x3))*dm`. */
  function LaneTerm(n0: byte, n1: byte, n2: byte, n3: byte, x0: F32, x1: F32, x2: F32, x3: F32, ds: F32, dm: F32): F32 {
    Sub(Mul(Add(Add(Mul(OfInt(n0 as int), x0), Mul(OfInt(n1 as int), x1)),
                Add(Mul(OfInt(n2 as int), x2), Mul(OfInt(n3 as int), x3))), ds),
        Mul(Add(Add(x0, x1), Add(x2, x3)), dm))
  }

  function ScaleExpr(w: seq<byte>, o: nat, i: nat): F32
    requires o + WBLOCK <= |w| && i < 8
  {
    Mul(Half(U16(w[o], w[o + 1])), OfInt(Scale6(w, o + SCALES, i) as int))
  }

  function MinExpr(w: seq<byte>, o: nat, i: nat): F32
    requires o + WBLOCK <= |w| && i < 8
  {
    Mul(Half(U16(w[o + 2], w[o + 3])), OfInt(Min6(w, o + SCALES, i) as int))
  }

  /** What lane `j` adds for sub-block `i` of the block at `o`, whose activations start at `xo`. */
  function Term(w: seq<byte>, o: nat, x: seq<F32>, xo: nat, i: nat, j: nat): F32
    requires o + WBLOCK <= |w| && xo + QK <= |x| && i < 8 && j < LANES
  {
    var at := xo + 32 * i + j;
    LaneTerm(NibbleAt(w, o, i, j), NibbleAt(w, o, i, j + 8), NibbleAt(w, o, i, j + 16), NibbleAt(w, o, i, j + 24),
             x[at], x[at + 8], x[at + 16], x[at + 24], ScaleExpr(w, o, i), MinExpr(w, o, i))
  }

  /** The two sub-blocks of pair `p` are the low and the high nibbles of its 32 bytes. */
  lemma TermOf(w: seq<byte>, o: nat, x: seq<F32>, xo: nat, p: nat, high: bool, j: nat)
    requires o + WBLOCK <= |w| && xo + QK <= |x| && p < 4 && j < LANES
    ensures var i, q, at := 2 * p + (if high then 1 else 0), o + NIBBLES + 32 * p + j, xo + 64 * p + (if high then 32 else 0) + j;
            Term(w, o, x, xo, i, j) ==
            LaneTerm(Nibble(w[q], high), Nibble(w[q + 8], high), Nibble(w[q + 16], high), Nibble(w[q + 24], high),
                     x[at], x[at + 8], x[at + 16], x[at + 24], ScaleExpr(w, o, i), MinExpr(w, o, i))
  {
    hide Nibble, LaneTerm, ScaleExpr, MinExpr;
  }

  ghost predicate Fits(w: seq<byte>, x: seq<F32>, b: nat, i: nat) {
    i <= 8 && WBLOCK * (if i == 0 then b else b + 1) <= |w| && QK * (if i == 0 then b else b + 1) <= |x|
  }

  /** A lane after `b` blocks and `i` sub-blocks of the next one. */
  ghost function Lane(w: seq<byte>, x: seq<F32>, b: nat, i: nat, j: nat): F32
    requires Fits(w, x, b, i) && j < LANES
    decreases b, i
  {
    if i > 0 then Add(Lane(w, x, b, i - 1, j), Term(w, WBLOCK * b, x, QK * b, i - 1, j))
    else if b > 0 then Lane(w, x, b - 1, 8, j)
    else ZERO
  }

  ghost function Lanes(w: seq<byte>, x: seq<F32>, b: nat, i: nat): (v: seq<F32>)
    requires Fits(w, x, b, i)
    ensures |v| == LANES && forall j :: 0 <= j < LANES ==> v[j] == Lane(w, x, b, i, j)
  {
    seq(LANES, j requires 0 <= j < LANES => Lane(w, x, b, i, j))
  }

  lemma NextLanes(w: seq<byte>, x: seq<F32>, b: nat, i: nat, before: seq<F32>, after: seq<F32>)
    requires i < 8 && Fits(w, x, b, i + 1)
    requires before == Lanes(w, x, b, i) && |after| == LANES
    requires forall j :: 0 <= j < LANES ==> after[j] == Add(before[j], Term(w, WBLOCK * b, x, QK * b, i, j))
    ensures after == Lanes(w, x, b, i + 1)
  {
    hide Term;
  }

  lemma NextBlock(w: seq<byte>, x: seq<F32>, b: nat)
    requires Fits(w, x, b, 8)
    ensures Lanes(w, x, b, 8) == Lanes(w, x, b + 1, 0)
  {
    hide Term;
    assert Lanes(w, x, b, 8) == Lanes(w, x, b + 1, 0);
  }

  // ----- vector registers -----

  lemma NibbleVector(v: seq<byte>, i: nat)
    requires |v| == 16 && i < 16
    ensures And(v, 15)[i] == Nibble(v[i], false)
    ensures And(ShiftRight16(v, 4), 15)[i] == Nibble(v[i], true)
  {
    hide And, ShiftRight16;
    MaskedShiftRight(v, i);
  }

  lemma NibbleVectors(v: seq<byte>, u: seq<byte>, j: nat)
    requires |v| == |u| == 16 && j < LANES
    ensures And(v, 15)[j] == Nibble(v[j], false) && And(v, 15)[j + 8] == Nibble(v[j + 8], false)
    ensures And(u, 15)[j] == Nibble(u[j], false) && And(u, 15)[j + 8] == Nibble(u[j + 8], false)
    ensures And(ShiftRight16(v, 4), 15)[j] == Nibble(v[j], true) && And(ShiftRight16(v, 4), 15)[j + 8] == Nibble(v[j + 8], true)
    ensures And(ShiftRight16(u, 4), 15)[j] == Nibble(u[j], true) && And(ShiftRight16(u, 4), 15)[j + 8] == Nibble(u[j + 8], true)
  {
    hide And, ShiftRight16, Nibble;
    NibbleVector(v, j);
    NibbleVector(v, j + 8);
    NibbleVector(u, j);
    NibbleVector(u, j + 8);
  }

  /** The low or high nibbles of 16 bytes. */
  function Half16(v: seq<byte>, high: bool): (r: seq<byte>)
    requires |v| == 16
    ensures |r| == 16
  {
    And(if high then ShiftRight16(v, 4) else v, 15)
  }

  /** The register lanes hold the nibbles of the pair, so the lane terms are the same. */
  lemma HalfTerm(w: seq<byte>, o: nat, x: seq<F32>, xo: nat, p: nat, high: bool, j: nat)
    requires o + WBLOCK <= |w| && xo + QK <= |x| && p < 4 && j < LANES
    ensures var i, q, at := 2 * p + (if high then 1 else 0), o + NIBBLES + 32 * p, xo + 64 * p + (if high then 32 else 0) + j;
            var a, c := Half16(Load16(w, q), high), Half16(Load16(w, q + 16), high);
            Term(w, o, x, xo, i, j) ==
            LaneTerm(a[j], a[j + 8], c[j], c[j + 8], x[at], x[at + 8], x[at + 16], x[at + 24], ScaleExpr(w, o, i), MinExpr(w, o, i))
  {
    hide Nibble, LaneTerm, Term, ScaleExpr, MinExpr, And, ShiftRight16;
    var q := o + NIBBLES + 32 * p;
    NibbleVectors(Load16(w, q), Load16(w, q + 16), j);
    TermOf(w, o, x, xo, p, high, j);
  }

  /** One half of a pair: 32 nibbles in two registers. */
  method HalfAvx2(first: seq<byte>, second: seq<byte>, x: seq<F32>, at: nat, ds: F32, dm: F32, acc: seq<F32>) returns (reg: seq<F32>)
    requires |first| == |second| == 16 && at + 32 <= |x| && |acc| == LANES
    ensures |reg| == LANES
    ensures forall j :: 0 <= j < LANES ==> reg[j] == Add(acc[j],
              LaneTerm(first[j], first[j + 8], second[j], second[j + 8], x[at + j], x[at + j + 8], x[at + j + 16], x[at + j + 24], ds, dm))
  {
    hide VAdd, VMul, VSub, Splat, LoadF, UnsignedFloats, SwapHalves;
    var x0, x8, x16, x24 := LoadF(x, at), LoadF(x, at + 8), LoadF(x, at + 16), LoadF(x, at + 24);
    var products0 := VAdd(VMul(UnsignedFloats(first), x0), VMul(UnsignedFloats(SwapHalves(first)), x8));
    var products1 := VAdd(VMul(UnsignedFloats(second), x16), VMul(UnsignedFloats(SwapHalves(second)), x24));
    var minimum := VMul(VAdd(VAdd(x0, x8), VAdd(x16, x24)), Splat(dm));
    var term := VSub(VMul(VAdd(products0, products1), Splat(ds)), minimum);
    reg := VAdd(acc, term);
  }

  method PairAvx2(w: seq<byte>, x: seq<F32>, b: nat, p: nat, scales: seq<byte>, mins: seq<byte>, acc: seq<F32>) returns (reg: seq<F32>)
    requires WBLOCK * b + WBLOCK <= |w| && QK * b + QK <= |x| && p < 4 && |scales| == |mins| == 8
    requires forall k :: 0 <= k < 8 ==> scales[k] == Scale6(w, WBLOCK * b + SCALES, k) && mins[k] == Min6(w, WBLOCK * b + SCALES, k)
    requires acc == Lanes(w, x, b, 2 * p)
    ensures reg == Lanes(w, x, b, 2 * p + 2)
  {
    hide Nibble, Scale6, Min6, U16, LaneTerm, Term, Half16, Load16, Lane, Lanes;
    var o, i := b * 144, 2 * p;
    var d, dmin := Half(U16(w[o], w[o + 1])), Half(U16(w[o + 2], w[o + 3]));
    var at, q := b * 256 + p * 64, o + 16 + p * 32;
    var bytes0, bytes1 := Load16(w, q), Load16(w, q + 16);
    var low := HalfAvx2(Half16(bytes0, false), Half16(bytes1, false), x, at,
                        Mul(d, OfInt(scales[i] as int)), Mul(dmin, OfInt(mins[i] as int)), acc);
    forall j | 0 <= j < LANES
      ensures low[j] == Add(acc[j], Term(w, o, x, b * 256, i, j))
    {
      HalfTerm(w, o, x, b * 256, p, false, j);
    }
    NextLanes(w, x, b, i, acc, low);
    reg := HalfAvx2(Half16(bytes0, true), Half16(bytes1, true), x, at + 32,
                    Mul(d, OfInt(scales[i + 1] as int)), Mul(dmin, OfInt(mins[i + 1] as int)), low);
    forall j | 0 <= j < LANES
      ensures reg[j] == Add(low[j], Term(w, o, x, b * 256, i + 1, j))
    {
      HalfTerm(w, o, x, b * 256, p, true, j);
    }
    NextLanes(w, x, b, i + 1, low, reg);
  }

  // ----- the lane array -----

  /** The term of four high nibbles, shifted down in 32-bit words. */
  function WideTerm(b0: byte, b1: byte, b2: byte, b3: byte, x0: F32, x1: F32, x2: F32, x3: F32, ds: F32, dm: F32): F32 {
    Sub(Mul(Add(Add(Mul(OfInt(((b0 as bv32) >> 4) as int), x0), Mul(OfInt(((b1 as bv32) >> 4) as int), x1)),
                Add(Mul(OfInt(((b2 as bv32) >> 4) as int), x2), Mul(OfInt(((b3 as bv32) >> 4) as int), x3))), ds),
        Mul(Add(Add(x0, x1), Add(x2, x3)), dm))
  }

  lemma WideHigh(b: byte)
    ensures ((b as bv32) >> 4) as int == (b >> 4) as int
  {
  }

  lemma WideTermIs(b0: byte, b1: byte, b2: byte, b3: byte, x0: F32, x1: F32, x2: F32, x3: F32, ds: F32, dm: F32)
    ensures WideTerm(b0, b1, b2, b3, x0, x1, x2, x3, ds, dm) ==
            LaneTerm(Nibble(b0, true), Nibble(b1, true), Nibble(b2, true), Nibble(b3, true), x0, x1, x2, x3, ds, dm)
  {
    WideHigh(b0);
    WideHigh(b1);
    WideHigh(b2);
    WideHigh(b3);
  }

  lemma LowNibbles(b0: byte, b1: byte, b2: byte, b3: byte)
    ensures b0 & 15 == Nibble(b0, false) && b1 & 15 == Nibble(b1, false)
    ensures b2 & 15 == Nibble(b2, false) && b3 & 15 == Nibble(b3, false)
  {
  }

  method PairScalar(w: seq<byte>, x: seq<F32>, b: nat, p: nat, scales: seq<byte>, mins: seq<byte>, lanes: array<F32>)
    requires WBLOCK * b + WBLOCK <= |w| && QK * b + QK <= |x| && p < 4 && |scales| == |mins| == 8
    requires forall k :: 0 <= k < 8 ==> scales[k] == Scale6(w, WBLOCK * b + SCALES, k) && mins[k] == Min6(w, WBLOCK * b + SCALES, k)
    requires lanes.Length == LANES && lanes[..] == Lanes(w, x, b, 2 * p)
    modifies lanes
    ensures lanes[..] == Lanes(w, x, b, 2 * p + 2)
  {
    hide Nibble, Scale6, Min6, U16, Lanes, Lane, Term, LaneTerm, WideTerm;
    ghost var before := lanes[..];
    var o, i := b * 144, 2 * p;
    var d, dmin := Half(U16(w[o], w[o + 1])), Half(U16(w[o + 2], w[o + 3]));
    var i1, at := i + 1, b * 256 + p * 64;
    var at1, q := at + 32, o + 16 + p * 32;
    ghost var middle := seq(LANES, j requires 0 <= j < LANES => Add(before[j], Term(w, WBLOCK * b, x, QK * b, i, j)));
    NextLanes(w, x, b, i, before, middle);
    for lane := 0 to LANES
      invariant forall j :: 0 <= j < lane ==> lanes[j] == Add(middle[j], Term(w, WBLOCK * b, x, QK * b, i1, j))
      invariant forall j :: lane <= j < LANES ==> lanes[j] == before[j]
    {
      TermOf(w, o, x, b * 256, p, false, lane);
      TermOf(w, o, x, b * 256, p, true, lane);
      var q0, q1, q2, q3 := w[q + lane], w[q + lane + 8], w[q + lane + 16], w[q + lane + 24];
      var x0, x1, x2, x3 := x[at + lane], x[at + lane + 8], x[at + lane + 16], x[at + lane + 24];
      var y0, y1, y2, y3 := x[at1 + lane], x[at1 + lane + 8], x[at1 + lane + 16], x[at1 + lane + 24];
      LowNibbles(q0, q1, q2, q3);
      WideTermIs(q0, q1, q2, q3, y0, y1, y2, y3, Mul(d, OfInt(scales[i1] as int)), Mul(dmin, OfInt(mins[i1] as int)));
      lanes[lane] := Add(lanes[lane],
        LaneTerm(q0 & 15, q1 & 15, q2 & 15, q3 & 15, x0, x1, x2, x3,
                 Mul(d, OfInt(scales[i] as int)), Mul(dmin, OfInt(mins[i] as int))));
      lanes[lane] := Add(lanes[lane], WideTerm(q0, q1, q2, q3, y0, y1, y2, y3,
        Mul(d, OfInt(scales[i1] as int)), Mul(dmin, OfInt(mins[i1] as int))));
    }
    NextLanes(w, x, b, i1, middle, lanes[..]);
  }

  /** Both branches build the same expression. */
  method Dot4(w: seq<byte>, x: seq<F32>, cols: nat, avx2: bool) returns (r: F32)
    requires WBLOCK * (cols / QK) <= |w| && QK * (cols / QK) <= |x|
    ensures r == HSum(Lanes(w, x, cols / QK, 0))
  {
    hide Term, HSum, Scale6, Min6;
    var blocks := cols / 256;
    var reg, lanes := Splat(ZERO), new F32[8](i => ZERO);
    assert reg == Lanes(w, x, 0, 0) && lanes[..] == Lanes(w, x, 0, 0);
    for b := 0 to blocks
      invariant fresh(lanes)
      invariant avx2 ==> reg == Lanes(w, x, b, 0)
      invariant !avx2 ==> lanes[..] == Lanes(w, x, b, 0)
    {
      hide Lanes, Lane;
      var sc, m := UnpackScales(w, b * 144 + 4);
      for p := 0 to 4
        invariant fresh(lanes)
        invariant avx2 ==> reg == Lanes(w, x, b, 2 * p)
        invariant !avx2 ==> lanes[..] == Lanes(w, x, b, 2 * p)
      {
        if avx2 {
          reg := PairAvx2(w, x, b, p, sc, m, reg);
        } else {
          PairScalar(w, x, b, p, sc, m, lanes);
        }
      }
      NextBlock(w, x, b);
    }
    return if avx2 then HSum(reg) else HSum(lanes[..]);
  }

  // ----- over the reals -----

  function Terms(w: seq<byte>, x: seq<F32>, n: nat, rd: Reading): (p: seq<real>)
    requires WBLOCK * n <= |w| && QK * n == |x|
    ensures |p| == QK * n
  {
    Products(Q4KMeaning.WeightRow(w, n, rd), RealRow(x, rd))
  }

  /** One element of the row: scale times nibble minus minimum, times activation. */
  lemma TermElement(w: seq<byte>, x: seq<F32>, n: nat, b: nat, p: nat, high: bool, l: nat, rd: Reading)
    requires WBLOCK * n <= |w| && QK * n == |x| && b < n && p < 4 && l < 32
    ensures var i, at := 2 * p + (if high then 1 else 0), QK * b + 64 * p + (if high then 32 else 0) + l;
            at < QK * n &&
            Terms(w, x, n, rd)[at] ==
            Times(Times(Eval(ScaleExpr(w, WBLOCK * b, i), rd), Nibble(w[WBLOCK * b + NIBBLES + 32 * p + l], high) as int as real)
                  - Eval(MinExpr(w, WBLOCK * b, i), rd), Eval(x[at], rd))
  {
    hide Nibble, Scale6, Min6, U16, Times, Q4KMeaning.RowWeight;
    var i, at := 2 * p + (if high then 1 else 0), QK * b + 64 * p + (if high then 32 else 0) + l;
    Q4KMeaning.RowWeightAt(w, n, b, p, high, l);
    var q := OfInt(Nibble(w[WBLOCK * b + NIBBLES + 32 * p + l], high) as int);
    var s, m := ScaleExpr(w, WBLOCK * b, i), MinExpr(w, WBLOCK * b, i);
    assert Q4KMeaning.RowWeight(w, n, at) == Sub(Mul(s, q), m);
    assert Eval(Sub(Mul(s, q), m), rd) == Eval(Mul(s, q), rd) - Eval(m, rd);
    assert Q4KMeaning.WeightRow(w, n, rd)[at] == Eval(Q4KMeaning.RowWeight(w, n, at), rd) && RealRow(x, rd)[at] == Eval(x[at], rd);
  }

  lemma LaneTermMeaning(n0: byte, n1: byte, n2: byte, n3: byte, x0: F32, x1: F32, x2: F32, x3: F32, ds: F32, dm: F32, rd: Reading)
    ensures var d, m := Eval(ds, rd), Eval(dm, rd);
            Eval(LaneTerm(n0, n1, n2, n3, x0, x1, x2, x3, ds, dm), rd) ==
            Times(Times(d, n0 as int as real) - m, Eval(x0, rd)) + Times(Times(d, n1 as int as real) - m, Eval(x1, rd))
            + Times(Times(d, n2 as int as real) - m, Eval(x2, rd)) + Times(Times(d, n3 as int as real) - m, Eval(x3, rd))
  {
    hide Times;
    var p0, p1, p2, p3 := Mul(OfInt(n0 as int), x0), Mul(OfInt(n1 as int), x1), Mul(OfInt(n2 as int), x2), Mul(OfInt(n3 as int), x3);
    EvalPair(p0, p1, p2, p3, ds, rd);
    EvalPair(x0, x1, x2, x3, dm, rd);
    var d, m := Eval(ds, rd), Eval(dm, rd);
    Factored(d, m, n0 as int as real, Eval(x0, rd));
    Factored(d, m, n1 as int as real, Eval(x1, rd));
    Factored(d, m, n2 as int as real, Eval(x2, rd));
    Factored(d, m, n3 as int as real, Eval(x3, rd));
    Gather(Times(n0 as int as real, Eval(x0, rd)), Times(n1 as int as real, Eval(x1, rd)),
           Times(n2 as int as real, Eval(x2, rd)), Times(n3 as int as real, Eval(x3, rd)), d);
    Gather(Eval(x0, rd), Eval(x1, rd), Eval(x2, rd), Eval(x3, rd), m);
  }

  lemma Gather(a: real, b: real, c: real, e: real, k: real)
    ensures Times((a + b) + (c + e), k) == Times(a, k) + Times(b, k) + Times(c, k) + Times(e, k)
  {
  }

  lemma Factored(d: real, m: real, n: real, x: real)
    ensures Times(Times(d, n) - m, x) == Times(Times(n, x), d) - Times(x, m)
  {
    var dn := d * n;
    assert (dn - m) * x == dn * x - m * x;
    Regroup(d, n, x);
  }

  lemma Regroup(d: real, n: real, x: real)
    ensures (d * n) * x == (n * x) * d
  {
  }

  lemma TermMeaning(w: seq<byte>, x: seq<F32>, n: nat, b: nat, p: nat, high: bool, j: nat, rd: Reading)
    requires WBLOCK * n <= |w| && QK * n == |x| && b < n && p < 4 && j < LANES
    ensures var i := 2 * p + if high then 1 else 0;
            Eval(Term(w, WBLOCK * b, x, QK * b, i, j), rd) == Quad(Terms(w, x, n, rd), 8 * b + i, j)
  {
    hide Times, Terms, U16, Nibble, Scale6, Min6, LaneTerm, Term, ScaleExpr, MinExpr;
    var i, q, at := 2 * p + (if high then 1 else 0), WBLOCK * b + NIBBLES + 32 * p + j, QK * b + 64 * p + (if high then 32 else 0) + j;
    assert at == 32 * (8 * b + i) + j;
    TermOf(w, WBLOCK * b, x, QK * b, p, high, j);
    TermElement(w, x, n, b, p, high, j, rd);
    TermElement(w, x, n, b, p, high, j + 8, rd);
    TermElement(w, x, n, b, p, high, j + 16, rd);
    TermElement(w, x, n, b, p, high, j + 24, rd);
    LaneTermMeaning(Nibble(w[q], high), Nibble(w[q + 8], high), Nibble(w[q + 16], high), Nibble(w[q + 24], high),
                    x[at], x[at + 8], x[at + 16], x[at + 24], ScaleExpr(w, WBLOCK * b, i), MinExpr(w, WBLOCK * b, i), rd);
  }

  lemma {:induction false} LaneMeaning(w: seq<byte>, x: seq<F32>, n: nat, b: nat, i: nat, j: nat, rd: Reading)
    requires WBLOCK * n <= |w| && QK * n == |x| && i <= 8 && (if i == 0 then b else b + 1) <= n && j < LANES
    ensures Fits(w, x, b, i) && Eval(Lane(w, x, b, i, j), rd) == LaneTotal(Terms(w, x, n, rd), 8 * b + i, j)
    decreases b, i
  {
    hide Terms, Term, Quad;
    if i > 0 {
      LaneMeaning(w, x, n, b, i - 1, j, rd);
      TermMeaning(w, x, n, b, (i - 1) / 2, (i - 1) % 2 == 1, j, rd);
    } else if b > 0 {
      LaneMeaning(w, x, n, b - 1, 8, j, rd);
    }
  }

  /** Over the reals the kernel is the dot product of the dequantised weights with the activations. */
  lemma KernelMeaning(w: seq<byte>, x: seq<F32>, n: nat, rd: Reading)
    requires WBLOCK * n <= |w| && QK * n == |x|
    ensures Eval(HSum(Lanes(w, x, n, 0)), rd) == Dot(Q4KMeaning.WeightRow(w, n, rd), RealRow(x, rd), 0, QK * n)
  {
    hide HSum, Lane, LaneTotal, Sum, Q4KMeaning.WeightRow, RealRow, Products;
    var lanes := Lanes(w, x, n, 0);
    forall j | 0 <= j < LANES
      ensures Eval(lanes[j], rd) == LaneTotal(Terms(w, x, n, rd), 8 * n, j)
    {
      LaneMeaning(w, x, n, n, 0, j, rd);
    }
    HSumTotal(lanes, Terms(w, x, n, rd), 8 * n, rd);
  }
}
