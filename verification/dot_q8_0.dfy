/** `Q8_0` weights against float activations: eight lanes in a register, or in an array. */
module DotQ80 {
  import opened Machine
  import opened Float32
  import opened RealSums
  import opened FloatLanes

  const QK8: nat := 32
  const WBLOCK: nat := 34     // 2 (d) + 32 (quants)

  function Product(w: seq<byte>, x: seq<F32>, b: nat, l: nat): F32
    requires WBLOCK * b + WBLOCK <= |w| && QK8 * b + QK8 <= |x| && l < QK8
  {
    Mul(OfInt(Int8(w[WBLOCK * b + 2 + l])), x[QK8 * b + l])
  }

  /** What lane `j` adds for block `b`. */
  function Term(w: seq<byte>, x: seq<F32>, b: nat, j: nat): F32
    requires WBLOCK * b + WBLOCK <= |w| && QK8 * b + QK8 <= |x| && j < LANES
  {
    Mul(Add(Add(Product(w, x, b, j), Product(w, x, b, j + 8)), Add(Product(w, x, b, j + 16), Product(w, x, b, j + 24))),
        Half(U16(w[WBLOCK * b], w[WBLOCK * b + 1])))
  }

  function Lane(w: seq<byte>, x: seq<F32>, n: nat, j: nat): F32
    requires WBLOCK * n <= |w| && QK8 * n <= |x| && j < LANES
  {
    if n == 0 then ZERO else Add(Lane(w, x, n - 1, j), Term(w, x, n - 1, j))
  }

  function Lanes(w: seq<byte>, x: seq<F32>, n: nat): (v: seq<F32>)
    requires WBLOCK * n <= |w| && QK8 * n <= |x|
    ensures |v| == LANES && forall j :: 0 <= j < LANES ==> v[j] == Lane(w, x, n, j)
  {
    seq(LANES, j requires 0 <= j < LANES => Lane(w, x, n, j))
  }

  /** The four product registers hold, lane by lane, every eighth product of the block. */
  lemma ProductLanes(w: seq<byte>, x: seq<F32>, b: nat, j: nat)
    requires WBLOCK * b + WBLOCK <= |w| && QK8 * b + QK8 <= |x| && j < LANES
    ensures var bytes0, bytes1, xo := Load16(w, WBLOCK * b + 2), Load16(w, WBLOCK * b + 18), QK8 * b;
            && VMul(SignedFloats(bytes0), LoadF(x, xo))[j] == Product(w, x, b, j)
            && VMul(SignedFloats(SwapHalves(bytes0)), LoadF(x, xo + 8))[j] == Product(w, x, b, j + 8)
            && VMul(SignedFloats(bytes1), LoadF(x, xo + 16))[j] == Product(w, x, b, j + 16)
            && VMul(SignedFloats(SwapHalves(bytes1)), LoadF(x, xo + 24))[j] == Product(w, x, b, j + 24)
  {
    hide Int8, VMul, LoadF, SignedFloats, SwapHalves, Load16;
  }

  /** Four product registers added up, scaled and accumulated. */
  method AddProducts(p0: seq<F32>, p8: seq<F32>, p16: seq<F32>, p24: seq<F32>, d: F32, acc: seq<F32>) returns (reg: seq<F32>)
    requires |p0| == |p8| == |p16| == |p24| == |acc| == LANES
    ensures |reg| == LANES
    ensures forall j :: 0 <= j < LANES ==> reg[j] == Add(acc[j], Mul(Add(Add(p0[j], p8[j]), Add(p16[j], p24[j])), d))
  {
    hide VAdd, VMul, Splat;
    var term := VMul(VAdd(VAdd(p0, p8), VAdd(p16, p24)), Splat(d));
    reg := VAdd(acc, term);
  }

  /** One block in vector registers. */
  method BlockAvx2(w: seq<byte>, x: seq<F32>, b: nat, acc: seq<F32>) returns (reg: seq<F32>)
    requires WBLOCK * b + WBLOCK <= |w| && QK8 * b + QK8 <= |x| && |acc| == LANES
    ensures |reg| == LANES && forall j :: 0 <= j < LANES ==> reg[j] == Add(acc[j], Term(w, x, b, j))
  {
    hide U16, Int8, VMul, LoadF, SignedFloats, SwapHalves, Load16, Product;
    var o, xo := b * 34, b * 32;
    var d := Half(U16(w[o], w[o + 1]));
    var bytes0 := Load16(w, o + 2);
    var bytes1 := Load16(w, o + 18);
    var p0 := VMul(SignedFloats(bytes0), LoadF(x, xo));
    var p8 := VMul(SignedFloats(SwapHalves(bytes0)), LoadF(x, xo + 8));
    var p16 := VMul(SignedFloats(bytes1), LoadF(x, xo + 16));
    var p24 := VMul(SignedFloats(SwapHalves(bytes1)), LoadF(x, xo + 24));
    reg := AddProducts(p0, p8, p16, p24, d, acc);
    forall j | 0 <= j < LANES
      ensures reg[j] == Add(acc[j], Term(w, x, b, j))
    {
      ProductLanes(w, x, b, j);
    }
  }

  /** One block, lane by lane. */
  method BlockScalar(w: seq<byte>, x: seq<F32>, b: nat, lanes: array<F32>)
    requires WBLOCK * b + WBLOCK <= |w| && QK8 * b + QK8 <= |x| && lanes.Length == LANES
    modifies lanes
    ensures forall j :: 0 <= j < LANES ==> lanes[j] == Add(old(lanes[j]), Term(w, x, b, j))
  {
    hide U16, Int8;
    var o, xo := b * 34, b * 32;
    var d := Half(U16(w[o], w[o + 1]));
    var q := o + 2;
    for lane := 0 to LANES
      invariant forall j :: 0 <= j < lane ==> lanes[j] == Add(old(lanes[j]), Term(w, x, b, j))
      invariant forall j :: lane <= j < LANES ==> lanes[j] == old(lanes[j])
    {
      var l8, l16, l24 := lane + 8, lane + 16, lane + 24;
      lanes[lane] := Add(lanes[lane], Mul(
        Add(Add(Mul(OfInt(Int8(w[q + lane])), x[xo + lane]), Mul(OfInt(Int8(w[q + l8])), x[xo + l8])),
            Add(Mul(OfInt(Int8(w[q + l16])), x[xo + l16]), Mul(OfInt(Int8(w[q + l24])), x[xo + l24]))),
        d));
    }
  }

  /** Both branches build the same expression. */
  method Dot8(w: seq<byte>, x: seq<F32>, cols: nat, avx2: bool) returns (r: F32)
    requires WBLOCK * (cols / QK8) <= |w| && QK8 * (cols / QK8) <= |x|
    ensures r == HSum(Lanes(w, x, cols / QK8))
  {
    hide Term, HSum;
    var blocks := cols / 32;
    if avx2 {
      var reg := Splat(ZERO);
      for b := 0 to blocks
        invariant reg == Lanes(w, x, b)
      {
        reg := BlockAvx2(w, x, b, reg);
      }
      return HSum(reg);
    } else {
      var lanes := new F32[8](i => ZERO);
      for b := 0 to blocks
        invariant fresh(lanes) && lanes[..] == Lanes(w, x, b)
      {
        ghost var before := lanes[..];
        BlockScalar(w, x, b, lanes);
        assert forall j :: 0 <= j < LANES ==> lanes[..][j] == Add(before[j], Term(w, x, b, j));
      }
      return HSum(lanes[..]);
    }
  }

  // ----- over the reals -----

  /** `d*float32(q)`, element `i` of a row. */
  function Weight(w: seq<byte>, n: nat, i: nat): F32
    requires WBLOCK * n <= |w| && i < QK8 * n
  {
    var b := i / QK8;
    Mul(Half(U16(w[WBLOCK * b], w[WBLOCK * b + 1])), OfInt(Int8(w[WBLOCK * b + 2 + i % QK8])))
  }

  function WeightRow(w: seq<byte>, n: nat, rd: Reading): (r: seq<real>)
    requires WBLOCK * n <= |w|
    ensures |r| == QK8 * n
  {
    seq(QK8 * n, i requires 0 <= i < QK8 * n => Eval(Weight(w, n, i), rd))
  }

  /** `DequantizeRowQ8_0`. */
  method DequantizeRow(dst: array<F32>, data: seq<byte>, cols: nat)
    requires cols <= dst.Length && WBLOCK * (cols / QK8) <= |data|
    modifies dst
    ensures forall i :: 0 <= i < QK8 * (cols / QK8) ==> dst[i] == Weight(data, cols / QK8, i)
    ensures forall i :: QK8 * (cols / QK8) <= i < dst.Length ==> dst[i] == old(dst[i])
  {
    hide U16, Int8, Weight;
    var numBlocks := cols / QK8;
    for b := 0 to numBlocks
      invariant forall i :: 0 <= i < QK8 * b ==> dst[i] == Weight(data, numBlocks, i)
      invariant forall i :: QK8 * b <= i < dst.Length ==> dst[i] == old(dst[i])
    {
      var blkOffset, base := b * WBLOCK, b * QK8;
      var d := Half(U16(data[blkOffset], data[blkOffset + 1]));
      for i := 0 to QK8
        invariant forall k :: 0 <= k < base + i ==> dst[k] == Weight(data, numBlocks, k)
        invariant forall k :: base + i <= k < dst.Length ==> dst[k] == old(dst[k])
      {
        WeightAt(data, numBlocks, b, i);
        dst[base + i] := Mul(d, OfInt(Int8(data[blkOffset + 2 + i])));
      }
    }
  }

  lemma WeightAt(w: seq<byte>, n: nat, b: nat, l: nat)
    requires WBLOCK * n <= |w| && b < n && l < QK8
    ensures Weight(w, n, QK8 * b + l) ==
            Mul(Half(U16(w[WBLOCK * b], w[WBLOCK * b + 1])), OfInt(Int8(w[WBLOCK * b + 2 + l])))
  {
    hide U16, Int8;
    assert (QK8 * b + l) / QK8 == b && (QK8 * b + l) % QK8 == l;
  }

  function Terms(w: seq<byte>, x: seq<F32>, n: nat, rd: Reading): (p: seq<real>)
    requires WBLOCK * n <= |w| && QK8 * n == |x|
    ensures |p| == QK8 * n
  {
    Products(WeightRow(w, n, rd), RealRow(x, rd))
  }

  lemma TermElement(w: seq<byte>, x: seq<F32>, n: nat, b: nat, l: nat, rd: Reading)
    requires WBLOCK * n <= |w| && QK8 * n == |x| && b < n && l < QK8
    ensures var h, q, a := rd.half(U16(w[WBLOCK * b], w[WBLOCK * b + 1])), Int8(w[WBLOCK * b + 2 + l]) as real,
                           Eval(x[QK8 * b + l], rd);
            && Terms(w, x, n, rd)[QK8 * b + l] == Times(Times(h, q), a)
            && Eval(Product(w, x, b, l), rd) == Times(q, a)
  {
    hide U16, Int8, Times, Weight;
    WeightAt(w, n, b, l);
    var i := QK8 * b + l;
    var d, q := Half(U16(w[WBLOCK * b], w[WBLOCK * b + 1])), OfInt(Int8(w[WBLOCK * b + 2 + l]));
    assert Eval(Mul(d, q), rd) == Times(Eval(d, rd), Eval(q, rd));
    assert WeightRow(w, n, rd)[i] == Eval(Mul(d, q), rd) && RealRow(x, rd)[i] == Eval(x[i], rd);
  }

  lemma FourTimes(h: real, q0: real, a0: real, q1: real, a1: real, q2: real, a2: real, q3: real, a3: real)
    ensures Times((Times(q0, a0) + Times(q1, a1)) + (Times(q2, a2) + Times(q3, a3)), h) ==
            Times(Times(h, q0), a0) + Times(Times(h, q1), a1) + Times(Times(h, q2), a2) + Times(Times(h, q3), a3)
  {
    var p0, p1, p2, p3 := q0 * a0, q1 * a1, q2 * a2, q3 * a3;
    Spread(h, p0, p1, p2, p3);
    Regroup(h, q0, a0);
    Regroup(h, q1, a1);
    Regroup(h, q2, a2);
    Regroup(h, q3, a3);
  }

  lemma Spread(h: real, p0: real, p1: real, p2: real, p3: real)
    ensures ((p0 + p1) + (p2 + p3)) * h == h * p0 + h * p1 + h * p2 + h * p3
  {
  }

  lemma Regroup(h: real, q: real, a: real)
    ensures h * (q * a) == (h * q) * a
  {
  }

  lemma TermMeaning(w: seq<byte>, x: seq<F32>, n: nat, b: nat, j: nat, rd: Reading)
    requires WBLOCK * n <= |w| && QK8 * n == |x| && b < n && j < LANES
    ensures Eval(Term(w, x, b, j), rd) == Quad(Terms(w, x, n, rd), b, j)
  {
    hide Times, Product, Terms, U16, Int8;
    TermElement(w, x, n, b, j, rd);
    TermElement(w, x, n, b, j + 8, rd);
    TermElement(w, x, n, b, j + 16, rd);
    TermElement(w, x, n, b, j + 24, rd);
    var h, at, xs := rd.half(U16(w[WBLOCK * b], w[WBLOCK * b + 1])), WBLOCK * b + 2 + j, QK8 * b + j;
    EvalPair(Product(w, x, b, j), Product(w, x, b, j + 8), Product(w, x, b, j + 16), Product(w, x, b, j + 24),
             Half(U16(w[WBLOCK * b], w[WBLOCK * b + 1])), rd);
    FourTimes(h, Int8(w[at]) as real, Eval(x[xs], rd), Int8(w[at + 8]) as real, Eval(x[xs + 8], rd),
              Int8(w[at + 16]) as real, Eval(x[xs + 16], rd), Int8(w[at + 24]) as real, Eval(x[xs + 24], rd));
  }

  lemma {:induction false} LaneMeaning(w: seq<byte>, x: seq<F32>, n: nat, k: nat, j: nat, rd: Reading)
    requires WBLOCK * n <= |w| && QK8 * n == |x| && k <= n && j < LANES
    ensures Eval(Lane(w, x, k, j), rd) == LaneTotal(Terms(w, x, n, rd), k, j)
    decreases k
  {
    hide Terms, Term, Quad;
    if k > 0 {
      LaneMeaning(w, x, n, k - 1, j, rd);
      TermMeaning(w, x, n, k - 1, j, rd);
    }
  }

  /** Over the reals the kernel is the dot product of the dequantised weights with the activations. */
  lemma KernelMeaning(w: seq<byte>, x: seq<F32>, n: nat, rd: Reading)
    requires WBLOCK * n <= |w| && QK8 * n == |x|
    ensures Eval(HSum(Lanes(w, x, n)), rd) == Dot(WeightRow(w, n, rd), RealRow(x, rd), 0, QK8 * n)
  {
    hide HSum, Lane, LaneTotal, Sum, WeightRow, RealRow, Products;
    var lanes := Lanes(w, x, n);
    forall j | 0 <= j < LANES
      ensures Eval(lanes[j], rd) == LaneTotal(Terms(w, x, n, rd), n, j)
    {
      LaneMeaning(w, x, n, n, j, rd);
    }
    HSumTotal(lanes, Terms(w, x, n, rd), n, rd);
  }
}
