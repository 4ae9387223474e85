/** Eight-lane float registers, and what a lane-wise sum over rows of 32-element groups adds up to. */
module FloatLanes {
  import opened Machine
  import opened Float32
  import opened RealSums

  const LANES: nat := 8

  /** `BroadcastFloat32x8(x)`. */
  function Splat(x: F32): (v: seq<F32>)
    ensures |v| == LANES && forall j :: 0 <= j < LANES ==> v[j] == x
  {
    seq(LANES, j => x)
  }

  function LoadF(x: seq<F32>, at: nat): (v: seq<F32>)
    requires at + LANES <= |x|
    ensures |v| == LANES && forall j :: 0 <= j < LANES ==> v[j] == x[at + j]
  {
    x[at..at + LANES]
  }

  function VAdd(a: seq<F32>, b: seq<F32>): (v: seq<F32>)
    requires |a| == |b| == LANES
    ensures |v| == LANES && forall j :: 0 <= j < LANES ==> v[j] == Add(a[j], b[j])
  {
    seq(LANES, j requires 0 <= j < LANES => Add(a[j], b[j]))
  }

  function VSub(a: seq<F32>, b: seq<F32>): (v: seq<F32>)
    requires |a| == |b| == LANES
    ensures |v| == LANES && forall j :: 0 <= j < LANES ==> v[j] == Sub(a[j], b[j])
  {
    seq(LANES, j requires 0 <= j < LANES => Sub(a[j], b[j]))
  }

  function VMul(a: seq<F32>, b: seq<F32>): (v: seq<F32>)
    requires |a| == |b| == LANES
    ensures |v| == LANES && forall j :: 0 <= j < LANES ==> v[j] == Mul(a[j], b[j])
  {
    seq(LANES, j requires 0 <= j < LANES => Mul(a[j], b[j]))
  }

  /** `x.MulAdd(y, acc)`: fused, lane by lane. */
  function VFma(x: seq<F32>, y: seq<F32>, acc: seq<F32>): (v: seq<F32>)
    requires |x| == |y| == |acc| == LANES
    ensures |v| == LANES && forall j :: 0 <= j < LANES ==> v[j] == Fma(x[j], y[j], acc[j])
  {
    seq(LANES, j requires 0 <= j < LANES => Fma(x[j], y[j], acc[j]))
  }

  /** `LoadUint8x16(s[at:][:16])`. */
  function Load16(s: seq<byte>, at: nat): (v: seq<byte>)
    requires at + 16 <= |s|
    ensures |v| == 16 && forall i :: 0 <= i < 16 ==> v[i] == s[at + i]
  {
    s[at..at + 16]
  }

  /** `v.ConcatShiftBytesRight(v, 8)`: the two halves exchanged. */
  function SwapHalves(v: seq<byte>): (r: seq<byte>)
    requires |v| == 16
    ensures |r| == 16 && forall i :: 0 <= i < 8 ==> r[i] == v[i + 8]
  {
    v[8..] + v[..8]
  }

  /** The low eight bytes, sign-extended and converted. */
  function SignedFloats(v: seq<byte>): (r: seq<F32>)
    requires |v| == 16
    ensures |r| == LANES && forall j :: 0 <= j < LANES ==> r[j] == OfInt(Int8(v[j]))
  {
    seq(LANES, j requires 0 <= j < LANES => OfInt(Int8(v[j])))
  }

  /** The low eight bytes, zero-extended and converted. */
  function UnsignedFloats(v: seq<byte>): (r: seq<F32>)
    requires |v| == 16
    ensures |r| == LANES && forall j :: 0 <= j < LANES ==> r[j] == OfInt(v[j] as int)
  {
    seq(LANES, j requires 0 <= j < LANES => OfInt(v[j] as int))
  }

  /** The horizontal sum, lane after lane. */
  function HSum(v: seq<F32>): F32
    requires |v| == LANES
  {
    Add(Add(Add(Add(Add(Add(Add(v[0], v[1]), v[2]), v[3]), v[4]), v[5]), v[6]), v[7])
  }

  // ----- over the reals -----

  /** What lane `j` gets from group `s`: every eighth element of 32. */
  function Quad(p: seq<real>, s: nat, j: nat): real
    requires 32 * s + 32 <= |p| && j < LANES
  {
    p[32 * s + j] + p[32 * s + 8 + j] + p[32 * s + 16 + j] + p[32 * s + 24 + j]
  }

  function LaneTotal(p: seq<real>, n: nat, j: nat): real
    requires 32 * n <= |p| && j < LANES
  {
    if n == 0 then 0.0 else LaneTotal(p, n - 1, j) + Quad(p, n - 1, j)
  }

  function AllLanes(p: seq<real>, n: nat): real
    requires 32 * n <= |p|
  {
    LaneTotal(p, n, 0) + LaneTotal(p, n, 1) + LaneTotal(p, n, 2) + LaneTotal(p, n, 3)
    + LaneTotal(p, n, 4) + LaneTotal(p, n, 5) + LaneTotal(p, n, 6) + LaneTotal(p, n, 7)
  }

  function AllQuads(p: seq<real>, s: nat): real
    requires 32 * s + 32 <= |p|
  {
    Quad(p, s, 0) + Quad(p, s, 1) + Quad(p, s, 2) + Quad(p, s, 3)
    + Quad(p, s, 4) + Quad(p, s, 5) + Quad(p, s, 6) + Quad(p, s, 7)
  }

  lemma SumEight(p: seq<real>, at: nat)
    requires at + 8 <= |p|
    ensures Sum(p, at, at + 8) ==
            p[at] + p[at + 1] + p[at + 2] + p[at + 3] + p[at + 4] + p[at + 5] + p[at + 6] + p[at + 7]
  {
    assert Sum(p, at, at) == 0.0;
    assert Sum(p, at, at + 1) == p[at];
    assert Sum(p, at, at + 2) == Sum(p, at, at + 1) + p[at + 1];
    assert Sum(p, at, at + 3) == Sum(p, at, at + 2) + p[at + 2];
    assert Sum(p, at, at + 4) == Sum(p, at, at + 3) + p[at + 3];
    assert Sum(p, at, at + 5) == Sum(p, at, at + 4) + p[at + 4];
    assert Sum(p, at, at + 6) == Sum(p, at, at + 5) + p[at + 5];
    assert Sum(p, at, at + 7) == Sum(p, at, at + 6) + p[at + 6];
  }

  lemma GroupTotal(p: seq<real>, s: nat)
    requires 32 * s + 32 <= |p|
    ensures AllQuads(p, s) == Sum(p, 32 * s, 32 * s + 32)
  {
    var at := 32 * s;
    SumEight(p, at);
    SumEight(p, at + 8);
    SumEight(p, at + 16);
    SumEight(p, at + 24);
    SumSplit(p, at, at + 8, at + 16);
    SumSplit(p, at, at + 16, at + 24);
    SumSplit(p, at, at + 24, at + 32);
  }

  /** Summing lane by lane and then across the lanes is summing all elements. */
  lemma {:induction false} LanesTotal(p: seq<real>, n: nat)
    requires 32 * n <= |p|
    ensures AllLanes(p, n) == Sum(p, 0, 32 * n)
  {
    hide Quad, Sum;
    if n == 0 {
      SumNothing(p);
    } else {
      LanesTotal(p, n - 1);
      GroupTotal(p, n - 1);
      SumSplit(p, 0, 32 * (n - 1), 32 * n);
    }
  }

  lemma SumNothing(p: seq<real>)
    ensures Sum(p, 0, 0) == 0.0
  {
  }

  /** A register whose lanes evaluate to the lane totals has the whole sum as horizontal sum. */
  lemma HSumTotal(v: seq<F32>, p: seq<real>, n: nat, rd: Reading)
    requires |v| == LANES && 32 * n <= |p|
    requires forall j :: 0 <= j < LANES ==> Eval(v[j], rd) == LaneTotal(p, n, j)
    ensures Eval(HSum(v), rd) == Sum(p, 0, 32 * n)
  {
    hide LaneTotal, Sum;
    LanesTotal(p, n);
    AddFour(v[0], v[1], v[2], v[3], rd);
    var s3 := Add(Add(Add(v[0], v[1]), v[2]), v[3]);
    AddFour(s3, v[4], v[5], v[6], rd);
    var s6 := Add(Add(Add(s3, v[4]), v[5]), v[6]);
    assert HSum(v) == Add(s6, v[7]);
    assert Eval(HSum(v), rd) == Eval(s6, rd) + Eval(v[7], rd);
  }

  lemma AddFour(a: F32, b: F32, c: F32, d: F32, rd: Reading)
    ensures Eval(Add(Add(Add(a, b), c), d), rd) == Eval(a, rd) + Eval(b, rd) + Eval(c, rd) + Eval(d, rd)
  {
    var ab := Add(a, b);
    var abc := Add(ab, c);
    assert Eval(Add(abc, d), rd) == Eval(abc, rd) + Eval(d, rd);
    assert Eval(abc, rd) == Eval(ab, rd) + Eval(c, rd);
  }

  /** A row of floats, read as reals. */
  function RealRow(x: seq<F32>, rd: Reading): (r: seq<real>)
    ensures |r| == |x|
  {
    seq(|x|, i requires 0 <= i < |x| => Eval(x[i], rd))
  }

  lemma EvalPair(a: F32, b: F32, c: F32, d: F32, k: F32, rd: Reading)
    ensures Eval(Mul(Add(Add(a, b), Add(c, d)), k), rd) ==
            Times((Eval(a, rd) + Eval(b, rd)) + (Eval(c, rd) + Eval(d, rd)), Eval(k, rd))
  {
    hide Times;
    var ab, cd := Add(a, b), Add(c, d);
    assert Eval(Add(ab, cd), rd) == Eval(ab, rd) + Eval(cd, rd);
  }
}
