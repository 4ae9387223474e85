/** `float32` values as the expressions that build them. Two computations that
    build the same expression give the same `float32` under every rounding, NaN
    rule and hardware: equality of expressions is bit-exact agreement. A product
    that is added is one operation where the source calls a fused multiply-add and
    two where it writes `x*y + z`; that a compiler does not fuse the latter, as the
    language would allow, is assumed. `Eval` reads an expression over the reals,
    where rounding plays no part. */
module Float32 {
  import opened RealSums

  datatype F32 =
    | OfInt(n: int)            // float32(n)
    | Half(h: bv16)            // fp16_to_fp32(h)
    | Bits(w: bv32)            // f32_from_bits(w)
    | Add(x: F32, y: F32)
    | Sub(x: F32, y: F32)
    | Mul(x: F32, y: F32)
    | Div(x: F32, y: F32)
    | Fma(x: F32, y: F32, z: F32)   // x*y + z, rounded once
    | Const(r: real)           // a decimal constant of the source

  type Vec = seq<F32>

  const ZERO := OfInt(0)

  /** What the stored half-precision and single-precision encodings mean. */
  datatype Reading = Reading(half: bv16 -> real, bits: bv32 -> real)

  function Eval(e: F32, rd: Reading): real {
    match e
    case OfInt(n) => n as real
    case Half(h) => rd.half(h)
    case Bits(w) => rd.bits(w)
    case Add(x, y) => Eval(x, rd) + Eval(y, rd)
    case Sub(x, y) => Eval(x, rd) - Eval(y, rd)
    case Mul(x, y) => Times(Eval(x, rd), Eval(y, rd))
    case Div(x, y) => Over(Eval(x, rd), Eval(y, rd))
    case Fma(x, y, z) => Times(Eval(x, rd), Eval(y, rd)) + Eval(z, rd)
    case Const(r) => r
  }
}

/** Finite sums and dot products over the reals. */
module RealSums {

  function Abs(x: real): real {
    if x < 0.0 then -x else x
  }

  /** Multiplication, named so that proofs can keep it out of sight. */
  function Times(x: real, y: real): real {
    x * y
  }

  /** Division, total. */
  function Over(x: real, y: real): real {
    if y == 0.0 then 0.0 else x / y
  }

  /** `s[lo] + ... + s[hi-1]`. */
  function Sum(s: seq<real>, lo: nat, hi: nat): real
    requires lo <= hi <= |s|
    decreases hi - lo
  {
    if lo == hi then 0.0 else Sum(s, lo, hi - 1) + s[hi - 1]
  }

  function Products(a: seq<real>, b: seq<real>): (p: seq<real>)
    requires |a| == |b|
    ensures |p| == |a|
  {
    seq(|a|, i requires 0 <= i < |a| => Times(a[i], b[i]))
  }

  function Scaled(k: real, a: seq<real>): (p: seq<real>)
    ensures |p| == |a|
  {
    seq(|a|, i requires 0 <= i < |a| => Times(k, a[i]))
  }

  function AbsAll(a: seq<real>): (p: seq<real>)
    ensures |p| == |a|
  {
    seq(|a|, i requires 0 <= i < |a| => Abs(a[i]))
  }

  /** `a[lo]*b[lo] + ... + a[hi-1]*b[hi-1]`. */
  function Dot(a: seq<real>, b: seq<real>, lo: nat, hi: nat): real
    requires lo <= hi <= |a| == |b|
  {
    Sum(Products(a, b), lo, hi)
  }

  lemma {:induction false} SumSplit(s: seq<real>, lo: nat, mid: nat, hi: nat)
    requires lo <= mid <= hi <= |s|
    ensures Sum(s, lo, hi) == Sum(s, lo, mid) + Sum(s, mid, hi)
    decreases hi - mid
  {
    if mid < hi {
      SumSplit(s, lo, mid, hi - 1);
    }
  }

  /** A sum depends only on the entries in its range. */
  lemma {:induction false} SumAgree(s: seq<real>, t: seq<real>, lo: nat, hi: nat, shift: int)
    requires lo <= hi <= |s| && 0 <= lo + shift && hi + shift <= |t|
    requires forall i :: lo <= i < hi ==> s[i] == t[i + shift]
    ensures Sum(s, lo, hi) == Sum(t, lo + shift, hi + shift)
    decreases hi - lo
  {
    if lo < hi {
      SumAgree(s, t, lo, hi - 1, shift);
    }
  }

  lemma {:induction false} SumScaled(k: real, s: seq<real>, lo: nat, hi: nat)
    requires lo <= hi <= |s|
    ensures Sum(Scaled(k, s), lo, hi) == Times(k, Sum(s, lo, hi))
    decreases hi - lo
  {
    if lo < hi {
      SumScaled(k, s, lo, hi - 1);
      Distribute(k, Sum(s, lo, hi - 1), s[hi - 1]);
    }
  }

  lemma Distribute(k: real, x: real, y: real)
    ensures k * (x + y) == k * x + k * y
  {
  }

  /** Term-by-term error bounds add up. */
  lemma {:induction false} SumError(s: seq<real>, t: seq<real>, e: seq<real>, lo: nat, hi: nat)
    requires lo <= hi <= |s| && hi <= |t| && hi <= |e|
    requires forall i :: lo <= i < hi ==> Abs(s[i] - t[i]) <= e[i]
    ensures Abs(Sum(s, lo, hi) - Sum(t, lo, hi)) <= Sum(e, lo, hi)
    decreases hi - lo
  {
    if lo < hi {
      SumError(s, t, e, lo, hi - 1);
    }
  }

  /** Replacing every `b[i]` by a value within `eps` moves a dot product by at most
      `eps` times the absolute weight. */
  lemma DotPerturb(a: seq<real>, b: seq<real>, c: seq<real>, lo: nat, hi: nat, eps: real)
    requires lo <= hi <= |a| == |b| == |c|
    requires forall i :: lo <= i < hi ==> Abs(b[i] - c[i]) <= eps
    ensures Abs(Dot(a, b, lo, hi) - Dot(a, c, lo, hi)) <= Times(eps, Sum(AbsAll(a), lo, hi))
  {
    ProductErrors(a, b, c, lo, hi, eps);
    SumScaled(eps, AbsAll(a), lo, hi);
  }

  lemma ProductErrors(a: seq<real>, b: seq<real>, c: seq<real>, lo: nat, hi: nat, eps: real)
    requires lo <= hi <= |a| == |b| == |c|
    requires forall i :: lo <= i < hi ==> Abs(b[i] - c[i]) <= eps
    ensures Abs(Dot(a, b, lo, hi) - Dot(a, c, lo, hi)) <= Sum(Scaled(eps, AbsAll(a)), lo, hi)
  {
    forall i | lo <= i < hi
      ensures Abs(Products(a, b)[i] - Products(a, c)[i]) <= Scaled(eps, AbsAll(a))[i]
    {
      ProductError(a, b, c, eps, i);
    }
    SumError(Products(a, b), Products(a, c), Scaled(eps, AbsAll(a)), lo, hi);
  }

  lemma ProductError(a: seq<real>, b: seq<real>, c: seq<real>, eps: real, i: nat)
    requires i < |a| == |b| == |c| && Abs(b[i] - c[i]) <= eps
    ensures Abs(Products(a, b)[i] - Products(a, c)[i]) <= Scaled(eps, AbsAll(a))[i]
  {
    assert Products(a, b)[i] == a[i] * b[i] && Products(a, c)[i] == a[i] * c[i];
    assert AbsAll(a)[i] == Abs(a[i]);
    assert Scaled(eps, AbsAll(a))[i] == eps * AbsAll(a)[i] == eps * Abs(a[i]);
    ScaledError(a[i], b[i], c[i], eps);
  }

  lemma ScaledError(w: real, x: real, y: real, eps: real)
    requires Abs(x - y) <= eps
    ensures Abs(w * x - w * y) <= eps * Abs(w)
  {
    var d := x - y;
    assert w * x - w * y == w * d;
    AbsProduct(w, d);
    assert Abs(w) * Abs(d) <= Abs(w) * eps;
  }

  lemma AbsProduct(x: real, y: real)
    ensures Abs(x * y) == Abs(x) * Abs(y)
  {
    if x < 0.0 && y < 0.0 {
      assert x * y == (-x) * (-y) >= 0.0;
    } else if x < 0.0 {
      assert x * y == -((-x) * y) <= 0.0;
    } else if y < 0.0 {
      assert x * y == -(x * (-y)) <= 0.0;
    }
  }

  // ----- products of bounded reals -----

  lemma NonNegative(a: real, b: real)
    requires a >= 0.0 && b >= 0.0
    ensures a * b >= 0.0
  {
  }

  lemma UpTo127(k: real, v: real)
    requires k >= 0.0 && v <= 127.0
    ensures k * v <= 127.0 * k
  {
    var u := 127.0 - v;
    NonNegative(k, u);
    assert k * u == 127.0 * k - k * v;
  }

  lemma DownTo127(k: real, v: real)
    requires k >= 0.0 && -127.0 <= v
    ensures -(127.0 * k) <= k * v
  {
    var u := v + 127.0;
    NonNegative(k, u);
    assert k * u == 127.0 * k + k * v;
  }

  lemma UpToHalf(k: real, v: real)
    requires k >= 0.0 && v <= 0.5
    ensures k * v <= k * 0.5
  {
    var u := 0.5 - v;
    NonNegative(k, u);
    assert k * u == k * 0.5 - k * v;
  }

  lemma ProductRange(k: real, v: real)
    requires -127.0 <= v <= 127.0
    ensures -(127.0 * Abs(k)) <= k * v <= 127.0 * Abs(k)
  {
    if k >= 0.0 {
      UpTo127(k, v);
      DownTo127(k, v);
    } else {
      var a := -k;
      UpTo127(a, v);
      DownTo127(a, v);
      assert a * v == -(k * v);
    }
  }
}
