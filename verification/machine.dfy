/** Fixed-width machine arithmetic as the Go code uses it: bytes, the
    little-endian 16- and 32-bit reads, and wrap-around `int32`. */
module Machine {

  type byte = bv8

  /** `int8(b)`. */
  function Int8(b: byte): (r: int)
    ensures -128 <= r <= 127
  {
    if b >= 128 then b as int - 256 else b as int
  }

  /** `byte(x)` of a signed integer: the low eight bits of its two's complement. */
  function Byte(x: int): byte {
    (x % 256) as byte
  }

  lemma ByteCast(x: int)
    requires 0 <= x < 256
    ensures (x as byte) as int == x
  {
    var b := ByteFor(x);
    CastBack(b);
  }

  /** Every value below 256 is the value of a byte, counting up from zero. */
  lemma {:induction false} ByteFor(x: int) returns (b: byte)
    requires 0 <= x < 256
    ensures b as int == x
  {
    if x == 0 {
      b := 0;
    } else {
      var c := ByteFor(x - 1);
      Increment(c);
      b := c + 1;
    }
  }

  lemma Increment(c: byte)
    requires c as int < 255
    ensures (c + 1) as int == c as int + 1
  {
  }

  lemma CastBack(b: byte)
    ensures (b as int) as byte == b
  {
  }

  lemma ByteValue(x: int)
    ensures Byte(x) as int == x % 256
  {
    ByteCast(x % 256);
  }

  /** A byte written from a value in the `int8` range reads back as that value. */
  lemma Int8RoundTrip(x: int)
    requires -128 <= x <= 127
    ensures Int8(Byte(x)) == x
  {
    ByteValue(x);
    HighByte(Byte(x));
  }

  lemma HighByte(b: byte)
    ensures b >= 128 <==> b as int >= 128
  {
  }

  /** `uint16(lo) | uint16(hi)<<8`. */
  function U16(lo: byte, hi: byte): bv16 {
    (lo as bv16) | ((hi as bv16) << 8)
  }

  /** Bytes joined with `|` occupy disjoint bits: the word is their weighted sum. */
  lemma Joined16(lo: byte, hi: byte)
    ensures ((lo as bv16) | ((hi as bv16) << 8)) as int == lo as int + 256 * (hi as int)
  {
  }

  /** `int16(uint16(lo) | uint16(hi)<<8)`: a little-endian two's complement 16-bit integer. */
  function ReadI16(lo: byte, hi: byte): (r: int)
    ensures -0x8000 <= r <= 0x7FFF
  {
    Joined16(lo, hi);
    HighByte(hi);
    var w := ((lo as bv16) | ((hi as bv16) << 8)) as int;
    if w >= 0x8000 then w - 0x1_0000 else w
  }

  lemma ReadI16IsSum(lo: byte, hi: byte)
    ensures ReadI16(lo, hi) == lo as int + 256 * Int8(hi)
  {
    Joined16(lo, hi);
    HighByte(hi);
  }

  /** The two bytes `s & 255` and `(s >> 8) & 255` of a 16-bit sum read back as the sum. */
  lemma ReadI16RoundTrip(s: int)
    requires -0x8000 <= s <= 0x7FFF
    ensures ReadI16(Byte(s), Byte(s / 256)) == s
  {
    ByteValue(s);
    Int8RoundTrip(s / 256);
    ReadI16IsSum(Byte(s), Byte(s / 256));
  }

  /** `uint32(b0) | uint32(b1)<<8 | uint32(b2)<<16 | uint32(b3)<<24`. */
  function U32(b0: byte, b1: byte, b2: byte, b3: byte): bv32 {
    (b0 as bv32) | ((b1 as bv32) << 8) | ((b2 as bv32) << 16) | ((b3 as bv32) << 24)
  }

  lemma Joined32(b0: byte, b1: byte, b2: byte, b3: byte)
    ensures ((b0 as bv32) | ((b1 as bv32) << 8) | ((b2 as bv32) << 16) | ((b3 as bv32) << 24)) as int ==
            b0 as int + 0x100 * (b1 as int) + 0x1_0000 * (b2 as int) + 0x100_0000 * (b3 as int)
  {
  }

  /** Byte `k` of a 32-bit word, `byte((w >> 8k) & 0xff)`. */
  function ByteOfWord(w: bv32, k: nat): byte
    requires k < 4
  {
    if k == 0 then (w & 0xFF) as byte
    else if k == 1 then ((w >> 8) & 0xFF) as byte
    else if k == 2 then ((w >> 16) & 0xFF) as byte
    else ((w >> 24) & 0xFF) as byte
  }

  lemma U32RoundTrip(w: bv32)
    ensures U32(ByteOfWord(w, 0), ByteOfWord(w, 1), ByteOfWord(w, 2), ByteOfWord(w, 3)) == w
  {
  }

  /** Reduction to the `int32` range, the result of every Go `int32` operation. */
  function Wrap32(x: int): (r: int)
    ensures -0x8000_0000 <= r <= 0x7FFF_FFFF
    ensures -0x8000_0000 <= x <= 0x7FFF_FFFF ==> r == x
  {
    (x + 0x8000_0000) % 0x1_0000_0000 - 0x8000_0000
  }

  /** Wrapping first never changes a wrapped sum: intermediate reductions are harmless. */
  lemma WrapAdd(x: int, y: int)
    ensures Wrap32(Wrap32(x) + y) == Wrap32(x + y)
    ensures Wrap32(x + Wrap32(y)) == Wrap32(x + y)
  {
    WrapShift(x);
    WrapShift(y);
    var k := (x + 0x8000_0000) / 0x1_0000_0000;
    var m := (y + 0x8000_0000) / 0x1_0000_0000;
    WrapPeriod(x + y, -k);
    WrapPeriod(x + y, -m);
  }

  lemma WrapMul(x: int, y: int)
    ensures Wrap32(Wrap32(x) * y) == Wrap32(x * y)
  {
    WrapShift(x);
    var k := (x + 0x8000_0000) / 0x1_0000_0000;
    calc {
      Wrap32(x) * y;
      (x - k * 0x1_0000_0000) * y;
      x * y - (k * 0x1_0000_0000) * y;
      x * y + (-(k * y)) * 0x1_0000_0000;
    }
    WrapPeriod(x * y, -(k * y));
  }

  lemma WrapShift(x: int)
    ensures Wrap32(x) == x - ((x + 0x8000_0000) / 0x1_0000_0000) * 0x1_0000_0000
  {
  }

  lemma WrapPeriod(x: int, k: int)
    ensures Wrap32(x + k * 0x1_0000_0000) == Wrap32(x)
  {
    var a, b := x + 0x8000_0000, 0x1_0000_0000;
    assert (a + k * b) % b == a % b by {
      ModPeriod(a, k, b);
    }
  }

  lemma ModPeriod(a: int, k: int, b: int)
    requires b > 0
    ensures (a + k * b) % b == a % b
  {
    var q, r := a / b, a % b;
    assert a + k * b == (q + k) * b + r;
    DivModUnique(a + k * b, q + k, r, b);
  }

  lemma DivModUnique(a: int, q: int, r: int, b: int)
    requires b > 0 && 0 <= r < b && a == q * b + r
    ensures a / b == q && a % b == r
  {
    var q' := a / b;
    calc {
      (q - q') * b;
      q * b - q' * b;
      a % b - r;
    }
    NonzeroMultiple(q - q', b);
  }

  lemma NonzeroMultiple(k: int, b: int)
    requires b > 0
    ensures k >= 1 ==> k * b >= b
    ensures k <= -1 ==> k * b <= -b
  {
    if k >= 1 {
      assert k * b == b + (k - 1) * b;
    } else {
      assert k * b == -b + (k + 1) * b;
    }
  }

  /** The product of two bounded integers. */
  lemma MulBound(a: int, b: int, m: int, n: int)
    requires -m <= a <= m && -n <= b <= n
    ensures -(m * n) <= a * b <= m * n
  {
    var x, y := if a < 0 then -a else a, if b < 0 then -b else b;
    assert x * y <= m * n by {
      assert x * y <= m * y;
      assert m * y <= m * n;
    }
    assert a * b == x * y || a * b == -(x * y);
  }

  lemma Monotone(a: nat, n: nat, b: nat)
    requires a <= n
    ensures a * b <= n * b
  {
    var d := n - a;
    assert n * b == a * b + d * b;
  }
}
