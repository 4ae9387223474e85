/** Bytes as numbers, and little-endian integers. */
module Octets {

  type Octet = b: int | 0 <= b < 256 witness 0

  const TWO_32: nat := 0x1_0000_0000
  const TWO_63: nat := 0x8000_0000_0000_0000
  const TWO_64: nat := 0x1_0000_0000_0000_0000

  function Pow256(k: nat): (p: nat)
    ensures p > 0
  {
    if k == 0 then 1 else 256 * Pow256(k - 1)
  }

  lemma Powers()
    ensures Pow256(1) == 256 && Pow256(2) == 0x1_0000 && Pow256(4) == TWO_32 && Pow256(8) == TWO_64
  {
    assert Pow256(3) == 0x100_0000;
    assert Pow256(5) == 0x100_0000_0000 && Pow256(6) == 0x1_0000_0000_0000 && Pow256(7) == 0x100_0000_0000_0000;
  }

  /** `n` in `k` bytes, lowest first. */
  function Little(n: nat, k: nat): (s: seq<Octet>)
    ensures |s| == k
  {
    if k == 0 then [] else [n % 256] + Little(n / 256, k - 1)
  }

  function Number(s: seq<Octet>): nat {
    if s == [] then 0 else s[0] + 256 * Number(s[1..])
  }

  lemma {:induction false} NumberBound(s: seq<Octet>)
    ensures Number(s) < Pow256(|s|)
  {
    if s != [] {
      NumberBound(s[1..]);
    }
  }

  lemma {:induction false} LittleRoundTrip(n: nat, k: nat)
    requires n < Pow256(k)
    ensures Number(Little(n, k)) == n
  {
    if k > 0 {
      LittleRoundTrip(n / 256, k - 1);
      assert Little(n, k)[1..] == Little(n / 256, k - 1);
    }
  }

  /** The value of a `k`-byte two's complement number. */
  function Signed(n: nat, k: nat): int {
    if 2 * n < Pow256(k) then n else n - Pow256(k)
  }

  predicate FitsSigned(i: int, k: nat) {
    0 <= 2 * i + Pow256(k) && 2 * i < Pow256(k)
  }

  function Unsigned(i: int, k: nat): (n: nat)
    requires FitsSigned(i, k)
    ensures n < Pow256(k) && Signed(n, k) == i
  {
    if i >= 0 then i else i + Pow256(k)
  }
}
