/** The 256-bit integer instructions the kernels use. A register is a sequence of
    its lanes: 32 unsigned bytes, 16 signed 16-bit words or 8 signed 32-bit words.
    Shifts act on 16-bit lanes, so they carry bits across neighbouring bytes. */
module Avx2 {
  import opened Machine

  const BYTES: nat := 32

  /** `LoadUint8x32(s[at:][:32])`. */
  function Load(s: seq<byte>, at: nat): (v: seq<byte>)
    requires at + BYTES <= |s|
    ensures |v| == BYTES && forall i :: 0 <= i < BYTES ==> v[i] == s[at + i]
  {
    s[at..at + BYTES]
  }

  /** `v.And(BroadcastUint8x32(m))`. */
  function And(v: seq<byte>, m: byte): (r: seq<byte>)
    ensures |r| == |v| && forall i :: 0 <= i < |v| ==> r[i] == v[i] & m
  {
    seq(|v|, i requires 0 <= i < |v| => v[i] & m)
  }

  function Or(v: seq<byte>, w: seq<byte>): (r: seq<byte>)
    requires |v| == |w|
    ensures |r| == |v| && forall i :: 0 <= i < |v| ==> r[i] == v[i] | w[i]
  {
    seq(|v|, i requires 0 <= i < |v| => v[i] | w[i])
  }

  /** The byte at an even or odd position of a 16-bit lane. */
  function LaneByte(lane: bv16, odd: bool): byte {
    if odd then (lane >> 8) as byte else (lane & 0xFF) as byte
  }

  function ShiftedRight(lo: byte, hi: byte, k: nat, odd: bool): byte
    requires k <= 15
  {
    LaneByte(U16(lo, hi) >> k, odd)
  }

  function ShiftedLeft(lo: byte, hi: byte, k: nat, odd: bool): byte
    requires k <= 15
  {
    LaneByte(U16(lo, hi) << k, odd)
  }

  /** `v.AsUint16x16().ShiftAllRight(k).AsUint8x32()`. */
  function ShiftRight16(v: seq<byte>, k: nat): (r: seq<byte>)
    requires |v| % 2 == 0 && k <= 15
    ensures |r| == |v|
  {
    seq(|v|, i requires 0 <= i < |v| =>
      if i % 2 == 0 then ShiftedRight(v[i], v[i + 1], k, false) else ShiftedRight(v[i - 1], v[i], k, true))
  }

  /** `v.AsUint16x16().ShiftAllLeft(k).AsUint8x32()`. */
  function ShiftLeft16(v: seq<byte>, k: nat): (r: seq<byte>)
    requires |v| % 2 == 0 && k <= 15
    ensures |r| == |v|
  {
    seq(|v|, i requires 0 <= i < |v| =>
      if i % 2 == 0 then ShiftedLeft(v[i], v[i + 1], k, false) else ShiftedLeft(v[i - 1], v[i], k, true))
  }

  /** Saturation of a 16-bit signed lane. */
  function Saturate16(x: int): int {
    if x > 0x7FFF then 0x7FFF else if x < -0x8000 then -0x8000 else x
  }

  /** `u.DotProductPairsSaturated(s.AsInt8x32())`: unsigned times signed bytes,
      neighbouring products added with 16-bit saturation. */
  function MulAddPairsSaturated(u: seq<byte>, s: seq<byte>): (r: seq<int>)
    requires |u| == |s| == BYTES
    ensures |r| == 16
  {
    seq(16, i requires 0 <= i < 16 => Saturate16(
      (u[2 * i] as int) * Int8(s[2 * i]) + (u[2 * i + 1] as int) * Int8(s[2 * i + 1])))
  }

  /** `p.DotProductPairs(BroadcastInt16x16(1))`: neighbouring 16-bit lanes added into 32 bits. */
  function AddPairs(p: seq<int>): (r: seq<int>)
    requires |p| == 16
    ensures |r| == 8
  {
    seq(8, i requires 0 <= i < 8 => Wrap32(p[2 * i] * 1 + p[2 * i + 1] * 1))
  }

  /** `v.AsUint8x32().Store(b)` of eight 32-bit lanes, least significant byte first. */
  function StoreLanes(v: seq<int>): (b: seq<byte>)
    requires |v| == 8
    ensures |b| == BYTES
  {
    seq(BYTES, i requires 0 <= i < BYTES => StoredByte(v[i / 4], i % 4))
  }

  function StoredByte(x: int, place: int): byte {
    if place == 0 then Byte(x)
    else if place == 1 then Byte(x / 0x100)
    else if place == 2 then Byte(x / 0x100 / 0x100)
    else Byte(x / 0x100 / 0x100 / 0x100)
  }

  /** `int32(uint32(b[4k]) | uint32(b[4k+1])<<8 | ...)`: the scalar reload of a stored lane. */
  function ReloadLane(b: seq<byte>, k: nat): int
    requires 4 * k + 4 <= |b|
  {
    JoinWord(b[4 * k], b[4 * k + 1], b[4 * k + 2], b[4 * k + 3])
  }

  function JoinWord(b0: byte, b1: byte, b2: byte, b3: byte): int {
    Wrap32(((b0 as bv32) | ((b1 as bv32) << 8) | ((b2 as bv32) << 16) | ((b3 as bv32) << 24)) as int)
  }

  lemma JoinWordIsSum(b0: byte, b1: byte, b2: byte, b3: byte)
    ensures JoinWord(b0, b1, b2, b3) == JoinBytes(b0 as int, b1 as int, b2 as int, b3 as int)
  {
    hide Wrap32;
    Joined32(b0, b1, b2, b3);
  }

  /** The same over the integers: disjoint bytes joined with `|` are a sum. */
  function JoinBytes(b0: int, b1: int, b2: int, b3: int): int {
    Wrap32(b0 + 0x100 * b1 + 0x1_0000 * b2 + 0x100_0000 * b3)
  }

  /** The three-instruction dot product followed by the store. */
  function DotLanes(u: seq<byte>, s: seq<byte>): (b: seq<byte>)
    requires |u| == |s| == BYTES
    ensures |b| == BYTES
  {
    StoreLanes(AddPairs(MulAddPairsSaturated(u, s)))
  }

  /** `u[lo]*s[lo] + ... + u[hi-1]*s[hi-1]` with unsigned `u` and signed `s`. */
  function DotBytes(u: seq<byte>, s: seq<byte>, lo: nat, hi: nat): int
    requires lo <= hi <= |u| && hi <= |s|
    decreases hi - lo
  {
    if lo == hi then 0 else DotBytes(u, s, lo, hi - 1) + (u[hi - 1] as int) * Int8(s[hi - 1])
  }

  lemma {:induction false} DotBytesSplit(u: seq<byte>, s: seq<byte>, lo: nat, mid: nat, hi: nat)
    requires lo <= mid <= hi <= |u| && hi <= |s|
    ensures DotBytes(u, s, lo, hi) == DotBytes(u, s, lo, mid) + DotBytes(u, s, mid, hi)
    decreases hi - mid
  {
    if mid < hi {
      DotBytesSplit(u, s, lo, mid, hi - 1);
    }
  }

  /** Six-bit codes against signed bytes: each term is at most `63 * 128`. */
  lemma {:induction false} DotBytesBound(u: seq<byte>, s: seq<byte>, lo: nat, hi: nat)
    requires lo <= hi <= |u| && hi <= |s|
    requires forall i :: lo <= i < hi ==> u[i] <= 63
    ensures -8064 * (hi - lo) <= DotBytes(u, s, lo, hi) <= 8064 * (hi - lo)
    decreases hi - lo
  {
    if lo < hi {
      DotBytesBound(u, s, lo, hi - 1);
      TermBound(u[hi - 1], s[hi - 1]);
    }
  }

  lemma TermBound(u: byte, s: byte)
    requires u <= 63
    ensures -8064 <= (u as int) * Int8(s) <= 8064
  {
    SixBits(u);
    MulBound(u as int, Int8(s), 63, 128);
  }

  lemma SixBits(u: byte)
    requires u <= 63
    ensures 0 <= u as int <= 63
  {
  }

  lemma StoreReload(v: seq<int>, k: nat)
    requires |v| == 8 && k < 8 && -0x8000_0000 <= v[k] <= 0x7FFF_FFFF
    ensures ReloadLane(StoreLanes(v), k) == v[k]
  {
    hide JoinWord, JoinBytes, StoredByte;
    StoredBytes(v, k);
    JoinWordIsSum(StoredByte(v[k], 0), StoredByte(v[k], 1), StoredByte(v[k], 2), StoredByte(v[k], 3));
    JoinStored(v[k]);
  }

  lemma StoredBytes(v: seq<int>, k: nat)
    requires |v| == 8 && k < 8
    ensures StoreLanes(v)[4 * k] == StoredByte(v[k], 0)
    ensures StoreLanes(v)[4 * k + 1] == StoredByte(v[k], 1)
    ensures StoreLanes(v)[4 * k + 2] == StoredByte(v[k], 2)
    ensures StoreLanes(v)[4 * k + 3] == StoredByte(v[k], 3)
  {
    hide StoredByte;
    Quarter(k, 0);
    Quarter(k, 1);
    Quarter(k, 2);
    Quarter(k, 3);
  }

  lemma Quarter(k: nat, j: nat)
    requires j < 4
    ensures (4 * k + j) / 4 == k && (4 * k + j) % 4 == j
  {
  }

  lemma JoinStored(x: int)
    requires -0x8000_0000 <= x <= 0x7FFF_FFFF
    ensures JoinBytes(StoredByte(x, 0) as int, StoredByte(x, 1) as int,
                      StoredByte(x, 2) as int, StoredByte(x, 3) as int) == x
  {
    StoredValue(x, 0);
    StoredValue(x, 1);
    StoredValue(x, 2);
    StoredValue(x, 3);
    FourBytes(x);
  }

  function StoredInt(x: int, place: int): int {
    if place == 0 then x % 0x100
    else if place == 1 then (x / 0x100) % 0x100
    else if place == 2 then (x / 0x100 / 0x100) % 0x100
    else (x / 0x100 / 0x100 / 0x100) % 0x100
  }

  lemma StoredValue(x: int, place: int)
    ensures StoredByte(x, place) as int == StoredInt(x, place)
  {
    if place == 0 {
      ByteValue(x);
    } else if place == 1 {
      ByteValue(x / 0x100);
    } else if place == 2 {
      ByteValue(x / 0x100 / 0x100);
    } else {
      ByteValue(x / 0x100 / 0x100 / 0x100);
    }
  }

  lemma FourBytes(x: int)
    requires -0x8000_0000 <= x <= 0x7FFF_FFFF
    ensures JoinBytes(StoredInt(x, 0), StoredInt(x, 1), StoredInt(x, 2), StoredInt(x, 3)) == x
  {
    var y := x / 0x100;
    var z := y / 0x100;
    var w := z / 0x100;
    assert x == 0x100 * y + x % 0x100 && y == 0x100 * z + y % 0x100 && z == 0x100 * w + z % 0x100;
    assert -0x80 <= w < 0x80;
    if w >= 0 {
      assert w % 0x100 == w;
    } else {
      assert w % 0x100 == w + 0x100;
      WrapPeriod(x, 1);
    }
  }

  /** No lane saturates, overflows or is damaged by the trip through memory: reloaded
      lane `k` is the exact dot product of bytes `4k .. 4k+3`. */
  lemma DotLanesExact(u: seq<byte>, s: seq<byte>, k: nat)
    requires |u| == |s| == BYTES && k < 8
    requires forall i :: 0 <= i < BYTES ==> u[i] <= 63
    ensures ReloadLane(DotLanes(u, s), k) == DotBytes(u, s, 4 * k, 4 * k + 4)
  {
    hide DotBytes, MulAddPairsSaturated, AddPairs, StoreLanes, ReloadLane;
    LaneSum(u, s, k);
    StoreReload(AddPairs(MulAddPairsSaturated(u, s)), k);
  }

  lemma LaneSum(u: seq<byte>, s: seq<byte>, k: nat)
    requires |u| == |s| == BYTES && k < 8
    requires forall i :: 0 <= i < BYTES ==> u[i] <= 63
    ensures AddPairs(MulAddPairsSaturated(u, s))[k] == DotBytes(u, s, 4 * k, 4 * k + 4)
    ensures -32256 <= AddPairs(MulAddPairsSaturated(u, s))[k] <= 32256
  {
    hide DotBytes, MulAddPairsSaturated;
    PairExact(u, s, 2 * k);
    PairExact(u, s, 2 * k + 1);
    DotBytesSplit(u, s, 4 * k, 4 * k + 2, 4 * k + 4);
  }

  lemma PairExact(u: seq<byte>, s: seq<byte>, i: nat)
    requires |u| == |s| == BYTES && i < 16
    requires forall j :: 0 <= j < BYTES ==> u[j] <= 63
    ensures MulAddPairsSaturated(u, s)[i] == DotBytes(u, s, 2 * i, 2 * i + 2)
    ensures -16128 <= MulAddPairsSaturated(u, s)[i] <= 16128
  {
    var j := 2 * i;
    TermBound(u[j], s[j]);
    TermBound(u[j + 1], s[j + 1]);
    assert DotBytes(u, s, j, j + 2) == DotBytes(u, s, j, j + 1) + (u[j + 1] as int) * Int8(s[j + 1]);
    assert DotBytes(u, s, j, j + 1) == DotBytes(u, s, j, j) + (u[j] as int) * Int8(s[j]);
  }

  /** Masking after a 16-bit shift discards exactly the bits carried over from the neighbour. */
  lemma MaskedShiftRight(v: seq<byte>, i: nat)
    requires |v| % 2 == 0 && i < |v|
    ensures ShiftRight16(v, 4)[i] & 15 == v[i] >> 4
    ensures ShiftRight16(v, 2)[i] & 3 == (v[i] >> 2) & 3
    ensures ShiftRight16(v, 4)[i] & 3 == (v[i] >> 4) & 3
    ensures ShiftRight16(v, 6)[i] & 3 == (v[i] >> 6) & 3
  {
    if i % 2 == 0 {
      MaskedLane(v[i], v[i + 1]);
    } else {
      MaskedLane(v[i - 1], v[i]);
    }
  }

  lemma MaskedLane(lo: byte, hi: byte)
    ensures ShiftedRight(lo, hi, 4, false) & 15 == lo >> 4 && ShiftedRight(lo, hi, 4, true) & 15 == hi >> 4
    ensures ShiftedRight(lo, hi, 2, false) & 3 == (lo >> 2) & 3 && ShiftedRight(lo, hi, 2, true) & 3 == (hi >> 2) & 3
    ensures ShiftedRight(lo, hi, 4, false) & 3 == (lo >> 4) & 3 && ShiftedRight(lo, hi, 4, true) & 3 == (hi >> 4) & 3
    ensures ShiftedRight(lo, hi, 6, false) & 3 == (lo >> 6) & 3 && ShiftedRight(lo, hi, 6, true) & 3 == (hi >> 6) & 3
  {
  }

  /** Two-bit codes shifted left by four stay inside their byte. */
  lemma MaskedShiftLeft(v: seq<byte>, i: nat)
    requires |v| % 2 == 0 && i < |v|
    requires forall j :: 0 <= j < |v| ==> v[j] <= 3
    ensures ShiftLeft16(v, 4)[i] == v[i] << 4
  {
    if i % 2 == 0 {
      LeftLane(v[i], v[i + 1]);
    } else {
      LeftLane(v[i - 1], v[i]);
    }
  }

  lemma LeftLane(lo: byte, hi: byte)
    requires lo <= 3 && hi <= 3
    ensures ShiftedLeft(lo, hi, 4, false) == lo << 4 && ShiftedLeft(lo, hi, 4, true) == hi << 4
  {
  }

  // ----- accumulating in int32 -----

  /** `acc += a * b` on `int32`. */
  function MulAdd32(acc: int, a: int, b: int): int {
    Wrap32(acc + Wrap32(a * b))
  }

  /** One step of a scalar dot-product loop, with no overflow on six-bit codes. */
  lemma DotStep(u: seq<byte>, s: seq<byte>, lo: nat, i: nat)
    requires lo <= i < |u| && i < |s| && i - lo < 64
    requires forall j :: lo <= j <= i ==> u[j] <= 63
    ensures MulAdd32(DotBytes(u, s, lo, i), u[i] as int, Int8(s[i])) == DotBytes(u, s, lo, i + 1)
  {
    hide Int8;
    DotBytesBound(u, s, lo, i);
    DotBytesBound(u, s, lo, i + 1);
    TermBound(u[i], s[i]);
  }

  /** Within a register no sum of products comes near the int32 range. */
  lemma SmallDot(u: seq<byte>, s: seq<byte>, lo: nat, hi: nat)
    requires |u| == |s| == BYTES && lo <= hi <= BYTES
    requires forall i :: 0 <= i < BYTES ==> u[i] <= 63
    ensures Wrap32(DotBytes(u, s, lo, hi)) == DotBytes(u, s, lo, hi)
  {
    hide DotBytes, Wrap32;
    DotBytesBound(u, s, lo, hi);
  }

  /** One step of the loop that adds the stored lanes. */
  lemma LaneStep(u: seq<byte>, s: seq<byte>, lo: nat, k: nat)
    requires |u| == |s| == BYTES && lo <= k < 8
    requires forall i :: 0 <= i < BYTES ==> u[i] <= 63
    ensures Wrap32(DotBytes(u, s, 4 * lo, 4 * k) + ReloadLane(DotLanes(u, s), k)) == DotBytes(u, s, 4 * lo, 4 * (k + 1))
  {
    hide DotLanes, ReloadLane, DotBytes, Wrap32, Int8;
    var from, at, next := 4 * lo, 4 * k, 4 * (k + 1);
    assert DotBytes(u, s, from, at) + ReloadLane(DotLanes(u, s), k) == DotBytes(u, s, from, next) by {
      DotLanesExact(u, s, k);
      DotBytesSplit(u, s, from, at, next);
    }
    SmallDot(u, s, from, next);
  }
}
