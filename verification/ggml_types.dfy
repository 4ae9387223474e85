/** How many bytes a tensor takes according to the format, and when the parser computes the same.
    Block layouts are those of ggml (`ggml-common.h`), written as the sums of a block's fields. */
module GgmlTypes {
  import Machine
  import opened Octets
  import opened GgufFile

  const F32 := 0
  const F16 := 1
  const Q4_0 := 2
  const Q4_1 := 3
  const Q5_0 := 6
  const Q5_1 := 7
  const Q8_0 := 8
  const Q8_1 := 9
  const Q2_K := 10
  const Q3_K := 11
  const Q4_K := 12
  const Q5_K := 13
  const Q6_K := 14
  const Q8_K := 15
  const BF16 := 28

  /** The types the reader declares. */
  predicate Declared(ty: nat) {
    ty <= 3 || 6 <= ty <= 15 || ty == 28
  }

  /** The types its size switch knows. */
  predicate Handled(ty: nat) {
    ty == F32 || ty == F16 || ty == Q4_0 || ty == Q5_0 || ty == Q8_0 || ty == Q4_K || ty == Q6_K
  }

  /** Elements of one block. */
  function Elements(ty: nat): (n: nat)
    requires Declared(ty)
    ensures n > 0
  {
    if ty == F32 || ty == F16 || ty == BF16 then 1 else if ty < 10 then 32 else 256
  }

  /** Bytes of one block: half-precision scales, packed sub-scales, low bits, high bits. */
  function Bytes(ty: nat): (n: nat)
    requires Declared(ty)
  {
    if ty == F32 then 4
    else if ty == F16 || ty == BF16 then 2
    else if ty == Q4_0 then 2 + 16
    else if ty == Q4_1 then 2 + 2 + 16
    else if ty == Q5_0 then 2 + 4 + 16
    else if ty == Q5_1 then 2 + 2 + 4 + 16
    else if ty == Q8_0 then 2 + 32
    else if ty == Q8_1 then 2 + 2 + 32
    else if ty == Q2_K then 16 + 64 + 2 + 2
    else if ty == Q3_K then 32 + 64 + 12 + 2
    else if ty == Q4_K then 2 + 2 + 12 + 128
    else if ty == Q5_K then 2 + 2 + 12 + 32 + 128
    else if ty == Q6_K then 128 + 64 + 16 + 2
    else 4 + 256 + 32
  }

  /** A tensor's rows are whole blocks. */
  predicate Shaped(ty: nat, dims: seq<nat>) {
    Declared(ty) && dims != [] && dims[0] % Elements(ty) == 0
  }

  /** The bytes of one row times the number of rows. */
  function FormatSize(ty: nat, dims: seq<nat>): nat
    requires Shaped(ty, dims)
  {
    dims[0] / Elements(ty) * Bytes(ty) * Product(dims[1..])
  }

  // ----- the two ways of counting -----

  lemma Assoc(a: nat, b: nat, c: nat)
    ensures (a * b) * c == a * (b * c)
  {
  }

  lemma {:induction false} ProductCons(dims: seq<nat>)
    requires dims != []
    ensures Product(dims) == dims[0] * Product(dims[1..])
    decreases |dims|
  {
    if |dims| == 1 {
      assert dims[..0] == [] && dims[1..] == [];
    } else {
      var n := |dims| - 1;
      var front, last := dims[..n], dims[n];
      ProductCons(front);
      var rest := dims[1..];
      assert rest[..|rest| - 1] == front[1..] && rest[|rest| - 1] == last;
      Assoc(dims[0], Product(front[1..]), last);
    }
  }

  /** Blocks per row, rows, and the two products made from them. */
  lemma BlockCount(ty: nat, dims: seq<nat>) returns (blocks: nat)
    requires Shaped(ty, dims)
    ensures Product(dims) == blocks * Elements(ty)
    ensures Product(dims) / Elements(ty) == blocks
    ensures FormatSize(ty, dims) == blocks * Bytes(ty)
  {
    hide Product, Elements, Bytes;
    ProductCons(dims);
    var e, y, q, rows := Elements(ty), Bytes(ty), dims[0] / Elements(ty), Product(dims[1..]);
    blocks := q * rows;
    assert dims[0] == q * e;
    Swap(q, e, rows);
    Swap(q, y, rows);
    Machine.DivModUnique(blocks * e, blocks, 0, e);
  }

  lemma Swap(a: nat, b: nat, c: nat)
    ensures (a * b) * c == (a * c) * b
  {
  }

  lemma HandledTable(ty: nat)
    requires Handled(ty)
    ensures Declared(ty) && Elements(ty) == BlockSize(ty) && Bytes(ty) == BlockBytes(ty)
    ensures 2 * Bytes(ty) > Elements(ty)
  {
  }

  lemma OtherTable(ty: nat)
    requires Declared(ty) && !Handled(ty)
    ensures BlockSize(ty) == 1 && BlockBytes(ty) == 4
    ensures Bytes(ty) < 4 * Elements(ty)
  {
  }

  /** For a type the switch knows the size is the format's, whenever that fits a file. */
  lemma HandledSize(ty: nat, dims: seq<nat>)
    requires Handled(ty) && Shaped(ty, dims) && FormatSize(ty, dims) < TWO_63
    ensures TensorByteSize(ty, dims) == FormatSize(ty, dims)
  {
    hide TensorByteSize, FormatSize, Product, Elements, Bytes, BlockSize, BlockBytes;
    HandledTable(ty);
    var blocks := BlockCount(ty, dims);
    var e, y := Elements(ty), Bytes(ty);
    Machine.Monotone(e, 2 * y, blocks);
    assert blocks * e <= 2 * (blocks * y);
    ByteSizeExact(ty, dims);
  }

  /** Four bytes an element, modulo 2^64, never happen to be the size of a payload that fits a file. */
  lemma NoCoincidence(ty: nat, blocks: nat, k: int)
    requires Declared(ty) && !Handled(ty) && blocks > 0 && blocks * Bytes(ty) < TWO_63
    ensures 4 * (blocks * Elements(ty)) != blocks * Bytes(ty) + k * TWO_64
  {
    if ty == Q4_1 {
    } else if ty == Q5_1 {
    } else if ty == Q8_1 {
    } else if ty == Q2_K {
    } else if ty == Q3_K {
    } else if ty == Q5_K {
    } else if ty == Q8_K {
    } else {
      assert ty == BF16;
    }
  }

  /** For a type the switch does not know the size is four bytes an element, in 64 bits. */
  lemma OtherSize(ty: nat, dims: seq<nat>)
    requires Declared(ty) && !Handled(ty) && dims != []
    ensures TensorByteSize(ty, dims) == (4 * Product(dims)) % TWO_64
  {
    hide ElementCount, Product;
    OtherTable(ty);
    ElementCountExact(dims);
    ModMul(Product(dims), 4, TWO_64);
  }

  /** For any declared type and any payload that fits a file: the size is the format's exactly when the
      switch knows the type or the tensor has no elements. */
  lemma SizeAgreesIff(ty: nat, dims: seq<nat>)
    requires Shaped(ty, dims) && FormatSize(ty, dims) < TWO_63
    ensures TensorByteSize(ty, dims) == FormatSize(ty, dims) <==> Handled(ty) || Product(dims) == 0
  {
    hide TensorByteSize, FormatSize, Product, Elements, Bytes, BlockSize, BlockBytes, Handled;
    if Handled(ty) {
      HandledSize(ty, dims);
    } else {
      var blocks := BlockCount(ty, dims);
      OtherSize(ty, dims);
      if blocks > 0 {
        var k := 4 * Product(dims) / TWO_64;
        NoCoincidence(ty, blocks, k);
        Positive(blocks, Elements(ty));
      }
    }
  }

  lemma Positive(a: nat, b: nat)
    requires a > 0 && b > 0
    ensures a * b > 0
  {
  }

  /** Eight `BF16` elements take 16 bytes; the parser cuts 32. */
  lemma BF16Misread()
    ensures Shaped(BF16, [8]) && FormatSize(BF16, [8]) == 16 && TensorByteSize(BF16, [8]) == 32
  {
    assert [8][1..] == [] && [8][..0] == [];
    assert Product([]) == 1 && ElementCount([]) == 1;
    assert ElementCount([8]) == 8;
  }
}
