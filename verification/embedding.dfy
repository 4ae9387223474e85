/** The token embedding: a row of the table, dequantised over what the buffer held before. */
module Embedding {
  import opened Machine
  import opened Float32
  import Gemv
  import GgmlTypes
  import Q4KMeaning
  import DotQ50
  import DotQ80

  /** `rows` rows of `length` weights each, of one tensor type. */
  datatype Table = Table(ty: nat, length: nat, rows: nat, data: seq<byte>)

  // ----- what a row writes -----

  /** The types the switch has a case for. */
  predicate Handled(ty: nat) {
    ty == GgmlTypes.Q4_K || ty == GgmlTypes.Q5_0 || ty == GgmlTypes.Q8_0 || ty == GgmlTypes.F32
  }

  /** How many entries of the buffer are written: whole blocks, or none. */
  function Written(t: Table): (n: nat)
    ensures n <= t.length
  {
    if Handled(t.ty) then GgmlTypes.Elements(t.ty) * (t.length / GgmlTypes.Elements(t.ty)) else 0
  }

  function RowBytes(t: Table): nat {
    if Handled(t.ty) then GgmlTypes.Bytes(t.ty) * (t.length / GgmlTypes.Elements(t.ty)) else 0
  }

  /** The data holds all rows; the code panics on a table that does not. */
  ghost predicate Fits(t: Table) {
    t.rows > 0 && t.rows * RowBytes(t) <= |t.data|
  }

  /** Weight `i` of a row, as its dequantiser computes it. */
  function Element(ty: nat, length: nat, row: seq<byte>, i: nat): F32
    requires Handled(ty) && |row| == GgmlTypes.Bytes(ty) * (length / GgmlTypes.Elements(ty)) && i < GgmlTypes.Elements(ty) * (length / GgmlTypes.Elements(ty))
  {
    if ty == GgmlTypes.Q4_K then Q4KMeaning.RowWeight(row, length / 256, i)
    else if ty == GgmlTypes.Q5_0 then DotQ50.Weight(row, length / 32, i)
    else if ty == GgmlTypes.Q8_0 then DotQ80.Weight(row, length / 32, i)
    else Bits(U32(row[4 * i], row[4 * i + 1], row[4 * i + 2], row[4 * i + 3]))
  }

  /** An id outside the table counts as token 0. */
  function RowOfToken(t: Table, tokenID: int): (id: nat)
    requires t.rows > 0
    ensures id < t.rows
  {
    if tokenID < 0 || tokenID >= t.rows then 0 else tokenID
  }

  /** The buffer after the call, given what it held before. */
  function EmbedToken(t: Table, before: Vec, tokenID: int): (r: Vec)
    requires Fits(t) && |before| == t.length
    ensures |r| == t.length
  {
    var row := Gemv.Row(t.data, RowBytes(t), t.rows, RowOfToken(t, tokenID));
    seq(t.length, i requires 0 <= i < t.length =>
      if i < Written(t) then Element(t.ty, t.length, row, i) else before[i])
  }

  // ----- the call -----

  /** An `F32` row is copied bit by bit. */
  method CopyFloats(out: array<F32>, row: seq<byte>)
    requires |row| == 4 * out.Length
    modifies out
    ensures forall i: nat :: i < out.Length ==> out[i] == Bits(U32(row[4 * i], row[4 * i + 1], row[4 * i + 2], row[4 * i + 3]))
  {
    hide U32;
    for i := 0 to out.Length
      invariant forall k: nat :: k < i ==> out[k] == Bits(U32(row[4 * k], row[4 * k + 1], row[4 * k + 2], row[4 * k + 3]))
    {
      out[i] := Bits(U32(row[4 * i], row[4 * i + 1], row[4 * i + 2], row[4 * i + 3]));
    }
  }

  /** `EmbedToken`, through the dequantiser of the table's type. */
  method EmbedInto(t: Table, out: array<F32>, tokenID: int)
    requires Fits(t) && out.Length == t.length
    modifies out
    ensures out[..] == EmbedToken(t, old(out[..]), tokenID)
  {
    hide Q4KMeaning.RowWeight, DotQ50.Weight, DotQ80.Weight, U32, Gemv.Row;
    var id := tokenID;
    if id >= t.rows || id < 0 {
      id := 0;
    }
    if Handled(t.ty) {
      var row := Gemv.SliceRow(t.data, RowBytes(t), t.rows, id);
      if t.ty == GgmlTypes.Q4_K {
        Q4KMeaning.DequantizeRow(out, row, t.length);
      } else if t.ty == GgmlTypes.Q5_0 {
        DotQ50.DequantizeRow(out, row, t.length);
      } else if t.ty == GgmlTypes.Q8_0 {
        DotQ80.DequantizeRow(out, row, t.length);
      } else {
        CopyFloats(out, row);
      }
    }
  }

  // ----- when the buffer's past matters -----

  /** Two buffers look alike after the call exactly if they already agreed past the whole blocks. */
  lemma SameAfterIff(t: Table, x: Vec, y: Vec, tokenID: int)
    requires Fits(t) && |x| == |y| == t.length
    ensures EmbedToken(t, x, tokenID) == EmbedToken(t, y, tokenID) <==> x[Written(t)..] == y[Written(t)..]
  {
    hide Element, Gemv.Row;
    var n, a, b := Written(t), EmbedToken(t, x, tokenID), EmbedToken(t, y, tokenID);
    assert a[n..] == x[n..] && b[n..] == y[n..];
    if x[n..] == y[n..] {
      forall i | 0 <= i < t.length
        ensures a[i] == b[i]
      {
        assert i >= n ==> x[i] == x[n..][i - n] && y[i] == y[n..][i - n];
      }
    }
  }

  /** The whole buffer is written: a handled type, and a length of whole blocks. */
  predicate Whole(t: Table) {
    t.length == 0 || (Handled(t.ty) && t.length % GgmlTypes.Elements(t.ty) == 0)
  }

  lemma WholeIsWritten(t: Table)
    ensures Whole(t) <==> Written(t) == t.length
  {
  }

  /** The result depends on the token alone, whatever the buffer held, exactly for such tables. */
  lemma OverwritesIff(t: Table, tokenID: int)
    requires Fits(t)
    ensures Whole(t) <==>
            forall x: Vec, y: Vec :: |x| == t.length && |y| == t.length ==> EmbedToken(t, x, tokenID) == EmbedToken(t, y, tokenID)
  {
    hide Fits, EmbedToken, Whole, Written;
    WholeIsWritten(t);
    var n := Written(t);
    if Whole(t) {
      forall x: Vec, y: Vec | |x| == t.length && |y| == t.length
        ensures EmbedToken(t, x, tokenID) == EmbedToken(t, y, tokenID)
      {
        assert x[n..] == [] && y[n..] == [];
        SameAfterIff(t, x, y, tokenID);
      }
    } else {
      var x: Vec, y: Vec := seq(t.length, _ => ZERO), seq(t.length, _ => OfInt(1));
      assert x[n..][0] != y[n..][0];
      SameAfterIff(t, x, y, tokenID);
    }
  }

  /** A handled type is not enough: a `Q4_K` table of 896 columns, three and a half blocks, leaves the last
      128 entries as they were. */
  lemma HalfBlockKept(t: Table, x: Vec, tokenID: int)
    requires Fits(t) && t.ty == GgmlTypes.Q4_K && t.length == 896 && |x| == 896
    ensures Handled(t.ty) && !Whole(t)
    ensures EmbedToken(t, x, tokenID)[768..] == x[768..]
  {
    hide Element, Gemv.Row;
    assert Written(t) == 768;
    var after := EmbedToken(t, x, tokenID);
    forall i | 768 <= i < 896
      ensures after[i] == x[i]
    {
    }
  }

  /** What the token alone determines. */
  function TokenRow(t: Table, tokenID: int): (r: Vec)
    requires Fits(t)
    ensures |r| == t.length
  {
    EmbedToken(t, seq(t.length, _ => ZERO), tokenID)
  }

  lemma PastForgotten(t: Table, x: Vec, tokenID: int)
    requires Fits(t) && Whole(t) && |x| == t.length
    ensures EmbedToken(t, x, tokenID) == TokenRow(t, tokenID)
  {
    hide EmbedToken, Whole, Written;
    WholeIsWritten(t);
    var blank: Vec := seq(t.length, _ => ZERO);
    assert x[t.length..] == blank[t.length..] == [];
    SameAfterIff(t, x, blank, tokenID);
  }

  /** `a.X[i] += a.Down[i]`. */
  function Residual(x: Vec, down: Vec): (r: Vec)
    requires |x| == |down|
    ensures |r| == |x|
  {
    seq(|x|, i requires 0 <= i < |x| => Add(x[i], down[i]))
  }

  /** So such a table makes a decoder remember what a reset should forget: embedding the same token again after
      a layer has added to the buffer, an entry past the whole blocks carries the earlier addition on. */
  lemma SecondStepDiffers(t: Table, x: Vec, down: Vec, tokenID: int, i: nat, rd: Reading)
    requires Fits(t) && |x| == |down| == t.length && Written(t) <= i < t.length && Eval(down[i], rd) != 0.0
    ensures var first := Residual(EmbedToken(t, x, tokenID), down);
            var second := Residual(EmbedToken(t, first, tokenID), down);
            Eval(first[i], rd) == Eval(x[i], rd) + Eval(down[i], rd) && Eval(second[i], rd) != Eval(first[i], rd)
  {
    hide Element, Gemv.Row;
    var first := Residual(EmbedToken(t, x, tokenID), down);
    var second := Residual(EmbedToken(t, first, tokenID), down);
    assert first[i] == Add(x[i], down[i]);
    assert second[i] == Add(first[i], down[i]);
  }
}
