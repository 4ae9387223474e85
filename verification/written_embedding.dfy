/** The embedding of a token of a table given as rows of blocks: the weights its row was packed from. */
module WrittenEmbedding {
  import opened Machine
  import opened Float32
  import opened WeightBlocks
  import opened WrittenWeights
  import opened WrittenProducts
  import opened Embedding
  import DotQ50
  import DotQ80
  import Gemv
  import GgmlTypes
  import Q4KMeaning

  /** A layout that the embedding knows: `F32`, `Q5_0`, `Q8_0`, `Q4_K`. */
  predicate Known(kind: nat) {
    kind == 0 || kind == 6 || kind == 8 || kind == 12
  }

  function TableOf(rows: seq<seq<Block>>, kind: nat, length: nat, rest: seq<byte>): Table
    requires Matrix(rows, kind, length)
  {
    Table(kind, length, |rows|, Packed(rows, kind, length) + rest)
  }

  lemma SizesAgree(rows: seq<seq<Block>>, kind: nat, length: nat, rest: seq<byte>)
    requires Known(kind) && Matrix(rows, kind, length)
    ensures var t := TableOf(rows, kind, length, rest);
            && Handled(kind) && GgmlTypes.Elements(kind) == WeightsPerBlock(kind) && GgmlTypes.Bytes(kind) == BytesPerBlock(kind)
            && RowBytes(t) == BytesPerBlock(kind) * (length / WeightsPerBlock(kind))
            && Written(t) == WeightsPerBlock(kind) * (length / WeightsPerBlock(kind))
  {
  }

  lemma TableFits(rows: seq<seq<Block>>, kind: nat, length: nat, rest: seq<byte>)
    requires Known(kind) && Matrix(rows, kind, length) && rows != []
    ensures Fits(TableOf(rows, kind, length, rest))
  {
    hide Packed, SoundMatrix;
    SizesAgree(rows, kind, length, rest);
    RowOfPacked(rows, kind, length, rest, 0);
  }

  /** Four bytes are one `F32` weight. */
  lemma WordElement(row: seq<Block>, i: nat)
    requires SoundRow(row, 0) && i < |row|
    ensures var w := PackedRow(row, 0);
            |w| == 4 * |row| && Bits(U32(w[4 * i], w[4 * i + 1], w[4 * i + 2], w[4 * i + 3])) == Weight(row[i], 0)
  {
    hide PackedRow, Sound, U32, WordBytes, Stands;
    RowStands(row, 0, i);
    var w, b := PackedRow(row, 0), row[i];
    assert Sound(b) && KindOf(b) == 0;
    WordStands(w, 4 * i, b);
  }

  lemma WordStands(w: seq<byte>, o: nat, b: Block)
    requires Sound(b) && b.BlockF32? && Stands(w, o, BytesOf(b))
    ensures o + 4 <= |w| && U32(w[o], w[o + 1], w[o + 2], w[o + 3]) == b.word
  {
    hide Stands, U32, WordBytes;
    StandsAt(w, o, BytesOf(b), 0);
    StandsAt(w, o, BytesOf(b), 1);
    StandsAt(w, o, BytesOf(b), 2);
    StandsAt(w, o, BytesOf(b), 3);
    WordBack(b.word);
  }

  lemma ElementBack(row: seq<Block>, kind: nat, length: nat, i: nat)
    requires Known(kind) && SoundRow(row, kind) && |row| == length / WeightsPerBlock(kind) && i < WeightsPerBlock(kind) * |row|
    ensures Handled(kind) && GgmlTypes.Elements(kind) == WeightsPerBlock(kind) && |PackedRow(row, kind)| == GgmlTypes.Bytes(kind) * |row|
    ensures i / WeightsPerBlock(kind) < |row| && KindOf(row[i / WeightsPerBlock(kind)]) == kind
    ensures Count(row[i / WeightsPerBlock(kind)]) == WeightsPerBlock(kind)
    ensures Element(kind, length, PackedRow(row, kind), i) == Weight(row[i / WeightsPerBlock(kind)], i % WeightsPerBlock(kind))
  {
    hide PackedRow, Sound, Weight, U32, Q4KMeaning.RowWeight, DotQ50.Weight, DotQ80.Weight;
    RowLength(row, kind);
    if kind == 12 {
      Q4Element(row, i);
    } else if kind == 6 {
      Q5Element(row, i);
    } else if kind == 8 {
      Q8Element(row, i);
    } else {
      WordElement(row, i);
    }
  }

  /** Every id of the vocabulary gets the weights of its own row, any other id those of row 0; entries past the
      whole blocks stay. */
  lemma OwnRow(rows: seq<seq<Block>>, kind: nat, length: nat, rest: seq<byte>, before: Vec, id: int, i: nat)
    requires Known(kind) && Matrix(rows, kind, length) && rows != [] && |before| == length && i < length
    ensures Fits(TableOf(rows, kind, length, rest))
    ensures var per := WeightsPerBlock(kind);
            var row := rows[if 0 <= id < |rows| then id else 0];
            if i < per * (length / per) then
              i / per < |row| && Sound(row[i / per]) && Count(row[i / per]) == per
              && EmbedToken(TableOf(rows, kind, length, rest), before, id)[i] == Weight(row[i / per], i % per)
            else EmbedToken(TableOf(rows, kind, length, rest), before, id)[i] == before[i]
  {
    hide Packed, PackedRow, Gemv.Row, Element, Weight, Sound;
    var per, r := WeightsPerBlock(kind), if 0 <= id < |rows| then id else 0;
    TableFits(rows, kind, length, rest);
    SizesAgree(rows, kind, length, rest);
    RowOfPacked(rows, kind, length, rest, r);
    if i < per * (length / per) {
      ElementBack(rows[r], kind, length, i);
    }
  }

  /** A layout without a case leaves the buffer as it was. */
  lemma UnknownKept(t: Table, before: Vec, id: int)
    requires Fits(t) && |before| == t.length && !Known(t.ty)
    ensures EmbedToken(t, before, id) == before
  {
    hide Gemv.Row, Element;
    assert Written(t) == 0;
    forall i | 0 <= i < t.length
      ensures EmbedToken(t, before, id)[i] == before[i]
    {
    }
  }
}
