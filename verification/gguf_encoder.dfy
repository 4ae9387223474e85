/** Writing a file description as the GGUF format lays it out, and reading it back. */
module GgufEncoder {
  import opened Octets
  import opened GgufFormat
  import opened GgufFile
  import GgmlTypes

  /** A value as a writer describes it: an array names its element type even when it is empty. */
  datatype Desc = Scalar(v: Value) | Array(elem: nat, items: seq<Desc>)

  function TypeCode(d: Desc): nat {
    match d
    case Array(_, _) => TYPE_ARRAY
    case Scalar(v) =>
      match v
      case U8(_) => TYPE_UINT8 case I8(_) => TYPE_INT8 case U16(_) => TYPE_UINT16 case I16(_) => TYPE_INT16
      case U32(_) => TYPE_UINT32 case I32(_) => TYPE_INT32 case F32(_) => TYPE_FLOAT32 case Bool(_) => TYPE_BOOL
      case Str(_) => TYPE_STRING case U64(_) => TYPE_UINT64 case I64(_) => TYPE_INT64 case F64(_) => TYPE_FLOAT64
      case _ => TYPE_ARRAY
  }

  /** The value is in the range of its type. */
  predicate Fits(v: Value) {
    match v
    case U8(n) => n < Pow256(1) case I8(i) => FitsSigned(i, 1)
    case U16(n) => n < Pow256(2) case I16(i) => FitsSigned(i, 2)
    case U32(n) => n < Pow256(4) case I32(i) => FitsSigned(i, 4)
    case F32(n) => n < Pow256(4) case Bool(_) => true
    case Str(s) => |s| < Pow256(8)
    case U64(n) => n < Pow256(8) case I64(i) => FitsSigned(i, 8) case F64(n) => n < Pow256(8)
    case _ => false
  }

  ghost predicate WellFormed(d: Desc) {
    match d
    case Scalar(v) => Fits(v)
    case Array(elem, items) =>
      && elem < Pow256(4) && |items| < Pow256(8)
      && forall i :: 0 <= i < |items| ==> WellFormed(items[i]) && TypeCode(items[i]) == elem
  }

  /** What reading gives for a description. */
  function Image(d: Desc): Value {
    match d
    case Scalar(v) => v
    case Array(elem, items) => Pack(elem, Images(items))
  }

  function Images(items: seq<Desc>): seq<Value> {
    if items == [] then [] else [Image(items[0])] + Images(items[1..])
  }

  function EncodeString(s: Bytes): Bytes {
    Little(|s|, 8) + s
  }

  function EncodeScalar(v: Value): Bytes
    requires Fits(v)
  {
    match v
    case U8(n) => Little(n, 1) case I8(i) => Little(Unsigned(i, 1), 1)
    case U16(n) => Little(n, 2) case I16(i) => Little(Unsigned(i, 2), 2)
    case U32(n) => Little(n, 4) case I32(i) => Little(Unsigned(i, 4), 4)
    case F32(n) => Little(n, 4) case Bool(b) => Little(if b then 1 else 0, 1)
    case Str(s) => EncodeString(s)
    case U64(n) => Little(n, 8) case I64(i) => Little(Unsigned(i, 8), 8) case F64(n) => Little(n, 8)
  }

  ghost function EncodeValue(d: Desc): Bytes
    requires WellFormed(d)
    decreases d, 0
  {
    match d
    case Scalar(v) => EncodeScalar(v)
    case Array(elem, items) => Little(elem, 4) + (Little(|items|, 8) + EncodeItems(items))
  }

  ghost function EncodeItems(items: seq<Desc>): Bytes
    requires forall i :: 0 <= i < |items| ==> WellFormed(items[i])
    decreases items
  {
    if items == [] then [] else EncodeValue(items[0]) + EncodeItems(items[1..])
  }

  // ----- reading what stands at a position -----

  /** `b` stands in the data at `pos`. */
  ghost predicate At(data: Bytes, pos: nat, b: Bytes) {
    pos + |b| <= |data| && data[pos..pos + |b|] == b
  }

  lemma AtSplit(data: Bytes, pos: nat, a: Bytes, b: Bytes)
    requires At(data, pos, a + b)
    ensures At(data, pos, a) && At(data, pos + |a|, b)
  {
    assert data[pos..pos + |a|] == data[pos..pos + |a + b|][..|a|];
    assert data[pos + |a|..pos + |a| + |b|] == data[pos..pos + |a + b|][|a|..];
  }

  lemma NumberBack(data: Bytes, pos: nat, n: nat, k: nat)
    requires At(data, pos, Little(n, k)) && n < Pow256(k)
    ensures ReadNumber(data, pos, k) == Ok(Read(n, pos + k))
  {
    LittleRoundTrip(n, k);
  }

  lemma StringBack(data: Bytes, pos: nat, s: Bytes)
    requires At(data, pos, EncodeString(s)) && |data| < TWO_63
    ensures ReadString(data, pos) == Ok(Read(s, pos + |EncodeString(s)|))
  {
    hide Pow256, Little, ReadNumber;
    Powers();
    AtSplit(data, pos, Little(|s|, 8), s);
    NumberBack(data, pos, |s|, 8);
    NoWrap(pos + 8 + |s|);
  }

  lemma NoWrap(n: nat)
    requires n < TWO_63
    ensures n % TWO_64 == n
  {
  }

  lemma ScalarBack(data: Bytes, pos: nat, v: Value)
    requires Fits(v) && At(data, pos, EncodeScalar(v)) && |data| < TWO_63 && pos <= |data|
    ensures ReadValue(data, pos, TypeCode(Scalar(v))) == Ok(Read(v, pos + |EncodeScalar(v)|))
  {
    hide Little, ReadNumber, ReadString, EncodeString, Pow256, At;
    if v.Str? {
      StringBack(data, pos, v.s);
    } else {
      var n := Raw(v);
      RawEncoded(v);
      NumberBack(data, pos, n, Width(TypeCode(Scalar(v))));
    }
  }

  /** The number a fixed-size value is stored as. */
  function Raw(v: Value): nat
    requires Fits(v) && !v.Str?
  {
    match v
    case U8(n) => n case I8(i) => Unsigned(i, 1) case U16(n) => n case I16(i) => Unsigned(i, 2)
    case U32(n) => n case I32(i) => Unsigned(i, 4) case F32(n) => n case Bool(b) => if b then 1 else 0
    case U64(n) => n case I64(i) => Unsigned(i, 8) case F64(n) => n
  }

  lemma RawEncoded(v: Value)
    requires Fits(v) && !v.Str?
    ensures var vt := TypeCode(Scalar(v));
            && Width(vt) > 0 && EncodeScalar(v) == Little(Raw(v), Width(vt)) && Raw(v) < Pow256(Width(vt))
            && Interpret(vt, Raw(v)) == v
  {
    hide Little;
    Powers();
  }

  /** Reading an encoded value gives its image and moves the cursor by exactly the encoded length. */
  lemma {:induction false} ValueBack(d: Desc, data: Bytes, pos: nat)
    requires WellFormed(d) && At(data, pos, EncodeValue(d)) && |data| < TWO_63 && pos <= |data|
    ensures ReadValue(data, pos, TypeCode(d)) == Ok(Read(Image(d), pos + |EncodeValue(d)|))
    decreases d, 0
  {
    hide ReadNumber, Little, Pow256, At, Pack, ReadItems;
    match d {
      case Scalar(v) =>
        ScalarBack(data, pos, v);
      case Array(elem, items) =>
        var count, body := Little(|items|, 8), EncodeItems(items);
        AtSplit(data, pos, Little(elem, 4), count + body);
        NumberBack(data, pos, elem, 4);
        AtSplit(data, pos + 4, count, body);
        NumberBack(data, pos + 4, |items|, 8);
        AtInside(data, pos + 12, body);
        ItemsBack(elem, items, data, pos + 12);
    }
  }

  lemma AtInside(data: Bytes, pos: nat, b: Bytes)
    requires At(data, pos, b)
    ensures pos <= pos + |b| <= |data|
  {
  }

  lemma {:induction false} ItemsBack(elem: nat, items: seq<Desc>, data: Bytes, pos: nat)
    requires forall i :: 0 <= i < |items| ==> WellFormed(items[i]) && TypeCode(items[i]) == elem
    requires At(data, pos, EncodeItems(items)) && |data| < TWO_63 && pos <= |data|
    ensures ReadItems(data, pos, elem, |items|) == Ok(Read(Images(items), pos + |EncodeItems(items)|))
    decreases items
  {
    hide At, ReadValue, EncodeValue, Image, WellFormed, TypeCode;
    if items != [] {
      var first, rest := EncodeValue(items[0]), EncodeItems(items[1..]);
      AtSplit(data, pos, first, rest);
      ValueBack(items[0], data, pos);
      AtInside(data, pos + |first|, rest);
      ItemsBack(elem, items[1..], data, pos + |first|);
    }
  }

  // ----- whole files -----

  datatype KV = KV(key: Bytes, value: Desc)

  /** A tensor as a writer has it: its shape, its type and its bytes. */
  datatype TensorDesc = TensorDesc(name: Bytes, dims: seq<nat>, ty: nat, payload: Bytes)

  datatype FileDesc = FileDesc(version: nat, kvs: seq<KV>, tensors: seq<TensorDesc>)

  /** A line of the tensor table, with the place the layout gave the payload. */
  datatype Row = Row(name: Bytes, dims: seq<nat>, ty: nat, offset: nat)

  ghost predicate KVOk(kv: KV) {
    |kv.key| < Pow256(8) && WellFormed(kv.value)
  }

  ghost predicate RowOk(t: Row) {
    && |t.name| < Pow256(8) && |t.dims| < Pow256(4) && t.ty < Pow256(4) && t.offset < Pow256(8)
    && forall i :: 0 <= i < |t.dims| ==> t.dims[i] < Pow256(8)
  }

  /** Names and dimensions are in range, rows are whole blocks, and the payload has the size the
      format gives its type; the reader's size switch knows the type, or there are no elements. */
  ghost predicate TensorOk(t: TensorDesc) {
    && |t.name| < Pow256(8) && |t.dims| < Pow256(4)
    && (forall i :: 0 <= i < |t.dims| ==> t.dims[i] < Pow256(8))
    && GgmlTypes.Shaped(t.ty, t.dims) && (GgmlTypes.Handled(t.ty) || Product(t.dims) == 0)
    && |t.payload| == GgmlTypes.FormatSize(t.ty, t.dims)
  }

  ghost function EncodeKV(kv: KV): Bytes
    requires KVOk(kv)
  {
    EncodeString(kv.key) + (Little(TypeCode(kv.value), 4) + EncodeValue(kv.value))
  }

  ghost function EncodeKVs(kvs: seq<KV>): Bytes
    requires forall i :: 0 <= i < |kvs| ==> KVOk(kvs[i])
  {
    if kvs == [] then [] else EncodeKV(kvs[0]) + EncodeKVs(kvs[1..])
  }

  function EncodeDims(dims: seq<nat>): Bytes {
    if dims == [] then [] else Little(dims[0], 8) + EncodeDims(dims[1..])
  }

  function EncodeTensor(t: Row): Bytes {
    EncodeString(t.name) + (Little(|t.dims|, 4) + (EncodeDims(t.dims) + (Little(t.ty, 4) + Little(t.offset, 8))))
  }

  function EncodeTensors(ts: seq<Row>): Bytes {
    if ts == [] then [] else EncodeTensor(ts[0]) + EncodeTensors(ts[1..])
  }

  /** The metadata a reader ends up with. */
  function MetaOf(kvs: seq<KV>, meta: map<Bytes, Value>): map<Bytes, Value> {
    if kvs == [] then meta else MetaOf(kvs[1..], meta[kvs[0].key := Image(kvs[0].value)])
  }

  function InfoOf(t: Row, data: Bytes): TensorInfo {
    TensorInfo(t.name, t.dims, t.ty, t.offset, data)
  }

  function Table(ts: seq<Row>): (r: seq<TensorInfo>)
    ensures |r| == |ts|
  {
    seq(|ts|, i requires 0 <= i < |ts| => InfoOf(ts[i], []))
  }

  lemma {:induction false} KVsBack(kvs: seq<KV>, data: Bytes, pos: nat, meta: map<Bytes, Value>)
    requires forall i :: 0 <= i < |kvs| ==> KVOk(kvs[i])
    requires At(data, pos, EncodeKVs(kvs)) && |data| < TWO_63 && pos <= |data|
    ensures ReadKVs(data, pos, |kvs|, meta) == Ok(Read(MetaOf(kvs, meta), pos + |EncodeKVs(kvs)|))
    decreases |kvs|
  {
    hide At, ReadValue, ReadString, ReadNumber, EncodeValue, EncodeString, Image, WellFormed, TypeCode, Little, Pow256;
    if kvs != [] {
      var kv := kvs[0];
      assert KVOk(kv);
      var key, code, body := EncodeString(kv.key), Little(TypeCode(kv.value), 4), EncodeValue(kv.value);
      var rest := EncodeKVs(kvs[1..]);
      AtSplit(data, pos, EncodeKV(kv), rest);
      AtSplit(data, pos, key, code + body);
      AtSplit(data, pos + |key|, code, body);
      StringBack(data, pos, kv.key);
      CodeSmall(kv.value);
      NumberBack(data, pos + |key|, TypeCode(kv.value), 4);
      AtInside(data, pos + |key| + 4, body);
      ValueBack(kv.value, data, pos + |key| + 4);
      AtInside(data, pos + |EncodeKV(kv)|, rest);
      KVsBack(kvs[1..], data, pos + |EncodeKV(kv)|, meta[kv.key := Image(kv.value)]);
    }
  }

  lemma CodeSmall(d: Desc)
    ensures TypeCode(d) < Pow256(4)
  {
    Powers();
  }

  lemma {:induction false} DimsBack(dims: seq<nat>, data: Bytes, pos: nat, done: seq<nat>)
    requires forall i :: 0 <= i < |dims| ==> dims[i] < Pow256(8)
    requires At(data, pos, EncodeDims(dims)) && pos <= |data|
    ensures ReadDims(data, pos, |dims|, done) == Ok(Read(done + dims, pos + |EncodeDims(dims)|))
    decreases |dims|
  {
    hide At, ReadNumber, Little, Pow256;
    if dims == [] {
      assert done + dims == done;
    } else {
      AtSplit(data, pos, Little(dims[0], 8), EncodeDims(dims[1..]));
      NumberBack(data, pos, dims[0], 8);
      AtInside(data, pos + 8, EncodeDims(dims[1..]));
      DimsBack(dims[1..], data, pos + 8, done + [dims[0]]);
      assert (done + [dims[0]]) + dims[1..] == done + dims;
    }
  }

  lemma TensorBack(t: Row, data: Bytes, pos: nat)
    requires RowOk(t) && At(data, pos, EncodeTensor(t)) && |data| < TWO_63 && pos <= |data|
    ensures ReadTensor(data, pos) == Ok(Read(InfoOf(t, []), pos + |EncodeTensor(t)|))
  {
    hide At, ReadString, ReadNumber, ReadDims, EncodeString, EncodeDims, Little, Pow256;
    var name, n, dims := EncodeString(t.name), Little(|t.dims|, 4), EncodeDims(t.dims);
    var ty, offset := Little(t.ty, 4), Little(t.offset, 8);
    AtSplit(data, pos, name, n + (dims + (ty + offset)));
    StringBack(data, pos, t.name);
    var p := pos + |name|;
    AtSplit(data, p, n, dims + (ty + offset));
    NumberBack(data, p, |t.dims|, 4);
    AtSplit(data, p + 4, dims, ty + offset);
    AtInside(data, p + 4, dims);
    DimsBack(t.dims, data, p + 4, []);
    assert [] + t.dims == t.dims;
    var q := p + 4 + |dims|;
    AtSplit(data, q, ty, offset);
    NumberBack(data, q, t.ty, 4);
    NumberBack(data, q + 4, t.offset, 8);
  }

  lemma {:induction false} TensorsBack(ts: seq<Row>, data: Bytes, pos: nat, done: seq<TensorInfo>)
    requires forall i :: 0 <= i < |ts| ==> RowOk(ts[i])
    requires At(data, pos, EncodeTensors(ts)) && |data| < TWO_63 && pos <= |data|
    ensures ReadTensors(data, pos, |ts|, done) == Ok(Read(done + Table(ts), pos + |EncodeTensors(ts)|))
    decreases |ts|
  {
    hide At, ReadTensor, EncodeTensor, RowOk;
    if ts == [] {
      assert done + Table(ts) == done;
    } else {
      AtSplit(data, pos, EncodeTensor(ts[0]), EncodeTensors(ts[1..]));
      TensorBack(ts[0], data, pos);
      AtInside(data, pos + |EncodeTensor(ts[0])|, EncodeTensors(ts[1..]));
      TensorsBack(ts[1..], data, pos + |EncodeTensor(ts[0])|, done + [InfoOf(ts[0], [])]);
      assert Table(ts) == [InfoOf(ts[0], [])] + Table(ts[1..]);
      assert (done + [InfoOf(ts[0], [])]) + Table(ts[1..]) == done + Table(ts);
    }
  }

  // ----- the data section -----

  function Zeros(n: nat): (z: Bytes)
    ensures |z| == n
  {
    seq(n, i => 0)
  }

  /** Where the payload behind one of `size` bytes at `at` starts. */
  function Next(at: nat, size: nat, alignment: nat): (n: nat)
    requires alignment > 0
    ensures n >= at + size
  {
    Align(at + size, alignment)
  }

  /** Payloads one behind the other, each padded with zeros to the alignment. */
  function Lay(ts: seq<TensorDesc>, alignment: nat, at: nat): Bytes
    requires alignment > 0
  {
    if ts == [] then []
    else
      var p := ts[0].payload;
      var next := Next(at, |p|, alignment);
      p + (Zeros(next - at - |p|) + Lay(ts[1..], alignment, next))
  }

  /** The tensor table of that layout. */
  function Rows(ts: seq<TensorDesc>, alignment: nat, at: nat): (r: seq<Row>)
    requires alignment > 0
    ensures |r| == |ts|
  {
    if ts == [] then []
    else [Row(ts[0].name, ts[0].dims, ts[0].ty, at)] + Rows(ts[1..], alignment, Next(at, |ts[0].payload|, alignment))
  }

  /** What a line of the table and its tensor have in common, and where the payload stands. */
  ghost predicate Placed(data: Bytes, base: nat, row: Row, t: TensorDesc) {
    && row.name == t.name && row.dims == t.dims && row.ty == t.ty
    && At(data, base + row.offset, t.payload)
  }

  ghost predicate AllPlaced(data: Bytes, base: nat, rows: seq<Row>, ts: seq<TensorDesc>) {
    |rows| == |ts| && forall k :: 0 <= k < |ts| ==> Placed(data, base, rows[k], ts[k])
  }

  lemma {:induction false} LayoutPlaces(ts: seq<TensorDesc>, alignment: nat, at: nat, data: Bytes, base: nat)
    requires alignment > 0 && At(data, base + at, Lay(ts, alignment, at))
    ensures AllPlaced(data, base, Rows(ts, alignment, at), ts)
    decreases |ts|
  {
    hide At, Next;
    if ts != [] {
      var p := ts[0].payload;
      var next := Next(at, |p|, alignment);
      var pad, rest := Zeros(next - at - |p|), Lay(ts[1..], alignment, next);
      AtSplit(data, base + at, p, pad + rest);
      AtSplit(data, base + at + |p|, pad, rest);
      LayoutPlaces(ts[1..], alignment, next, data, base);
    }
  }

  /** Every payload starts at a multiple of the alignment. */
  lemma {:induction false} RowsAligned(ts: seq<TensorDesc>, alignment: nat, at: nat)
    requires alignment > 0 && at % alignment == 0
    ensures forall k :: 0 <= k < |ts| ==> Rows(ts, alignment, at)[k].offset % alignment == 0
    decreases |ts|
  {
    if ts != [] {
      var next := Next(at, |ts[0].payload|, alignment);
      AlignLeast(at + |ts[0].payload|, alignment);
      RowsAligned(ts[1..], alignment, next);
    }
  }

  /** The table with each tensor's own bytes. */
  function Filled(rows: seq<Row>, ts: seq<TensorDesc>): (r: seq<TensorInfo>)
    requires |rows| == |ts|
    ensures |r| == |ts|
  {
    seq(|ts|, i requires 0 <= i < |ts| => InfoOf(rows[i], ts[i].payload))
  }

  lemma PlacedIsOk(data: Bytes, base: nat, row: Row, t: TensorDesc)
    requires Placed(data, base, row, t) && TensorOk(t) && |data| < TWO_63
    ensures RowOk(row)
  {
    Powers();
    AtInside(data, base + row.offset, t.payload);
  }

  /** A placed payload is what the slice of its line is, if the computed size is its length. */
  lemma SliceBack(row: Row, t: TensorDesc, data: Bytes, base: nat)
    requires Placed(data, base, row, t) && |data| < TWO_63
    requires TensorByteSize(t.ty, t.dims) == |t.payload|
    ensures Slice(data, base, InfoOf(row, [])) == Ok(t.payload)
  {
    hide TensorByteSize;
    NoWrap(base + row.offset);
    NoWrap(base + row.offset + |t.payload|);
  }

  /** Over all declared types: the slice of a placed payload is that payload exactly when the size
      switch knows the type or the tensor has no elements. */
  lemma SliceBackIff(row: Row, t: TensorDesc, data: Bytes, base: nat)
    requires Placed(data, base, row, t) && |data| < TWO_63
    requires GgmlTypes.Shaped(t.ty, t.dims)
    requires |t.payload| == GgmlTypes.FormatSize(t.ty, t.dims)
    ensures Slice(data, base, InfoOf(row, [])) == Ok(t.payload) <==> GgmlTypes.Handled(t.ty) || Product(t.dims) == 0
  {
    hide GgmlTypes.FormatSize, GgmlTypes.Handled, GgmlTypes.Shaped, Product;
    AtInside(data, base + row.offset, t.payload);
    GgmlTypes.SizeAgreesIff(t.ty, t.dims);
    if TensorByteSize(t.ty, t.dims) == |t.payload| {
      SliceBack(row, t, data, base);
    } else {
      SliceLength(data, base, InfoOf(row, []));
    }
  }

  lemma SliceLength(data: Bytes, base: nat, t: TensorInfo)
    requires |data| < TWO_63 && TensorByteSize(t.ty, t.dims) < TWO_64
    ensures Slice(data, base, t).Ok? ==> |Slice(data, base, t).value| == TensorByteSize(t.ty, t.dims)
  {
    hide TensorByteSize;
  }

  lemma {:induction false} SlicesBack(ts: seq<TensorDesc>, rows: seq<Row>, data: Bytes, base: nat, table: seq<TensorInfo>, i: nat)
    requires AllPlaced(data, base, rows, ts) && |data| < TWO_63 && i <= |ts| == |table|
    requires forall k :: 0 <= k < |ts| ==> TensorOk(ts[k])
    requires forall k :: 0 <= k < |ts| ==> table[k] == if k < i then Filled(rows, ts)[k] else InfoOf(rows[k], [])
    ensures SliceAll(data, base, table, i) == Ok(Filled(rows, ts))
    decreases |ts| - i
  {
    hide Placed, TensorOk, Slice;
    if i == |ts| {
      assert table == Filled(rows, ts);
    } else {
      OneSlice(ts[i], rows[i], data, base);
      var s := Slice(data, base, table[i]);
      SlicesBack(ts, rows, data, base, table[i := table[i].(data := s.value)], i + 1);
    }
  }

  lemma OneSlice(t: TensorDesc, row: Row, data: Bytes, base: nat)
    requires Placed(data, base, row, t) && TensorOk(t) && |data| < TWO_63
    ensures Slice(data, base, InfoOf(row, [])) == Ok(t.payload)
  {
    hide Slice, GgmlTypes.FormatSize, Product;
    SliceBackIff(row, t, data, base);
  }

  // ----- the file -----

  ghost predicate FileOk(d: FileDesc) {
    && 2 <= d.version <= 3
    && |d.kvs| < Pow256(8) && (forall i :: 0 <= i < |d.kvs| ==> KVOk(d.kvs[i]))
    && |d.tensors| < Pow256(8) && (forall i :: 0 <= i < |d.tensors| ==> TensorOk(d.tensors[i]))
    && Alignment(MetaOf(d.kvs, map[])) > 0
  }

  ghost function AlignmentOf(d: FileDesc): (n: nat)
    requires FileOk(d)
    ensures n > 0
  {
    Alignment(MetaOf(d.kvs, map[]))
  }

  ghost function TableRows(d: FileDesc): (r: seq<Row>)
    requires FileOk(d)
    ensures |r| == |d.tensors|
  {
    Rows(d.tensors, AlignmentOf(d), 0)
  }

  ghost function Head(d: FileDesc): Bytes
    requires FileOk(d)
  {
    Little(GGUF_MAGIC, 4) + (Little(d.version, 4) + (Little(|d.tensors|, 8) + (Little(|d.kvs|, 8)
      + (EncodeKVs(d.kvs) + EncodeTensors(TableRows(d))))))
  }

  /** Where the data section starts: the head, padded to the alignment. */
  ghost function DataOffset(d: FileDesc): (n: nat)
    requires FileOk(d)
    ensures n >= |Head(d)|
  {
    Align(|Head(d)|, AlignmentOf(d))
  }

  ghost function Encode(d: FileDesc): Bytes
    requires FileOk(d)
  {
    Head(d) + (Zeros(DataOffset(d) - |Head(d)|) + Lay(d.tensors, AlignmentOf(d), 0))
  }

  lemma HeadBack(d: FileDesc, data: Bytes)
    requires FileOk(d) && At(data, 0, Head(d)) && |data| < TWO_63
    ensures |data| >= 24
    ensures Parse(data) == ParseBody(data, d.version, |d.tensors|, |d.kvs|)
    ensures At(data, 24, EncodeKVs(d.kvs) + EncodeTensors(TableRows(d)))
    ensures |Head(d)| == 24 + |EncodeKVs(d.kvs)| + |EncodeTensors(TableRows(d))|
  {
    hide At, ReadNumber, Little, Pow256, EncodeKVs, EncodeTensors, KVOk, TensorOk, MetaOf, ParseBody, TableRows;
    Powers();
    var body := EncodeKVs(d.kvs) + EncodeTensors(TableRows(d));
    var k, t, v := Little(|d.kvs|, 8), Little(|d.tensors|, 8), Little(d.version, 4);
    AtSplit(data, 0, Little(GGUF_MAGIC, 4), v + (t + (k + body)));
    NumberBack(data, 0, GGUF_MAGIC, 4);
    AtSplit(data, 4, v, t + (k + body));
    NumberBack(data, 4, d.version, 4);
    AtSplit(data, 8, t, k + body);
    NumberBack(data, 8, |d.tensors|, 8);
    AtSplit(data, 16, k, body);
    NumberBack(data, 16, |d.kvs|, 8);
    AtInside(data, 24, body);
  }

  lemma RowsOk(d: FileDesc, data: Bytes, base: nat)
    requires FileOk(d) && AllPlaced(data, base, TableRows(d), d.tensors) && |data| < TWO_63
    ensures forall k :: 0 <= k < |d.tensors| ==> RowOk(TableRows(d)[k])
  {
    hide Placed, TensorOk, RowOk, TableRows;
    forall k | 0 <= k < |d.tensors|
      ensures RowOk(TableRows(d)[k])
    {
      PlacedIsOk(data, base, TableRows(d)[k], d.tensors[k]);
    }
  }

  /** What parsing returns for a description. */
  ghost function ContentsOf(d: FileDesc): Contents
    requires FileOk(d)
  {
    Contents(d.version, |d.tensors|, |d.kvs|, MetaOf(d.kvs, map[]), Filled(TableRows(d), d.tensors),
             Index(Table(TableRows(d))), DataOffset(d))
  }

  lemma BodyBack(d: FileDesc, data: Bytes)
    requires FileOk(d) && |data| < TWO_63 && |data| >= 24
    requires At(data, 24, EncodeKVs(d.kvs) + EncodeTensors(TableRows(d)))
    requires |Head(d)| == 24 + |EncodeKVs(d.kvs)| + |EncodeTensors(TableRows(d))|
    requires DataOffset(d) <= |data| && AllPlaced(data, DataOffset(d), TableRows(d), d.tensors)
    ensures ParseBody(data, d.version, |d.tensors|, |d.kvs|) == Ok(ContentsOf(d))
  {
    hide At, Head, EncodeKVs, EncodeTensors, KVOk, TensorOk, RowOk, AllPlaced, MetaOf, Alignment, Align, Filled, Table, Index, Pow256;
    hide ReadKVs, ReadTensors, SliceAll, TableRows;
    var kvs, rows := EncodeKVs(d.kvs), TableRows(d);
    AtSplit(data, 24, kvs, EncodeTensors(rows));
    AtInside(data, 24, kvs);
    KVsBack(d.kvs, data, 24, map[]);
    AtInside(data, 24 + |kvs|, EncodeTensors(rows));
    RowsOk(d, data, DataOffset(d));
    TensorsBack(rows, data, 24 + |kvs|, []);
    assert [] + Table(rows) == Table(rows);
    NoWrap(DataOffset(d));
    TableOf(rows);
    SlicesBack(d.tensors, rows, data, DataOffset(d), Table(rows), 0);
  }

  lemma TableOf(rows: seq<Row>)
    ensures forall k :: 0 <= k < |rows| ==> Table(rows)[k] == InfoOf(rows[k], [])
  {
  }

  /** Parsing an encoded file returns what was described: header counts, metadata, tensor table,
      name index, data offset, and for each tensor its payload. */
  lemma ParseInvertsEncode(d: FileDesc)
    requires FileOk(d) && |Encode(d)| < TWO_63
    ensures Parse(Encode(d)) == Ok(ContentsOf(d))
    ensures forall k :: 0 <= k < |d.tensors| ==>
              && ContentsOf(d).tensors[k].name == d.tensors[k].name
              && ContentsOf(d).tensors[k].dims == d.tensors[k].dims
              && ContentsOf(d).tensors[k].ty == d.tensors[k].ty
              && ContentsOf(d).tensors[k].data == d.tensors[k].payload
              && ContentsOf(d).tensors[k].offset % AlignmentOf(d) == 0
    ensures DataOffset(d) % AlignmentOf(d) == 0
    ensures forall k: nat :: k * AlignmentOf(d) >= |Head(d)| ==> k * AlignmentOf(d) >= DataOffset(d)
  {
    hide Head, FileOk, Alignment, MetaOf, Align, Parse, ParseBody, Table, Index, Lay, Rows;
    var data, pad, lay := Encode(d), Zeros(DataOffset(d) - |Head(d)|), Lay(d.tensors, AlignmentOf(d), 0);
    assert At(data, 0, data) by { assert data[0..|data|] == data; }
    AtSplit(data, 0, Head(d), pad + lay);
    AtSplit(data, |Head(d)|, pad, lay);
    LayoutPlaces(d.tensors, AlignmentOf(d), 0, data, DataOffset(d));
    HeadBack(d, data);
    BodyBack(d, data);
    RowsAligned(d.tensors, AlignmentOf(d), 0);
    AlignLeast(|Head(d)|, AlignmentOf(d));
  }

  /** The parser class on an encoded file. */
  method WriteThenRead(d: FileDesc, data: Bytes) returns (f: File)
    requires FileOk(d) && data == Encode(d) && |data| < TWO_63
    ensures fresh(f) && f.View() == ContentsOf(d)
    ensures forall k :: 0 <= k < |d.tensors| ==> f.tensors[k].data == d.tensors[k].payload
  {
    hide FileOk, Encode, Parse, ContentsOf;
    ParseInvertsEncode(d);
    f := new File(data);
    var error := f.ParseAll();
    assert f.View().tensors == f.tensors;
  }
}
