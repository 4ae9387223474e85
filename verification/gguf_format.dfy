/** What the metadata reader makes of bytes: typed values, nested arrays, errors. */
module GgufFormat {
  import opened Octets

  type Bytes = seq<Octet>

  datatype Error =
    | UnexpectedEOF
    | UnknownType(vt: nat)
    | BadMagic
    | BadVersion
    | DataOutOfRange
    | Panicked           // a runtime panic: slice bounds, division by zero

  datatype Result<+T> = Ok(value: T) | Err(error: Error)

  const TYPE_UINT8 := 0
  const TYPE_INT8 := 1
  const TYPE_UINT16 := 2
  const TYPE_INT16 := 3
  const TYPE_UINT32 := 4
  const TYPE_INT32 := 5
  const TYPE_FLOAT32 := 6
  const TYPE_BOOL := 7
  const TYPE_STRING := 8
  const TYPE_ARRAY := 9
  const TYPE_UINT64 := 10
  const TYPE_INT64 := 11
  const TYPE_FLOAT64 := 12

  /** A value as the reader returns it; floats by their bits. */
  datatype Value =
    | U8(n: nat) | I8(i: int) | U16(n: nat) | I16(i: int) | U32(n: nat) | I32(i: int)
    | F32(bits: nat) | Bool(b: bool) | Str(s: Bytes) | U64(n: nat) | I64(i: int) | F64(bits: nat)
    | StrArray(strings: seq<Bytes>) | F32Array(floats: seq<nat>) | I32Array(ints: seq<int>) | AnyArray(items: seq<Value>)

  /** A value and the cursor behind it. */
  datatype Read<+T> = Read(value: T, pos: nat)

  /** The bytes of a fixed-size type, 0 for the others. */
  function Width(vt: nat): nat {
    if vt == TYPE_UINT8 || vt == TYPE_INT8 || vt == TYPE_BOOL then 1
    else if vt == TYPE_UINT16 || vt == TYPE_INT16 then 2
    else if vt == TYPE_UINT32 || vt == TYPE_INT32 || vt == TYPE_FLOAT32 then 4
    else if vt == TYPE_UINT64 || vt == TYPE_INT64 || vt == TYPE_FLOAT64 then 8
    else 0
  }

  function Interpret(vt: nat, n: nat): Value
    requires Width(vt) > 0
  {
    if vt == TYPE_UINT8 then U8(n) else if vt == TYPE_INT8 then I8(Signed(n, 1))
    else if vt == TYPE_UINT16 then U16(n) else if vt == TYPE_INT16 then I16(Signed(n, 2))
    else if vt == TYPE_UINT32 then U32(n) else if vt == TYPE_INT32 then I32(Signed(n, 4))
    else if vt == TYPE_FLOAT32 then F32(n) else if vt == TYPE_BOOL then Bool(n != 0)
    else if vt == TYPE_UINT64 then U64(n) else if vt == TYPE_INT64 then I64(Signed(n, 8))
    else F64(n)
  }

  function ReadNumber(data: Bytes, pos: nat, k: nat): (r: Result<Read<nat>>)
    ensures r.Ok? ==> r.value.pos == pos + k <= |data| && r.value.value < Pow256(k)
  {
    if pos + k > |data| then Err(UnexpectedEOF)
    else
      NumberBound(data[pos..pos + k]);
      Ok(Read(Number(data[pos..pos + k]), pos + k))
  }

  /** The length test adds in 64 bits; a length that wraps around passes it and then the slice panics. */
  function ReadString(data: Bytes, pos: nat): (r: Result<Read<Bytes>>)
    ensures r.Ok? ==> pos + 8 <= r.value.pos <= |data|
  {
    var length := ReadNumber(data, pos, 8);
    if length.Err? then Err(length.error)
    else
      var from := length.value.pos;
      var end := (from + length.value.value) % TWO_64;
      if end > |data| then Err(UnexpectedEOF)
      else if end < from then Err(Panicked)
      else Ok(Read(data[from..end], end))
  }

  /** Strings, 32-bit floats and 32-bit integers get typed arrays, everything else a general one. */
  function Pack(elem: nat, items: seq<Value>): Value {
    if elem == TYPE_STRING && (forall v :: v in items ==> v.Str?)
    then StrArray(seq(|items|, i requires 0 <= i < |items| => if items[i].Str? then items[i].s else []))
    else if elem == TYPE_FLOAT32 && (forall v :: v in items ==> v.F32?)
    then F32Array(seq(|items|, i requires 0 <= i < |items| => if items[i].F32? then items[i].bits else 0))
    else if elem == TYPE_INT32 && (forall v :: v in items ==> v.I32?)
    then I32Array(seq(|items|, i requires 0 <= i < |items| => if items[i].I32? then items[i].i else 0))
    else AnyArray(items)
  }

  /** One value of a type. Every success moves the cursor, so recursion ends with the bytes. */
  function ReadValue(data: Bytes, pos: nat, vt: nat): (r: Result<Read<Value>>)
    requires pos <= |data|
    ensures r.Ok? ==> pos < r.value.pos <= |data|
    decreases |data| - pos, 0
  {
    if Width(vt) > 0 then
      var n := ReadNumber(data, pos, Width(vt));
      if n.Err? then Err(n.error) else Ok(Read(Interpret(vt, n.value.value), n.value.pos))
    else if vt == TYPE_STRING then
      var s := ReadString(data, pos);
      if s.Err? then Err(s.error) else Ok(Read(Str(s.value.value), s.value.pos))
    else if vt == TYPE_ARRAY then
      var elem := ReadNumber(data, pos, 4);
      if elem.Err? then Err(elem.error)
      else
        var count := ReadNumber(data, elem.value.pos, 8);
        if count.Err? then Err(count.error)
        else
          var items := ReadItems(data, count.value.pos, elem.value.value, count.value.value);
          if items.Err? then Err(items.error)
          else Ok(Read(Pack(elem.value.value, items.value.value), items.value.pos))
    else Err(UnknownType(vt))
  }

  function ReadItems(data: Bytes, pos: nat, elem: nat, count: nat): (r: Result<Read<seq<Value>>>)
    requires pos <= |data|
    ensures r.Ok? ==> pos <= r.value.pos <= |data| && |r.value.value| == count
    decreases |data| - pos, 1
  {
    if count == 0 then Ok(Read([], pos))
    else
      var first := ReadValue(data, pos, elem);
      if first.Err? then Err(first.error)
      else
        var rest := ReadItems(data, first.value.pos, elem, count - 1);
        if rest.Err? then Err(rest.error)
        else Ok(Read([first.value.value] + rest.value.value, rest.value.pos))
  }

  /** What has been read, followed by what is still to come. */
  function After(done: seq<Value>, rest: Result<Read<seq<Value>>>): Result<Read<seq<Value>>> {
    if rest.Err? then rest else Ok(Read(done + rest.value.value, rest.value.pos))
  }
}
