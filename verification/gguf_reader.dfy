/** The cursor that walks over a file, and the recursive value reader on top of it. */
module GgufReader {
  import opened Octets
  import opened GgufFormat

  /** A spec result without its cursor. */
  function Plain<T>(r: Result<Read<T>>): Result<T> {
    if r.Err? then Err(r.error) else Ok(r.value.value)
  }

  class Reader {
    const data: Bytes
    var pos: nat

    constructor (data: Bytes)
      requires |data| < TWO_63
      ensures Valid() && this.data == data && pos == 0
    {
      this.data := data;
      pos := 0;
    }

    ghost predicate Valid()
      reads this
    {
      pos <= |data| < TWO_63
    }

    /** The shared form of the fixed-size reads: the bytes are there or nothing is consumed. */
    method ReadLittle(k: nat) returns (r: Result<nat>)
      requires Valid()
      modifies this`pos
      ensures Valid() && r == Plain(ReadNumber(data, old(pos), k))
      ensures pos == if r.Ok? then old(pos) + k else old(pos)
    {
      if pos + k > |data| {
        return Err(UnexpectedEOF);
      }
      var v := Number(data[pos..pos + k]);
      pos := pos + k;
      return Ok(v);
    }

    method ReadUint32() returns (r: Result<nat>)
      requires Valid()
      modifies this`pos
      ensures Valid() && r == Plain(ReadNumber(data, old(pos), 4))
      ensures pos == if r.Ok? then old(pos) + 4 else old(pos)
    {
      r := ReadLittle(4);
    }

    method ReadUint64() returns (r: Result<nat>)
      requires Valid()
      modifies this`pos
      ensures Valid() && r == Plain(ReadNumber(data, old(pos), 8))
      ensures pos == if r.Ok? then old(pos) + 8 else old(pos)
    {
      r := ReadLittle(8);
    }

    method ReadStr() returns (r: Result<Bytes>)
      requires Valid()
      modifies this`pos
      ensures Valid() && r == Plain(ReadString(data, old(pos)))
      ensures r.Ok? ==> pos == ReadString(data, old(pos)).value.pos
    {
      var length := ReadUint64();
      if length.Err? {
        return Err(length.error);
      }
      var end := (pos + length.value) % TWO_64;
      if end > |data| {
        return Err(UnexpectedEOF);
      }
      if end < pos {
        return Err(Panicked);
      }
      var s := data[pos..end];
      pos := end;
      return Ok(s);
    }

    method ReadFixed(vt: nat) returns (r: Result<Value>)
      requires Valid() && Width(vt) > 0
      modifies this`pos
      ensures Valid() && r == Plain(ReadValue(data, old(pos), vt))
      ensures r.Ok? ==> pos == ReadValue(data, old(pos), vt).value.pos
    {
      var n := ReadLittle(Width(vt));
      if n.Err? {
        return Err(n.error);
      }
      return Ok(Interpret(vt, n.value));
    }

    method ReadVal(vt: nat) returns (r: Result<Value>)
      requires Valid()
      modifies this`pos
      ensures Valid() && r == Plain(ReadValue(data, old(pos), vt))
      ensures r.Ok? ==> pos == ReadValue(data, old(pos), vt).value.pos
      decreases |data| - pos, 1
    {
      hide Interpret, Pack;
      if Width(vt) > 0 {
        r := ReadFixed(vt);
        return;
      }
      if vt == TYPE_STRING {
        var s := ReadStr();
        return if s.Err? then Err(s.error) else Ok(Str(s.value));
      }
      if vt == TYPE_ARRAY {
        var elemType := ReadUint32();
        if elemType.Err? {
          return Err(elemType.error);
        }
        var count := ReadUint64();
        if count.Err? {
          return Err(count.error);
        }
        if elemType.value == TYPE_STRING {
          r := ReadStrings(count.value);
        } else if elemType.value == TYPE_FLOAT32 {
          r := ReadFloats(count.value);
        } else if elemType.value == TYPE_INT32 {
          r := ReadInts(count.value);
        } else {
          var items := ReadMany(elemType.value, count.value);
          r := if items.Err? then Err(items.error) else Ok(AnyArray(items.value));
          PackAny(elemType.value);
        }
        return;
      }
      return Err(UnknownType(vt));
    }

    /** The general array loop. */
    method ReadMany(elemType: nat, count: nat) returns (r: Result<seq<Value>>)
      requires Valid()
      modifies this`pos
      ensures Valid() && r == Plain(ReadItems(data, old(pos), elemType, count))
      ensures r.Ok? ==> pos == ReadItems(data, old(pos), elemType, count).value.pos
      decreases |data| - pos, 2
    {
      hide ReadItems, ReadValue, After;
      var arr: seq<Value> := [];
      AfterNothing(ReadItems(data, pos, elemType, count));
      for i := 0 to count
        invariant Valid() && old(pos) <= pos
        invariant ReadItems(data, old(pos), elemType, count) == After(arr, ReadItems(data, pos, elemType, count - i))
      {
        ghost var at := pos;
        var v := ReadVal(elemType);
        AfterOne(data, at, elemType, count - i, arr);
        if v.Err? {
          return Err(v.error);
        }
        arr := arr + [v.value];
      }
      AfterAll(data, pos, elemType, arr);
      return Ok(arr);
    }

    /** The loop specialised to strings. */
    method ReadStrings(count: nat) returns (r: Result<Value>)
      requires Valid()
      modifies this`pos
      ensures Valid()
      ensures var items := ReadItems(data, old(pos), TYPE_STRING, count);
              if items.Err? then r == Err(items.error)
              else r == Ok(Pack(TYPE_STRING, items.value.value)) && pos == items.value.pos
    {
      hide ReadItems, Pack, After, ReadString;
      var arr: seq<Bytes> := [];
      ghost var vals: seq<Value> := [];
      AfterNothing(ReadItems(data, pos, TYPE_STRING, count));
      for i := 0 to count
        invariant Valid() && |arr| == |vals| == i
        invariant forall j :: 0 <= j < i ==> vals[j] == Str(arr[j])
        invariant ReadItems(data, old(pos), TYPE_STRING, count) == After(vals, ReadItems(data, pos, TYPE_STRING, count - i))
      {
        ghost var at := pos;
        var s := ReadStr();
        AfterOne(data, at, TYPE_STRING, count - i, vals);
        if s.Err? {
          return Err(s.error);
        }
        arr := arr + [s.value];
        vals := vals + [Str(s.value)];
      }
      AfterAll(data, pos, TYPE_STRING, vals);
      PackStrings(vals, arr);
      return Ok(StrArray(arr));
    }

    /** The loop specialised to 32-bit floats. */
    method ReadFloats(count: nat) returns (r: Result<Value>)
      requires Valid()
      modifies this`pos
      ensures Valid()
      ensures var items := ReadItems(data, old(pos), TYPE_FLOAT32, count);
              if items.Err? then r == Err(items.error)
              else r == Ok(Pack(TYPE_FLOAT32, items.value.value)) && pos == items.value.pos
    {
      hide ReadItems, Pack, After, ReadString;
      var arr: seq<nat> := [];
      ghost var vals: seq<Value> := [];
      AfterNothing(ReadItems(data, pos, TYPE_FLOAT32, count));
      for i := 0 to count
        invariant Valid() && |arr| == |vals| == i
        invariant forall j :: 0 <= j < i ==> vals[j] == F32(arr[j])
        invariant ReadItems(data, old(pos), TYPE_FLOAT32, count) == After(vals, ReadItems(data, pos, TYPE_FLOAT32, count - i))
      {
        ghost var at := pos;
        var v := ReadUint32();
        AfterOne(data, at, TYPE_FLOAT32, count - i, vals);
        if v.Err? {
          return Err(v.error);
        }
        arr := arr + [v.value];
        vals := vals + [F32(v.value)];
      }
      AfterAll(data, pos, TYPE_FLOAT32, vals);
      PackFloats(vals, arr);
      return Ok(F32Array(arr));
    }

    /** The loop specialised to 32-bit integers. */
    method ReadInts(count: nat) returns (r: Result<Value>)
      requires Valid()
      modifies this`pos
      ensures Valid()
      ensures var items := ReadItems(data, old(pos), TYPE_INT32, count);
              if items.Err? then r == Err(items.error)
              else r == Ok(Pack(TYPE_INT32, items.value.value)) && pos == items.value.pos
    {
      hide ReadItems, Pack, After, ReadString;
      var arr: seq<int> := [];
      ghost var vals: seq<Value> := [];
      AfterNothing(ReadItems(data, pos, TYPE_INT32, count));
      for i := 0 to count
        invariant Valid() && |arr| == |vals| == i
        invariant forall j :: 0 <= j < i ==> vals[j] == I32(arr[j])
        invariant ReadItems(data, old(pos), TYPE_INT32, count) == After(vals, ReadItems(data, pos, TYPE_INT32, count - i))
      {
        ghost var at := pos;
        var v := ReadUint32();
        AfterOne(data, at, TYPE_INT32, count - i, vals);
        if v.Err? {
          return Err(v.error);
        }
        arr := arr + [Signed(v.value, 4)];
        vals := vals + [I32(Signed(v.value, 4))];
      }
      AfterAll(data, pos, TYPE_INT32, vals);
      PackInts(vals, arr);
      return Ok(I32Array(arr));
    }
  }

  lemma AfterNothing(r: Result<Read<seq<Value>>>)
    ensures After([], r) == r
  {
    if r.Ok? {
      assert [] + r.value.value == r.value.value;
    }
  }

  lemma AfterAll(data: Bytes, pos: nat, elem: nat, done: seq<Value>)
    requires pos <= |data|
    ensures After(done, ReadItems(data, pos, elem, 0)) == Ok(Read(done, pos))
  {
    assert done + [] == done;
  }

  /** One more item: either it fails and so does the whole, or it joins what has been read. */
  lemma AfterOne(data: Bytes, pos: nat, elem: nat, count: nat, done: seq<Value>)
    requires pos <= |data| && count > 0
    ensures var v := ReadValue(data, pos, elem);
            After(done, ReadItems(data, pos, elem, count)) ==
            if v.Err? then Err(v.error)
            else After(done + [v.value.value], ReadItems(data, v.value.pos, elem, count - 1))
  {
    hide ReadValue;
    var v := ReadValue(data, pos, elem);
    if v.Ok? {
      var rest := ReadItems(data, v.value.pos, elem, count - 1);
      if rest.Ok? {
        assert done + ([v.value.value] + rest.value.value) == (done + [v.value.value]) + rest.value.value;
      }
    }
  }

  lemma PackAny(elem: nat)
    requires elem != TYPE_STRING && elem != TYPE_FLOAT32 && elem != TYPE_INT32
    ensures forall items :: Pack(elem, items) == AnyArray(items)
  {
  }

  lemma PackStrings(vals: seq<Value>, arr: seq<Bytes>)
    requires |vals| == |arr| && forall j :: 0 <= j < |vals| ==> vals[j] == Str(arr[j])
    ensures Pack(TYPE_STRING, vals) == StrArray(arr)
  {
    assert arr == seq(|vals|, i requires 0 <= i < |vals| => if vals[i].Str? then vals[i].s else []);
  }

  lemma PackFloats(vals: seq<Value>, arr: seq<nat>)
    requires |vals| == |arr| && forall j :: 0 <= j < |vals| ==> vals[j] == F32(arr[j])
    ensures Pack(TYPE_FLOAT32, vals) == F32Array(arr)
  {
    assert arr == seq(|vals|, i requires 0 <= i < |vals| => if vals[i].F32? then vals[i].bits else 0);
  }

  lemma PackInts(vals: seq<Value>, arr: seq<int>)
    requires |vals| == |arr| && forall j :: 0 <= j < |vals| ==> vals[j] == I32(arr[j])
    ensures Pack(TYPE_INT32, vals) == I32Array(arr)
  {
    assert arr == seq(|vals|, i requires 0 <= i < |vals| => if vals[i].I32? then vals[i].i else 0);
  }
}
