/** Header, metadata, tensor table and data slices of a file. */
module GgufFile {
  import Machine
  import opened Octets
  import opened GgufFormat
  import opened GgufReader

  const GGUF_MAGIC: nat := 0x46554747
  const DEFAULT_ALIGNMENT: nat := 32
  const ALIGNMENT_KEY: Bytes := [103, 101, 110, 101, 114, 97, 108, 46, 97, 108, 105, 103, 110, 109, 101, 110, 116]  // general.alignment

  datatype TensorInfo = TensorInfo(name: Bytes, dims: seq<nat>, ty: nat, offset: nat, data: Bytes)

  datatype Contents = Contents(
    version: nat, tensorCount: nat, kvCount: nat, metadata: map<Bytes, Value>,
    tensors: seq<TensorInfo>, tensorMap: map<Bytes, nat>, dataOffset: nat)

  // ----- tensor sizes -----

  /** The product of the dimensions in 64-bit arithmetic. */
  function ElementCount(dims: seq<nat>): nat {
    if dims == [] then 1 else (ElementCount(dims[..|dims| - 1]) * dims[|dims| - 1]) % TWO_64
  }

  function Product(dims: seq<nat>): nat {
    if dims == [] then 1 else Product(dims[..|dims| - 1]) * dims[|dims| - 1]
  }

  function BlockSize(ty: nat): (b: nat)
    ensures b > 0
  {
    if ty == 2 || ty == 6 || ty == 8 then 32 else if ty == 12 || ty == 14 then 256 else 1
  }

  /** Bytes per block; an unknown type counts as 32-bit floats. */
  function BlockBytes(ty: nat): nat {
    if ty == 1 then 2 else if ty == 2 then 18 else if ty == 6 then 22 else if ty == 8 then 34
    else if ty == 12 then 144 else if ty == 14 then 210 else 4
  }

  /** The bytes of the whole blocks of `n` elements. */
  function WholeBlocks(ty: nat, n: nat): nat {
    (n / BlockSize(ty)) * BlockBytes(ty)
  }

  function ByteSizeOf(ty: nat, n: nat): nat {
    WholeBlocks(ty, n) % TWO_64
  }

  /** A tensor without dimensions has no payload. */
  function TensorByteSize(ty: nat, dims: seq<nat>): nat {
    if dims == [] then 0 else ByteSizeOf(ty, ElementCount(dims))
  }

  lemma {:induction false} ElementCountExact(dims: seq<nat>)
    ensures ElementCount(dims) == Product(dims) % TWO_64
  {
    if dims != [] {
      var front, d := dims[..|dims| - 1], dims[|dims| - 1];
      ElementCountExact(front);
      ModMul(Product(front), d, TWO_64);
    }
  }

  lemma ModMul(a: nat, b: nat, m: nat)
    requires m > 0
    ensures ((a % m) * b) % m == (a * b) % m
  {
    var q, r := a / m, a % m;
    assert a == q * m + r;
    assert a * b == (q * b) * m + r * b;
    ModAdd(q * b, r * b, m);
  }

  lemma ModAdd(k: nat, x: nat, m: nat)
    requires m > 0
    ensures (k * m + x) % m == x % m
  {
    var q := x / m;
    assert k * m + x == (k + q) * m + x % m;
    ModUnique(k + q, x % m, m);
  }

  lemma ModUnique(q: nat, r: nat, m: nat)
    requires r < m
    ensures (q * m + r) % m == r
  {
    Machine.DivModUnique(q * m + r, q, r, m);
  }

  /** For sizes a file can have, the computed size is the number of whole blocks times their size. */
  lemma ByteSizeExact(ty: nat, dims: seq<nat>)
    requires dims != [] && Product(dims) < TWO_64 && WholeBlocks(ty, Product(dims)) < TWO_64
    ensures TensorByteSize(ty, dims) == WholeBlocks(ty, Product(dims))
  {
    hide WholeBlocks, ElementCount, Product;
    ElementCountExact(dims);
  }

  method TensorSize(ty: nat, dims: seq<nat>) returns (size: nat)
    ensures size == TensorByteSize(ty, dims)
  {
    hide ByteSizeOf;
    if |dims| == 0 {
      return 0;
    }
    var n := 1;
    for i := 0 to |dims|
      invariant n == ElementCount(dims[..i])
    {
      assert dims[..i + 1][..i] == dims[..i];
      n := (n * dims[i]) % TWO_64;
    }
    assert dims[..|dims|] == dims;
    return SizeByType(ty, n);
  }

  /** The size, type by type. */
  function SizeByType(ty: nat, n: nat): (size: nat)
    ensures size == ByteSizeOf(ty, n)
  {
    match ty
    case 0 => (n * 4) % TWO_64
    case 1 => (n * 2) % TWO_64
    case 2 => ((n / 32) * 18) % TWO_64
    case 6 => ((n / 32) * 22) % TWO_64
    case 8 => ((n / 32) * 34) % TWO_64
    case 12 => ((n / 256) * 144) % TWO_64
    case 14 => ((n / 256) * 210) % TWO_64
    case _ => (n * 4) % TWO_64
  }

  // ----- the parts of a file -----

  /** `count` key/value pairs; a repeated key keeps its last value. */
  function ReadKVs(data: Bytes, pos: nat, count: nat, meta: map<Bytes, Value>): (r: Result<Read<map<Bytes, Value>>>)
    requires pos <= |data|
    ensures r.Ok? ==> pos <= r.value.pos <= |data|
    decreases count
  {
    if count == 0 then Ok(Read(meta, pos))
    else
      var key := ReadString(data, pos);
      if key.Err? then Err(key.error)
      else
        var ty := ReadNumber(data, key.value.pos, 4);
        if ty.Err? then Err(ty.error)
        else
          var v := ReadValue(data, ty.value.pos, ty.value.value);
          if v.Err? then Err(v.error)
          else ReadKVs(data, v.value.pos, count - 1, meta[key.value.value := v.value.value])
  }

  function Alignment(meta: map<Bytes, Value>): nat {
    if ALIGNMENT_KEY !in meta then DEFAULT_ALIGNMENT
    else
      match meta[ALIGNMENT_KEY]
      case U32(n) => n
      case U64(n) => n
      case _ => DEFAULT_ALIGNMENT
  }

  function ReadDims(data: Bytes, pos: nat, n: nat, dims: seq<nat>): (r: Result<Read<seq<nat>>>)
    requires pos <= |data|
    ensures r.Ok? ==> pos <= r.value.pos <= |data|
    decreases n
  {
    if n == 0 then Ok(Read(dims, pos))
    else
      var d := ReadNumber(data, pos, 8);
      if d.Err? then Err(d.error) else ReadDims(data, d.value.pos, n - 1, dims + [d.value.value])
  }

  function ReadTensor(data: Bytes, pos: nat): (r: Result<Read<TensorInfo>>)
    requires pos <= |data|
    ensures r.Ok? ==> pos <= r.value.pos <= |data|
  {
    var name := ReadString(data, pos);
    if name.Err? then Err(name.error)
    else
      var nDims := ReadNumber(data, name.value.pos, 4);
      if nDims.Err? then Err(nDims.error)
      else
        var dims := ReadDims(data, nDims.value.pos, nDims.value.value, []);
        if dims.Err? then Err(dims.error)
        else
          var ty := ReadNumber(data, dims.value.pos, 4);
          if ty.Err? then Err(ty.error)
          else
            var offset := ReadNumber(data, ty.value.pos, 8);
            if offset.Err? then Err(offset.error)
            else Ok(Read(TensorInfo(name.value.value, dims.value.value, ty.value.value, offset.value.value, []), offset.value.pos))
  }

  function ReadTensors(data: Bytes, pos: nat, count: nat, table: seq<TensorInfo>): (r: Result<Read<seq<TensorInfo>>>)
    requires pos <= |data|
    ensures r.Ok? ==> pos <= r.value.pos <= |data|
    decreases count
  {
    if count == 0 then Ok(Read(table, pos))
    else
      var t := ReadTensor(data, pos);
      if t.Err? then Err(t.error) else ReadTensors(data, t.value.pos, count - 1, table + [t.value.value])
  }

  /** The name index: a repeated name keeps its last tensor. */
  function Index(table: seq<TensorInfo>): map<Bytes, nat> {
    if table == [] then map[]
    else Index(table[..|table| - 1])[table[|table| - 1].name := |table| - 1]
  }

  /** Where the tensor data starts. */
  function Align(pos: nat, alignment: nat): nat
    requires alignment > 0
  {
    if pos % alignment == 0 then pos else pos + (alignment - pos % alignment)
  }

  /** The least multiple of the alignment at or behind a position. */
  lemma AlignLeast(pos: nat, alignment: nat)
    requires alignment > 0
    ensures Align(pos, alignment) % alignment == 0 && Align(pos, alignment) >= pos
    ensures forall k: nat :: k * alignment >= pos ==> k * alignment >= Align(pos, alignment)
  {
    var q, r := pos / alignment, pos % alignment;
    assert pos == q * alignment + r;
    if r != 0 {
      assert Align(pos, alignment) == (q + 1) * alignment;
      ModUnique(q + 1, 0, alignment);
    }
    forall k: nat | k * alignment >= pos
      ensures k * alignment >= Align(pos, alignment)
    {
      if r != 0 {
        Above(k, q, alignment);
        Machine.Monotone(q + 1, k, alignment);
      }
    }
  }

  lemma Above(k: nat, q: nat, m: nat)
    requires k * m > q * m
    ensures k > q
  {
    if k <= q {
      Machine.Monotone(k, q, m);
    }
  }

  /** The payload of a tensor, with the sums and tests in 64 bits. */
  function Slice(data: Bytes, base: nat, t: TensorInfo): Result<Bytes> {
    var absOffset := (base + t.offset) % TWO_64;
    var end := (absOffset + TensorByteSize(t.ty, t.dims)) % TWO_64;
    if end > |data| then Err(DataOutOfRange)
    else if end < absOffset then Err(Panicked)
    else Ok(data[absOffset..end])
  }

  function SliceAll(data: Bytes, base: nat, table: seq<TensorInfo>, i: nat): Result<seq<TensorInfo>>
    requires i <= |table|
    decreases |table| - i
  {
    if i == |table| then Ok(table)
    else
      var s := Slice(data, base, table[i]);
      if s.Err? then Err(s.error) else SliceAll(data, base, table[i := table[i].(data := s.value)], i + 1)
  }

  /** A whole file. */
  function Parse(data: Bytes): Result<Contents> {
    var magic := ReadNumber(data, 0, 4);
    if magic.Err? then Err(magic.error)
    else if magic.value.value != GGUF_MAGIC then Err(BadMagic)
    else
      var version := ReadNumber(data, 4, 4);
      if version.Err? then Err(version.error)
      else if version.value.value < 2 || version.value.value > 3 then Err(BadVersion)
      else
        var tensorCount := ReadNumber(data, 8, 8);
        if tensorCount.Err? then Err(tensorCount.error)
        else
          var kvCount := ReadNumber(data, 16, 8);
          if kvCount.Err? then Err(kvCount.error)
          else ParseBody(data, version.value.value, tensorCount.value.value, kvCount.value.value)
  }

  function ParseBody(data: Bytes, version: nat, tensorCount: nat, kvCount: nat): Result<Contents>
    requires |data| >= 24
  {
    var kvs := ReadKVs(data, 24, kvCount, map[]);
    if kvs.Err? then Err(kvs.error)
    else
      var table := ReadTensors(data, kvs.value.pos, tensorCount, []);
      if table.Err? then Err(table.error)
      else if Alignment(kvs.value.value) == 0 then Err(Panicked)
      else
        var base := Align(table.value.pos, Alignment(kvs.value.value)) % TWO_64;
        var sliced := SliceAll(data, base, table.value.value, 0);
        if sliced.Err? then Err(sliced.error)
        else Ok(Contents(version, tensorCount, kvCount, kvs.value.value, sliced.value, Index(table.value.value), base))
  }

  // ----- the parser -----

  class File {
    const mmapData: Bytes
    var version: nat
    var tensorCount: nat
    var kvCount: nat
    var metadata: map<Bytes, Value>
    var tensors: seq<TensorInfo>
    var tensorMap: map<Bytes, nat>
    var tensorDataOffset: nat

    constructor (data: Bytes)
      ensures mmapData == data && metadata == map[] && tensorMap == map[]
    {
      mmapData := data;
      version, tensorCount, kvCount, tensorDataOffset := 0, 0, 0, 0;
      metadata, tensors, tensorMap := map[], [], map[];
    }

    ghost function View(): Contents
      reads this
    {
      Contents(version, tensorCount, kvCount, metadata, tensors, tensorMap, tensorDataOffset)
    }

    /** The fields are those of the parsed file, or the error is the one the file deserves. */
    method ParseAll() returns (error: Result<bool>)
      requires |mmapData| < TWO_63 && metadata == map[] && tensorMap == map[]
      modifies this
      ensures var p := Parse(mmapData);
              if p.Err? then error == Err(p.error) else error == Ok(true) && View() == p.value
    {
      hide ReadKVs, ReadTensors, SliceAll, Index, Alignment;
      var r := new Reader(mmapData);
      var magic := r.ReadUint32();
      if magic.Err? {
        return Err(magic.error);
      }
      if magic.value != GGUF_MAGIC {
        return Err(BadMagic);
      }
      var v := r.ReadUint32();
      if v.Err? {
        return Err(v.error);
      }
      if v.value < 2 || v.value > 3 {
        return Err(BadVersion);
      }
      version := v.value;
      var tc := r.ReadUint64();
      if tc.Err? {
        return Err(tc.error);
      }
      tensorCount := tc.value;
      var kc := r.ReadUint64();
      if kc.Err? {
        return Err(kc.error);
      }
      kvCount := kc.value;
      var kvs := ParseMetadata(r);
      if kvs.Err? {
        return Err(kvs.error);
      }
      var alignment := FindAlignment();
      var table := ParseTensors(r);
      if table.Err? {
        return Err(table.error);
      }
      if alignment == 0 {
        return Err(Panicked);
      }
      var pad := r.pos % alignment;
      var end := r.pos;
      if pad != 0 {
        end := (end + (alignment - pad)) % TWO_64;
      } else {
        SmallPos(end);
      }
      tensorDataOffset := end;
      error := MapSlices();
    }

    method ParseMetadata(r: Reader) returns (error: Result<bool>)
      requires r.Valid() && r.data == mmapData && metadata == map[]
      modifies r`pos, this`metadata
      ensures r.Valid()
      ensures var kvs := ReadKVs(mmapData, old(r.pos), kvCount, map[]);
              if kvs.Err? then error == Err(kvs.error)
              else error == Ok(true) && metadata == kvs.value.value && r.pos == kvs.value.pos
    {
      hide ReadString, ReadValue;
      for i := 0 to kvCount
        invariant r.Valid()
        invariant ReadKVs(mmapData, old(r.pos), kvCount, map[]) == ReadKVs(mmapData, r.pos, kvCount - i, metadata)
      {
        var key := r.ReadStr();
        if key.Err? {
          return Err(key.error);
        }
        var valType := r.ReadUint32();
        if valType.Err? {
          return Err(valType.error);
        }
        var val := r.ReadVal(valType.value);
        if val.Err? {
          return Err(val.error);
        }
        metadata := metadata[key.value := val.value];
      }
      return Ok(true);
    }

    method FindAlignment() returns (alignment: nat)
      ensures alignment == Alignment(metadata)
    {
      alignment := DEFAULT_ALIGNMENT;
      if ALIGNMENT_KEY in metadata {
        match metadata[ALIGNMENT_KEY] {
          case U32(n) => alignment := n;
          case U64(n) => alignment := n;
          case _ =>
        }
      }
    }

    method ParseTensor(r: Reader) returns (t: Result<TensorInfo>)
      requires r.Valid() && r.data == mmapData
      modifies r`pos
      ensures r.Valid()
      ensures var spec := ReadTensor(mmapData, old(r.pos));
              if spec.Err? then t == Err(spec.error) else t == Ok(spec.value.value) && r.pos == spec.value.pos
    {
      hide ReadString;
      var name := r.ReadStr();
      if name.Err? {
        return Err(name.error);
      }
      var nDims := r.ReadUint32();
      if nDims.Err? {
        return Err(nDims.error);
      }
      var dims: seq<nat> := [];
      ghost var at := r.pos;
      for d := 0 to nDims.value
        invariant r.Valid()
        invariant ReadDims(mmapData, at, nDims.value, []) == ReadDims(mmapData, r.pos, nDims.value - d, dims)
      {
        var dim := r.ReadUint64();
        if dim.Err? {
          return Err(dim.error);
        }
        dims := dims + [dim.value];
      }
      var tType := r.ReadUint32();
      if tType.Err? {
        return Err(tType.error);
      }
      var offset := r.ReadUint64();
      if offset.Err? {
        return Err(offset.error);
      }
      return Ok(TensorInfo(name.value, dims, tType.value, offset.value, []));
    }

    method ParseTensors(r: Reader) returns (error: Result<bool>)
      requires r.Valid() && r.data == mmapData && tensorMap == map[]
      modifies r`pos, this`tensors, this`tensorMap
      ensures r.Valid()
      ensures var table := ReadTensors(mmapData, old(r.pos), tensorCount, []);
              if table.Err? then error == Err(table.error)
              else error == Ok(true) && tensors == table.value.value && tensorMap == Index(tensors) && r.pos == table.value.pos
    {
      hide ReadTensor;
      tensors := [];
      for i := 0 to tensorCount
        invariant r.Valid() && |tensors| == i && tensorMap == Index(tensors)
        invariant ReadTensors(mmapData, old(r.pos), tensorCount, []) == ReadTensors(mmapData, r.pos, tensorCount - i, tensors)
      {
        var t := ParseTensor(r);
        if t.Err? {
          return Err(t.error);
        }
        ghost var before := tensors;
        tensors := tensors + [t.value];
        assert tensors[..|tensors| - 1] == before;
        tensorMap := tensorMap[t.value.name := i];
      }
      return Ok(true);
    }

    method MapSlices() returns (error: Result<bool>)
      modifies this`tensors
      ensures var sliced := SliceAll(mmapData, tensorDataOffset, old(tensors), 0);
              if sliced.Err? then error == Err(sliced.error) else error == Ok(true) && tensors == sliced.value
    {
      hide TensorByteSize;
      for i := 0 to |tensors|
        invariant |tensors| == |old(tensors)|
        invariant SliceAll(mmapData, tensorDataOffset, old(tensors), 0) == SliceAll(mmapData, tensorDataOffset, tensors, i)
      {
        var ti := tensors[i];
        var absOffset := (tensorDataOffset + ti.offset) % TWO_64;
        var byteSize := TensorSize(ti.ty, ti.dims);
        var end := (absOffset + byteSize) % TWO_64;
        if end > |mmapData| {
          return Err(DataOutOfRange);
        }
        if end < absOffset {
          return Err(Panicked);
        }
        tensors := tensors[i := ti.(data := mmapData[absOffset..end])];
      }
      return Ok(true);
    }
  }

  lemma SmallPos(pos: nat)
    requires pos < TWO_63
    ensures pos % TWO_64 == pos
  {
  }
}
