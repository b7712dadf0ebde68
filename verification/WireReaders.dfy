/**
 * What the binary readers compute, as functions of a buffer and an offset.
 *
 * Each function is defined at every offset of every buffer: it fails, or it returns a value together with the offset
 * just after it, which is larger than the offset it started at and still inside the buffer.
 */
module WireReaders {
  import opened Wrappers
  import opened Words
  import opened WireTypes

  type Read<+T> = Result<(T, nat), ReadError>

  ghost predicate Advances<T>(b: Bytes, p: nat, r: Read<T>) {
    r.Success? ==> p < r.value.1 <= |b|
  }

  const OBJECT_END := 0xffff

  // ----- stream reader

  function Uint8At(b: Bytes, p: nat): (r: Read<byte>)
    ensures Advances(b, p, r)
  {
    if p < |b| then Success((b[p], p + 1)) else Failure(OutOfRange)
  }

  function PeekUint16(b: Bytes, p: nat): (r: Result<nat, ReadError>)
    ensures r.Success? ==> p + 2 <= |b|
  {
    if p + 2 <= |b| then Success(b[p] as int + 0x100 * b[p + 1] as int) else Failure(OutOfRange)
  }

  /** A view of `length` bytes; a negative length is out of range. */
  function ViewAt(b: Bytes, p: nat, length: int): (r: Read<Bytes>)
    ensures r.Success? ==> 0 <= length && p <= r.value.1 == p + length <= |b| && r.value.0 == b[p..p + length]
  {
    if 0 <= length && p + length <= |b| then Success((b[p..p + length], p + length)) else Failure(OutOfRange)
  }

  // ----- deserializer

  function ExpectAt(b: Bytes, p: nat, id: nat): (r: Result<nat, ReadError>)
    ensures r.Success? ==> r.value == p + 2 <= |b|
  {
    var actual :- PeekUint16(b, p);
    if actual == id then Success(p + 2) else Failure(UnexpectedField(id, actual))
  }

  function CheckAt(b: Bytes, p: nat, id: nat): (r: Result<(bool, nat), ReadError>)
    ensures r.Success? ==> p <= r.value.1 <= |b|
  {
    var actual :- PeekUint16(b, p);
    if actual == id then Success((true, p + 2)) else Success((false, p))
  }

  /** The rest of a variable-length integer, given the bits read so far. */
  function VarIntFrom(b: Bytes, p: nat, acc: word32, shift: nat): (r: Read<int>)
    decreases |b| - p
    ensures Advances(b, p, r)
    ensures r.Success? ==> -0x8000_0000 <= r.value.0 < 0x8000_0000
  {
    var (x, q) :- Uint8At(b, p);
    var acc' := Or32(acc, Shl32(x % 0x80, shift));
    if x >= 0x80 then VarIntFrom(b, q, acc', shift + 7) else Success((ToInt32(acc'), q))
  }

  function VarIntAt(b: Bytes, p: nat): (r: Read<int>)
    ensures Advances(b, p, r)
    ensures r.Success? ==> -0x8000_0000 <= r.value.0 < 0x8000_0000
  {
    VarIntFrom(b, p, 0, 0)
  }

  /** Length-prefixed bytes; strings are read the same way. */
  function DataAt(b: Bytes, p: nat): (r: Read<Bytes>)
    ensures Advances(b, p, r)
  {
    var (length, q) :- VarIntAt(b, p);
    ViewAt(b, q, length)
  }

  // ----- lists, from item `i` on

  function VarIntsFrom(b: Bytes, p: nat, i: nat, count: int): (r: Read<seq<int>>)
    decreases |b| - p
    ensures r.Success? ==> p + |r.value.0| <= r.value.1 && (r.value.1 <= |b| || r.value == ([], p))
  {
    if i >= count then Success(([], p))
    else
      var (x, q) :- VarIntAt(b, p);
      var (xs, q') :- VarIntsFrom(b, q, i + 1, count);
      Success(([x] + xs, q'))
  }

  function VarIntListAt(b: Bytes, p: nat): (r: Read<seq<int>>)
    ensures Advances(b, p, r)
  {
    var (count, q) :- VarIntAt(b, p);
    VarIntsFrom(b, q, 0, count)
  }

  function DatasFrom(b: Bytes, p: nat, i: nat, count: int): (r: Read<seq<Bytes>>)
    decreases |b| - p
    ensures r.Success? ==> p + |r.value.0| <= r.value.1 && (r.value.1 <= |b| || r.value == ([], p))
  {
    if i >= count then Success(([], p))
    else
      var (x, q) :- DataAt(b, p);
      var (xs, q') :- DatasFrom(b, q, i + 1, count);
      Success(([x] + xs, q'))
  }

  function DataListAt(b: Bytes, p: nat): (r: Read<seq<Bytes>>)
    ensures Advances(b, p, r)
  {
    var (count, q) :- VarIntAt(b, p);
    DatasFrom(b, q, 0, count)
  }

  function ListEntryAt(b: Bytes, p: nat): (r: Read<ListEntry>)
    ensures Advances(b, p, r)
  {
    var p1 :- ExpectAt(b, p, 100);
    var (offset, p2) :- VarIntAt(b, p1);
    var p3 :- ExpectAt(b, p2, 101);
    var (length, p4) :- VarIntAt(b, p3);
    var p5 :- ExpectAt(b, p4, OBJECT_END);
    Success((ListEntry(offset, length), p5))
  }

  function ListEntriesFrom(b: Bytes, p: nat, i: nat, count: int): (r: Read<seq<ListEntry>>)
    decreases |b| - p
    ensures r.Success? ==> p + |r.value.0| <= r.value.1 && (r.value.1 <= |b| || r.value == ([], p))
  {
    if i >= count then Success(([], p))
    else
      var (x, q) :- ListEntryAt(b, p);
      var (xs, q') :- ListEntriesFrom(b, q, i + 1, count);
      Success(([x] + xs, q'))
  }

  function ListEntryListAt(b: Bytes, p: nat): (r: Read<seq<ListEntry>>)
    ensures Advances(b, p, r)
  {
    var (count, q) :- VarIntAt(b, p);
    ListEntriesFrom(b, q, 0, count)
  }

  // ----- types

  function TypeAt(b: Bytes, p: nat): (r: Read<LogicalType>)
    decreases |b| - p, 0
    ensures Advances(b, p, r)
  {
    var p1 :- ExpectAt(b, p, 100);
    var (id, p2) :- Uint8At(b, p1);
    var (present, p3) :- CheckAt(b, p2, 101);
    var (info, p4) :- if present then NullableTypeInfoAt(b, p3) else Success((None, p3));
    var p5 :- ExpectAt(b, p4, OBJECT_END);
    Success((LogicalType(id, info), p5))
  }

  function NullableTypeInfoAt(b: Bytes, p: nat): (r: Read<Option<TypeInfo>>)
    decreases |b| - p, 0
    ensures Advances(b, p, r)
  {
    var (present, q) :- Uint8At(b, p);
    if present == 0 then Success((None, q))
    else
      var (info, q') :- TypeInfoAt(b, q);
      Success((Some(info), q'))
  }

  function TypeInfoAt(b: Bytes, p: nat): (r: Read<TypeInfo>)
    decreases |b| - p, 0
    ensures Advances(b, p, r)
  {
    var p1 :- ExpectAt(b, p, 100);
    var (infoType, p2) :- Uint8At(b, p1);
    var (hasAlias, p3) :- CheckAt(b, p2, 101);
    var (alias, p4) :- if hasAlias then DataAt(b, p3) else Success(([], p3));
    var (hasModifiers, p5) :- CheckAt(b, p4, 102);
    if hasModifiers then Failure(UnsupportedModifiers)
    else
      var (detail, p6) :- TypeDetailAt(b, p5, infoType);
      var p7 :- ExpectAt(b, p6, OBJECT_END);
      Success((TypeInfo(if alias == [] then None else Some(alias), detail), p7))
  }

  function TypeDetailAt(b: Bytes, p: nat, infoType: byte): (r: Read<TypeDetail>)
    decreases |b| - p, 0
    ensures r.Success? ==> p <= r.value.1 && (r.value.1 <= |b| || r.value.1 == p)
  {
    match infoType
    case 1 => Success((Generic, p))
    case 2 =>
      var (hasWidth, p1) :- CheckAt(b, p, 200);
      var (width, p2) :- if hasWidth then Uint8At(b, p1) else Success((0, p1));
      var (hasScale, p3) :- CheckAt(b, p2, 201);
      var (scale, p4) :- if hasScale then Uint8At(b, p3) else Success((0, p3));
      Success((Decimal(width, scale), p4))
    case 4 =>
      var p1 :- ExpectAt(b, p, 200);
      var (child, p2) :- TypeAt(b, p1);
      Success((List(child), p2))
    case 5 =>
      var p1 :- ExpectAt(b, p, 200);
      var (count, p2) :- VarIntAt(b, p1);
      var (fields, p3) :- FieldsFrom(b, p2, 0, count);
      Success((Struct(fields), p3))
    case 6 =>
      var p1 :- ExpectAt(b, p, 200);
      var (valuesCount, p2) :- VarIntAt(b, p1);
      var p3 :- ExpectAt(b, p2, 201);
      var (values, p4) :- DataListAt(b, p3);
      Success((Enum(valuesCount, values), p4))
    case 9 =>
      var p1 :- ExpectAt(b, p, 200);
      var (child, p2) :- TypeAt(b, p1);
      var (hasSize, p3) :- CheckAt(b, p2, 201);
      var (size, p4) :- if hasSize then VarIntAt(b, p3) else Success((0, p3));
      Success((Array(child, size), p4))
    case _ => Failure(UnsupportedTypeInfo(infoType))
  }

  function FieldAt(b: Bytes, p: nat): (r: Read<Field>)
    decreases |b| - p, 0
    ensures Advances(b, p, r)
  {
    var p1 :- ExpectAt(b, p, 0);
    var (name, p2) :- DataAt(b, p1);
    var p3 :- ExpectAt(b, p2, 1);
    var (fieldType, p4) :- TypeAt(b, p3);
    var p5 :- ExpectAt(b, p4, OBJECT_END);
    Success((Field(name, fieldType), p5))
  }

  function FieldsFrom(b: Bytes, p: nat, i: nat, count: int): (r: Read<seq<Field>>)
    decreases |b| - p, 1
    ensures r.Success? ==> p + |r.value.0| <= r.value.1 && (r.value.1 <= |b| || r.value == ([], p))
  {
    if i >= count then Success(([], p))
    else
      var (x, q) :- FieldAt(b, p);
      var (xs, q') :- FieldsFrom(b, q, i + 1, count);
      Success(([x] + xs, q'))
  }

  function TypesFrom(b: Bytes, p: nat, i: nat, count: int): (r: Read<seq<LogicalType>>)
    decreases |b| - p
    ensures r.Success? ==> p + |r.value.0| <= r.value.1 && (r.value.1 <= |b| || r.value == ([], p))
  {
    if i >= count then Success(([], p))
    else
      var (x, q) :- TypeAt(b, p);
      var (xs, q') :- TypesFrom(b, q, i + 1, count);
      Success(([x] + xs, q'))
  }

  function TypeListAt(b: Bytes, p: nat): (r: Read<seq<LogicalType>>)
    ensures Advances(b, p, r)
  {
    var (count, q) :- VarIntAt(b, p);
    TypesFrom(b, q, 0, count)
  }

  // ----- vectors

  /** Reads one vector; `t` is None where the list of types is shorter than the list of vectors. */
  function VectorAt(b: Bytes, p: nat, t: Option<LogicalType>): (r: Read<Vector>)
    decreases |b| - p, 0
    ensures Advances(b, p, r)
  {
    var p1 :- ExpectAt(b, p, 100);
    var (allValid, p2) :- Uint8At(b, p1);
    var (validity, p3) :- ValidityAt(b, p2, allValid);
    if t.None? then Failure(UndefinedType)
    else
      var (content, p4) :- ContentAt(b, p3, t.value);
      var p5 :- ExpectAt(b, p4, OBJECT_END);
      Success((Vector(allValid, validity, content), p5))
  }

  function ValidityAt(b: Bytes, p: nat, allValid: byte): (r: Read<Option<Bytes>>)
    ensures r.Success? ==> p <= r.value.1 && (r.value.1 <= |b| || r.value.1 == p)
  {
    if allValid == 0 then Success((None, p))
    else
      var p1 :- ExpectAt(b, p, 101);
      var (validity, p2) :- DataAt(b, p1);
      Success((Some(validity), p2))
  }

  function ContentAt(b: Bytes, p: nat, t: LogicalType): (r: Read<Content>)
    decreases |b| - p, 0
    ensures Advances(b, p, r)
  {
    match StorageOf(t.id)
    case FixedWidth =>
      var p1 :- ExpectAt(b, p, 102);
      var (bytes, p2) :- DataAt(b, p1);
      Success((Data(bytes), p2))
    case StringList =>
      var p1 :- ExpectAt(b, p, 102);
      var (strings, p2) :- DataListAt(b, p1);
      Success((Strings(strings), p2))
    case BlobList =>
      var p1 :- ExpectAt(b, p, 102);
      var (blobs, p2) :- DataListAt(b, p1);
      Success((Blobs(blobs), p2))
    case VectorList =>
      if t.info.None? then Failure(MissingTypeInfo)
      else if !t.info.value.detail.Struct? then Failure(WrongTypeInfoKind)
      else
        var p1 :- ExpectAt(b, p, 103);
        var (count, p2) :- VarIntAt(b, p1);
        var (children, p3) :- VectorsFrom(b, p2, FieldTypes(t.info.value.detail.fields), 0, count);
        Success((Vectors(children), p3))
    case ListVector =>
      if t.info.None? then Failure(MissingTypeInfo)
      else if !t.info.value.detail.List? then Failure(WrongTypeInfoKind)
      else
        var p1 :- ExpectAt(b, p, 104);
        var (listSize, p2) :- VarIntAt(b, p1);
        var p3 :- ExpectAt(b, p2, 105);
        var (entries, p4) :- ListEntryListAt(b, p3);
        var p5 :- ExpectAt(b, p4, 106);
        var (child, p6) :- VectorAt(b, p5, Some(t.info.value.detail.child));
        Success((Lists(listSize, entries, child), p6))
    case ArrayVector =>
      if t.info.None? then Failure(MissingTypeInfo)
      else if !t.info.value.detail.Array? then Failure(WrongTypeInfoKind)
      else
        var p1 :- ExpectAt(b, p, 103);
        var (arraySize, p2) :- VarIntAt(b, p1);
        var p3 :- ExpectAt(b, p2, 104);
        var (element, p4) :- VectorAt(b, p3, Some(t.info.value.detail.element));
        Success((Arrays(arraySize, element), p4))
    case NoStorage => Failure(UnrecognizedTypeId(t.id))
  }

  /** The type at index `i`, or None past the end. */
  function TypeOrNone(types: seq<LogicalType>, i: nat): Option<LogicalType> {
    if i < |types| then Some(types[i]) else None
  }

  function VectorsFrom(b: Bytes, p: nat, types: seq<LogicalType>, i: nat, count: int): (r: Read<seq<Vector>>)
    decreases |b| - p, 1
    ensures r.Success? ==> p + |r.value.0| <= r.value.1 && (r.value.1 <= |b| || r.value == ([], p))
  {
    if i >= count then Success(([], p))
    else
      var (x, q) :- VectorAt(b, p, TypeOrNone(types, i));
      var (xs, q') :- VectorsFrom(b, q, types, i + 1, count);
      Success(([x] + xs, q'))
  }

  function VectorListAt(b: Bytes, p: nat, types: seq<LogicalType>): (r: Read<seq<Vector>>)
    ensures Advances(b, p, r)
  {
    var (count, q) :- VarIntAt(b, p);
    VectorsFrom(b, q, types, 0, count)
  }

  // ----- results

  function TokenizeResultAt(b: Bytes, p: nat): (r: Read<TokenizeResult>)
    ensures Advances(b, p, r)
  {
    var p1 :- ExpectAt(b, p, 100);
    var (offsets, p2) :- VarIntListAt(b, p1);
    var p3 :- ExpectAt(b, p2, 101);
    var (types, p4) :- VarIntListAt(b, p3);
    var p5 :- ExpectAt(b, p4, OBJECT_END);
    Success((TokenizeResult(offsets, types), p5))
  }

  function ColumnNamesAndTypesAt(b: Bytes, p: nat): (r: Read<ColumnNamesAndTypes>)
    ensures Advances(b, p, r)
  {
    var p1 :- ExpectAt(b, p, 100);
    var (names, p2) :- DataListAt(b, p1);
    var p3 :- ExpectAt(b, p2, 101);
    var (types, p4) :- TypeListAt(b, p3);
    var p5 :- ExpectAt(b, p4, OBJECT_END);
    Success((ColumnNamesAndTypes(names, types), p5))
  }

  function ChunkAt(b: Bytes, p: nat, types: seq<LogicalType>): (r: Read<Chunk>)
    ensures Advances(b, p, r)
  {
    var p1 :- ExpectAt(b, p, 100);
    var (rowCount, p2) :- VarIntAt(b, p1);
    var p3 :- ExpectAt(b, p2, 101);
    var (vectors, p4) :- VectorListAt(b, p3, types);
    var p5 :- ExpectAt(b, p4, OBJECT_END);
    Success((Chunk(rowCount, vectors), p5))
  }

  function ChunksFrom(b: Bytes, p: nat, types: seq<LogicalType>, i: nat, count: int): (r: Read<seq<Chunk>>)
    decreases |b| - p
    ensures r.Success? ==> p + |r.value.0| <= r.value.1 && (r.value.1 <= |b| || r.value == ([], p))
  {
    if i >= count then Success(([], p))
    else
      var (x, q) :- ChunkAt(b, p, types);
      var (xs, q') :- ChunksFrom(b, q, types, i + 1, count);
      Success(([x] + xs, q'))
  }

  function ChunkListAt(b: Bytes, p: nat, types: seq<LogicalType>): (r: Read<seq<Chunk>>)
    ensures Advances(b, p, r)
  {
    var (count, q) :- VarIntAt(b, p);
    ChunksFrom(b, q, types, 0, count)
  }

  function QueryResultAt(b: Bytes, p: nat): (r: Read<QueryResult>)
    ensures Advances(b, p, r)
  {
    var p1 :- ExpectAt(b, p, 100);
    var (success, p2) :- Uint8At(b, p1);
    var p3 :- ExpectAt(b, p2, 101);
    if success != 0 then
      var (columns, p4) :- ColumnNamesAndTypesAt(b, p3);
      var p5 :- ExpectAt(b, p4, 102);
      var (chunks, p6) :- ChunkListAt(b, p5, columns.types);
      Success((SuccessResult(columns, chunks), p6))
    else
      var (message, p4) :- DataAt(b, p3);
      Success((ErrorResult(message), p4))
  }
}
