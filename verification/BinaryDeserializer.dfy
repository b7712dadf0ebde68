/** The stateful readers: every read moves the one offset of the stream, and computes what WireReaders says. */
module BinaryDeserializer {
  import opened Wrappers
  import opened Words
  import opened WireTypes
  import opened WireReaders

  /** A call returned `r` and left the stream at `offset`, as `spec` says; after an error, the offset is of no use. */
  ghost predicate Matches<T>(r: Result<T, ReadError>, offset: int, spec: Read<T>) {
    match r
    case Success(x) => offset >= 0 && spec == Success((x, offset))
    case Failure(e) => spec == Failure(e)
  }

  class BinaryStreamReader {
    const dv: Bytes
    var offset: int

    constructor (buffer: Bytes)
      ensures dv == buffer && offset == 0
    {
      dv := buffer;
      offset := 0;
    }

    method PeekUint16Le() returns (r: Result<nat, ReadError>)
      requires offset >= 0
      ensures r == PeekUint16(dv, offset)
    {
      if offset + 2 > |dv| { return Failure(OutOfRange); }
      return Success(dv[offset] as int + 0x100 * dv[offset + 1] as int);
    }

    method Consume(byteCount: int)
      modifies this
      ensures offset == old(offset) + byteCount
    {
      offset := offset + byteCount;
    }

    method OffsetBeforeConsume(byteCount: int) returns (offsetBefore: int)
      modifies this
      ensures offsetBefore == old(offset) && offset == old(offset) + byteCount
    {
      offsetBefore := offset;
      Consume(byteCount);
    }

    method ReadUint8() returns (r: Result<byte, ReadError>)
      requires offset >= 0
      modifies this
      ensures Matches(r, offset, Uint8At(dv, old(offset)))
    {
      var at := OffsetBeforeConsume(1);
      if at >= |dv| { return Failure(OutOfRange); }
      return Success(dv[at]);
    }

    method ReadData(length: int) returns (r: Result<Bytes, ReadError>)
      requires offset >= 0
      modifies this
      ensures Matches(r, offset, ViewAt(dv, old(offset), length))
    {
      var at := OffsetBeforeConsume(length);
      if length < 0 || at + length > |dv| { return Failure(OutOfRange); }
      return Success(dv[at..at + length]);
    }
  }

  class BinaryDeserializer {
    const reader: BinaryStreamReader

    constructor (reader: BinaryStreamReader)
      ensures this.reader == reader
    {
      this.reader := reader;
    }

    method CheckFieldId(possibleFieldId: nat) returns (r: Result<bool, ReadError>)
      requires reader.offset >= 0
      modifies reader
      ensures Matches(r, reader.offset, CheckAt(reader.dv, old(reader.offset), possibleFieldId))
    {
      var fieldId :- reader.PeekUint16Le();
      if fieldId == possibleFieldId {
        reader.Consume(2);
        return Success(true);
      }
      return Success(false);
    }

    method ExpectFieldId(expectedFieldId: nat) returns (r: Result<(), ReadError>)
      requires reader.offset >= 0
      modifies reader
      ensures r.Success? ==> reader.offset >= 0
      ensures ExpectAt(reader.dv, old(reader.offset), expectedFieldId)
           == match r case Success(_) => Success(reader.offset) case Failure(e) => Failure(e)
    {
      var fieldId :- reader.PeekUint16Le();
      if fieldId != expectedFieldId { return Failure(UnexpectedField(expectedFieldId, fieldId)); }
      reader.Consume(2);
      return Success(());
    }

    method ExpectObjectEnd() returns (r: Result<(), ReadError>)
      requires reader.offset >= 0
      modifies reader
      ensures r.Success? ==> reader.offset >= 0
      ensures ExpectAt(reader.dv, old(reader.offset), OBJECT_END)
           == match r case Success(_) => Success(reader.offset) case Failure(e) => Failure(e)
    {
      r := ExpectFieldId(OBJECT_END);
    }

    method ReadUint8() returns (r: Result<byte, ReadError>)
      requires reader.offset >= 0
      modifies reader
      ensures Matches(r, reader.offset, Uint8At(reader.dv, old(reader.offset)))
    {
      r := reader.ReadUint8();
    }

    method ReadVarInt() returns (r: Result<int, ReadError>)
      requires reader.offset >= 0
      modifies reader
      ensures Matches(r, reader.offset, VarIntAt(reader.dv, old(reader.offset)))
    {
      var result: word32, shift, more := 0, 0, true;
      while more
        invariant reader.offset >= 0
        invariant more ==> VarIntFrom(reader.dv, reader.offset, result, shift) == VarIntAt(reader.dv, old(reader.offset))
        invariant !more ==> VarIntAt(reader.dv, old(reader.offset)) == Success((ToInt32(result), reader.offset))
        decreases more, |reader.dv| - reader.offset
      {
        var byte :- reader.ReadUint8();
        result := Or32(result, Shl32(byte % 0x80, shift));
        shift := shift + 7;
        more := byte >= 0x80;
      }
      return Success(ToInt32(result));
    }

    /** Also reads strings, whose bytes are not decoded further here. */
    method ReadData() returns (r: Result<Bytes, ReadError>)
      requires reader.offset >= 0
      modifies reader
      ensures Matches(r, reader.offset, DataAt(reader.dv, old(reader.offset)))
    {
      var length :- ReadVarInt();
      r := reader.ReadData(length);
    }
  }

  // ----- lists: items already read, followed by what is still to be read

  ghost function Prepend<T>(xs: seq<T>, r: Read<seq<T>>): Read<seq<T>> {
    match r
    case Success(v) => Success((xs + v.0, v.1))
    case Failure(e) => Failure(e)
  }

  lemma PrependItem<T>(xs: seq<T>, x: T, r: Read<seq<T>>)
    ensures Prepend(xs, Prepend([x], r)) == Prepend(xs + [x], r)
  {
    if r.Success? { assert xs + ([x] + r.value.0) == xs + [x] + r.value.0; }
  }

  lemma PrependNone<T>(r: Read<seq<T>>)
    ensures Prepend([], r) == r
  {
    if r.Success? { assert [] + r.value.0 == r.value.0; }
  }

  method ReadVarIntList(d: BinaryDeserializer) returns (r: Result<seq<int>, ReadError>)
    requires d.reader.offset >= 0
    modifies d.reader
    ensures Matches(r, d.reader.offset, VarIntListAt(d.reader.dv, old(d.reader.offset)))
  {
    hide VarIntAt;
    var count :- d.ReadVarInt();
    var items, i := [], 0;
    ghost var whole := VarIntsFrom(d.reader.dv, d.reader.offset, 0, count);
    PrependNone(whole);
    while i < count
      invariant d.reader.offset >= 0 && (0 <= i <= count || count < 0 == i)
      invariant Prepend(items, VarIntsFrom(d.reader.dv, d.reader.offset, i, count)) == whole
    {
      var item :- d.ReadVarInt();
      PrependItem(items, item, VarIntsFrom(d.reader.dv, d.reader.offset, i + 1, count));
      items, i := items + [item], i + 1;
    }
    assert items + [] == items;
    return Success(items);
  }

  method ReadDataList(d: BinaryDeserializer) returns (r: Result<seq<Bytes>, ReadError>)
    requires d.reader.offset >= 0
    modifies d.reader
    ensures Matches(r, d.reader.offset, DataListAt(d.reader.dv, old(d.reader.offset)))
  {
    hide DataAt, VarIntAt;
    var count :- d.ReadVarInt();
    var items, i := [], 0;
    ghost var whole := DatasFrom(d.reader.dv, d.reader.offset, 0, count);
    PrependNone(whole);
    while i < count
      invariant d.reader.offset >= 0 && (0 <= i <= count || count < 0 == i)
      invariant Prepend(items, DatasFrom(d.reader.dv, d.reader.offset, i, count)) == whole
    {
      var item :- d.ReadData();
      PrependItem(items, item, DatasFrom(d.reader.dv, d.reader.offset, i + 1, count));
      items, i := items + [item], i + 1;
    }
    assert items + [] == items;
    return Success(items);
  }

  method ReadListEntry(d: BinaryDeserializer) returns (r: Result<ListEntry, ReadError>)
    requires d.reader.offset >= 0
    modifies d.reader
    ensures Matches(r, d.reader.offset, ListEntryAt(d.reader.dv, old(d.reader.offset)))
  {
    var _ :- d.ExpectFieldId(100);
    var offset :- d.ReadVarInt();
    var _ :- d.ExpectFieldId(101);
    var length :- d.ReadVarInt();
    var _ :- d.ExpectObjectEnd();
    return Success(ListEntry(offset, length));
  }

  method ReadListEntryList(d: BinaryDeserializer) returns (r: Result<seq<ListEntry>, ReadError>)
    requires d.reader.offset >= 0
    modifies d.reader
    ensures Matches(r, d.reader.offset, ListEntryListAt(d.reader.dv, old(d.reader.offset)))
  {
    hide ListEntryAt, VarIntAt;
    var count :- d.ReadVarInt();
    var items, i := [], 0;
    ghost var whole := ListEntriesFrom(d.reader.dv, d.reader.offset, 0, count);
    PrependNone(whole);
    while i < count
      invariant d.reader.offset >= 0 && (0 <= i <= count || count < 0 == i)
      invariant Prepend(items, ListEntriesFrom(d.reader.dv, d.reader.offset, i, count)) == whole
    {
      var item :- ReadListEntry(d);
      PrependItem(items, item, ListEntriesFrom(d.reader.dv, d.reader.offset, i + 1, count));
      items, i := items + [item], i + 1;
    }
    assert items + [] == items;
    return Success(items);
  }

  // ----- types

  method ReadType(d: BinaryDeserializer) returns (r: Result<LogicalType, ReadError>)
    requires d.reader.offset >= 0
    modifies d.reader
    ensures Matches(r, d.reader.offset, TypeAt(d.reader.dv, old(d.reader.offset)))
    decreases |d.reader.dv| - d.reader.offset, 0
  {
    var _ :- d.ExpectFieldId(100);
    var id :- d.ReadUint8();
    var present :- d.CheckFieldId(101);
    var info := None;
    if present {
      info :- ReadNullableTypeInfo(d);
    }
    var _ :- d.ExpectObjectEnd();
    return Success(LogicalType(id, info));
  }

  method ReadNullableTypeInfo(d: BinaryDeserializer) returns (r: Result<Option<TypeInfo>, ReadError>)
    requires d.reader.offset >= 0
    modifies d.reader
    ensures Matches(r, d.reader.offset, NullableTypeInfoAt(d.reader.dv, old(d.reader.offset)))
    decreases |d.reader.dv| - d.reader.offset, 0
  {
    var present :- d.ReadUint8();
    if present == 0 { return Success(None); }
    var info :- ReadTypeInfo(d);
    return Success(Some(info));
  }

  method ReadTypeInfo(d: BinaryDeserializer) returns (r: Result<TypeInfo, ReadError>)
    requires d.reader.offset >= 0
    modifies d.reader
    ensures Matches(r, d.reader.offset, TypeInfoAt(d.reader.dv, old(d.reader.offset)))
    decreases |d.reader.dv| - d.reader.offset, 0
  {
    var _ :- d.ExpectFieldId(100);
    var typeInfoType :- d.ReadUint8();
    var hasAlias :- d.CheckFieldId(101);
    var alias := [];
    if hasAlias {
      alias :- d.ReadData();
    }
    var hasModifiers :- d.CheckFieldId(102);
    if hasModifiers { return Failure(UnsupportedModifiers); }
    var detail :- ReadTypeDetail(d, typeInfoType);
    var _ :- d.ExpectObjectEnd();
    return Success(TypeInfo(if alias == [] then None else Some(alias), detail));
  }

  /** The switch of the type info reader. */
  method ReadTypeDetail(d: BinaryDeserializer, typeInfoType: byte) returns (r: Result<TypeDetail, ReadError>)
    requires d.reader.offset >= 0
    modifies d.reader
    ensures Matches(r, d.reader.offset, TypeDetailAt(d.reader.dv, old(d.reader.offset), typeInfoType))
    decreases |d.reader.dv| - d.reader.offset, 0
  {
    match typeInfoType
    case 1 => return Success(Generic);
    case 2 =>
      var width, scale: byte := 0, 0;
      var hasWidth :- d.CheckFieldId(200);
      if hasWidth {
        width :- d.ReadUint8();
      }
      var hasScale :- d.CheckFieldId(201);
      if hasScale {
        scale :- d.ReadUint8();
      }
      return Success(Decimal(width, scale));
    case 4 =>
      var _ :- d.ExpectFieldId(200);
      var childType :- ReadType(d);
      return Success(List(childType));
    case 5 =>
      var _ :- d.ExpectFieldId(200);
      var childTypes :- ReadStructEntryList(d);
      return Success(Struct(childTypes));
    case 6 =>
      var _ :- d.ExpectFieldId(200);
      var valuesCount :- d.ReadVarInt();
      var _ :- d.ExpectFieldId(201);
      var values :- ReadDataList(d);
      return Success(Enum(valuesCount, values));
    case 9 =>
      var size := 0;
      var _ :- d.ExpectFieldId(200);
      var childType :- ReadType(d);
      var hasSize :- d.CheckFieldId(201);
      if hasSize {
        size :- d.ReadVarInt();
      }
      return Success(Array(childType, size));
    case _ => return Failure(UnsupportedTypeInfo(typeInfoType));
  }

  method ReadStructEntry(d: BinaryDeserializer) returns (r: Result<Field, ReadError>)
    requires d.reader.offset >= 0
    modifies d.reader
    ensures Matches(r, d.reader.offset, FieldAt(d.reader.dv, old(d.reader.offset)))
    decreases |d.reader.dv| - d.reader.offset, 0
  {
    var _ :- d.ExpectFieldId(0);
    var name :- d.ReadData();
    var _ :- d.ExpectFieldId(1);
    var fieldType :- ReadType(d);
    var _ :- d.ExpectObjectEnd();
    return Success(Field(name, fieldType));
  }

  method ReadStructEntryList(d: BinaryDeserializer) returns (r: Result<seq<Field>, ReadError>)
    requires d.reader.offset >= 0
    modifies d.reader
    ensures match VarIntAt(d.reader.dv, old(d.reader.offset))
            case Success(c) => Matches(r, d.reader.offset, FieldsFrom(d.reader.dv, c.1, 0, c.0))
            case Failure(e) => r == Failure(e)
    decreases |d.reader.dv| - d.reader.offset, 1
  {
    hide FieldAt, VarIntAt;
    var count :- d.ReadVarInt();
    var items, i := [], 0;
    ghost var whole := FieldsFrom(d.reader.dv, d.reader.offset, 0, count);
    PrependNone(whole);
    while i < count
      invariant d.reader.offset > old(d.reader.offset) && (0 <= i <= count || count < 0 == i)
      invariant Prepend(items, FieldsFrom(d.reader.dv, d.reader.offset, i, count)) == whole
      invariant d.reader.offset <= |d.reader.dv|
    {
      var item :- ReadStructEntry(d);
      PrependItem(items, item, FieldsFrom(d.reader.dv, d.reader.offset, i + 1, count));
      items, i := items + [item], i + 1;
    }
    assert items + [] == items;
    return Success(items);
  }

  method ReadTypeList(d: BinaryDeserializer) returns (r: Result<seq<LogicalType>, ReadError>)
    requires d.reader.offset >= 0
    modifies d.reader
    ensures Matches(r, d.reader.offset, TypeListAt(d.reader.dv, old(d.reader.offset)))
  {
    hide TypeAt, VarIntAt;
    var count :- d.ReadVarInt();
    var items, i := [], 0;
    ghost var whole := TypesFrom(d.reader.dv, d.reader.offset, 0, count);
    PrependNone(whole);
    while i < count
      invariant d.reader.offset >= 0 && (0 <= i <= count || count < 0 == i)
      invariant Prepend(items, TypesFrom(d.reader.dv, d.reader.offset, i, count)) == whole
    {
      var item :- ReadType(d);
      PrependItem(items, item, TypesFrom(d.reader.dv, d.reader.offset, i + 1, count));
      items, i := items + [item], i + 1;
    }
    assert items + [] == items;
    return Success(items);
  }

  // ----- vectors

  method ReadVector(d: BinaryDeserializer, t: Option<LogicalType>) returns (r: Result<Vector, ReadError>)
    requires d.reader.offset >= 0
    modifies d.reader
    ensures Matches(r, d.reader.offset, VectorAt(d.reader.dv, old(d.reader.offset), t))
    decreases |d.reader.dv| - d.reader.offset, 0
  {
    var _ :- d.ExpectFieldId(100);
    var allValid :- d.ReadUint8();
    var validity := None;
    if allValid != 0 {
      var _ :- d.ExpectFieldId(101);
      var words :- d.ReadData();
      validity := Some(words);
    }
    if t.None? { return Failure(UndefinedType); }
    var content :- ReadContent(d, t.value);
    var _ :- d.ExpectObjectEnd();
    return Success(Vector(allValid, validity, content));
  }

  /** The switch of the vector reader. */
  method ReadContent(d: BinaryDeserializer, t: LogicalType) returns (r: Result<Content, ReadError>)
    requires d.reader.offset >= 0
    modifies d.reader
    ensures Matches(r, d.reader.offset, ContentAt(d.reader.dv, old(d.reader.offset), t))
    decreases |d.reader.dv| - d.reader.offset, 0
  {
    match StorageOf(t.id)
    case FixedWidth =>
      var _ :- d.ExpectFieldId(102);
      var data :- d.ReadData();
      return Success(Data(data));
    case StringList =>
      var _ :- d.ExpectFieldId(102);
      var data :- ReadDataList(d);
      return Success(Strings(data));
    case BlobList =>
      var _ :- d.ExpectFieldId(102);
      var data :- ReadDataList(d);
      return Success(Blobs(data));
    case VectorList =>
      if t.info.None? { return Failure(MissingTypeInfo); }
      if !t.info.value.detail.Struct? { return Failure(WrongTypeInfoKind); }
      var types := FieldTypes(t.info.value.detail.fields);
      var _ :- d.ExpectFieldId(103);
      var data :- ReadVectorList(d, types);
      return Success(Vectors(data));
    case ListVector =>
      if t.info.None? { return Failure(MissingTypeInfo); }
      if !t.info.value.detail.List? { return Failure(WrongTypeInfoKind); }
      var _ :- d.ExpectFieldId(104);
      var listSize :- d.ReadVarInt();
      var _ :- d.ExpectFieldId(105);
      var entries :- ReadListEntryList(d);
      var _ :- d.ExpectFieldId(106);
      var child :- ReadVector(d, Some(t.info.value.detail.child));
      return Success(Lists(listSize, entries, child));
    case ArrayVector =>
      if t.info.None? { return Failure(MissingTypeInfo); }
      if !t.info.value.detail.Array? { return Failure(WrongTypeInfoKind); }
      var _ :- d.ExpectFieldId(103);
      var arraySize :- d.ReadVarInt();
      var _ :- d.ExpectFieldId(104);
      var child :- ReadVector(d, Some(t.info.value.detail.element));
      return Success(Arrays(arraySize, child));
    case NoStorage => return Failure(UnrecognizedTypeId(t.id));
  }

  method ReadVectorList(d: BinaryDeserializer, types: seq<LogicalType>) returns (r: Result<seq<Vector>, ReadError>)
    requires d.reader.offset >= 0
    modifies d.reader
    ensures match VarIntAt(d.reader.dv, old(d.reader.offset))
            case Success(c) => Matches(r, d.reader.offset, VectorsFrom(d.reader.dv, c.1, types, 0, c.0))
            case Failure(e) => r == Failure(e)
    decreases |d.reader.dv| - d.reader.offset, 1
  {
    hide VectorAt, VarIntAt;
    var count :- d.ReadVarInt();
    var items, i := [], 0;
    ghost var whole := VectorsFrom(d.reader.dv, d.reader.offset, types, 0, count);
    PrependNone(whole);
    while i < count
      invariant d.reader.offset > old(d.reader.offset) && (0 <= i <= count || count < 0 == i)
      invariant Prepend(items, VectorsFrom(d.reader.dv, d.reader.offset, types, i, count)) == whole
      invariant d.reader.offset <= |d.reader.dv|
    {
      var item :- ReadVector(d, TypeOrNone(types, i));
      PrependItem(items, item, VectorsFrom(d.reader.dv, d.reader.offset, types, i + 1, count));
      items, i := items + [item], i + 1;
    }
    assert items + [] == items;
    return Success(items);
  }

  // ----- results

  method ReadTokenizeResult(d: BinaryDeserializer) returns (r: Result<TokenizeResult, ReadError>)
    requires d.reader.offset >= 0
    modifies d.reader
    ensures Matches(r, d.reader.offset, TokenizeResultAt(d.reader.dv, old(d.reader.offset)))
  {
    var _ :- d.ExpectFieldId(100);
    var offsets :- ReadVarIntList(d);
    var _ :- d.ExpectFieldId(101);
    var types :- ReadVarIntList(d);
    var _ :- d.ExpectObjectEnd();
    return Success(TokenizeResult(offsets, types));
  }

  method ReadColumnNamesAndTypes(d: BinaryDeserializer) returns (r: Result<ColumnNamesAndTypes, ReadError>)
    requires d.reader.offset >= 0
    modifies d.reader
    ensures Matches(r, d.reader.offset, ColumnNamesAndTypesAt(d.reader.dv, old(d.reader.offset)))
  {
    var _ :- d.ExpectFieldId(100);
    var names :- ReadDataList(d);
    var _ :- d.ExpectFieldId(101);
    var types :- ReadTypeList(d);
    var _ :- d.ExpectObjectEnd();
    return Success(ColumnNamesAndTypes(names, types));
  }

  method ReadChunk(d: BinaryDeserializer, types: seq<LogicalType>) returns (r: Result<Chunk, ReadError>)
    requires d.reader.offset >= 0
    modifies d.reader
    ensures Matches(r, d.reader.offset, ChunkAt(d.reader.dv, old(d.reader.offset), types))
  {
    var _ :- d.ExpectFieldId(100);
    var rowCount :- d.ReadVarInt();
    var _ :- d.ExpectFieldId(101);
    var vectors :- ReadVectorList(d, types);
    var _ :- d.ExpectObjectEnd();
    return Success(Chunk(rowCount, vectors));
  }

  method ReadDataChunkList(d: BinaryDeserializer, types: seq<LogicalType>) returns (r: Result<seq<Chunk>, ReadError>)
    requires d.reader.offset >= 0
    modifies d.reader
    ensures Matches(r, d.reader.offset, ChunkListAt(d.reader.dv, old(d.reader.offset), types))
  {
    hide ChunkAt, VarIntAt;
    var count :- d.ReadVarInt();
    var items, i := [], 0;
    ghost var whole := ChunksFrom(d.reader.dv, d.reader.offset, types, 0, count);
    PrependNone(whole);
    while i < count
      invariant d.reader.offset >= 0 && (0 <= i <= count || count < 0 == i)
      invariant Prepend(items, ChunksFrom(d.reader.dv, d.reader.offset, types, i, count)) == whole
    {
      var item :- ReadChunk(d, types);
      PrependItem(items, item, ChunksFrom(d.reader.dv, d.reader.offset, types, i + 1, count));
      items, i := items + [item], i + 1;
    }
    assert items + [] == items;
    return Success(items);
  }

  method ReadQueryResult(d: BinaryDeserializer) returns (r: Result<QueryResult, ReadError>)
    requires d.reader.offset >= 0
    modifies d.reader
    ensures Matches(r, d.reader.offset, QueryResultAt(d.reader.dv, old(d.reader.offset)))
  {
    var _ :- d.ExpectFieldId(100);
    var success :- d.ReadUint8();
    var _ :- d.ExpectFieldId(101);
    if success != 0 {
      var columnNamesAndTypes :- ReadColumnNamesAndTypes(d);
      var _ :- d.ExpectFieldId(102);
      var chunks :- ReadDataChunkList(d, columnNamesAndTypes.types);
      return Success(SuccessResult(columnNamesAndTypes, chunks));
    }
    var error :- d.ReadData();
    return Success(ErrorResult(error));
  }
}
