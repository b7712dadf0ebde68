/**
 * What is read from arbitrary bytes is no larger than the bytes it was read from: every node of a decoded result, and
 * every byte of every view in it, is paid for by a byte of the buffer, so that loops and recursion are bounded too.
 */
module WireBounds {
  import opened Wrappers
  import opened Words
  import opened WireTypes
  import opened WireReaders

  // ----- sizes: the nodes of a value, and the bytes of its views

  function DatasSize(xs: seq<Bytes>): nat {
    if xs == [] then 0 else 1 + |xs[0]| + DatasSize(xs[1..])
  }

  function TypeSize(t: LogicalType): nat {
    1 + if t.info.None? then 0 else TypeInfoSize(t.info.value)
  }

  function TypeInfoSize(i: TypeInfo): nat {
    1 + (if i.alias.None? then 0 else |i.alias.value|) + DetailSize(i.detail)
  }

  function DetailSize(d: TypeDetail): nat {
    match d
    case List(child) => TypeSize(child)
    case Struct(fields) => FieldsSize(fields)
    case Enum(_, values) => DatasSize(values)
    case Array(element, _) => TypeSize(element)
    case _ => 0
  }

  function FieldsSize(fields: seq<Field>): nat {
    if fields == [] then 0 else |fields[0].name| + TypeSize(fields[0].fieldType) + FieldsSize(fields[1..])
  }

  function TypesSize(types: seq<LogicalType>): nat {
    if types == [] then 0 else TypeSize(types[0]) + TypesSize(types[1..])
  }

  function VectorSize(v: Vector): nat {
    1 + (if v.validity.None? then 0 else |v.validity.value|) + ContentSize(v.content)
  }

  function ContentSize(content: Content): nat {
    match content
    case Data(bytes) => |bytes|
    case Strings(strings) => DatasSize(strings)
    case Blobs(blobs) => DatasSize(blobs)
    case Vectors(children) => VectorsSize(children)
    case Lists(_, entries, child) => |entries| + VectorSize(child)
    case Arrays(_, element) => VectorSize(element)
  }

  function VectorsSize(vectors: seq<Vector>): nat {
    if vectors == [] then 0 else VectorSize(vectors[0]) + VectorsSize(vectors[1..])
  }

  function ChunksSize(chunks: seq<Chunk>): nat {
    if chunks == [] then 0 else 1 + VectorsSize(chunks[0].vectors) + ChunksSize(chunks[1..])
  }

  function QueryResultSize(r: QueryResult): nat {
    match r
    case SuccessResult(columns, chunks) => 1 + DatasSize(columns.names) + TypesSize(columns.types) + ChunksSize(chunks)
    case ErrorResult(message) => 1 + |message|
  }

  // ----- each is at most the number of bytes read

  lemma DataBounded(b: Bytes, p: nat)
    ensures DataAt(b, p).Success? ==> p + 1 + |DataAt(b, p).value.0| <= DataAt(b, p).value.1
  {
    hide VarIntAt;
  }

  lemma {:induction false} DatasBounded(b: Bytes, p: nat, i: nat, count: int)
    ensures var r := DatasFrom(b, p, i, count); r.Success? ==> p + DatasSize(r.value.0) <= r.value.1
    decreases |b| - p
  {
    hide DataAt;
    if i < count && DataAt(b, p).Success? {
      DataBounded(b, p);
      DatasBounded(b, DataAt(b, p).value.1, i + 1, count);
    }
  }

  lemma DataListBounded(b: Bytes, p: nat)
    ensures var r := DataListAt(b, p); r.Success? ==> p + 1 + DatasSize(r.value.0) <= r.value.1
  {
    hide VarIntAt, DatasFrom;
    if VarIntAt(b, p).Success? {
      var (count, q) := VarIntAt(b, p).value;
      DatasBounded(b, q, 0, count);
    }
  }

  lemma {:induction false} TypeBounded(b: Bytes, p: nat)
    ensures var r := TypeAt(b, p); r.Success? ==> p + TypeSize(r.value.0) <= r.value.1
    decreases |b| - p, 0
  {
    hide ExpectAt, CheckAt, NullableTypeInfoAt;
    if TypeAt(b, p).Success? {
      var p3 := CheckAt(b, p + 3, 101).value.1;
      if CheckAt(b, p + 3, 101).value.0 { NullableTypeInfoBounded(b, p3); }
    }
  }

  lemma {:induction false} NullableTypeInfoBounded(b: Bytes, p: nat)
    ensures var r := NullableTypeInfoAt(b, p);
            r.Success? && r.value.0.Some? ==> p + TypeInfoSize(r.value.0.value) <= r.value.1
    decreases |b| - p, 0
  {
    hide TypeInfoAt;
    if NullableTypeInfoAt(b, p).Success? && b[p] != 0 { TypeInfoBounded(b, p + 1); }
  }

  lemma {:induction false} TypeInfoBounded(b: Bytes, p: nat)
    ensures var r := TypeInfoAt(b, p); r.Success? ==> p + TypeInfoSize(r.value.0) <= r.value.1
    decreases |b| - p, 0
  {
    hide ExpectAt, CheckAt, DataAt, TypeDetailAt;
    if TypeInfoAt(b, p).Success? {
      var (hasAlias, p3) := CheckAt(b, p + 3, 101).value;
      var p4 := p3;
      if hasAlias {
        DataBounded(b, p3);
        p4 := DataAt(b, p3).value.1;
      }
      DetailBounded(b, CheckAt(b, p4, 102).value.1, b[p + 2]);
    }
  }

  lemma {:induction false} DetailBounded(b: Bytes, p: nat, infoType: byte)
    ensures var r := TypeDetailAt(b, p, infoType); r.Success? ==> p + DetailSize(r.value.0) <= r.value.1
    decreases |b| - p, 0
  {
    hide ExpectAt, CheckAt, TypeAt, VarIntAt, FieldsFrom, DataListAt;
    if TypeDetailAt(b, p, infoType).Success? {
      if infoType == 4 || infoType == 9 {
        TypeBounded(b, p + 2);
      } else if infoType == 5 {
        var (count, p2) := VarIntAt(b, p + 2).value;
        FieldsBounded(b, p2, 0, count);
      } else if infoType == 6 {
        DataListBounded(b, VarIntAt(b, p + 2).value.1 + 2);
      }
    }
  }

  lemma {:induction false} FieldBounded(b: Bytes, p: nat)
    ensures var r := FieldAt(b, p);
            r.Success? ==> p + |r.value.0.name| + TypeSize(r.value.0.fieldType) <= r.value.1
    decreases |b| - p, 0
  {
    hide ExpectAt, DataAt, TypeAt;
    if FieldAt(b, p).Success? {
      DataBounded(b, p + 2);
      TypeBounded(b, DataAt(b, p + 2).value.1 + 2);
    }
  }

  lemma {:induction false} FieldsBounded(b: Bytes, p: nat, i: nat, count: int)
    ensures var r := FieldsFrom(b, p, i, count); r.Success? ==> p + FieldsSize(r.value.0) <= r.value.1
    decreases |b| - p, 1
  {
    hide FieldAt, TypeSize;
    if i < count && FieldAt(b, p).Success? {
      FieldBounded(b, p);
      FieldsBounded(b, FieldAt(b, p).value.1, i + 1, count);
    }
  }

  lemma {:induction false} TypesBounded(b: Bytes, p: nat, i: nat, count: int)
    ensures var r := TypesFrom(b, p, i, count); r.Success? ==> p + TypesSize(r.value.0) <= r.value.1
    decreases |b| - p
  {
    hide TypeAt, TypeSize;
    if i < count && TypeAt(b, p).Success? {
      TypeBounded(b, p);
      TypesBounded(b, TypeAt(b, p).value.1, i + 1, count);
    }
  }

  lemma {:induction false} VectorBounded(b: Bytes, p: nat, t: Option<LogicalType>)
    ensures var r := VectorAt(b, p, t); r.Success? ==> p + VectorSize(r.value.0) <= r.value.1
    decreases |b| - p, 0
  {
    hide ExpectAt, ValidityAt, ContentAt, ContentSize;
    if VectorAt(b, p, t).Success? {
      ValidityBounded(b, p + 3, b[p + 2]);
      ContentBounded(b, ValidityAt(b, p + 3, b[p + 2]).value.1, t.value);
    }
  }

  lemma ValidityBounded(b: Bytes, p: nat, allValid: byte)
    ensures var r := ValidityAt(b, p, allValid);
            r.Success? && r.value.0.Some? ==> p + |r.value.0.value| <= r.value.1
  {}

  lemma {:induction false} ContentBounded(b: Bytes, p: nat, t: LogicalType)
    ensures var r := ContentAt(b, p, t); r.Success? ==> p + ContentSize(r.value.0) <= r.value.1
    decreases |b| - p, 0
  {
    hide ExpectAt, DataAt, DataListAt, VarIntAt, VectorsFrom, VectorAt, ListEntryListAt, FieldTypes;
    if ContentAt(b, p, t).Success? {
      match StorageOf(t.id)
      case FixedWidth => DataBounded(b, p + 2);
      case StringList => DataListBounded(b, p + 2);
      case BlobList => DataListBounded(b, p + 2);
      case VectorList =>
        var (count, p2) := VarIntAt(b, p + 2).value;
        VectorsBounded(b, p2, FieldTypes(t.info.value.detail.fields), 0, count);
      case ListVector =>
        var p3 := VarIntAt(b, p + 2).value.1 + 2;
        EntriesBounded(b, p3);
        VectorBounded(b, ListEntryListAt(b, p3).value.1 + 2, Some(t.info.value.detail.child));
      case ArrayVector =>
        VectorBounded(b, VarIntAt(b, p + 2).value.1 + 2, Some(t.info.value.detail.element));
    }
  }

  lemma EntriesBounded(b: Bytes, p: nat)
    ensures var r := ListEntryListAt(b, p); r.Success? ==> p + |r.value.0| <= r.value.1
  {
    hide VarIntAt, ListEntriesFrom;
  }

  lemma {:induction false} VectorsBounded(b: Bytes, p: nat, types: seq<LogicalType>, i: nat, count: int)
    ensures var r := VectorsFrom(b, p, types, i, count); r.Success? ==> p + VectorsSize(r.value.0) <= r.value.1
    decreases |b| - p, 1
  {
    hide VectorAt, VectorSize;
    if i < count && VectorAt(b, p, TypeOrNone(types, i)).Success? {
      VectorBounded(b, p, TypeOrNone(types, i));
      VectorsBounded(b, VectorAt(b, p, TypeOrNone(types, i)).value.1, types, i + 1, count);
    }
  }

  lemma {:induction false} ChunksBounded(b: Bytes, p: nat, types: seq<LogicalType>, i: nat, count: int)
    ensures var r := ChunksFrom(b, p, types, i, count); r.Success? ==> p + ChunksSize(r.value.0) <= r.value.1
    decreases |b| - p
  {
    hide ChunkAt, VectorsSize;
    if i < count && ChunkAt(b, p, types).Success? {
      ChunkBounded(b, p, types);
      ChunksBounded(b, ChunkAt(b, p, types).value.1, types, i + 1, count);
    }
  }

  lemma ChunkBounded(b: Bytes, p: nat, types: seq<LogicalType>)
    ensures var r := ChunkAt(b, p, types); r.Success? ==> p + 1 + VectorsSize(r.value.0.vectors) <= r.value.1
  {
    hide ExpectAt, VarIntAt, VectorsFrom, VectorsSize;
    if ChunkAt(b, p, types).Success? {
      var p3 := VarIntAt(b, p + 2).value.1 + 2;
      var (count, q) := VarIntAt(b, p3).value;
      VectorsBounded(b, q, types, 0, count);
    }
  }

  /** A result read from any bytes is no larger than the bytes from its start to where the reader stops. */
  lemma QueryResultBounded(b: Bytes, p: nat)
    ensures var r := QueryResultAt(b, p); r.Success? ==> p + QueryResultSize(r.value.0) <= r.value.1 <= |b|
  {
    hide ExpectAt, DataAt, DataListAt, VarIntAt, TypesFrom, ChunksFrom, TypesSize, ChunksSize, DatasSize;
    if QueryResultAt(b, p).Success? {
      var p3 := p + 5;
      if b[p + 2] == 0 {
        DataBounded(b, p3);
      } else {
        ColumnsBounded(b, p3);
        var (columns, p4) := ColumnNamesAndTypesAt(b, p3).value;
        var (count, q) := VarIntAt(b, p4 + 2).value;
        ChunksBounded(b, q, columns.types, 0, count);
      }
    }
  }

  lemma ColumnsBounded(b: Bytes, p: nat)
    ensures var r := ColumnNamesAndTypesAt(b, p);
            r.Success? ==> p + DatasSize(r.value.0.names) + TypesSize(r.value.0.types) <= r.value.1
  {
    hide ExpectAt, DataListAt, VarIntAt, TypesFrom, TypesSize, DatasSize;
    if ColumnNamesAndTypesAt(b, p).Success? {
      DataListBounded(b, p + 2);
      var p3 := DataListAt(b, p + 2).value.1 + 2;
      var (count, q) := VarIntAt(b, p3).value;
      TypesBounded(b, q, 0, count);
    }
  }
}
