/**
 * The writer side of the layout: field ids and order of the results, chunks, types and vectors that the readers expect.
 *
 * A field that holds its default value may be written or left out. Which of them are written is given by an arbitrary
 * `Choice`, asked once for each such field, at its own path from the root.
 */
module WireWriters {
  import opened Wrappers
  import opened Words
  import opened WireTypes
  import opened WireReaders

  type Path = seq<nat>
  type Choice = Path -> bool

  /** Counts, lengths and offsets for which a variable-length integer is read back exactly. */
  const LIMIT := 0x8000_0000

  predicate Small(n: int) {
    0 <= n < LIMIT
  }

  function Id(id: nat): (r: Bytes)
    requires id < 0x1_0000
    ensures |r| == 2
  {
    [id % 0x100, id / 0x100]
  }

  /** Unsigned LEB128: seven bits a byte, least significant first, the top bit set on all bytes but the last. */
  function VarInt(n: nat): (r: Bytes)
    ensures |r| >= 1
  {
    if n < 0x80 then [n] else [0x80 + n % 0x80] + VarInt(n / 0x80)
  }

  function DataBytes(d: Bytes): Bytes {
    VarInt(|d|) + d
  }

  function Items<T>(xs: seq<T>, enc: T -> Bytes): Bytes {
    if xs == [] then [] else enc(xs[0]) + Items(xs[1..], enc)
  }

  function ListBytes<T>(xs: seq<T>, enc: T -> Bytes): Bytes {
    VarInt(|xs|) + Items(xs, enc)
  }

  /** As VarInt; negative numbers, which are never written, are left out. */
  function VarIntItem(n: int): Bytes {
    if n < 0 then [] else VarInt(n)
  }

  function EntryBytes(e: ListEntry): Bytes {
    Id(100) + VarIntItem(e.offset) + Id(101) + VarIntItem(e.length) + Id(OBJECT_END)
  }

  // ----- types

  function TypeBytes(t: LogicalType, c: Choice, at: Path): Bytes
    decreases t, 0
  {
    Id(100) + [t.id] + InfoBytes(t.info, c, at + [101]) + Id(OBJECT_END)
  }

  function InfoBytes(info: Option<TypeInfo>, c: Choice, at: Path): Bytes
    decreases info, 0
  {
    match info
    case None => if c(at) then Id(101) + [0] else []
    case Some(i) => Id(101) + ([1] + TypeInfoBytes(i, c, at))
  }

  function InfoType(d: TypeDetail): byte {
    match d
    case Generic => 1
    case Decimal(_, _) => 2
    case List(_) => 4
    case Struct(_) => 5
    case Enum(_, _) => 6
    case Array(_, _) => 9
  }

  function TypeInfoBytes(i: TypeInfo, c: Choice, at: Path): Bytes
    decreases i, 0
  {
    Id(100) + [InfoType(i.detail)] + AliasBytes(i.alias, c, at + [101])
    + (DetailBytes(i.detail, c, at) + Id(OBJECT_END))
  }

  function AliasBytes(alias: Option<Bytes>, c: Choice, at: Path): Bytes {
    match alias
    case None => if c(at) then Id(101) + DataBytes([]) else []
    case Some(name) => Id(101) + DataBytes(name)
  }

  function DetailBytes(d: TypeDetail, c: Choice, at: Path): Bytes
    decreases d, 0
  {
    match d
    case Generic => []
    case Decimal(width, scale) =>
      ByteOrDefault(200, width, c, at + [200]) + ByteOrDefault(201, scale, c, at + [201])
    case List(child) => Id(200) + TypeBytes(child, c, at + [200])
    case Struct(fields) => Id(200) + VarInt(|fields|) + FieldsBytes(fields, c, at + [200])
    case Enum(valuesCount, values) => Id(200) + VarIntItem(valuesCount) + Id(201) + ListBytes(values, DataBytes)
    case Array(element, size) =>
      Id(200) + TypeBytes(element, c, at + [200])
      + SizeBytes(size, c, at + [201])
  }

  function SizeBytes(size: int, c: Choice, at: Path): Bytes {
    if size == 0 && !c(at) then [] else Id(201) + VarIntItem(size)
  }

  function ByteOrDefault(id: nat, x: byte, c: Choice, at: Path): Bytes
    requires id < 0x1_0000
  {
    if x == 0 && !c(at) then [] else Id(id) + [x]
  }

  function FieldBytes(f: Field, c: Choice, at: Path): Bytes
    decreases f, 0
  {
    Id(0) + DataBytes(f.name) + Id(1) + TypeBytes(f.fieldType, c, at) + Id(OBJECT_END)
  }

  function FieldsBytes(fields: seq<Field>, c: Choice, at: Path): Bytes
    decreases fields, 0
  {
    if fields == [] then []
    else FieldBytes(fields[0], c, at + [|fields|]) + FieldsBytes(fields[1..], c, at)
  }

  function TypesBytes(types: seq<LogicalType>, c: Choice, at: Path): Bytes {
    if types == [] then []
    else TypeBytes(types[0], c, at + [|types|]) + TypesBytes(types[1..], c, at)
  }

  // ----- vectors

  function VectorBytes(v: Vector): Bytes
    decreases v, 0
  {
    Id(100) + [v.allValid] + ValidityBytes(v.validity) + ContentBytes(v.content) + Id(OBJECT_END)
  }

  function ValidityBytes(validity: Option<Bytes>): Bytes {
    match validity
    case None => []
    case Some(words) => Id(101) + DataBytes(words)
  }

  function ContentBytes(content: Content): Bytes
    decreases content, 0
  {
    match content
    case Data(bytes) => Id(102) + DataBytes(bytes)
    case Strings(strings) => Id(102) + ListBytes(strings, DataBytes)
    case Blobs(blobs) => Id(102) + ListBytes(blobs, DataBytes)
    case Vectors(children) => Id(103) + VarInt(|children|) + VectorsBytes(children)
    case Lists(listSize, entries, child) =>
      Id(104) + VarIntItem(listSize) + Id(105) + ListBytes(entries, EntryBytes) + Id(106) + VectorBytes(child)
    case Arrays(arraySize, element) => Id(103) + VarIntItem(arraySize) + Id(104) + VectorBytes(element)
  }

  function VectorsBytes(vectors: seq<Vector>): Bytes
    decreases vectors, 0
  {
    if vectors == [] then [] else VectorBytes(vectors[0]) + VectorsBytes(vectors[1..])
  }

  // ----- results

  function TokenizeResultBytes(r: TokenizeResult): Bytes {
    Id(100) + ListBytes(r.offsets, VarIntItem) + Id(101) + ListBytes(r.types, VarIntItem) + Id(OBJECT_END)
  }

  function ColumnsBytes(r: ColumnNamesAndTypes, c: Choice, at: Path): Bytes {
    Id(100) + ListBytes(r.names, DataBytes) + Id(101) + VarInt(|r.types|) + TypesBytes(r.types, c, at) + Id(OBJECT_END)
  }

  function ChunkBytes(chunk: Chunk): Bytes {
    Id(100) + VarIntItem(chunk.rowCount) + Id(101) + VarInt(|chunk.vectors|) + VectorsBytes(chunk.vectors)
    + Id(OBJECT_END)
  }

  /** A query result without the outer end marker, which the reader leaves unread. */
  function QueryResultBytes(r: QueryResult, c: Choice): Bytes {
    match r
    case SuccessResult(columns, chunks) =>
      Id(100) + [1] + Id(101) + ColumnsBytes(columns, c, []) + Id(102) + ListBytes(chunks, ChunkBytes)
    case ErrorResult(message) => Id(100) + [0] + Id(101) + DataBytes(message)
  }

  // ----- what can be written

  predicate TypeFits(t: LogicalType)
    decreases t, 0
  {
    match t.info
    case None => true
    case Some(i) =>
      (match i.alias
       case None => true
       case Some(name) => name != [] && Small(|name|))
      && DetailFits(i.detail)
  }

  predicate DetailFits(d: TypeDetail)
    decreases d, 0
  {
    match d
    case Generic => true
    case Decimal(_, _) => true
    case List(child) => TypeFits(child)
    case Struct(fields) => Small(|fields|) && forall f <- fields :: Small(|f.name|) && TypeFits(f.fieldType)
    case Enum(valuesCount, values) => Small(valuesCount) && Small(|values|) && forall s <- values :: Small(|s|)
    case Array(element, size) => TypeFits(element) && Small(size)
  }

  /** A vector that a column of type `t` can hold. */
  predicate VectorFits(v: Vector, t: LogicalType)
    decreases v, 0
  {
    && (v.allValid == 0 <==> v.validity.None?)
    && (v.validity.Some? ==> Small(|v.validity.value|))
    && ContentFits(v.content, t)
  }

  // The ids of the types whose vectors hold bytes, strings, blobs, vectors, lists and arrays.
  const BYTES_IDS: set<int> := {
    10, 11, 12, 13, 14, 15, 16, 17, 18, 19, 20, 21, 22, 23, 27, 28, 29, 30, 31, 32, 34, 49, 50, 54, 104}
  const STRINGS_IDS: set<int> := {24, 25}
  const BLOBS_IDS: set<int> := {26, 36, 39}
  const VECTORS_IDS: set<int> := {100, 107}
  const LISTS_IDS: set<int> := {101, 102}
  const ARRAYS_IDS: set<int> := {108}

  predicate ContentFits(content: Content, t: LogicalType)
    decreases content, 0
  {
    match content
    case Data(bytes) => t.id in BYTES_IDS && Small(|bytes|)
    case Strings(strings) => t.id in STRINGS_IDS && Small(|strings|) && forall s <- strings :: Small(|s|)
    case Blobs(blobs) => t.id in BLOBS_IDS && Small(|blobs|) && forall s <- blobs :: Small(|s|)
    case Vectors(children) =>
      && t.id in VECTORS_IDS && t.info.Some? && t.info.value.detail.Struct?
      && VectorsFit(children, FieldTypes(t.info.value.detail.fields))
    case Lists(listSize, entries, child) =>
      && t.id in LISTS_IDS && t.info.Some? && t.info.value.detail.List?
      && Small(listSize) && Small(|entries|) && (forall e <- entries :: Small(e.offset) && Small(e.length))
      && VectorFits(child, t.info.value.detail.child)
    case Arrays(arraySize, element) =>
      && t.id in ARRAYS_IDS && t.info.Some? && t.info.value.detail.Array?
      && Small(arraySize) && VectorFits(element, t.info.value.detail.element)
  }

  lemma KindOfId(id: byte)
    ensures StorageOf(id) == if id in BYTES_IDS then FixedWidth else if id in STRINGS_IDS then StringList
                             else if id in BLOBS_IDS then BlobList else if id in VECTORS_IDS then VectorList
                             else if id in LISTS_IDS then ListVector else if id in ARRAYS_IDS then ArrayVector else NoStorage
  {}

  predicate VectorsFit(vectors: seq<Vector>, types: seq<LogicalType>)
    decreases vectors, 0
  {
    Small(|vectors|) && |vectors| == |types| && forall i :: 0 <= i < |vectors| ==> VectorFits(vectors[i], types[i])
  }

  predicate ChunkFits(chunk: Chunk, types: seq<LogicalType>) {
    Small(chunk.rowCount) && VectorsFit(chunk.vectors, types)
  }

  predicate QueryResultFits(r: QueryResult) {
    match r
    case SuccessResult(columns, chunks) =>
      && Small(|columns.names|) && (forall n <- columns.names :: Small(|n|))
      && Small(|columns.types|) && (forall t <- columns.types :: TypeFits(t))
      && Small(|chunks|) && forall chunk <- chunks :: ChunkFits(chunk, columns.types)
    case ErrorResult(message) => Small(|message|)
  }
}
