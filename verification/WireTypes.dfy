/** The decoded form of a query response: types, vectors, chunks and results. */
module WireTypes {
  import opened Wrappers
  import opened Words

  /** A logical type: its id and, for some ids, extra information. */
  datatype LogicalType = LogicalType(id: byte, info: Option<TypeInfo>)

  datatype TypeInfo = TypeInfo(alias: Option<Bytes>, detail: TypeDetail)

  datatype TypeDetail =
    | Generic
    | Decimal(width: byte, scale: byte)
    | List(child: LogicalType)
    | Struct(fields: seq<Field>)
    | Enum(valuesCount: int, values: seq<Bytes>)
    | Array(element: LogicalType, size: int)

  datatype Field = Field(name: Bytes, fieldType: LogicalType)

  datatype ListEntry = ListEntry(offset: int, length: int)

  /** A column of values. `validity` holds 64-bit words, one bit a row. */
  datatype Vector = Vector(allValid: byte, validity: Option<Bytes>, content: Content)

  datatype Content =
    | Data(bytes: Bytes)
    | Strings(strings: seq<Bytes>)
    | Blobs(blobs: seq<Bytes>)
    | Vectors(children: seq<Vector>)
    | Lists(listSize: int, entries: seq<ListEntry>, child: Vector)
    | Arrays(arraySize: int, element: Vector)

  datatype ColumnNamesAndTypes = ColumnNamesAndTypes(names: seq<Bytes>, types: seq<LogicalType>)

  datatype Chunk = Chunk(rowCount: int, vectors: seq<Vector>)

  datatype QueryResult =
    | SuccessResult(columns: ColumnNamesAndTypes, chunks: seq<Chunk>)
    | ErrorResult(message: Bytes)

  datatype TokenizeResult = TokenizeResult(offsets: seq<int>, types: seq<int>)

  /** What a reader throws. */
  datatype ReadError =
    | OutOfRange
    | UnexpectedField(expected: nat, actual: nat)
    | UnsupportedModifiers
    | UnsupportedTypeInfo(infoType: byte)
    | UndefinedType
    | MissingTypeInfo
    | WrongTypeInfoKind
    | UnrecognizedTypeId(id: byte)

  // Ids of logical types.
  const BOOLEAN: byte := 10
  const TINYINT: byte := 11
  const SMALLINT: byte := 12
  const INTEGER: byte := 13
  const BIGINT: byte := 14
  const DATE: byte := 15
  const TIME: byte := 16
  const TIMESTAMP_SEC: byte := 17
  const TIMESTAMP_MS: byte := 18
  const TIMESTAMP: byte := 19
  const TIMESTAMP_NS: byte := 20
  const DECIMAL: byte := 21
  const FLOAT: byte := 22
  const DOUBLE: byte := 23
  const CHAR: byte := 24
  const VARCHAR: byte := 25
  const BLOB: byte := 26
  const INTERVAL: byte := 27
  const UTINYINT: byte := 28
  const USMALLINT: byte := 29
  const UINTEGER: byte := 30
  const UBIGINT: byte := 31
  const TIMESTAMP_TZ: byte := 32
  const TIME_TZ: byte := 34
  const BIT: byte := 36
  const BIGNUM: byte := 39
  const UHUGEINT: byte := 49
  const HUGEINT: byte := 50
  const UUID: byte := 54
  const STRUCT: byte := 100
  const LIST: byte := 101
  const MAP: byte := 102
  const ENUM: byte := 104
  const UNION: byte := 107
  const ARRAY: byte := 108

  /** How the rows of a vector are stored; chosen by the type id alone. */
  datatype Storage = FixedWidth | StringList | BlobList | VectorList | ListVector | ArrayVector | NoStorage

  function StorageOf(id: byte): Storage {
    if BOOLEAN <= id <= DOUBLE || id == INTERVAL || UTINYINT <= id <= TIMESTAMP_TZ || id == TIME_TZ
       || id == UHUGEINT || id == HUGEINT || id == UUID || id == ENUM then FixedWidth
    else if id == CHAR || id == VARCHAR then StringList
    else if id == BLOB || id == BIT || id == BIGNUM then BlobList
    else if id == STRUCT || id == UNION then VectorList
    else if id == LIST || id == MAP then ListVector
    else if id == ARRAY then ArrayVector
    else NoStorage
  }

  function FieldTypes(fields: seq<Field>): (r: seq<LogicalType>)
    ensures |r| == |fields| && forall i :: 0 <= i < |r| ==> r[i] == fields[i].fieldType
  {
    seq(|fields|, i requires 0 <= i < |fields| => fields[i].fieldType)
  }
}
