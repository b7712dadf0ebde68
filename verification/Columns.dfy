/** Row values from column vectors, as the client computes them. */
module Columns {
  import opened Wrappers
  import opened Words
  import opened ByteOrder
  import opened WireTypes
  import BigNum
  import Uuid

  /** A row value of the client. Undefined is what JavaScript yields past the end of a list. */
  datatype Value =
    | NullValue
    | Undefined
    | Bool(b: bool)
    | Number(n: int)
    | Float(bits: Bytes)
    | Text(text: Bytes)
    | Typed(id: byte, count: int)
    | DecimalValue(scaled: int, scale: nat)
    | BlobValue(blob: Bytes)
    | BitValue(data: Bytes)
    | IntervalValue(months: int, days: int, micros: int)
    | TimeTzValue(timeMicros: int, offset: int)
    | UuidValue(uuid: Bytes)
    | StructValue(fields: seq<StructEntry>)
    | ListValue(items: seq<Value>)
    | MapValue(entries: seq<MapEntry>)
    | ArrayValue(elements: seq<Value>)

  datatype StructEntry = StructEntry(key: Bytes, value: Value)

  datatype MapEntry = MapEntry(key: Value, value: Value)

  datatype ValueError =
    | ViewOutOfRange
    | UndefinedAccess
    | WrongVectorKind
    | MissingInfo
    | WrongInfoKind
    | WrongMapChild
    | UnsupportedDecimalWidth
    | UnsupportedEnumSize
    | NotImplemented(id: byte)

  type Outcome<+T> = Result<T, ValueError>

  // ----- numbers in a view

  function GetUint(data: Bytes, offset: int, k: nat): (r: Outcome<nat>)
    ensures r.Success? <==> 0 <= offset && offset + k <= |data|
    ensures r.Failure? ==> r.error == ViewOutOfRange
  {
    if 0 <= offset && offset + k <= |data| then Success(FromLe(data[offset..offset + k])) else Failure(ViewOutOfRange)
  }

  function GetInt(data: Bytes, offset: int, k: nat): Outcome<int> {
    var u :- GetUint(data, offset, k);
    Success(Signed(u, k))
  }

  function GetInt128(data: Bytes, offset: int): Outcome<int> {
    var lower :- GetUint(data, offset, 8);
    var upper :- GetInt(data, offset + 8, 8);
    Success(upper * Pow256(8) + lower)
  }

  function GetUInt128(data: Bytes, offset: int): Outcome<nat> {
    var lower :- GetUint(data, offset, 8);
    var upper :- GetUint(data, offset + 8, 8);
    Success(Or(lower, upper * Pow256(8)))
  }

  /** Two 64-bit reads are one 128-bit read. */
  lemma Wide(data: Bytes, offset: int)
    requires 0 <= offset && offset + 16 <= |data|
    ensures GetInt128(data, offset) == GetInt(data, offset, 16)
    ensures GetUInt128(data, offset) == GetUint(data, offset, 16)
  {
    hide FromLe, Pow2, Pow256, Or;
    var b := data[offset..offset + 16];
    assert b[..8] == data[offset..offset + 8] && b[8..] == data[offset + 8..offset + 16];
    LeSplit(b, 8);
    var low, high, m := FromLe(b[..8]), FromLe(b[8..]), Pow256(8);
    LeBound(b[..8]);
    LeBound(b[8..]);
    Pow256Add(8, 8);
    Pow256IsPow2(8);
    OrDisjoint(low, high, 64);
    EvenPower();
    WideSign(low, high, m);
  }

  lemma EvenPower()
    ensures Pow256(8) % 2 == 0
  {
  }

  lemma WideSign(low: nat, high: nat, m: nat)
    requires low < m && high < m && m % 2 == 0
    ensures high * m == m * high
    ensures 2 * (low + m * high) < m * m <==> 2 * high < m
    ensures (high - m) * m + low == low + m * high - m * m
  {
    if 2 * high < m {
      assert 2 * high <= m - 2;
      assert m * (2 * high) <= m * (m - 2);
    } else {
      assert m * (2 * high) >= m * m;
    }
  }

  // ----- validity

  predicate TestBit(w: nat, j: nat) {
    w / Pow2(j) % 2 == 1
  }

  /** Without a bitmap, every row is valid. */
  function IsRowValid(validity: Option<Bytes>, row: int): Outcome<bool> {
    if validity.None? then Success(true)
    else
      var word :- GetUint(validity.value, row / 64 * 8, 8);
      Success(TestBit(word, row % 64))
  }

  // ----- numbers of fixed width

  datatype Format = Uint(width: nat) | Sint(width: nat) | FloatBits(width: nat) | IntervalFormat(width: nat)

  function FormatOf(t: LogicalType): Outcome<Format> {
    if t.id == DECIMAL then
      if t.info.None? then Failure(MissingInfo)
      else if !t.info.value.detail.Decimal? then Failure(WrongInfoKind)
      else
        var width := t.info.value.detail.width;
        if width <= 4 then Success(Sint(2))
        else if width <= 9 then Success(Sint(4))
        else if width <= 18 then Success(Sint(8))
        else if width <= 38 then Success(Sint(16))
        else Failure(UnsupportedDecimalWidth)
    else if t.id == ENUM then
      if t.info.None? then Failure(MissingInfo)
      else if !t.info.value.detail.Enum? then Failure(WrongInfoKind)
      else
        var count := |t.info.value.detail.values|;
        if count < 0x100 then Success(Uint(1))
        else if count < 0x1_0000 then Success(Uint(2))
        else if count < 0x1_0000_0000 then Success(Uint(4))
        else Failure(UnsupportedEnumSize)
    else if t.id == BOOLEAN || t.id == UTINYINT then Success(Uint(1))
    else if t.id == TINYINT then Success(Sint(1))
    else if t.id == USMALLINT then Success(Uint(2))
    else if t.id == SMALLINT then Success(Sint(2))
    else if t.id == UINTEGER then Success(Uint(4))
    else if t.id == INTEGER || t.id == DATE then Success(Sint(4))
    else if t.id == UBIGINT || t.id == TIME_TZ then Success(Uint(8))
    else if t.id == BIGINT || TIME <= t.id <= TIMESTAMP_NS || t.id == TIMESTAMP_TZ then Success(Sint(8))
    else if t.id == UHUGEINT then Success(Uint(16))
    else if t.id == HUGEINT || t.id == UUID then Success(Sint(16))
    else if t.id == FLOAT then Success(FloatBits(4))
    else if t.id == DOUBLE then Success(FloatBits(8))
    else if t.id == INTERVAL then Success(IntervalFormat(16))
    else Failure(NotImplemented(t.id))
  }

  /** The value that a stored number of a type stands for. */
  function FromNumber(t: LogicalType, n: int): Value {
    if t.id == BOOLEAN then Bool(n != 0)
    else if t.id == DATE || TIME <= t.id <= TIMESTAMP_NS || t.id == TIMESTAMP_TZ then Typed(t.id, n)
    else if t.id == DECIMAL then
      DecimalValue(n, if t.info.Some? && t.info.value.detail.Decimal? then t.info.value.detail.scale else 0)
    else if t.id == TIME_TZ then TimeTz(n)
    else if t.id == UUID then UuidValue(ToBe(Uuid.FromStoredHugeint(n), 16))
    else if t.id == ENUM then
      if t.info.Some? && t.info.value.detail.Enum? && 0 <= n < |t.info.value.detail.values|
      then Text(t.info.value.detail.values[n]) else Undefined
    else Number(n)
  }

  const MAX_OFFSET := 57599

  /** The time in the upper 40 bits; the offset, subtracted from the largest one, in the lower 24. */
  function TimeTz(bits: int): Value {
    TimeTzValue(bits / 0x100_0000 % 0x100_0000_0000, MAX_OFFSET - bits % 0x100_0000)
  }

  /** A time and an offset of at most 15:59:59 either way are recovered from the bits they are packed in. */
  lemma TimeTzUnpacks(micros: int, offset: int)
    requires 0 <= micros < 0x100_0000_0000 && -MAX_OFFSET <= offset <= MAX_OFFSET
    ensures TimeTz(micros * 0x100_0000 + (MAX_OFFSET - offset)) == TimeTzValue(micros, offset)
  {
  }

  function FixedFrom(t: LogicalType, f: Format, data: Bytes, row: int): Outcome<Value> {
    match f
    case Uint(k) =>
      var n :- if k == 16 then GetUInt128(data, row * 16) else GetUint(data, row * k, k);
      Success(FromNumber(t, n))
    case Sint(k) =>
      var n :- if k == 16 then GetInt128(data, row * 16) else GetInt(data, row * k, k);
      Success(FromNumber(t, n))
    case FloatBits(k) =>
      var _ :- GetUint(data, row * k, k);
      Success(Float(data[row * k..row * k + k]))
    case IntervalFormat(_) =>
      var months :- GetInt(data, row * 16, 4);
      var days :- GetInt(data, row * 16 + 4, 4);
      var micros :- GetInt(data, row * 16 + 8, 8);
      Success(IntervalValue(months, days, micros))
  }

  // ----- the value at a row

  /** `Number(v)` for the values a union tag can take. */
  function ToNumber(v: Value): Option<int> {
    match v
    case NullValue => Some(0)
    case Bool(b) => Some(if b then 1 else 0)
    case Number(n) => Some(n)
    case _ => None
  }

  function VectorOrNone(data: seq<Vector>, i: int): Option<Vector> {
    if 0 <= i < |data| then Some(data[i]) else None
  }

  function StructFields(info: Option<TypeInfo>): (r: Outcome<seq<Field>>)
    ensures r.Success? ==> info.Some? && info.value.detail.Struct? && r.value == info.value.detail.fields
  {
    if info.None? then Failure(MissingInfo)
    else if !info.value.detail.Struct? then Failure(WrongInfoKind)
    else Success(info.value.detail.fields)
  }

  function ListChild(info: Option<TypeInfo>): (r: Outcome<LogicalType>)
    ensures r.Success? ==> info.Some? && info.value.detail.List? && r.value == info.value.detail.child
  {
    if info.None? then Failure(MissingInfo)
    else if !info.value.detail.List? then Failure(WrongInfoKind)
    else Success(info.value.detail.child)
  }

  /** The two fields of the struct that a MAP is a list of. */
  function MapFields(info: Option<TypeInfo>): (r: Outcome<seq<Field>>)
    ensures r.Success? ==> |r.value| == 2 && info.Some? && info.value.detail.List?
                           && info.value.detail.child.info.Some? && info.value.detail.child.info.value.detail.Struct?
                           && r.value == info.value.detail.child.info.value.detail.fields
  {
    var child :- ListChild(info);
    var fields :- StructFields(child.info);
    if |fields| != 2 then Failure(WrongMapChild) else Success(fields)
  }

  function EntryAt(content: Content, row: int): Outcome<ListEntry> {
    if !content.Lists? then Failure(WrongVectorKind)
    else if 0 <= row < |content.entries| then Success(content.entries[row])
    else Failure(UndefinedAccess)
  }

  function ValueFromVector(t: LogicalType, vector: Option<Vector>, row: int): Outcome<Value>
    decreases t, 0
  {
    if vector.None? then Failure(UndefinedAccess)
    else
      var v := vector.value;
      var valid :- IsRowValid(v.validity, row);
      if !valid then Success(NullValue)
      else if t.id == CHAR || t.id == VARCHAR then
        if !v.content.Strings? then Failure(WrongVectorKind)
        else Success(if 0 <= row < |v.content.strings| then Text(v.content.strings[row]) else Undefined)
      else if t.id == BLOB || t.id == BIT || t.id == BIGNUM then
        if !v.content.Blobs? then Failure(WrongVectorKind)
        else if !(0 <= row < |v.content.blobs|) then Failure(UndefinedAccess)
        else BytesValue(t.id, v.content.blobs[row])
      else if t.id == STRUCT then
        var fields :- StructFields(t.info);
        if !v.content.Vectors? then Failure(WrongVectorKind)
        else
          var entries :- StructEntriesFrom(fields, v.content.children, row);
          Success(StructValue(entries))
      else if t.id == UNION then
        var fields :- StructFields(t.info);
        if !v.content.Vectors? then Failure(WrongVectorKind)
        else if fields == [] then Failure(UndefinedAccess)
        else
          var tagValue :- ValueFromVector(fields[0].fieldType, VectorOrNone(v.content.children, 0), row);
          var tag := ToNumber(tagValue);
          if tag.None? || !(0 <= tag.value + 1 < |fields|) then Failure(UndefinedAccess)
          else
            var altIndex := tag.value + 1;
            ValueFromVector(fields[altIndex].fieldType, VectorOrNone(v.content.children, altIndex), row)
      else if t.id == LIST then
        var childType :- ListChild(t.info);
        var entry :- EntryAt(v.content, row);
        var items :- ValuesFrom(childType, Some(v.content.child), entry.offset, entry.length);
        Success(ListValue(items))
      else if t.id == MAP then
        var fields :- MapFields(t.info);
        var entry :- EntryAt(v.content, row);
        if !v.content.child.content.Vectors? then Failure(WrongVectorKind)
        else
          var data := v.content.child.content.children;
          var entries :- MapEntriesFrom(fields, data, entry.offset, entry.length);
          Success(MapValue(entries))
      else if t.id == ARRAY then
        if t.info.None? then Failure(MissingInfo)
        else if !t.info.value.detail.Array? then Failure(WrongInfoKind)
        else if !v.content.Arrays? then Failure(WrongVectorKind)
        else
          var size := t.info.value.detail.size;
          var elements :- ValuesFrom(t.info.value.detail.element, Some(v.content.element), row * size, size);
          Success(ArrayValue(elements))
      else
        var format :- FormatOf(t);
        if !v.content.Data? then Failure(WrongVectorKind) else FixedFrom(t, format, v.content.bytes, row)
  }

  function BytesValue(id: byte, bytes: Bytes): Outcome<Value> {
    if id == BLOB then Success(BlobValue(bytes))
    else if id == BIT then Success(BitValue(bytes))
    else if |bytes| < 3 then Failure(ViewOutOfRange)
    else Success(Number(BigNum.ValueOf(bytes)))
  }

  function StructEntriesFrom(fields: seq<Field>, data: seq<Vector>, row: int): (r: Outcome<seq<StructEntry>>)
    ensures r.Success? ==> |r.value| == |fields|
    decreases fields, 0
  {
    if fields == [] then Success([])
    else
      var value :- ValueFromVector(fields[0].fieldType, VectorOrNone(data, 0), row);
      var rest :- StructEntriesFrom(fields[1..], if data == [] then [] else data[1..], row);
      Success([StructEntry(fields[0].name, value)] + rest)
  }

  /** `length` values from row `row` on; none when the length is negative. */
  function ValuesFrom(t: LogicalType, vector: Option<Vector>, row: int, length: int): (r: Outcome<seq<Value>>)
    ensures r.Success? ==> |r.value| == if length < 0 then 0 else length
    decreases t, 1, length
  {
    if length <= 0 then Success([])
    else
      var value :- ValueFromVector(t, vector, row);
      var rest :- ValuesFrom(t, vector, row + 1, length - 1);
      Success([value] + rest)
  }

  function MapEntriesFrom(fields: seq<Field>, data: seq<Vector>, row: int, length: int): (r: Outcome<seq<MapEntry>>)
    requires |fields| == 2
    ensures r.Success? ==> |r.value| == if length < 0 then 0 else length
    decreases fields, 1, length
  {
    if length <= 0 then Success([])
    else
      var key :- ValueFromVector(fields[0].fieldType, VectorOrNone(data, 0), row);
      var value :- ValueFromVector(fields[1].fieldType, VectorOrNone(data, 1), row);
      var rest :- MapEntriesFrom(fields, data, row + 1, length - 1);
      Success([MapEntry(key, value)] + rest)
  }
}
