/** Rows laid out as column vectors, and what reading them back gives. */
module ColumnLayout {
  import opened Wrappers
  import opened Words
  import opened ByteOrder
  import opened WireTypes
  import opened Columns
  import BigNum

  /** A value of a row of a query result, before it is laid out. */
  datatype Cell =
    | Null
    | Num(n: int)
    | Raw(bytes: Bytes)
    | Span(months: int, days: int, micros: int)
    | Row(cells: seq<Cell>)
    | Items(items: seq<Cell>)
    | Pairs(pairs: seq<CellPair>)
    | Member(tag: nat, member: Cell)

  datatype CellPair = CellPair(key: Cell, value: Cell)

  // ----- types that can be laid out, and their values

  function FieldsOf(t: LogicalType): (r: seq<Field>)
    requires t.info.Some? && t.info.value.detail.Struct?
  {
    t.info.value.detail.fields
  }

  function ChildOf(t: LogicalType): LogicalType
    requires t.info.Some? && t.info.value.detail.List?
  {
    t.info.value.detail.child
  }

  predicate TypeOk(t: LogicalType)
    decreases t, 0
  {
    match StorageOf(t.id)
    case FixedWidth => FormatOf(t).Success?
    case StringList => true
    case BlobList => true
    case VectorList =>
      && t.info.Some? && t.info.value.detail.Struct?
      && (forall f <- t.info.value.detail.fields :: TypeOk(f.fieldType))
      && (t.id == UNION ==> 1 <= |FieldsOf(t)| <= 0x100 && FieldsOf(t)[0].fieldType.id == UTINYINT)
    case ListVector =>
      && t.info.Some? && t.info.value.detail.List? && TypeOk(t.info.value.detail.child)
      && (t.id == MAP ==> ChildOf(t).id == STRUCT && |FieldsOf(ChildOf(t))| == 2)
    case ArrayVector =>
      t.info.Some? && t.info.value.detail.Array? && TypeOk(t.info.value.detail.element) && t.info.value.detail.size >= 0
    case NoStorage => false
  }

  predicate FixedOk(f: Format, c: Cell) {
    match f
    case Uint(k) => c.Num? && 0 <= c.n < Pow256(k)
    case Sint(k) => c.Num? && -(Pow256(k) as int) <= 2 * c.n < Pow256(k)
    case FloatBits(k) => c.Raw? && |c.bytes| == k
    case IntervalFormat(_) =>
      && c.Span? && -(Pow256(4) as int) <= 2 * c.months < Pow256(4) && -(Pow256(4) as int) <= 2 * c.days < Pow256(4)
      && -(Pow256(8) as int) <= 2 * c.micros < Pow256(8)
  }

  predicate CellOk(t: LogicalType, c: Cell)
    requires TypeOk(t)
    decreases t, 0
  {
    c.Null? ||
    match StorageOf(t.id)
    case FixedWidth => FixedOk(FormatOf(t).value, c)
    case StringList => c.Raw?
    case BlobList => c.Raw? && (t.id == BIGNUM ==> |c.bytes| >= 3)
    case VectorList =>
      var fields := t.info.value.detail.fields;
      if t.id == STRUCT then
        c.Row? && |c.cells| == |fields| && forall k :: 0 <= k < |fields| ==> CellOk(fields[k].fieldType, c.cells[k])
      else c.Member? && c.tag + 1 < |fields| && CellOk(fields[c.tag + 1].fieldType, c.member)
    case ListVector =>
      if t.id == LIST then c.Items? && forall x <- c.items :: CellOk(t.info.value.detail.child, x)
      else c.Pairs? && forall p <- c.pairs :: CellOk(t.info.value.detail.child, Row([p.key, p.value]))
    case ArrayVector =>
      && c.Items? && |c.items| == t.info.value.detail.size
      && forall x <- c.items :: CellOk(t.info.value.detail.element, x)
  }

  /** The value of the client that a value of a row stands for. A union stands for its member. */
  function ValueOf(t: LogicalType, c: Cell): Value
    requires TypeOk(t) && CellOk(t, c)
    decreases t, 0
  {
    if c.Null? then NullValue
    else
      match StorageOf(t.id)
      case FixedWidth =>
        if c.Num? then FromNumber(t, c.n)
        else if c.Raw? then Float(c.bytes)
        else IntervalValue(c.months, c.days, c.micros)
      case StringList => Text(c.bytes)
      case BlobList =>
        if t.id == BLOB then BlobValue(c.bytes)
        else if t.id == BIT then BitValue(c.bytes)
        else Number(BigNum.ValueOf(c.bytes))
      case VectorList =>
        var fields := t.info.value.detail.fields;
        if t.id == STRUCT then
          StructValue(seq(|fields|, k requires 0 <= k < |fields| =>
                              StructEntry(fields[k].name, ValueOf(fields[k].fieldType, c.cells[k]))))
        else ValueOf(fields[c.tag + 1].fieldType, c.member)
      case ListVector =>
        var child := t.info.value.detail.child;
        if t.id == LIST then
          ListValue(seq(|c.items|, j requires 0 <= j < |c.items| => ValueOf(child, c.items[j])))
        else
          assert TypeOk(child);
          var fields := child.info.value.detail.fields;
          MapValue(seq(|c.pairs|, j requires 0 <= j < |c.pairs| =>
                           (PairOk(child, c.pairs[j]);
                            MapEntry(ValueOf(fields[0].fieldType, c.pairs[j].key),
                                     ValueOf(fields[1].fieldType, c.pairs[j].value)))))
      case ArrayVector =>
        ArrayValue(seq(|c.items|, j requires 0 <= j < |c.items| => ValueOf(t.info.value.detail.element, c.items[j])))
  }

  lemma PairOk(child: LogicalType, p: CellPair)
    requires TypeOk(child) && child.id == STRUCT && |FieldsOf(child)| == 2
    requires CellOk(child, Row([p.key, p.value]))
    ensures CellOk(FieldsOf(child)[0].fieldType, p.key) && CellOk(FieldsOf(child)[1].fieldType, p.value)
  {}

  // ----- validity

  /** The number written by bits, least significant first. */
  function FromBits(bits: seq<bool>): nat {
    if bits == [] then 0 else (if bits[0] then 1 else 0) + 2 * FromBits(bits[1..])
  }

  lemma {:induction false} BitsBound(bits: seq<bool>)
    ensures FromBits(bits) < Pow2(|bits|)
  {
    if bits != [] { BitsBound(bits[1..]); }
  }

  lemma {:induction false} BitOf(bits: seq<bool>, j: nat)
    requires j < |bits|
    ensures TestBit(FromBits(bits), j) <==> bits[j]
  {
    var rest := FromBits(bits[1..]);
    if j == 0 {
      assert Pow2(0) == 1;
    } else {
      BitOf(bits[1..], j - 1);
      HalfThenShift(rest, if bits[0] then 1 else 0, j - 1);
    }
  }

  /** Validity as 64-bit words, one bit a row, low bits first. */
  function WordsOf(bits: seq<bool>): Bytes {
    if bits == [] then []
    else if |bits| <= 64 then ToLe(FromBits(bits), 8)
    else ToLe(FromBits(bits[..64]), 8) + WordsOf(bits[64..])
  }

  lemma {:induction false} WordAt(bits: seq<bool>, i: nat)
    requires i < |bits|
    ensures IsRowValid(Some(WordsOf(bits)), i) == Success(bits[i])
    decreases |bits|
  {
    hide Pow2, Pow256, FromBits, ToLe, FromLe, TestBit;
    var word := if |bits| <= 64 then bits else bits[..64];
    var rest := if |bits| <= 64 then [] else WordsOf(bits[64..]);
    var w := WordsOf(bits);
    assert w == ToLe(FromBits(word), 8) + rest;
    if i < 64 {
      BitsBound(word);
      WordWidth(word);
      LeRoundTrip(FromBits(word), 8);
      assert w[0..8] == ToLe(FromBits(word), 8);
      BitOf(word, i);
    } else {
      WordAt(bits[64..], i - 64);
      LaterWord(ToLe(FromBits(word), 8), rest, i - 64);
    }
  }

  lemma LaterWord(first: Bytes, rest: Bytes, i: nat)
    requires |first| == 8
    ensures IsRowValid(Some(first + rest), i + 64) == IsRowValid(Some(rest), i)
  {
    hide FromLe, TestBit;
    var o := i / 64 * 8;
    assert (i + 64) / 64 * 8 == o + 8 && (i + 64) % 64 == i % 64;
    if o + 8 <= |rest| {
      assert (first + rest)[o + 8..o + 16] == rest[o..o + 8];
    }
  }

  lemma WordWidth(word: seq<bool>)
    requires |word| <= 64
    ensures Pow2(|word|) <= Pow256(8)
  {
    hide Pow2, Pow256;
    Pow256IsPow2(8);
    Pow2Add(|word|, 64 - |word|);
    MulAtLeast(Pow2(64 - |word|), Pow2(|word|));
  }

  function Present(cells: seq<Cell>): (bits: seq<bool>)
    ensures |bits| == |cells|
  {
    seq(|cells|, i requires 0 <= i < |cells| => !cells[i].Null?)
  }

  /** Without NULLs, no bitmap is kept. */
  function ValidityOf(cells: seq<Cell>): Option<Bytes> {
    if forall c <- cells :: !c.Null? then None else Some(WordsOf(Present(cells)))
  }

  lemma RowValidity(cells: seq<Cell>, i: nat)
    requires i < |cells|
    ensures IsRowValid(ValidityOf(cells), i) == Success(!cells[i].Null?)
  {
    if exists c <- cells :: c.Null? { WordAt(Present(cells), i); }
  }

  // ----- layout

  function FixedBytes(f: Format, c: Cell): (b: Bytes)
    ensures |b| == f.width || (f.IntervalFormat? && |b| == 16)
  {
    match f
    case Uint(k) => ToLe(if c.Num? && c.n >= 0 then c.n else 0, k)
    case Sint(k) => ToLe(Pattern(if c.Num? then c.n else 0, k), k)
    case FloatBits(k) => if c.Raw? && |c.bytes| == k then c.bytes else ToLe(0, k)
    case IntervalFormat(_) =>
      if c.Span? then ToLe(Pattern(c.months, 4), 4) + (ToLe(Pattern(c.days, 4), 4) + ToLe(Pattern(c.micros, 8), 8))
      else ToLe(0, 16)
  }

  function FixedRows(f: Format, cells: seq<Cell>): Bytes {
    if cells == [] then [] else FixedBytes(f, cells[0]) + FixedRows(f, cells[1..])
  }

  function RawOf(c: Cell): Bytes {
    if c.Raw? then c.bytes else []
  }

  function RawRows(cells: seq<Cell>): (r: seq<Bytes>)
    ensures |r| == |cells|
  {
    seq(|cells|, i requires 0 <= i < |cells| => RawOf(cells[i]))
  }

  /** What row `c` puts into child column `k` of a struct or union: a NULL where it has no such part. */
  function PartOf(t: LogicalType, c: Cell, k: nat): Cell {
    if t.id == STRUCT then (if c.Row? && k < |c.cells| then c.cells[k] else Null)
    else if !c.Member? then Null
    else if k == 0 then Num(c.tag)
    else if c.tag + 1 == k then c.member
    else Null
  }

  function PartRows(t: LogicalType, cells: seq<Cell>, k: nat): (r: seq<Cell>)
    ensures |r| == |cells|
  {
    seq(|cells|, i requires 0 <= i < |cells| => PartOf(t, cells[i], k))
  }

  /** What row `c` puts into the child column of a list, map or array; a NULL array still takes its full size. */
  function ItemsOf(t: LogicalType, c: Cell): seq<Cell> {
    if t.id == ARRAY then
      if c.Items? then c.items
      else if t.info.Some? && t.info.value.detail.Array? && t.info.value.detail.size >= 0
      then seq(t.info.value.detail.size, _ => Null) else []
    else if c.Items? then c.items
    else if c.Pairs? then seq(|c.pairs|, j requires 0 <= j < |c.pairs| => Row([c.pairs[j].key, c.pairs[j].value]))
    else []
  }

  function Flat(t: LogicalType, cells: seq<Cell>): seq<Cell> {
    if cells == [] then [] else ItemsOf(t, cells[0]) + Flat(t, cells[1..])
  }

  function EntriesFrom(t: LogicalType, cells: seq<Cell>, offset: nat): (r: seq<ListEntry>)
    ensures |r| == |cells|
  {
    if cells == [] then []
    else
      var length := |ItemsOf(t, cells[0])|;
      [ListEntry(offset, length)] + EntriesFrom(t, cells[1..], offset + length)
  }

  function Layout(t: LogicalType, cells: seq<Cell>): Vector
    requires TypeOk(t)
    decreases t, 1
  {
    var validity := ValidityOf(cells);
    Vector(if validity.None? then 0 else 1, validity, ContentOf(t, cells))
  }

  function ContentOf(t: LogicalType, cells: seq<Cell>): Content
    requires TypeOk(t)
    decreases t, 0
  {
    match StorageOf(t.id)
    case FixedWidth => Data(FixedRows(FormatOf(t).value, cells))
    case StringList => Strings(RawRows(cells))
    case BlobList => Blobs(RawRows(cells))
    case VectorList =>
      var fields := t.info.value.detail.fields;
      Vectors(seq(|fields|, k requires 0 <= k < |fields| => Layout(fields[k].fieldType, PartRows(t, cells, k))))
    case ListVector =>
      var child := Flat(t, cells);
      Lists(|child|, EntriesFrom(t, cells, 0), Layout(t.info.value.detail.child, child))
    case ArrayVector => Arrays(t.info.value.detail.size, Layout(t.info.value.detail.element, Flat(t, cells)))
  }

  // ----- reading numbers back

  lemma {:induction false} FixedRowAt(f: Format, cells: seq<Cell>, i: nat, k: nat)
    requires k == (if f.IntervalFormat? then 16 else f.width) && (forall c <- cells :: |FixedBytes(f, c)| == k)
    requires i < |cells|
    ensures 0 <= i * k && i * k + k <= |FixedRows(f, cells)|
    ensures FixedRows(f, cells)[i * k..i * k + k] == FixedBytes(f, cells[i])
    decreases |cells|
  {
    hide FixedBytes;
    var head, rest := FixedBytes(f, cells[0]), FixedRows(f, cells[1..]);
    var all := FixedRows(f, cells);
    assert all == head + rest;
    if i == 0 {
      assert all[0..k] == head;
    } else {
      FixedRowAt(f, cells[1..], i - 1, k);
      OneMore(i - 1, k);
      var o := (i - 1) * k;
      assert all[o + k..o + k + k] == rest[o..o + k];
    }
  }

  lemma FixedReadsBack(t: LogicalType, f: Format, data: Bytes, row: nat, c: Cell)
    requires TypeOk(t) && StorageOf(t.id).FixedWidth? && f == FormatOf(t).value && CellOk(t, c) && !c.Null?
    requires var k := if f.IntervalFormat? then 16 else f.width;
             0 <= row * k && row * k + k <= |data| && data[row * k..row * k + k] == FixedBytes(f, c)
    ensures FixedFrom(t, f, data, row) == Success(ValueOf(t, c))
  {
    hide FromLe, ToLe, Pow256, FromNumber, GetInt128, GetUInt128, Signed, Pattern;
    match f
    case Uint(k) =>
      LeRoundTrip(c.n, k);
      if k == 16 { Wide(data, row * 16); }
    case Sint(k) =>
      SignedRoundTrip(c.n, k);
      LeRoundTrip(Pattern(c.n, k), k);
      if k == 16 { Wide(data, row * 16); }
    case FloatBits(k) =>
    case IntervalFormat(_) =>
      IntervalReadsBack(data, row * 16, c.months, c.days, c.micros);
  }

  lemma SubSlice<T>(s: seq<T>, o: nat, n: nat, i: nat, j: nat)
    requires i <= j <= n && o + n <= |s|
    ensures s[o..o + n][i..j] == s[o + i..o + j]
  {
    var u := s[o..o + n];
    assert forall k :: 0 <= k < j - i ==> u[i..j][k] == u[i + k] == s[o + i..o + j][k];
  }

  lemma IntervalReadsBack(data: Bytes, o: int, months: int, days: int, micros: int)
    requires FixedOk(IntervalFormat(16), Span(months, days, micros))
    requires 0 <= o && o + 16 <= |data| && data[o..o + 16] == FixedBytes(IntervalFormat(16), Span(months, days, micros))
    ensures GetInt(data, o, 4) == Success(months) && GetInt(data, o + 4, 4) == Success(days)
    ensures GetInt(data, o + 8, 8) == Success(micros)
  {
    hide FromLe, ToLe, Pow256, Signed, Pattern;
    var b := data[o..o + 16];
    SignedRoundTrip(months, 4);
    SignedRoundTrip(days, 4);
    SignedRoundTrip(micros, 8);
    LeRoundTrip(Pattern(months, 4), 4);
    LeRoundTrip(Pattern(days, 4), 4);
    LeRoundTrip(Pattern(micros, 8), 8);
    SubSlice(data, o, 16, 0, 4);
    SubSlice(data, o, 16, 4, 8);
    SubSlice(data, o, 16, 8, 16);
    assert b[0..4] == ToLe(Pattern(months, 4), 4);
    assert b[4..8] == ToLe(Pattern(days, 4), 4);
    assert b[8..16] == ToLe(Pattern(micros, 8), 8);
  }

  // ----- reading lists back

  lemma {:induction false} ValuesReadBack(t: LogicalType, v: Vector, row: nat, values: seq<Value>)
    requires forall j :: 0 <= j < |values| ==> ValueFromVector(t, Some(v), row + j) == Success(values[j])
    ensures ValuesFrom(t, Some(v), row, |values|) == Success(values)
    decreases |values|
  {
    hide ValueFromVector;
    if values != [] {
      assert ValueFromVector(t, Some(v), row + 0) == Success(values[0]);
      forall j | 0 <= j < |values[1..]| ensures ValueFromVector(t, Some(v), row + 1 + j) == Success(values[1..][j]) {
        assert ValueFromVector(t, Some(v), row + (j + 1)) == Success(values[j + 1]);
      }
      ValuesReadBack(t, v, row + 1, values[1..]);
      assert [values[0]] + values[1..] == values;
    }
  }

  lemma {:induction false} MapReadsBack(fields: seq<Field>, data: seq<Vector>, row: nat, entries: seq<MapEntry>)
    requires |fields| == 2 == |data|
    requires forall j :: 0 <= j < |entries| ==>
                           && ValueFromVector(fields[0].fieldType, Some(data[0]), row + j) == Success(entries[j].key)
                           && ValueFromVector(fields[1].fieldType, Some(data[1]), row + j) == Success(entries[j].value)
    ensures MapEntriesFrom(fields, data, row, |entries|) == Success(entries)
    decreases |entries|
  {
    hide ValueFromVector;
    if entries != [] {
      assert ValueFromVector(fields[0].fieldType, Some(data[0]), row + 0) == Success(entries[0].key);
      forall j | 0 <= j < |entries[1..]|
        ensures ValueFromVector(fields[0].fieldType, Some(data[0]), row + 1 + j) == Success(entries[1..][j].key)
        ensures ValueFromVector(fields[1].fieldType, Some(data[1]), row + 1 + j) == Success(entries[1..][j].value)
      {
        assert ValueFromVector(fields[0].fieldType, Some(data[0]), row + (j + 1)) == Success(entries[j + 1].key);
      }
      MapReadsBack(fields, data, row + 1, entries[1..]);
      assert [entries[0]] + entries[1..] == entries;
    }
  }

  lemma {:induction false} StructReadsBack(fields: seq<Field>, data: seq<Vector>, row: int, entries: seq<StructEntry>)
    requires |fields| == |data| == |entries|
    requires forall k :: 0 <= k < |fields| ==>
                           && entries[k].key == fields[k].name
                           && ValueFromVector(fields[k].fieldType, Some(data[k]), row) == Success(entries[k].value)
    ensures StructEntriesFrom(fields, data, row) == Success(entries)
    decreases |fields|
  {
    hide ValueFromVector;
    if fields != [] {
      StructReadsBack(fields[1..], data[1..], row, entries[1..]);
      assert [entries[0]] + entries[1..] == entries;
      assert entries[0] == StructEntry(fields[0].name, entries[0].value);
    }
  }

  /** Entry `i` tells where the items of row `i` stand in the child. */
  lemma {:induction false} EntryOf(t: LogicalType, cells: seq<Cell>, offset: nat, i: nat)
    requires i < |cells|
    ensures var e := EntriesFrom(t, cells, offset)[i];
            && e.length == |ItemsOf(t, cells[i])| && offset <= e.offset
            && e.offset - offset + e.length <= |Flat(t, cells)|
            && Flat(t, cells)[e.offset - offset..e.offset - offset + e.length] == ItemsOf(t, cells[i])
    decreases |cells|
  {
    hide ItemsOf;
    var head, rest := ItemsOf(t, cells[0]), Flat(t, cells[1..]);
    assert Flat(t, cells) == head + rest;
    if i > 0 {
      EntryOf(t, cells[1..], offset + |head|, i - 1);
      var e := EntriesFrom(t, cells, offset)[i];
      var o := e.offset - offset - |head|;
      assert (head + rest)[o + |head|..o + |head| + e.length] == rest[o..o + e.length];
    }
  }

  /** The items of row `i` of an array column start at row `i * size` of the child. */
  lemma {:induction false} ArrayRowAt(t: LogicalType, cells: seq<Cell>, size: nat, i: nat)
    requires i < |cells| && forall c <- cells :: |ItemsOf(t, c)| == size
    ensures 0 <= i * size && i * size + size <= |Flat(t, cells)|
    ensures Flat(t, cells)[i * size..i * size + size] == ItemsOf(t, cells[i])
    decreases |cells|
  {
    hide ItemsOf;
    var head, rest := ItemsOf(t, cells[0]), Flat(t, cells[1..]);
    assert Flat(t, cells) == head + rest;
    if i == 0 {
      assert (head + rest)[0..size] == head;
    } else {
      ArrayRowAt(t, cells[1..], size, i - 1);
      var o := (i - 1) * size;
      OneMore(i - 1, size);
      BehindHead(head, rest, o, size);
    }
  }

  lemma {:induction false} BehindHead(head: seq<Cell>, rest: seq<Cell>, o: nat, size: nat)
    requires |head| == size && o + size <= |rest|
    ensures (head + rest)[o + size..o + size + size] == rest[o..o + size]
  {}

  lemma OneMore(n: nat, size: nat)
    ensures (n + 1) * size == n * size + size && n * size >= 0
  {}

  lemma {:induction false} FlatOk(t: LogicalType, child: LogicalType, cells: seq<Cell>)
    requires TypeOk(child) && forall c <- cells :: forall x <- ItemsOf(t, c) :: CellOk(child, x)
    ensures forall x <- Flat(t, cells) :: CellOk(child, x)
  {
    hide ItemsOf, CellOk;
    if cells != [] {
      FlatOk(t, child, cells[1..]);
      assert cells[0] in cells;
    }
  }

  // ----- the main result

  ghost predicate CellsOk(t: LogicalType, cells: seq<Cell>)
    requires TypeOk(t)
  {
    forall c <- cells :: CellOk(t, c)
  }

  /**
   * Whatever the type, and however deep the NULLs: rows laid out as vectors and read back, row by row, are the values
   * they stand for, and no access is out of range.
   */
  lemma {:induction false} ReadsBack(t: LogicalType, cells: seq<Cell>, i: nat)
    requires TypeOk(t) && CellsOk(t, cells) && i < |cells|
    ensures ValueFromVector(t, Some(Layout(t, cells)), i) == Success(ValueOf(t, cells[i]))
    decreases t, 2
  {
    RowValidity(cells, i);
    assert CellOk(t, cells[i]);
    if !cells[i].Null? {
      match StorageOf(t.id)
      case FixedWidth => FixedColumn(t, cells, i);
      case StringList =>
      case BlobList =>
      case VectorList => if t.id == STRUCT { StructColumn(t, cells, i); } else { UnionColumn(t, cells, i); }
      case ListVector => if t.id == LIST { ListColumn(t, cells, i); } else { MapColumn(t, cells, i); }
      case ArrayVector => ArrayColumn(t, cells, i);
    }
  }

  lemma FixedColumnValue(t: LogicalType, cells: seq<Cell>, i: nat)
    requires TypeOk(t) && CellsOk(t, cells) && i < |cells| && !cells[i].Null? && StorageOf(t.id).FixedWidth?
    ensures FormatOf(t).Success?
    ensures FixedFrom(t, FormatOf(t).value, FixedRows(FormatOf(t).value, cells), i) == Success(ValueOf(t, cells[i]))
  {
    hide FixedBytes, FixedFrom, ValueFromVector, Layout;
    var f := FormatOf(t).value;
    FixedRowAt(f, cells, i, if f.IntervalFormat? then 16 else f.width);
    assert CellOk(t, cells[i]);
    FixedReadsBack(t, f, FixedRows(f, cells), i, cells[i]);
  }

  lemma FixedColumn(t: LogicalType, cells: seq<Cell>, i: nat)
    requires TypeOk(t) && CellsOk(t, cells) && i < |cells| && !cells[i].Null? && StorageOf(t.id).FixedWidth?
    ensures ValueFromVector(t, Some(Layout(t, cells)), i) == Success(ValueOf(t, cells[i]))
  {
    hide FixedFrom, FixedRows, ValueFromVector, ValidityOf, IsRowValid, ValueOf, FormatOf, TypeOk, CellsOk;
    RowValidity(cells, i);
    FixedColumnValue(t, cells, i);
    FixedContent(t, cells);
    FixedUnfolds(t, FormatOf(t).value, Layout(t, cells), i);
  }

  lemma FixedContent(t: LogicalType, cells: seq<Cell>)
    requires TypeOk(t) && StorageOf(t.id).FixedWidth?
    ensures FormatOf(t).Success?
    ensures Layout(t, cells).content == Data(FixedRows(FormatOf(t).value, cells))
    ensures Layout(t, cells).validity == ValidityOf(cells)
  {
    hide FixedRows, ValidityOf;
  }

  /** A valid row of fixed width is what its bytes stand for. */
  lemma FixedUnfolds(t: LogicalType, f: Format, v: Vector, i: nat)
    requires StorageOf(t.id).FixedWidth? && FormatOf(t) == Success(f) && IsRowValid(v.validity, i) == Success(true)
    requires v.content.Data?
    ensures ValueFromVector(t, Some(v), i) == FixedFrom(t, f, v.content.bytes, i)
  {
    hide IsRowValid, FormatOf, FixedFrom;
  }

  lemma {:induction false} StructColumn(t: LogicalType, cells: seq<Cell>, i: nat)
    requires TypeOk(t) && CellsOk(t, cells) && i < |cells| && !cells[i].Null? && t.id == STRUCT
    ensures ValueFromVector(t, Some(Layout(t, cells)), i) == Success(ValueOf(t, cells[i]))
    decreases t, 0
  {
    hide ValidityOf, IsRowValid;
    RowValidity(cells, i);
    var fields := FieldsOf(t);
    var c := cells[i];
    assert CellOk(t, c);
    var data := ContentOf(t, cells).children;
    var entries := ValueOf(t, c).fields;
    forall k | 0 <= k < |fields|
      ensures ValueFromVector(fields[k].fieldType, Some(data[k]), i) == Success(entries[k].value)
    {
      PartsOk(t, cells, k);
      ReadsBack(fields[k].fieldType, PartRows(t, cells, k), i);
    }
    StructReadsBack(fields, data, i, entries);
  }

  /** Every child column of a struct or union holds values of its own type. */
  lemma PartsOk(t: LogicalType, cells: seq<Cell>, k: nat)
    requires TypeOk(t) && CellsOk(t, cells) && StorageOf(t.id).VectorList? && k < |FieldsOf(t)|
    ensures CellsOk(FieldsOf(t)[k].fieldType, PartRows(t, cells, k))
  {
    var fields := FieldsOf(t);
    assert fields[k] in fields;
    assert Pow256(1) == 0x100;
    forall j | 0 <= j < |cells| ensures CellOk(fields[k].fieldType, PartOf(t, cells[j], k)) {
      assert CellOk(t, cells[j]);
    }
  }

  lemma {:induction false} UnionColumn(t: LogicalType, cells: seq<Cell>, i: nat)
    requires TypeOk(t) && CellsOk(t, cells) && i < |cells| && !cells[i].Null? && t.id == UNION
    ensures ValueFromVector(t, Some(Layout(t, cells)), i) == Success(ValueOf(t, cells[i]))
    decreases t, 0
  {
    hide ValidityOf, IsRowValid, ValueFromVector;
    RowValidity(cells, i);
    var fields := FieldsOf(t);
    var c := cells[i];
    assert CellOk(t, c);
    var alt := c.tag + 1;
    PartsOk(t, cells, 0);
    PartsOk(t, cells, alt);
    ReadsBack(fields[0].fieldType, PartRows(t, cells, 0), i);
    ReadsBack(fields[alt].fieldType, PartRows(t, cells, alt), i);
    assert PartRows(t, cells, 0)[i] == Num(c.tag) && PartRows(t, cells, alt)[i] == c.member;
    UnionContent(t, cells);
    UnionUnfolds(t, Layout(t, cells), i, c.tag);
  }

  /** The children of a laid-out union, one for its tag and one for every member. */
  lemma UnionContent(t: LogicalType, cells: seq<Cell>)
    requires TypeOk(t) && t.id == UNION
    ensures t.info.Some? && t.info.value.detail.Struct?
    ensures Layout(t, cells).validity == ValidityOf(cells) && Layout(t, cells).content.Vectors?
    ensures |Layout(t, cells).content.children| == |FieldsOf(t)|
    ensures forall k :: 0 <= k < |FieldsOf(t)| ==>
              Layout(t, cells).content.children[k] == Layout(FieldsOf(t)[k].fieldType, PartRows(t, cells, k))
  {
    hide ValidityOf, PartRows;
  }

  /** A valid row of a union is the row of the member that its tag names. */
  lemma UnionUnfolds(t: LogicalType, v: Vector, i: int, tag: nat)
    requires t.id == UNION && t.info.Some? && t.info.value.detail.Struct? && tag + 1 < |FieldsOf(t)|
    requires v.content.Vectors? && |v.content.children| == |FieldsOf(t)| && IsRowValid(v.validity, i) == Success(true)
    requires ValueFromVector(FieldsOf(t)[0].fieldType, Some(v.content.children[0]), i) == Success(Number(tag))
    ensures ValueFromVector(t, Some(v), i)
         == ValueFromVector(FieldsOf(t)[tag + 1].fieldType, Some(v.content.children[tag + 1]), i)
  {
    hide IsRowValid, FixedFrom, FormatOf, EntryAt, MapFields, ListChild, StructEntriesFrom, ValuesFrom;
  }

  lemma {:induction false} ListColumn(t: LogicalType, cells: seq<Cell>, i: nat)
    requires TypeOk(t) && CellsOk(t, cells) && i < |cells| && !cells[i].Null? && t.id == LIST
    ensures ValueFromVector(t, Some(Layout(t, cells)), i) == Success(ValueOf(t, cells[i]))
    decreases t, 0
  {
    hide ValidityOf, IsRowValid, ValueFromVector, EntriesFrom, Flat;
    RowValidity(cells, i);
    var child, flat := ChildOf(t), Flat(t, cells);
    var c := cells[i];
    assert CellOk(t, c);
    EntryOf(t, cells, 0, i);
    var e := EntriesFrom(t, cells, 0)[i];
    ListItemsOk(t, cells);
    FlatOk(t, child, cells);
    ItemsReadBack(child, flat, e.offset, c.items);
    ListContent(t, cells);
    ListUnfolds(t, Layout(t, cells), i, e);
  }

  lemma ListContent(t: LogicalType, cells: seq<Cell>)
    requires TypeOk(t) && t.id == LIST
    ensures ListChild(t.info) == Success(ChildOf(t))
    ensures Layout(t, cells).validity == ValidityOf(cells)
    ensures Layout(t, cells).content
         == Lists(|Flat(t, cells)|, EntriesFrom(t, cells, 0), Layout(ChildOf(t), Flat(t, cells)))
  {
    hide ValidityOf, Flat, EntriesFrom;
  }

  /** A valid row of a list is the items that its entry names. */
  lemma ListUnfolds(t: LogicalType, v: Vector, i: nat, e: ListEntry)
    requires t.id == LIST && ListChild(t.info).Success? && IsRowValid(v.validity, i) == Success(true)
    requires v.content.Lists? && EntryAt(v.content, i) == Success(e)
    requires ValuesFrom(ListChild(t.info).value, Some(v.content.child), e.offset, e.length).Success?
    ensures ValueFromVector(t, Some(v), i)
         == Success(ListValue(ValuesFrom(ListChild(t.info).value, Some(v.content.child), e.offset, e.length).value))
  {
    hide IsRowValid, EntryAt, ListChild, ValuesFrom;
  }

  /** Items that stand in the child column from row `offset` on are read back from there. */
  lemma {:induction false} ItemsReadBack(child: LogicalType, flat: seq<Cell>, offset: nat, items: seq<Cell>)
    requires TypeOk(child) && CellsOk(child, flat) && CellsOk(child, items)
    requires offset + |items| <= |flat| && flat[offset..offset + |items|] == items
    ensures ValuesFrom(child, Some(Layout(child, flat)), offset, |items|)
         == Success(seq(|items|, j requires 0 <= j < |items| => ValueOf(child, items[j])))
    decreases child, 3
  {
    hide ValueFromVector, Layout, CellOk, ValueOf;
    var values := seq(|items|, j requires 0 <= j < |items| => ValueOf(child, items[j]));
    forall j | 0 <= j < |values|
      ensures ValueFromVector(child, Some(Layout(child, flat)), offset + j) == Success(values[j])
    {
      ReadsBack(child, flat, offset + j);
      assert flat[offset..offset + |items|][j] == flat[offset + j];
    }
    ValuesReadBack(child, Layout(child, flat), offset, values);
  }

  lemma ListItemsOk(t: LogicalType, cells: seq<Cell>)
    requires TypeOk(t) && CellsOk(t, cells) && StorageOf(t.id).ListVector?
    ensures forall c <- cells :: forall x <- ItemsOf(t, c) :: CellOk(ChildOf(t), x)
  {}

  lemma {:induction false} MapColumn(t: LogicalType, cells: seq<Cell>, i: nat)
    requires TypeOk(t) && CellsOk(t, cells) && i < |cells| && !cells[i].Null? && t.id == MAP
    ensures ValueFromVector(t, Some(Layout(t, cells)), i) == Success(ValueOf(t, cells[i]))
    decreases t, 1
  {
    hide ValidityOf, IsRowValid, MapEntriesFrom, EntriesFrom, Flat, ValueOf, CellOk;
    RowValidity(cells, i);
    EntryOf(t, cells, 0, i);
    MapEntriesReadBack(t, cells, i);
    assert TypeOk(ChildOf(t));
    var content := ContentOf(t, cells);
    assert content.child.content.Vectors?;
    assert MapFields(t.info) == Success(FieldsOf(ChildOf(t)));
    assert EntryAt(content, i) == Success(EntriesFrom(t, cells, 0)[i]);
  }

  lemma {:induction false} MapEntriesReadBack(t: LogicalType, cells: seq<Cell>, i: nat)
    requires TypeOk(t) && CellsOk(t, cells) && i < |cells| && !cells[i].Null? && t.id == MAP
    ensures var child, e := ChildOf(t), EntriesFrom(t, cells, 0)[i];
            && TypeOk(child) && CellOk(t, cells[i]) && ValueOf(t, cells[i]).MapValue?
            && MapEntriesFrom(FieldsOf(child), ContentOf(child, Flat(t, cells)).children, e.offset, e.length)
            == Success(ValueOf(t, cells[i]).entries)
    decreases t, 0
  {
    hide ValidityOf, IsRowValid, ValueFromVector, MapEntriesFrom, EntriesFrom, Flat, ContentOf, PartRows;
    var child, flat := ChildOf(t), Flat(t, cells);
    MapChildOk(t, cells);
    MapRowAt(t, cells, i);
    var e := EntriesFrom(t, cells, 0)[i];
    PairsReadBack(FieldsOf(child), PartRows(child, flat, 0), PartRows(child, flat, 1), e.offset,
                  ValueOf(t, cells[i]).entries);
    MapChildren(child, flat);
  }

  /** The entry of a map row, and the cells of its keys and values. */
  lemma MapRowAt(t: LogicalType, cells: seq<Cell>, i: nat)
    requires TypeOk(t) && CellsOk(t, cells) && i < |cells| && !cells[i].Null? && t.id == MAP
    requires TypeOk(ChildOf(t)) && ChildOf(t).id == STRUCT && |FieldsOf(ChildOf(t))| == 2
    requires TypeOk(FieldsOf(ChildOf(t))[0].fieldType) && TypeOk(FieldsOf(ChildOf(t))[1].fieldType)
    ensures CellOk(t, cells[i]) && ValueOf(t, cells[i]).MapValue?
    ensures var child, flat, e := ChildOf(t), Flat(t, cells), EntriesFrom(t, cells, 0)[i];
            var fields, keys, values := FieldsOf(child), PartRows(child, flat, 0), PartRows(child, flat, 1);
            var entries := ValueOf(t, cells[i]).entries;
            && 0 <= e.offset && e.length == |entries| && e.offset + e.length <= |flat|
            && forall j :: 0 <= j < |entries| ==> IsPair(fields, keys[e.offset + j], values[e.offset + j], entries[j])
  {
    hide EntriesFrom, Flat, PartRows, IsPair;
    var child, flat, e := ChildOf(t), Flat(t, cells), EntriesFrom(t, cells, 0)[i];
    var c := cells[i];
    assert CellOk(t, c);
    EntryOf(t, cells, 0, i);
    assert ItemsOf(t, c) == seq(|c.pairs|, k requires 0 <= k < |c.pairs| => Row([c.pairs[k].key, c.pairs[k].value]));
    forall j | 0 <= j < |c.pairs|
      ensures IsPair(FieldsOf(child), PartRows(child, flat, 0)[e.offset + j], PartRows(child, flat, 1)[e.offset + j],
                     ValueOf(t, c).entries[j])
    {
      MapPair(t, c, j);
      MapPartsAt(child, flat, e, c.pairs, j);
    }
  }

  /** A key, a value, and the map entry they stand for. */
  ghost predicate IsPair(fields: seq<Field>, key: Cell, value: Cell, entry: MapEntry)
    requires |fields| == 2 && TypeOk(fields[0].fieldType) && TypeOk(fields[1].fieldType)
  {
    && CellOk(fields[0].fieldType, key) && CellOk(fields[1].fieldType, value)
    && entry == MapEntry(ValueOf(fields[0].fieldType, key), ValueOf(fields[1].fieldType, value))
  }

  lemma MapPair(t: LogicalType, c: Cell, j: nat)
    requires TypeOk(t) && t.id == MAP && CellOk(t, c) && !c.Null? && j < |c.pairs|
    requires TypeOk(ChildOf(t)) && ChildOf(t).id == STRUCT && |FieldsOf(ChildOf(t))| == 2
    requires ValueOf(t, c).MapValue? && |ValueOf(t, c).entries| == |c.pairs|
    ensures TypeOk(FieldsOf(ChildOf(t))[0].fieldType) && TypeOk(FieldsOf(ChildOf(t))[1].fieldType)
    ensures IsPair(FieldsOf(ChildOf(t)), c.pairs[j].key, c.pairs[j].value, ValueOf(t, c).entries[j])
  {}

  /** The struct that holds the keys and values of a map, and its two columns. */
  lemma MapChildOk(t: LogicalType, cells: seq<Cell>)
    requires TypeOk(t) && CellsOk(t, cells) && t.id == MAP
    ensures var child, flat := ChildOf(t), Flat(t, cells);
            && TypeOk(child) && child.id == STRUCT && |FieldsOf(child)| == 2
            && TypeOk(FieldsOf(child)[0].fieldType) && TypeOk(FieldsOf(child)[1].fieldType)
            && CellsOk(FieldsOf(child)[0].fieldType, PartRows(child, flat, 0))
            && CellsOk(FieldsOf(child)[1].fieldType, PartRows(child, flat, 1))
  {
    hide ValueFromVector, EntriesFrom, Flat, CellOk;
    var child, flat := ChildOf(t), Flat(t, cells);
    assert TypeOk(child);
    ListItemsOk(t, cells);
    FlatOk(t, child, cells);
    PartsOk(child, flat, 0);
    PartsOk(child, flat, 1);
  }

  lemma MapChildren(child: LogicalType, flat: seq<Cell>)
    requires TypeOk(child) && child.id == STRUCT && |FieldsOf(child)| == 2
    ensures ContentOf(child, flat).Vectors?
    ensures ContentOf(child, flat).children
         == [Layout(FieldsOf(child)[0].fieldType, PartRows(child, flat, 0)),
             Layout(FieldsOf(child)[1].fieldType, PartRows(child, flat, 1))]
  {
  }

  lemma {:induction false} PairsReadBack(fields: seq<Field>, keys: seq<Cell>, values: seq<Cell>, offset: nat,
                                         entries: seq<MapEntry>)
    requires |fields| == 2 && TypeOk(fields[0].fieldType) && TypeOk(fields[1].fieldType)
    requires CellsOk(fields[0].fieldType, keys) && CellsOk(fields[1].fieldType, values)
    requires offset + |entries| <= |keys| == |values|
    requires forall j :: 0 <= j < |entries| ==> IsPair(fields, keys[offset + j], values[offset + j], entries[j])
    ensures MapEntriesFrom(fields, [Layout(fields[0].fieldType, keys), Layout(fields[1].fieldType, values)], offset,
                           |entries|) == Success(entries)
    decreases fields, 2
  {
    hide ValueFromVector, Layout, CellOk, ValueOf, TypeOk;
    var data := [Layout(fields[0].fieldType, keys), Layout(fields[1].fieldType, values)];
    forall j | 0 <= j < |entries|
      ensures ValueFromVector(fields[0].fieldType, Some(data[0]), offset + j) == Success(entries[j].key)
      ensures ValueFromVector(fields[1].fieldType, Some(data[1]), offset + j) == Success(entries[j].value)
    {
      ReadsBack(fields[0].fieldType, keys, offset + j);
      ReadsBack(fields[1].fieldType, values, offset + j);
    }
    MapReadsBack(fields, data, offset, entries);
  }

  lemma MapPartsAt(child: LogicalType, flat: seq<Cell>, e: ListEntry, pairs: seq<CellPair>, j: nat)
    requires child.id == STRUCT && j < |pairs| == e.length && 0 <= e.offset && e.offset + e.length <= |flat|
    requires flat[e.offset..e.offset + e.length]
          == seq(|pairs|, k requires 0 <= k < |pairs| => Row([pairs[k].key, pairs[k].value]))
    ensures PartRows(child, flat, 0)[e.offset + j] == pairs[j].key
    ensures PartRows(child, flat, 1)[e.offset + j] == pairs[j].value
  {
    assert flat[e.offset + j] == flat[e.offset..e.offset + e.length][j] == Row([pairs[j].key, pairs[j].value]);
  }

  lemma {:induction false} ArrayColumn(t: LogicalType, cells: seq<Cell>, i: nat)
    requires TypeOk(t) && CellsOk(t, cells) && i < |cells| && !cells[i].Null? && t.id == ARRAY
    ensures ValueFromVector(t, Some(Layout(t, cells)), i) == Success(ValueOf(t, cells[i]))
    decreases t, 0
  {
    hide ValidityOf, IsRowValid;
    RowValidity(cells, i);
    var element, size := t.info.value.detail.element, t.info.value.detail.size;
    var flat := Flat(t, cells);
    var c := cells[i];
    assert CellOk(t, c);
    ArrayItemsOk(t, cells);
    ArrayRowAt(t, cells, size, i);
    FlatOk(t, element, cells);
    ItemsReadBack(element, flat, i * size, c.items);
  }

  lemma ArrayItemsOk(t: LogicalType, cells: seq<Cell>)
    requires TypeOk(t) && CellsOk(t, cells) && t.id == ARRAY
    ensures forall c <- cells :: |ItemsOf(t, c)| == t.info.value.detail.size
    ensures forall c <- cells :: forall x <- ItemsOf(t, c) :: CellOk(t.info.value.detail.element, x)
  {}
}
