/** The wire format in numbers: what is read for each type id, and the field ids of every object. */
module WireKinds {
  import opened Wrappers
  import opened Words
  import opened WireTypes
  import opened WireReaders
  import opened WireWriters
  import opened WireRoundTrip

  // ----- what is read for each type id

  function BytesAt(b: Bytes, p: nat): Read<Content> {
    var p1 :- ExpectAt(b, p, 102);
    var (bytes, p2) :- DataAt(b, p1);
    Success((Data(bytes), p2))
  }

  function StringsAt(b: Bytes, p: nat): Read<Content> {
    var p1 :- ExpectAt(b, p, 102);
    var (strings, p2) :- DataListAt(b, p1);
    Success((Strings(strings), p2))
  }

  function BlobsAt(b: Bytes, p: nat): Read<Content> {
    var p1 :- ExpectAt(b, p, 102);
    var (blobs, p2) :- DataListAt(b, p1);
    Success((Blobs(blobs), p2))
  }

  function ChildrenAt(b: Bytes, p: nat, types: seq<LogicalType>): Read<Content> {
    var p1 :- ExpectAt(b, p, 103);
    var (children, p2) :- VectorListAt(b, p1, types);
    Success((Vectors(children), p2))
  }

  function ListAt(b: Bytes, p: nat, childType: LogicalType): Read<Content> {
    var p1 :- ExpectAt(b, p, 104);
    var (listSize, p2) :- VarIntAt(b, p1);
    var p3 :- ExpectAt(b, p2, 105);
    var (entries, p4) :- ListEntryListAt(b, p3);
    var p5 :- ExpectAt(b, p4, 106);
    var (child, p6) :- VectorAt(b, p5, Some(childType));
    Success((Lists(listSize, entries, child), p6))
  }

  function ArrayAt(b: Bytes, p: nat, childType: LogicalType): Read<Content> {
    var p1 :- ExpectAt(b, p, 103);
    var (arraySize, p2) :- VarIntAt(b, p1);
    var p3 :- ExpectAt(b, p2, 104);
    var (element, p4) :- VectorAt(b, p3, Some(childType));
    Success((Arrays(arraySize, element), p4))
  }

  /** Bytes, strings or blobs. */
  lemma {:induction false} FlatContent(b: Bytes, p: nat, t: LogicalType)
    ensures t.id in {10, 11, 12, 13, 14, 15, 16, 17, 18, 19, 20, 21, 22, 23, 27, 28, 29, 30, 31, 32, 34, 49, 50, 54, 104} ==>
              ContentAt(b, p, t) == BytesAt(b, p)
    ensures t.id in {24, 25} ==> ContentAt(b, p, t) == StringsAt(b, p)
    ensures t.id in {26, 36, 39} ==> ContentAt(b, p, t) == BlobsAt(b, p)
  {
    hide ExpectAt, DataAt, DataListAt;
  }

  /** Vectors for structs and unions, lists for lists and maps, and arrays, each with the information it needs. */
  lemma {:induction false} NestedContent(b: Bytes, p: nat, t: LogicalType)
    requires t.id in {100, 107, 101, 102, 108}
    ensures t.info.None? ==> ContentAt(b, p, t) == Failure(MissingTypeInfo)
    ensures t.info.Some? ==>
              ContentAt(b, p, t) == match t.info.value.detail
                case Struct(fields) =>
                  if t.id in {100, 107} then ChildrenAt(b, p, seq(|fields|, k requires 0 <= k < |fields| => fields[k].fieldType))
                  else Failure(WrongTypeInfoKind)
                case List(child) => if t.id in {101, 102} then ListAt(b, p, child) else Failure(WrongTypeInfoKind)
                case Array(element, _) => if t.id == 108 then ArrayAt(b, p, element) else Failure(WrongTypeInfoKind)
                case _ => Failure(WrongTypeInfoKind)
  {
    hide ExpectAt, VarIntAt, VectorsFrom, ListEntryListAt, VectorAt;
    if t.info.Some? && t.info.value.detail.Struct? {
      var fields := t.info.value.detail.fields;
      assert FieldTypes(fields) == seq(|fields|, k requires 0 <= k < |fields| => fields[k].fieldType);
    }
  }

  /** Any other id is not recognized. */
  lemma {:induction false} UnrecognizedContent(b: Bytes, p: nat, t: LogicalType)
    requires t.id !in BYTES_IDS + STRINGS_IDS + BLOBS_IDS + VECTORS_IDS + LISTS_IDS + ARRAYS_IDS
    ensures ContentAt(b, p, t) == Failure(UnrecognizedTypeId(t.id))
  {
    KindOfId(t.id);
  }

  // ----- field ids

  /** A type: its id, and its information if there is any; an absent one may be written as a zero. */
  lemma {:induction false} TypeFields(t: LogicalType, c: Choice, at: Path)
    ensures TypeBytes(t, c, at)
         == [100, 0, t.id]
            + (match t.info
               case None => if c(at + [101]) then [101, 0, 0] else []
               case Some(i) => [101, 0, 1] + TypeInfoBytes(i, c, at + [101]))
            + [255, 255]
  {
    assert Id(100) == [100, 0] && Id(101) == [101, 0] && Id(OBJECT_END) == [255, 255];
    if t.info.Some? {
      hide TypeInfoBytes;
      assert Id(101) + ([1] + TypeInfoBytes(t.info.value, c, at + [101]))
          == [101, 0, 1] + TypeInfoBytes(t.info.value, c, at + [101]);
    }
  }

  /** The information of a type without alias: its kind as a number, and the fields of the kind. */
  lemma {:induction false} InfoFields(d: TypeDetail, c: Choice, at: Path)
    requires !c(at + [101])
    ensures TypeInfoBytes(TypeInfo(None, d), c, at)
         == [100, 0, match d case Generic => 1 case Decimal(_, _) => 2 case List(_) => 4 case Struct(_) => 5
                             case Enum(_, _) => 6 case Array(_, _) => 9]
            + DetailBytes(d, c, at) + [255, 255]
  {
    hide DetailBytes;
    assert Id(100) == [100, 0] && Id(OBJECT_END) == [255, 255];
    var head := Id(100) + [InfoType(d)];
    assert head + [] == head;
  }

  lemma {:induction false} DetailFields(d: TypeDetail, c: Choice, at: Path)
    ensures d.Generic? ==> DetailBytes(d, c, at) == []
    ensures d.Decimal? ==>
              DetailBytes(d, c, at) == (if d.width == 0 && !c(at + [200]) then [] else [200, 0, d.width])
                                       + (if d.scale == 0 && !c(at + [201]) then [] else [201, 0, d.scale])
    ensures d.List? ==> DetailBytes(d, c, at) == [200, 0] + TypeBytes(d.child, c, at + [200])
    ensures d.Struct? ==> DetailBytes(d, c, at) == [200, 0] + VarInt(|d.fields|) + FieldsBytes(d.fields, c, at + [200])
    ensures d.Enum? ==>
              DetailBytes(d, c, at) == [200, 0] + VarIntItem(d.valuesCount) + [201, 0] + ListBytes(d.values, DataBytes)
    ensures d.Array? ==>
              DetailBytes(d, c, at) == [200, 0] + TypeBytes(d.element, c, at + [200])
                                       + (if d.size == 0 && !c(at + [201]) then [] else [201, 0] + VarIntItem(d.size))
  {
    hide TypeBytes, FieldsBytes, ListBytes, VarInt, VarIntItem;
    assert Id(200) == [200, 0] && Id(201) == [201, 0];
  }

  lemma {:induction false} FieldFields(f: Field, c: Choice, at: Path)
    ensures FieldBytes(f, c, at)
         == [0, 0] + DataBytes(f.name) + [1, 0] + TypeBytes(f.fieldType, c, at) + [255, 255]
  {
    hide TypeBytes, DataBytes;
    assert Id(0) == [0, 0] && Id(1) == [1, 0] && Id(OBJECT_END) == [255, 255];
  }

  lemma {:induction false} VectorFields(v: Vector)
    ensures VectorBytes(v)
         == [100, 0, v.allValid] + (if v.validity.None? then [] else [101, 0] + DataBytes(v.validity.value))
            + ContentBytes(v.content) + [255, 255]
  {
    hide ContentBytes, DataBytes;
    assert Id(100) == [100, 0] && Id(101) == [101, 0] && Id(OBJECT_END) == [255, 255];
  }

  lemma {:induction false} ContentFields(content: Content)
    ensures content.Data? ==> ContentBytes(content) == [102, 0] + DataBytes(content.bytes)
    ensures content.Strings? ==> ContentBytes(content) == [102, 0] + ListBytes(content.strings, DataBytes)
    ensures content.Blobs? ==> ContentBytes(content) == [102, 0] + ListBytes(content.blobs, DataBytes)
    ensures content.Vectors? ==>
              ContentBytes(content) == [103, 0] + VarInt(|content.children|) + VectorsBytes(content.children)
    ensures content.Lists? ==>
              ContentBytes(content) == [104, 0] + VarIntItem(content.listSize) + [105, 0]
                                       + ListBytes(content.entries, EntryBytes) + [106, 0] + VectorBytes(content.child)
    ensures content.Arrays? ==>
              ContentBytes(content) == [103, 0] + VarIntItem(content.arraySize) + [104, 0] + VectorBytes(content.element)
  {
    hide VectorBytes, VectorsBytes, ListBytes, DataBytes, VarInt, VarIntItem;
    assert Id(102) == [102, 0] && Id(103) == [103, 0] && Id(104) == [104, 0] && Id(105) == [105, 0] && Id(106) == [106, 0];
  }

  // ----- a whole result in numbers

  const ONE_COLUMN: Bytes := [100, 0, 1, 1, 97, 101, 0, 1, 100, 0, 28, 255, 255, 255, 255]
  const TWO_ROWS: Bytes := [100, 0, 2, 101, 0, 1, 100, 0, 0, 102, 0, 2, 7, 9, 255, 255, 255, 255]

  /** A result with one UTINYINT column, named "a", and one chunk of the two rows 7 and 9. */
  lemma {:induction false} SmallResult()
    ensures var r := SuccessResult(ColumnNamesAndTypes([[97]], [LogicalType(28, None)]),
                                   [Chunk(2, [Vector(0, None, Data([7, 9]))])]);
            QueryResultAt([100, 0, 1, 101, 0] + ONE_COLUMN + [102, 0, 1] + TWO_ROWS + [255, 255], 0) == Success((r, 41))
  {
    hide QueryResultAt, ColumnsBytes, ChunkBytes, QueryResultFits, QueryResultBytes, ONE_COLUMN, TWO_ROWS;
    var none: Choice := _ => false;
    SmallColumns(none);
    SmallChunk();
    var columns := ColumnNamesAndTypes([[97]], [LogicalType(28, None)]);
    var chunk := Chunk(2, [Vector(0, None, Data([7, 9]))]);
    SmallResultBytes(columns, chunk, none);
    SmallFits();
    var r := SuccessResult(columns, [chunk]);
    QueryResultRoundTrip(r, none, []);
    Lengths();
    EndMarker(QueryResultBytes(r, none));
  }

  lemma {:induction false} EndMarker(b: Bytes)
    ensures b + Id(OBJECT_END) + [] == b + [255, 255]
  {
    assert Id(OBJECT_END) == [255, 255];
  }

  lemma {:induction false} Lengths()
    ensures |ONE_COLUMN| == 15 && |TWO_ROWS| == 18
  {}

  lemma {:induction false} SmallColumns(none: Choice)
    requires forall at :: !none(at)
    ensures ColumnsBytes(ColumnNamesAndTypes([[97]], [LogicalType(28, None)]), none, []) == ONE_COLUMN
  {
    hide TypesBytes, ListBytes;
    OneType(none);
    OneName();
    assert Id(100) == [100, 0] && Id(101) == [101, 0] && Id(OBJECT_END) == [255, 255] && VarInt(1) == [1];
  }

  lemma {:induction false} OneType(none: Choice)
    requires forall at :: !none(at)
    ensures TypesBytes([LogicalType(28, None)], none, []) == [100, 0, 28, 255, 255]
  {
    var types := [LogicalType(28, None)];
    TypeFields(types[0], none, [1]);
    assert types[1..] == [] && [] + [|types|] == [1];
  }

  lemma {:induction false} OneName()
    ensures ListBytes([[97]], DataBytes) == [1, 1, 97]
  {
    var names: seq<Bytes> := [[97]];
    assert names[1..] == [];
    assert Items(names, DataBytes) == DataBytes([97]) == [1, 97];
  }

  lemma {:induction false} SmallChunk()
    ensures ChunkBytes(Chunk(2, [Vector(0, None, Data([7, 9]))])) == TWO_ROWS
  {
    hide VectorsBytes;
    OneVector();
    assert Id(100) == [100, 0] && Id(101) == [101, 0] && Id(OBJECT_END) == [255, 255];
    assert VarInt(1) == [1] && VarInt(2) == [2];
  }

  lemma {:induction false} OneVector()
    ensures VectorsBytes([Vector(0, None, Data([7, 9]))])
         == [100, 0, 0, 102, 0, 2, 7, 9, 255, 255]
  {
    hide VectorBytes, ContentBytes;
    var v := Vector(0, None, Data([7, 9]));
    VectorFields(v);
    ContentFields(v.content);
    assert [v][1..] == [] && VectorsBytes([]) == [];
  }

  lemma {:induction false} SmallResultBytes(columns: ColumnNamesAndTypes, chunk: Chunk, none: Choice)
    ensures QueryResultBytes(SuccessResult(columns, [chunk]), none)
         == [100, 0, 1, 101, 0] + ColumnsBytes(columns, none, []) + [102, 0, 1] + ChunkBytes(chunk)
  {
    hide ColumnsBytes, ChunkBytes;
    assert [chunk][1..] == [];
    assert Items([chunk], ChunkBytes) == ChunkBytes(chunk);
  }

  lemma {:induction false} SmallFits()
    ensures QueryResultFits(SuccessResult(ColumnNamesAndTypes([[97]], [LogicalType(28, None)]),
                                          [Chunk(2, [Vector(0, None, Data([7, 9]))])]))
  {}

  // ----- what the round trip is about, in numbers: lengths and counts below 2^31

  predicate Short<T>(s: seq<T>) {
    |s| < 2147483648
  }

  lemma {:induction false} FittingTypes(id: byte, alias: Option<Bytes>, d: TypeDetail)
    ensures TypeFits(LogicalType(id, None))
    ensures TypeFits(LogicalType(id, Some(TypeInfo(alias, d)))) <==>
              (alias.None? || (alias.value != [] && Short(alias.value))) && DetailFits(d)
    ensures d.Generic? || d.Decimal? ==> DetailFits(d)
    ensures d.List? ==> (DetailFits(d) <==> TypeFits(d.child))
    ensures d.Struct? ==> (DetailFits(d) <==> Short(d.fields) && forall f <- d.fields :: Short(f.name) && TypeFits(f.fieldType))
    ensures d.Enum? ==>
              (DetailFits(d) <==> 0 <= d.valuesCount < 2147483648 && Short(d.values) && forall s <- d.values :: Short(s))
    ensures d.Array? ==> (DetailFits(d) <==> TypeFits(d.element) && 0 <= d.size < 2147483648)
  {}

  lemma {:induction false} FittingVectors(allValid: byte, validity: Option<Bytes>, content: Content, t: LogicalType)
    ensures VectorFits(Vector(allValid, validity, content), t) <==>
              && (if allValid == 0 then validity.None? else validity.Some? && Short(validity.value))
              && ContentFits(content, t)
    ensures content.Data? ==> (ContentFits(content, t) <==> Short(content.bytes) && t.id in {
              10, 11, 12, 13, 14, 15, 16, 17, 18, 19, 20, 21, 22, 23, 27, 28, 29, 30, 31, 32, 34, 49, 50, 54, 104})
    ensures content.Strings? ==>
              (ContentFits(content, t) <==> t.id in {24, 25} && Short(content.strings) && forall s <- content.strings :: Short(s))
    ensures content.Blobs? ==>
              (ContentFits(content, t) <==> t.id in {26, 36, 39} && Short(content.blobs) && forall s <- content.blobs :: Short(s))
  {}

  lemma {:induction false} FittingChildren(content: Content, t: LogicalType)
    ensures content.Vectors? ==>
              (ContentFits(content, t) <==>
                 && t.id in {100, 107} && t.info.Some? && t.info.value.detail.Struct? && Short(content.children)
                 && |content.children| == |t.info.value.detail.fields|
                 && forall k :: 0 <= k < |content.children| ==>
                                  VectorFits(content.children[k], t.info.value.detail.fields[k].fieldType))
    ensures content.Lists? ==>
              (ContentFits(content, t) <==>
                 && t.id in {101, 102} && t.info.Some? && t.info.value.detail.List? && Short(content.entries)
                 && 0 <= content.listSize < 2147483648 && VectorFits(content.child, t.info.value.detail.child)
                 && forall e <- content.entries :: 0 <= e.offset < 2147483648 && 0 <= e.length < 2147483648)
    ensures content.Arrays? ==>
              (ContentFits(content, t) <==>
                 && t.id == 108 && t.info.Some? && t.info.value.detail.Array?
                 && 0 <= content.arraySize < 2147483648 && VectorFits(content.element, t.info.value.detail.element))
  {
    hide VectorFits;
  }

  lemma {:induction false} FittingResults(r: QueryResult)
    ensures r.ErrorResult? ==> (QueryResultFits(r) <==> Short(r.message))
    ensures r.SuccessResult? ==>
              (QueryResultFits(r) <==>
                 && Short(r.columns.names) && (forall n <- r.columns.names :: Short(n))
                 && Short(r.columns.types) && (forall t <- r.columns.types :: TypeFits(t)) && Short(r.chunks)
                 && forall chunk <- r.chunks ::
                      && 0 <= chunk.rowCount < 2147483648 && |chunk.vectors| == |r.columns.types|
                      && forall k :: 0 <= k < |chunk.vectors| ==> VectorFits(chunk.vectors[k], r.columns.types[k]))
  {
    hide VectorFits, TypeFits;
  }

  // ----- integers of more bytes than any 32-bit number needs

  /** Shift counts wrap at 32, and bits are ORed: the seven bits of a sixth byte meet those of the first, from bit 3 on. */
  lemma {:induction false} SixthByte()
    ensures VarIntAt([0x88, 0x80, 0x80, 0x80, 0x80, 0x01], 0) == Success((8, 6))
    ensures VarIntAt([0x81, 0x80, 0x80, 0x80, 0x80, 0x01], 0) == Success((9, 6))
  {
    FromSixth(8);
    FromSixth(1);
    var b: Bytes, d: Bytes := [0x88, 0x80, 0x80, 0x80, 0x80, 0x01], [0x81, 0x80, 0x80, 0x80, 0x80, 0x01];
    Bits();
    hide Or32, Shl32, ToInt32;
    FirstFive(b, 8);
    FirstFive(d, 1);
    assert VarIntFrom(b, 5, 8, 35) == Success((ToInt32(Or32(8, Shl32(1, 35))), 6));
    assert VarIntFrom(d, 5, 1, 35) == Success((ToInt32(Or32(1, Shl32(1, 35))), 6));
  }

  lemma {:induction false} FirstFive(b: Bytes, low: word32)
    requires b == [0x80 + low, 0x80, 0x80, 0x80, 0x80, 0x01] && (low == 8 || low == 1)
    ensures VarIntAt(b, 0) == VarIntFrom(b, 5, low, 35)
  {
    hide Or32, Shl32, ToInt32;
    FromSixth(low);
    assert VarIntAt(b, 0) == VarIntFrom(b, 1, low, 7);
    assert VarIntFrom(b, 1, low, 7) == VarIntFrom(b, 2, low, 14);
    assert VarIntFrom(b, 2, low, 14) == VarIntFrom(b, 3, low, 21);
    assert VarIntFrom(b, 3, low, 21) == VarIntFrom(b, 4, low, 28);
    assert VarIntFrom(b, 4, low, 28) == VarIntFrom(b, 5, low, 35);
  }

  lemma {:induction false} FromSixth(low: word32)
    requires low < 0x80
    ensures Or32(0, Shl32(low, 0)) == low
    ensures forall shift: nat :: Or32(low, Shl32(0, shift)) == low
  {
    hide Or;
    OrZero(low);
    OrDisjoint(low, 0, 7);
    assert Pow2(7) == 0x80;
    assert Pow2(0) == 1;
    forall shift: nat
      ensures Shl32(0, shift) == 0
    {
      assert 0 * Pow2(shift % 32) == 0;
    }
  }

  lemma {:induction false} Bits()
    ensures ToInt32(Or32(8, Shl32(1, 35))) == 8 && ToInt32(Or32(1, Shl32(1, 35))) == 9
  {
    hide Or, Pow2;
    assert Shl32(1, 35) == 8 by { EightIs(); }
    OrSame(8);
    EightIs();
    OrDisjoint(1, 1, 3);
  }

  lemma {:induction false} EightIs()
    ensures Pow2(3) == 8
  {}

  lemma {:induction false} OrSame(x: nat)
    ensures Or(x, x) == x
  {
    if x != 0 { OrSame(x / 2); }
  }
}
