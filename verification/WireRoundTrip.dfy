/** Reading what was written gives it back, whatever follows, and stops just after it. */
module WireRoundTrip {
  import opened Wrappers
  import opened Words
  import opened WireTypes
  import opened WireReaders
  import opened WireWriters
  import opened ByteOrder

  /** The bytes `e` stand in `b` at offset `p`. */
  ghost predicate At(b: Bytes, p: nat, e: Bytes) {
    p + |e| <= |b| && b[p..p + |e|] == e
  }

  lemma AtParts(b: Bytes, p: nat, x: Bytes, y: Bytes)
    requires At(b, p, x + y)
    ensures At(b, p, x) && At(b, p + |x|, y)
  {
    assert b[p..p + |x|] == b[p..p + |x + y|][..|x|];
    assert b[p + |x|..p + |x| + |y|] == b[p..p + |x + y|][|x|..];
  }

  lemma AtStartOf(e: Bytes, rest: Bytes)
    ensures At(e + rest, 0, e)
  {
  }

  lemma AtId(b: Bytes, p: nat, id: nat)
    requires id < 0x1_0000 && At(b, p, Id(id))
    ensures PeekUint16(b, p) == Success(id)
    ensures forall other :: ExpectAt(b, p, other) ==
                            if other == id then Success(p + 2) else Failure(UnexpectedField(other, id))
    ensures forall other :: CheckAt(b, p, other) == Success((other == id, if other == id then p + 2 else p))
  {
    assert b[p] == b[p..p + 2][0] && b[p + 1] == b[p..p + 2][1];
  }

  lemma AtByte(b: Bytes, p: nat, x: byte)
    requires At(b, p, [x])
    ensures Uint8At(b, p) == Success((x, p + 1))
  {
    assert b[p] == b[p..p + 1][0];
  }

  // ----- variable-length integers

  function Scaled(n: nat, shift: nat): nat {
    n * Pow2(shift)
  }

  lemma ShiftedBound(n: nat, shift: nat)
    requires shift <= 32 && n < Pow2(32 - shift)
    ensures Scaled(n, shift) + Pow2(shift) <= 0x1_0000_0000
  {
    hide Pow2;
    Pow2Add(32 - shift, shift);
    Pow2Of32();
    MulMonotone(n + 1, Pow2(32 - shift), Pow2(shift));
  }

  /** OR-ing seven more bits above `shift` positions already filled adds them. */
  lemma AddBits(acc: word32, low: nat, shift: nat)
    requires shift < 32 && acc < Pow2(shift) && low < 0x80 && low < Pow2(32 - shift)
    ensures Or32(acc, Shl32(low, shift)) == acc + Scaled(low, shift)
  {
    hide Pow2, Or;
    ShiftedBound(low, shift);
    OrDisjoint(acc, low, shift);
    assert shift % 32 == shift;
    assert Shl32(low, shift) == Scaled(low, shift);
  }

  lemma SplitSeven(n: nat, shift: nat)
    ensures Scaled(n, shift) == Scaled(n % 0x80, shift) + Scaled(n / 0x80, shift + 7)
    ensures n < 0x80 ==> n % 0x80 == n
  {
    hide Pow2;
    Pow2Of7(shift);
    var high, low, unit := n / 0x80, n % 0x80, Pow2(shift);
    assert (low + 0x80 * high) * unit == low * unit + high * (0x80 * unit);
  }

  lemma NextSeven(acc: nat, n: nat, shift: nat)
    requires shift <= 21 && acc < Pow2(shift) && n < Pow2(32 - shift)
    ensures acc + Scaled(n % 0x80, shift) < Pow2(shift + 7) && n / 0x80 < Pow2(32 - (shift + 7))
  {
    hide Pow2;
    Pow2Of7(shift);
    Pow2Of7(25 - shift);
    assert (25 - shift) + 7 == 32 - shift;
    MulMonotone(n % 0x80, 0x7f, Pow2(shift));
  }

  /** One byte of a written number, and what reading it does. */
  lemma VarIntByte(b: Bytes, p: nat, n: nat, acc: word32, shift: nat)
    requires At(b, p, VarInt(n))
    ensures var acc' := Or32(acc, Shl32(n % 0x80, shift));
            if n < 0x80 then
              |VarInt(n)| == 1 && VarIntFrom(b, p, acc, shift) == Success((ToInt32(acc'), p + 1))
            else
              && |VarInt(n)| == 1 + |VarInt(n / 0x80)| && At(b, p + 1, VarInt(n / 0x80))
              && VarIntFrom(b, p, acc, shift) == VarIntFrom(b, p + 1, acc', shift + 7)
  {
    hide At, Pow2, Or32, Shl32, ToInt32;
    var x := if n < 0x80 then n else 0x80 + n % 0x80;
    var rest := if n < 0x80 then [] else VarInt(n / 0x80);
    assert VarInt(n) == [x] + rest;
    AtParts(b, p, [x], rest);
    AtByte(b, p, x);
    assert x % 0x80 == n % 0x80;
  }

  /** The bits of `n` are added above the `shift` bits already read, wrapping at 32 bits. */
  lemma {:induction false} VarIntStep(b: Bytes, p: nat, n: nat, acc: word32, shift: nat)
    requires shift in [0, 7, 14, 21, 28] && acc < Pow2(shift) && n < Pow2(32 - shift)
    requires At(b, p, VarInt(n))
    ensures acc + Scaled(n, shift) < 0x1_0000_0000
    ensures VarIntFrom(b, p, acc, shift) == Success((ToInt32(acc + Scaled(n, shift)), p + |VarInt(n)|))
    decreases n
  {
    hide At, Scaled, Pow2, Or32, Shl32, ToInt32, VarInt, VarIntFrom;
    ShiftedBound(n, shift);
    VarIntByte(b, p, n, acc, shift);
    var low, acc' := n % 0x80, Or32(acc, Shl32(n % 0x80, shift));
    SplitSeven(n, shift);
    AddBits(acc, low, shift);
    if n >= 0x80 {
      SixteenAt28(shift);
      NextSeven(acc, n, shift);
      VarIntStep(b, p + 1, n / 0x80, acc', shift + 7);
    }
  }

  lemma SixteenAt28(shift: nat)
    ensures shift == 28 ==> Pow2(32 - shift) == 0x10
  {
    assert Pow2(4) == 0x10;
  }

  lemma Pow2Of7(shift: nat)
    ensures Pow2(shift + 7) == 0x80 * Pow2(shift)
  {
    assert Pow2(7) == 0x80;
    Pow2Add(shift, 7);
  }

  /** Below 2^32, the 32-bit pattern of the number is read, as a signed integer. */
  lemma VarIntWraps(b: Bytes, p: nat, n: word32)
    requires At(b, p, VarInt(n))
    ensures VarIntAt(b, p) == Success((ToInt32(n), p + |VarInt(n)|))
  {
    hide At;
    Pow2Of32();
    VarIntStep(b, p, n, 0, 0);
  }

  /** A written number is read back as itself exactly when it is below 2^31. */
  lemma VarIntExact(b: Bytes, p: nat, n: nat)
    requires At(b, p, VarInt(n))
    ensures VarIntAt(b, p) == Success((n, p + |VarInt(n)|)) <==> n < LIMIT
    ensures VarIntAt(b, p).Success? && VarIntAt(b, p).value.0 == n <==> n < LIMIT
  {
    hide At;
    if n < LIMIT {
      VarIntWraps(b, p, n);
    }
  }

  lemma AtSmall(b: Bytes, p: nat, n: int)
    requires Small(n) && At(b, p, VarIntItem(n))
    ensures VarIntAt(b, p) == Success((n, p + |VarIntItem(n)|))
  {
    hide At;
    VarIntExact(b, p, n);
  }

  lemma AtData(b: Bytes, p: nat, d: Bytes)
    requires Small(|d|) && At(b, p, DataBytes(d))
    ensures DataAt(b, p) == Success((d, p + |DataBytes(d)|))
  {
    hide At, VarIntAt, VarInt, Id;
    AtParts(b, p, VarInt(|d|), d);
    VarIntExact(b, p, |d|);
  }

  // ----- lists of items that need no type

  lemma {:induction false} AtDatas(b: Bytes, p: nat, xs: seq<Bytes>, i: nat)
    requires (forall x <- xs :: Small(|x|)) && At(b, p, Items(xs, DataBytes))
    ensures DatasFrom(b, p, i, i + |xs|) == Success((xs, p + |Items(xs, DataBytes)|))
    decreases |xs|
  {
    hide At, VarIntAt, VarInt, Id, DataAt, DataBytes;
    hide At, VarIntAt, VarInt, Id;
    if xs != [] {
      AtParts(b, p, DataBytes(xs[0]), Items(xs[1..], DataBytes));
      AtData(b, p, xs[0]);
      AtDatas(b, p + |DataBytes(xs[0])|, xs[1..], i + 1);
      assert [xs[0]] + xs[1..] == xs;
    }
  }

  lemma AtDataList(b: Bytes, p: nat, xs: seq<Bytes>)
    requires Small(|xs|) && (forall x <- xs :: Small(|x|)) && At(b, p, ListBytes(xs, DataBytes))
    ensures DataListAt(b, p) == Success((xs, p + |ListBytes(xs, DataBytes)|))
  {
    hide At, VarIntAt, VarInt, Id, DatasFrom, Items, DataBytes;
    AtParts(b, p, VarInt(|xs|), Items(xs, DataBytes));
    VarIntExact(b, p, |xs|);
    AtDatas(b, p + |VarInt(|xs|)|, xs, 0);
  }

  lemma {:induction false} AtVarInts(b: Bytes, p: nat, xs: seq<int>, i: nat)
    requires (forall x <- xs :: Small(x)) && At(b, p, Items(xs, VarIntItem))
    ensures VarIntsFrom(b, p, i, i + |xs|) == Success((xs, p + |Items(xs, VarIntItem)|))
    decreases |xs|
  {
    hide At, VarIntAt, VarInt, Id, VarIntItem;
    if xs != [] {
      AtParts(b, p, VarIntItem(xs[0]), Items(xs[1..], VarIntItem));
      AtSmall(b, p, xs[0]);
      AtVarInts(b, p + |VarIntItem(xs[0])|, xs[1..], i + 1);
      assert [xs[0]] + xs[1..] == xs;
    }
  }

  lemma AtVarIntList(b: Bytes, p: nat, xs: seq<int>)
    requires Small(|xs|) && (forall x <- xs :: Small(x)) && At(b, p, ListBytes(xs, VarIntItem))
    ensures VarIntListAt(b, p) == Success((xs, p + |ListBytes(xs, VarIntItem)|))
  {
    hide At, VarIntAt, VarInt, Id, VarIntsFrom, Items, VarIntItem;
    AtParts(b, p, VarInt(|xs|), Items(xs, VarIntItem));
    VarIntExact(b, p, |xs|);
    AtVarInts(b, p + |VarInt(|xs|)|, xs, 0);
  }

  lemma AtEntry(b: Bytes, p: nat, e: ListEntry)
    requires Small(e.offset) && Small(e.length) && At(b, p, EntryBytes(e))
    ensures ListEntryAt(b, p) == Success((e, p + |EntryBytes(e)|))
  {
    hide At, VarIntAt, VarInt, Id;
    var e1 := Id(100);
    var e2 := e1 + VarIntItem(e.offset);
    var e3 := e2 + Id(101);
    var e4 := e3 + VarIntItem(e.length);
    AtParts(b, p, e4, Id(OBJECT_END));
    AtParts(b, p, e3, VarIntItem(e.length));
    AtParts(b, p, e2, Id(101));
    AtParts(b, p, e1, VarIntItem(e.offset));
    AtId(b, p, 100);
    AtSmall(b, p + |e1|, e.offset);
    AtId(b, p + |e2|, 101);
    AtSmall(b, p + |e3|, e.length);
    AtId(b, p + |e4|, OBJECT_END);
  }

  lemma {:induction false} AtEntries(b: Bytes, p: nat, xs: seq<ListEntry>, i: nat)
    requires (forall e <- xs :: Small(e.offset) && Small(e.length)) && At(b, p, Items(xs, EntryBytes))
    ensures ListEntriesFrom(b, p, i, i + |xs|) == Success((xs, p + |Items(xs, EntryBytes)|))
    decreases |xs|
  {
    hide At, VarIntAt, VarInt, Id, ListEntryAt, EntryBytes;
    if xs != [] {
      AtParts(b, p, EntryBytes(xs[0]), Items(xs[1..], EntryBytes));
      AtEntry(b, p, xs[0]);
      AtEntries(b, p + |EntryBytes(xs[0])|, xs[1..], i + 1);
      assert [xs[0]] + xs[1..] == xs;
    }
  }

  lemma AtEntryList(b: Bytes, p: nat, xs: seq<ListEntry>)
    requires Small(|xs|) && (forall e <- xs :: Small(e.offset) && Small(e.length)) && At(b, p, ListBytes(xs, EntryBytes))
    ensures ListEntryListAt(b, p) == Success((xs, p + |ListBytes(xs, EntryBytes)|))
  {
    hide At, VarIntAt, VarInt, Id, ListEntriesFrom, Items, EntryBytes;
    AtParts(b, p, VarInt(|xs|), Items(xs, EntryBytes));
    VarIntExact(b, p, |xs|);
    AtEntries(b, p + |VarInt(|xs|)|, xs, 0);
  }

  // ----- types

  lemma {:induction false} AtType(b: Bytes, p: nat, t: LogicalType, c: Choice, at: Path)
    requires TypeFits(t) && At(b, p, TypeBytes(t, c, at))
    ensures TypeAt(b, p) == Success((t, p + |TypeBytes(t, c, at)|))
    decreases t, 0
  {
    hide At, VarIntAt, VarInt, Id, TypeInfoAt, TypeInfoBytes, DetailFits;
    var e1 := Id(100);
    var e2 := e1 + [t.id];
    var info := InfoBytes(t.info, c, at + [101]);
    var e3 := e2 + info;
    AtParts(b, p, e3, Id(OBJECT_END));
    AtParts(b, p, e2, info);
    AtParts(b, p, e1, [t.id]);
    AtId(b, p, 100);
    AtByte(b, p + 2, t.id);
    AtId(b, p + |e3|, OBJECT_END);
    if info != [] {
      AtParts(b, p + 3, Id(101), info[2..]);
      AtId(b, p + 3, 101);
      match t.info {
        case None => AtByte(b, p + 5, 0);
        case Some(i) =>
          AtParts(b, p + 5, [1], TypeInfoBytes(i, c, at + [101]));
          AtByte(b, p + 5, 1);
          AtTypeInfo(b, p + 6, i, c, at + [101]);
      }
    }
  }

  lemma {:induction false} AtTypeInfo(b: Bytes, p: nat, i: TypeInfo, c: Choice, at: Path)
    requires TypeFits(LogicalType(0, Some(i))) && At(b, p, TypeInfoBytes(i, c, at))
    ensures TypeInfoAt(b, p) == Success((i, p + |TypeInfoBytes(i, c, at)|))
    decreases i, 0
  {
    hide At, VarIntAt, VarInt, Id, TypeDetailAt, DetailBytes, DataAt, AliasBytes, CheckAt, DetailFits;
    var e1 := Id(100);
    var e2 := e1 + [InfoType(i.detail)];
    var alias := AliasBytes(i.alias, c, at + [101]);
    var e3 := e2 + alias;
    var detail := DetailBytes(i.detail, c, at);
    AtParts(b, p, e3, detail + Id(OBJECT_END));
    AtParts(b, p, e2, alias);
    AtParts(b, p, e1, [InfoType(i.detail)]);
    AtId(b, p, 100);
    AtByte(b, p + 2, InfoType(i.detail));
    var p3 := p + |e3|;
    DetailStart(b, p3, i.detail, c, at);
    AtAlias(b, p + 3, i.alias, c, at + [101]);
    AtDetail(b, p3, i.detail, c, at);
    AtParts(b, p3, detail, Id(OBJECT_END));
    AtId(b, p3 + |detail|, OBJECT_END);
  }

  /** An alias that is written is read; one that is not is seen to be absent, from what follows. */
  lemma AtAlias(b: Bytes, p: nat, alias: Option<Bytes>, c: Choice, at: Path)
    requires At(b, p, AliasBytes(alias, c, at)) && (alias.Some? ==> Small(|alias.value|))
    requires var q := p + |AliasBytes(alias, c, at)|; CheckAt(b, q, 101) == Success((false, q))
    ensures CheckAt(b, p, 101).Success?
    ensures var (present, q) := CheckAt(b, p, 101).value;
            (if present then DataAt(b, q) else Success(([], q)))
            == Success((if alias.None? then [] else alias.value, p + |AliasBytes(alias, c, at)|))
  {
    hide At, VarIntAt, VarInt, Id, DataAt, DataBytes;
    if alias.Some? || c(at) {
      var name := if alias.None? then [] else alias.value;
      AtParts(b, p, Id(101), DataBytes(name));
      AtId(b, p, 101);
      AtData(b, p + 2, name);
    }
  }

  /** Neither an alias nor modifiers are seen where the details, or the end of the object, start. */
  lemma DetailStart(b: Bytes, p: nat, d: TypeDetail, c: Choice, at: Path)
    requires At(b, p, DetailBytes(d, c, at) + Id(OBJECT_END))
    ensures CheckAt(b, p, 101) == Success((false, p)) && CheckAt(b, p, 102) == Success((false, p))
  {
    hide At, VarIntAt, VarInt, Id;
    var e := DetailBytes(d, c, at);
    AtParts(b, p, e, Id(OBJECT_END));
    if e == [] {
      AtId(b, p, OBJECT_END);
    } else {
      var id := if d.Decimal? && d.width == 0 && !c(at + [200]) then 201 else 200;
      assert e == Id(id) + e[2..];
      AtParts(b, p, Id(id), e[2..]);
      AtId(b, p, id);
    }
  }

  lemma AtByteOrDefault(b: Bytes, p: nat, id: nat, x: byte, c: Choice, at: Path, next: nat)
    requires id < next < 0x1_0000 && At(b, p, ByteOrDefault(id, x, c, at))
    requires At(b, p + |ByteOrDefault(id, x, c, at)|, Id(next))
    ensures var (present, q) := CheckAt(b, p, id).Extract();
            (if present then Uint8At(b, q) else Success((0, q))) == Success((x, p + |ByteOrDefault(id, x, c, at)|))
  {
    hide At, VarIntAt, VarInt, Id;
    AtId(b, p + |ByteOrDefault(id, x, c, at)|, next);
    if !(x == 0 && !c(at)) {
      AtParts(b, p, Id(id), [x]);
      AtId(b, p, id);
      AtByte(b, p + 2, x);
    }
  }

  lemma {:induction false} AtDetail(b: Bytes, p: nat, d: TypeDetail, c: Choice, at: Path)
    requires DetailFits(d) && At(b, p, DetailBytes(d, c, at) + Id(OBJECT_END))
    ensures TypeDetailAt(b, p, InfoType(d)) == Success((d, p + |DetailBytes(d, c, at)|))
    decreases d, 0
  {
    hide At, VarIntAt, VarInt, Id, TypeAt, TypeBytes, TypeFits, FieldsFrom, FieldsBytes, DataListAt, ListBytes,
         VarIntItem, DataBytes, ByteOrDefault, Items, SizeBytes;
    AtParts(b, p, DetailBytes(d, c, at), Id(OBJECT_END));
    match d
    case Generic =>
    case Decimal(width, scale) => AtDecimal(b, p, width, scale, c, at);
    case List(child) =>
      AtParts(b, p, Id(200), TypeBytes(child, c, at + [200]));
      AtId(b, p, 200);
      AtType(b, p + 2, child, c, at + [200]);
    case Struct(fields) => AtStruct(b, p, fields, c, at);
    case Enum(valuesCount, values) => AtEnum(b, p, valuesCount, values, c, at);
    case Array(element, size) =>
      AtParts(b, p, Id(200) + TypeBytes(element, c, at + [200]), SizeBytes(size, c, at + [201]));
      AtParts(b, p, Id(200), TypeBytes(element, c, at + [200]));
      AtId(b, p, 200);
      AtType(b, p + 2, element, c, at + [200]);
      AtSize(b, p + 2 + |TypeBytes(element, c, at + [200])|, size, c, at + [201]);
  }

  lemma {:induction false} AtStruct(b: Bytes, p: nat, fields: seq<Field>, c: Choice, at: Path)
    requires DetailFits(Struct(fields)) && At(b, p, DetailBytes(Struct(fields), c, at))
    ensures TypeDetailAt(b, p, 5) == Success((Struct(fields), p + |DetailBytes(Struct(fields), c, at)|))
    decreases fields, 1
  {
    hide At, VarIntAt, VarInt, Id, TypeFits, FieldsFrom, FieldsBytes;
    var e2 := Id(200) + VarInt(|fields|);
    AtParts(b, p, e2, FieldsBytes(fields, c, at + [200]));
    AtParts(b, p, Id(200), VarInt(|fields|));
    AtId(b, p, 200);
    VarIntExact(b, p + 2, |fields|);
    AtFields(b, p + |e2|, fields, c, at + [200], 0);
  }

  lemma AtEnum(b: Bytes, p: nat, valuesCount: int, values: seq<Bytes>, c: Choice, at: Path)
    requires DetailFits(Enum(valuesCount, values)) && At(b, p, DetailBytes(Enum(valuesCount, values), c, at))
    ensures TypeDetailAt(b, p, 6)
         == Success((Enum(valuesCount, values), p + |DetailBytes(Enum(valuesCount, values), c, at)|))
  {
    hide At, VarIntAt, VarInt, Id, DataListAt, ListBytes, VarIntItem, DataBytes, Items;
    var e2 := Id(200) + VarIntItem(valuesCount);
    var e3 := e2 + Id(201);
    AtParts(b, p, e3, ListBytes(values, DataBytes));
    AtParts(b, p, e2, Id(201));
    AtParts(b, p, Id(200), VarIntItem(valuesCount));
    AtId(b, p, 200);
    AtSmall(b, p + 2, valuesCount);
    AtId(b, p + |e2|, 201);
    AtDataList(b, p + |e3|, values);
  }

  lemma AtSize(b: Bytes, p: nat, size: int, c: Choice, at: Path)
    requires Small(size) && At(b, p, SizeBytes(size, c, at)) && At(b, p + |SizeBytes(size, c, at)|, Id(OBJECT_END))
    ensures var (present, q) := CheckAt(b, p, 201).Extract();
            (if present then VarIntAt(b, q) else Success((0, q))) == Success((size, p + |SizeBytes(size, c, at)|))
  {
    hide At, VarIntAt, VarInt, Id, VarIntItem;
    if size == 0 && !c(at) {
      AtId(b, p, OBJECT_END);
    } else {
      AtParts(b, p, Id(201), VarIntItem(size));
      AtId(b, p, 201);
      AtSmall(b, p + 2, size);
    }
  }

  lemma AtDecimal(b: Bytes, p: nat, width: byte, scale: byte, c: Choice, at: Path)
    requires At(b, p, DetailBytes(Decimal(width, scale), c, at) + Id(OBJECT_END))
    ensures TypeDetailAt(b, p, 2) == Success((Decimal(width, scale), p + |DetailBytes(Decimal(width, scale), c, at)|))
  {
    hide At, VarIntAt, VarInt, Id;
    var w := ByteOrDefault(200, width, c, at + [200]);
    var s := ByteOrDefault(201, scale, c, at + [201]);
    AtParts(b, p, w + s, Id(OBJECT_END));
    AtParts(b, p, w, s);
    AtByteOrDefault(b, p + |w|, 201, scale, c, at + [201], OBJECT_END);
    if s == [] {
      AtByteOrDefault(b, p, 200, width, c, at + [200], OBJECT_END);
    } else {
      AtParts(b, p + |w|, Id(201), [scale]);
      AtByteOrDefault(b, p, 200, width, c, at + [200], 201);
    }
  }

  lemma {:induction false} AtField(b: Bytes, p: nat, f: Field, c: Choice, at: Path)
    requires Small(|f.name|) && TypeFits(f.fieldType) && At(b, p, FieldBytes(f, c, at))
    ensures FieldAt(b, p) == Success((f, p + |FieldBytes(f, c, at)|))
    decreases f, 0
  {
    hide At, VarIntAt, VarInt, Id, TypeAt, TypeBytes, TypeFits, DataAt, DataBytes;
    var e2 := Id(0) + DataBytes(f.name);
    var e3 := e2 + Id(1);
    var e4 := e3 + TypeBytes(f.fieldType, c, at);
    AtParts(b, p, e4, Id(OBJECT_END));
    AtParts(b, p, e3, TypeBytes(f.fieldType, c, at));
    AtParts(b, p, e2, Id(1));
    AtParts(b, p, Id(0), DataBytes(f.name));
    AtId(b, p, 0);
    AtData(b, p + 2, f.name);
    AtId(b, p + |e2|, 1);
    AtType(b, p + |e3|, f.fieldType, c, at);
    AtId(b, p + |e4|, OBJECT_END);
  }

  lemma {:induction false} AtFields(b: Bytes, p: nat, fields: seq<Field>, c: Choice, at: Path, i: nat)
    requires (forall f <- fields :: Small(|f.name|) && TypeFits(f.fieldType)) && At(b, p, FieldsBytes(fields, c, at))
    ensures FieldsFrom(b, p, i, i + |fields|) == Success((fields, p + |FieldsBytes(fields, c, at)|))
    decreases fields, 0
  {
    hide At, VarIntAt, VarInt, Id, FieldAt, FieldBytes, TypeFits;
    if fields != [] {
      var first := FieldBytes(fields[0], c, at + [|fields|]);
      AtParts(b, p, first, FieldsBytes(fields[1..], c, at));
      AtField(b, p, fields[0], c, at + [|fields|]);
      AtFields(b, p + |first|, fields[1..], c, at, i + 1);
      assert [fields[0]] + fields[1..] == fields;
    }
  }

  lemma {:induction false} AtTypes(b: Bytes, p: nat, types: seq<LogicalType>, c: Choice, at: Path, i: nat)
    requires (forall t <- types :: TypeFits(t)) && At(b, p, TypesBytes(types, c, at))
    ensures TypesFrom(b, p, i, i + |types|) == Success((types, p + |TypesBytes(types, c, at)|))
    decreases |types|
  {
    hide At, VarIntAt, VarInt, Id, TypeAt, TypeBytes, TypeFits;
    if types != [] {
      var first := TypeBytes(types[0], c, at + [|types|]);
      AtParts(b, p, first, TypesBytes(types[1..], c, at));
      AtType(b, p, types[0], c, at + [|types|]);
      AtTypes(b, p + |first|, types[1..], c, at, i + 1);
      assert [types[0]] + types[1..] == types;
    }
  }

  // ----- vectors

  lemma {:induction false} AtVector(b: Bytes, p: nat, v: Vector, t: LogicalType)
    requires VectorFits(v, t) && At(b, p, VectorBytes(v))
    ensures VectorAt(b, p, Some(t)) == Success((v, p + |VectorBytes(v)|))
    decreases v, 0
  {
    hide At, VarIntAt, VarInt, Id, ValidityAt, ValidityBytes, ContentAt, ContentBytes, ContentFits;
    var e1 := Id(100);
    var e2 := e1 + [v.allValid];
    var e3 := e2 + ValidityBytes(v.validity);
    var e4 := e3 + ContentBytes(v.content);
    AtParts(b, p, e4, Id(OBJECT_END));
    AtParts(b, p, e3, ContentBytes(v.content));
    AtParts(b, p, e2, ValidityBytes(v.validity));
    AtParts(b, p, e1, [v.allValid]);
    AtId(b, p, 100);
    AtByte(b, p + 2, v.allValid);
    AtValidity(b, p + 3, v);
    AtContent(b, p + |e3|, v.content, t);
    AtId(b, p + |e4|, OBJECT_END);
  }

  lemma AtValidity(b: Bytes, p: nat, v: Vector)
    requires v.allValid == 0 <==> v.validity.None?
    requires v.validity.Some? ==> Small(|v.validity.value|)
    requires At(b, p, ValidityBytes(v.validity))
    ensures ValidityAt(b, p, v.allValid) == Success((v.validity, p + |ValidityBytes(v.validity)|))
  {
    hide At, VarIntAt, VarInt, Id, DataAt, DataBytes;
    if v.validity.Some? {
      AtParts(b, p, Id(101), DataBytes(v.validity.value));
      AtId(b, p, 101);
      AtData(b, p + 2, v.validity.value);
    }
  }

  lemma {:induction false} AtContent(b: Bytes, p: nat, content: Content, t: LogicalType)
    requires ContentFits(content, t) && At(b, p, ContentBytes(content))
    ensures ContentAt(b, p, t) == Success((content, p + |ContentBytes(content)|))
    decreases content, 0
  {
    hide At, ContentAt, ContentBytes, ContentFits;
    match content
    case Vectors(children) => AtChildren(b, p, children, t);
    case Lists(listSize, entries, child) => AtLists(b, p, listSize, entries, child, t);
    case Arrays(arraySize, element) => AtArrays(b, p, arraySize, element, t);
    case _ => AtFlat(b, p, content, t);
  }

  lemma {:induction false} AtFlat(b: Bytes, p: nat, content: Content, t: LogicalType)
    requires content.Data? || content.Strings? || content.Blobs?
    requires ContentFits(content, t) && At(b, p, ContentBytes(content))
    ensures ContentAt(b, p, t) == Success((content, p + |ContentBytes(content)|))
  {
    hide At, VarIntAt, VarInt, Id, DataAt, DataBytes, DataListAt, ListBytes, StorageOf;
    KindOfId(t.id);
    match content
    case Data(bytes) =>
      AtParts(b, p, Id(102), DataBytes(bytes));
      AtId(b, p, 102);
      AtData(b, p + 2, bytes);
    case Strings(strings) =>
      AtParts(b, p, Id(102), ListBytes(strings, DataBytes));
      AtId(b, p, 102);
      AtDataList(b, p + 2, strings);
    case Blobs(blobs) =>
      AtParts(b, p, Id(102), ListBytes(blobs, DataBytes));
      AtId(b, p, 102);
      AtDataList(b, p + 2, blobs);
  }

  lemma {:induction false} AtChildren(b: Bytes, p: nat, children: seq<Vector>, t: LogicalType)
    requires ContentFits(Vectors(children), t) && At(b, p, ContentBytes(Vectors(children)))
    ensures ContentAt(b, p, t) == Success((Vectors(children), p + |ContentBytes(Vectors(children))|))
    decreases children, 1
  {
    hide At, VarIntAt, VarInt, Id, VectorFits, VectorsFrom, VectorsBytes, FieldTypes, StorageOf;
    KindOfId(t.id);
    var types := FieldTypes(t.info.value.detail.fields);
    var e2 := Id(103) + VarInt(|children|);
    AtParts(b, p, e2, VectorsBytes(children));
    AtParts(b, p, Id(103), VarInt(|children|));
    AtId(b, p, 103);
    VarIntExact(b, p + 2, |children|);
    AtVectors(b, p + |e2|, children, types, 0);
  }

  lemma {:induction false} AtArrays(b: Bytes, p: nat, arraySize: int, element: Vector, t: LogicalType)
    requires ContentFits(Arrays(arraySize, element), t) && At(b, p, ContentBytes(Arrays(arraySize, element)))
    ensures ContentAt(b, p, t)
         == Success((Arrays(arraySize, element), p + |ContentBytes(Arrays(arraySize, element))|))
    decreases element, 1
  {
    hide At, VarIntAt, VarInt, Id, VarIntItem, VectorAt, VectorBytes, VectorFits, StorageOf;
    KindOfId(t.id);
    var e2 := Id(103) + VarIntItem(arraySize);
    var e3 := e2 + Id(104);
    AtParts(b, p, e3, VectorBytes(element));
    AtParts(b, p, e2, Id(104));
    AtParts(b, p, Id(103), VarIntItem(arraySize));
    AtId(b, p, 103);
    AtSmall(b, p + 2, arraySize);
    AtId(b, p + |e2|, 104);
    AtVector(b, p + |e3|, element, t.info.value.detail.element);
  }

  /** The bytes of a list vector before those of its child. */
  function ListHead(listSize: int, entries: seq<ListEntry>): Bytes
    requires Small(listSize) && Small(|entries|) && forall e <- entries :: Small(e.offset) && Small(e.length)
  {
    Id(104) + VarIntItem(listSize) + Id(105) + ListBytes(entries, EntryBytes) + Id(106)
  }

  lemma {:induction false} AtListHead(b: Bytes, p: nat, listSize: int, entries: seq<ListEntry>, rest: Bytes)
    requires Small(listSize) && Small(|entries|) && forall e <- entries :: Small(e.offset) && Small(e.length)
    requires At(b, p, ListHead(listSize, entries) + rest)
    ensures var p3 := p + 2 + |VarIntItem(listSize)|;
            var p4 := p3 + 2 + |ListBytes(entries, EntryBytes)|;
            && ExpectAt(b, p, 104) == Success(p + 2) && VarIntAt(b, p + 2) == Success((listSize, p3))
            && ExpectAt(b, p3, 105) == Success(p3 + 2) && ListEntryListAt(b, p3 + 2) == Success((entries, p4))
            && ExpectAt(b, p4, 106) == Success(p4 + 2)
            && p + |ListHead(listSize, entries)| == p4 + 2 && At(b, p4 + 2, rest)
  {
    hide At, VarIntAt, VarInt, Id, ListEntryListAt, ListBytes, EntryBytes, VarIntItem, ExpectAt;
    var e2 := Id(104) + VarIntItem(listSize);
    var e3 := e2 + Id(105);
    var e4 := e3 + ListBytes(entries, EntryBytes);
    AtParts(b, p, e4 + Id(106), rest);
    AtParts(b, p, e4, Id(106));
    AtParts(b, p, e3, ListBytes(entries, EntryBytes));
    AtParts(b, p, e2, Id(105));
    AtParts(b, p, Id(104), VarIntItem(listSize));
    AtId(b, p, 104);
    AtSmall(b, p + 2, listSize);
    AtId(b, p + |e2|, 105);
    AtEntryList(b, p + |e3|, entries);
    AtId(b, p + |e4|, 106);
  }

  lemma {:induction false} AtLists(b: Bytes, p: nat, listSize: int, entries: seq<ListEntry>, child: Vector, t: LogicalType)
    requires ContentFits(Lists(listSize, entries, child), t) && At(b, p, ContentBytes(Lists(listSize, entries, child)))
    ensures ContentAt(b, p, t)
         == Success((Lists(listSize, entries, child), p + |ContentBytes(Lists(listSize, entries, child))|))
    decreases child, 1
  {
    hide At, VarIntAt, VarInt, Id, ListEntryListAt, ListBytes, EntryBytes, VectorAt, VectorBytes, VectorFits,
         VarIntItem, Items, StorageOf, ExpectAt;
    KindOfId(t.id);
    AtListHead(b, p, listSize, entries, VectorBytes(child));
    AtVector(b, p + |ListHead(listSize, entries)|, child, t.info.value.detail.child);
  }

  lemma {:induction false} AtVectors(b: Bytes, p: nat, vectors: seq<Vector>, types: seq<LogicalType>, i: nat)
    requires i + |vectors| == |types|
    requires (forall k :: 0 <= k < |vectors| ==> VectorFits(vectors[k], types[i + k])) && At(b, p, VectorsBytes(vectors))
    ensures VectorsFrom(b, p, types, i, |types|) == Success((vectors, p + |VectorsBytes(vectors)|))
    decreases vectors, 0
  {
    hide At, VarIntAt, VarInt, Id, VectorAt, VectorBytes, VectorFits;
    if vectors != [] {
      AtParts(b, p, VectorBytes(vectors[0]), VectorsBytes(vectors[1..]));
      assert VectorFits(vectors[0], types[i + 0]);
      AtVector(b, p, vectors[0], types[i]);
      forall k | 0 <= k < |vectors[1..]| ensures VectorFits(vectors[1..][k], types[i + 1 + k]) {
        assert VectorFits(vectors[k + 1], types[i + (k + 1)]);
      }
      AtVectors(b, p + |VectorBytes(vectors[0])|, vectors[1..], types, i + 1);
      assert [vectors[0]] + vectors[1..] == vectors;
    }
  }

  // ----- results

  /** A tokenize result is read back from its encoding, and the reader stops after the end marker. */
  lemma TokenizeResultRoundTrip(r: TokenizeResult, rest: Bytes)
    requires Small(|r.offsets|) && Small(|r.types|)
    requires (forall x <- r.offsets :: Small(x)) && forall x <- r.types :: Small(x)
    ensures TokenizeResultAt(TokenizeResultBytes(r) + rest, 0) == Success((r, |TokenizeResultBytes(r)|))
  {
    hide At, VarIntAt, VarInt, Id, VarIntListAt, ListBytes, VarIntItem, Items;
    var b := TokenizeResultBytes(r) + rest;
    AtStartOf(TokenizeResultBytes(r), rest);
    var e2 := Id(100) + ListBytes(r.offsets, VarIntItem);
    var e3 := e2 + Id(101);
    var e4 := e3 + ListBytes(r.types, VarIntItem);
    AtParts(b, 0, e4, Id(OBJECT_END));
    AtParts(b, 0, e3, ListBytes(r.types, VarIntItem));
    AtParts(b, 0, e2, Id(101));
    AtParts(b, 0, Id(100), ListBytes(r.offsets, VarIntItem));
    AtId(b, 0, 100);
    AtVarIntList(b, 2, r.offsets);
    AtId(b, |e2|, 101);
    AtVarIntList(b, |e3|, r.types);
    AtId(b, |e4|, OBJECT_END);
  }

  lemma AtSixParts(b: Bytes, p: nat, x1: Bytes, x2: Bytes, x3: Bytes, x4: Bytes, x5: Bytes, x6: Bytes)
    requires At(b, p, x1 + x2 + x3 + x4 + x5 + x6)
    ensures At(b, p, x1) && At(b, p + |x1|, x2) && At(b, p + |x1 + x2|, x3) && At(b, p + |x1 + x2 + x3|, x4)
    ensures At(b, p + |x1 + x2 + x3 + x4|, x5) && At(b, p + |x1 + x2 + x3 + x4 + x5|, x6)
  {
    hide At;
    AtParts(b, p, x1 + x2 + x3 + x4 + x5, x6);
    AtParts(b, p, x1 + x2 + x3 + x4, x5);
    AtParts(b, p, x1 + x2 + x3, x4);
    AtParts(b, p, x1 + x2, x3);
    AtParts(b, p, x1, x2);
  }

  lemma AtColumns(b: Bytes, p: nat, r: ColumnNamesAndTypes, c: Choice, at: Path)
    requires Small(|r.names|) && (forall n <- r.names :: Small(|n|))
    requires Small(|r.types|) && (forall t <- r.types :: TypeFits(t))
    requires At(b, p, ColumnsBytes(r, c, at))
    ensures ColumnNamesAndTypesAt(b, p) == Success((r, p + |ColumnsBytes(r, c, at)|))
  {
    hide At, VarIntAt, VarInt, Id, DataListAt, ListBytes, DataBytes, Items, TypesFrom, TypesBytes, TypeFits;
    var e2 := Id(100) + ListBytes(r.names, DataBytes);
    var e3 := e2 + Id(101);
    var e4 := e3 + VarInt(|r.types|);
    var e5 := e4 + TypesBytes(r.types, c, at);
    AtSixParts(b, p, Id(100), ListBytes(r.names, DataBytes), Id(101), VarInt(|r.types|), TypesBytes(r.types, c, at),
               Id(OBJECT_END));
    AtId(b, p, 100);
    AtDataList(b, p + 2, r.names);
    AtId(b, p + |e2|, 101);
    VarIntExact(b, p + |e3|, |r.types|);
    AtTypes(b, p + |e4|, r.types, c, at, 0);
    AtId(b, p + |e5|, OBJECT_END);
  }

  lemma AtChunk(b: Bytes, p: nat, chunk: Chunk, types: seq<LogicalType>)
    requires ChunkFits(chunk, types) && At(b, p, ChunkBytes(chunk))
    ensures ChunkAt(b, p, types) == Success((chunk, p + |ChunkBytes(chunk)|))
  {
    hide At, VarIntAt, VarInt, Id, VarIntItem, VectorsFrom, VectorsBytes, VectorFits;
    var e2 := Id(100) + VarIntItem(chunk.rowCount);
    var e3 := e2 + Id(101);
    var e4 := e3 + VarInt(|chunk.vectors|);
    var e5 := e4 + VectorsBytes(chunk.vectors);
    AtSixParts(b, p, Id(100), VarIntItem(chunk.rowCount), Id(101), VarInt(|chunk.vectors|), VectorsBytes(chunk.vectors), Id(OBJECT_END));
    AtId(b, p, 100);
    AtSmall(b, p + 2, chunk.rowCount);
    AtId(b, p + |e2|, 101);
    VarIntExact(b, p + |e3|, |chunk.vectors|);
    AtVectors(b, p + |e4|, chunk.vectors, types, 0);
    AtId(b, p + |e5|, OBJECT_END);
  }

  lemma {:induction false} AtChunks(b: Bytes, p: nat, chunks: seq<Chunk>, types: seq<LogicalType>, i: nat)
    requires (forall chunk <- chunks :: ChunkFits(chunk, types)) && At(b, p, Items(chunks, ChunkBytes))
    ensures ChunksFrom(b, p, types, i, i + |chunks|) == Success((chunks, p + |Items(chunks, ChunkBytes)|))
    decreases |chunks|
  {
    hide At, VarIntAt, VarInt, Id, ChunkAt, ChunkBytes, ChunkFits;
    if chunks != [] {
      AtParts(b, p, ChunkBytes(chunks[0]), Items(chunks[1..], ChunkBytes));
      AtChunk(b, p, chunks[0], types);
      AtChunks(b, p + |ChunkBytes(chunks[0])|, chunks[1..], types, i + 1);
      assert [chunks[0]] + chunks[1..] == chunks;
    }
  }

  /**
   * Every query result is read back from its encoding, whichever default values were written and whatever bytes
   * follow, and the reader stops just before those bytes: at the outer end marker.
   */
  lemma QueryResultRoundTrip(r: QueryResult, c: Choice, rest: Bytes)
    requires QueryResultFits(r)
    ensures QueryResultAt(QueryResultBytes(r, c) + Id(OBJECT_END) + rest, 0) == Success((r, |QueryResultBytes(r, c)|))
  {
    hide At, VarIntAt, VarInt, Id, ColumnNamesAndTypesAt, ColumnsBytes, DataAt, DataBytes, ChunksFrom, ChunkBytes,
         ChunkFits, TypeFits, Items;
    var b := QueryResultBytes(r, c) + Id(OBJECT_END) + rest;
    AtStartOf(QueryResultBytes(r, c), Id(OBJECT_END) + rest);
    assert b == QueryResultBytes(r, c) + (Id(OBJECT_END) + rest);
    match r
    case SuccessResult(columns, chunks) => AtSuccess(b, columns, chunks, c);
    case ErrorResult(message) =>
      AtParts(b, 0, Id(100) + [0] + Id(101), DataBytes(message));
      AtStart(b, 0);
      AtData(b, 5, message);
  }

  lemma AtSuccess(b: Bytes, columns: ColumnNamesAndTypes, chunks: seq<Chunk>, c: Choice)
    requires QueryResultFits(SuccessResult(columns, chunks))
    requires At(b, 0, QueryResultBytes(SuccessResult(columns, chunks), c))
    ensures QueryResultAt(b, 0)
         == Success((SuccessResult(columns, chunks), |QueryResultBytes(SuccessResult(columns, chunks), c)|))
  {
    hide At, VarIntAt, VarInt, Id, ColumnNamesAndTypesAt, ColumnsBytes, ChunkListAt, ListBytes, ChunkBytes, ChunkFits,
         TypeFits, DataAt;
    var e3 := Id(100) + [1] + Id(101);
    var e4 := e3 + ColumnsBytes(columns, c, []);
    var e5 := e4 + Id(102);
    AtParts(b, 0, e5, ListBytes(chunks, ChunkBytes));
    AtParts(b, 0, e4, Id(102));
    AtParts(b, 0, e3, ColumnsBytes(columns, c, []));
    AtStart(b, 1);
    AtColumns(b, 5, columns, c, []);
    AtId(b, |e4|, 102);
    AtChunkList(b, |e5|, chunks, columns.types);
  }

  lemma AtChunkList(b: Bytes, p: nat, chunks: seq<Chunk>, types: seq<LogicalType>)
    requires Small(|chunks|) && (forall chunk <- chunks :: ChunkFits(chunk, types))
    requires At(b, p, ListBytes(chunks, ChunkBytes))
    ensures ChunkListAt(b, p, types) == Success((chunks, p + |ListBytes(chunks, ChunkBytes)|))
  {
    hide At, VarIntAt, VarInt, ChunksFrom, Items, ChunkBytes, ChunkFits;
    AtParts(b, p, VarInt(|chunks|), Items(chunks, ChunkBytes));
    VarIntExact(b, p, |chunks|);
    AtChunks(b, p + |VarInt(|chunks|)|, chunks, types, 0);
  }

  lemma AtStart(b: Bytes, success: byte)
    requires At(b, 0, Id(100) + [success] + Id(101))
    ensures ExpectAt(b, 0, 100) == Success(2) && Uint8At(b, 2) == Success((success, 3)) && ExpectAt(b, 3, 101) == Success(5)
  {
    hide At, VarIntAt, VarInt, Id;
    AtParts(b, 0, Id(100) + [success], Id(101));
    AtParts(b, 0, Id(100), [success]);
    AtId(b, 0, 100);
    AtByte(b, 2, success);
    AtId(b, 3, 101);
  }
}
