/**
 * What a valid row of a column is, type id by type id: ids, widths and limits as numbers, and numbers as their bytes.
 */
module ColumnValues {
  import opened Wrappers
  import opened Words
  import opened ByteOrder
  import opened WireTypes
  import opened Columns
  import BigNum
  import ColumnLayout
  import Uuid

  // ----- numbers from bytes, least significant first

  function U16(b: Bytes, o: nat): nat
    requires o + 2 <= |b|
  {
    b[o] as nat + 0x100 * b[o + 1] as nat
  }

  function U32(b: Bytes, o: nat): nat
    requires o + 4 <= |b|
  {
    U16(b, o) + 0x1_0000 * U16(b, o + 2)
  }

  function U64(b: Bytes, o: nat): nat
    requires o + 8 <= |b|
  {
    U32(b, o) + 0x1_0000_0000 * U32(b, o + 4)
  }

  /** A number below twice `half`, of which the upper half stands for negative numbers. */
  function Wrapped(u: nat, half: nat): int {
    if u < half then u else u - 2 * half
  }

  lemma {:induction false} Read1(b: Bytes, o: nat)
    requires o + 1 <= |b|
    ensures GetUint(b, o, 1) == Success(b[o]) && GetInt(b, o, 1) == Success(Wrapped(b[o], 0x80))
  {
    var one := b[o..o + 1];
    assert one[1..] == [] && FromLe(one) == one[0];
    assert Pow256(1) == 0x100;
  }

  lemma {:induction false} Le2(b: Bytes, o: nat)
    requires o + 2 <= |b|
    ensures FromLe(b[o..o + 2]) == U16(b, o) < 0x1_0000
  {
    var two := b[o..o + 2];
    var one := two[1..];
    assert one[1..] == [] && FromLe(one) == one[0];
    assert FromLe(two) == two[0] as int + 0x100 * FromLe(one);
  }

  lemma {:induction false} Powers()
    ensures Pow256(2) == 0x1_0000 && Pow256(4) == 0x1_0000_0000 && Pow256(8) == 0x1_0000_0000_0000_0000
  {
    assert Pow256(2) == 0x1_0000;
    Pow256Add(2, 2);
    Pow256Add(4, 4);
  }

  lemma {:induction false} Le4(b: Bytes, o: nat)
    requires o + 4 <= |b|
    ensures FromLe(b[o..o + 4]) == U32(b, o) < 0x1_0000_0000
  {
    hide FromLe, Pow256, U16;
    Powers();
    Le2(b, o);
    Le2(b, o + 2);
    LeSplit(b[o..o + 4], 2);
    assert b[o..o + 4][..2] == b[o..o + 2] && b[o..o + 4][2..] == b[o + 2..o + 4];
  }

  lemma {:induction false} Le8(b: Bytes, o: nat)
    requires o + 8 <= |b|
    ensures FromLe(b[o..o + 8]) == U64(b, o) < 0x1_0000_0000_0000_0000
  {
    hide FromLe, Pow256, U32;
    Powers();
    Le4(b, o);
    Le4(b, o + 4);
    LeSplit(b[o..o + 8], 4);
    assert b[o..o + 8][..4] == b[o..o + 4] && b[o..o + 8][4..] == b[o + 4..o + 8];
  }

  lemma {:induction false} Read2(b: Bytes, o: nat)
    requires o + 2 <= |b|
    ensures GetUint(b, o, 2) == Success(U16(b, o)) && GetInt(b, o, 2) == Success(Wrapped(U16(b, o), 0x8000))
  {
    hide FromLe, Pow256;
    Powers();
    Le2(b, o);
  }

  lemma {:induction false} Read4(b: Bytes, o: nat)
    requires o + 4 <= |b|
    ensures GetUint(b, o, 4) == Success(U32(b, o)) && GetInt(b, o, 4) == Success(Wrapped(U32(b, o), 0x8000_0000))
  {
    hide FromLe, Pow256, U32;
    Powers();
    Le4(b, o);
  }

  lemma {:induction false} Read8(b: Bytes, o: nat)
    requires o + 8 <= |b|
    ensures GetUint(b, o, 8) == Success(U64(b, o))
    ensures GetInt(b, o, 8) == Success(Wrapped(U64(b, o), 0x8000_0000_0000_0000))
  {
    hide FromLe, Pow256, U64;
    Powers();
    Le8(b, o);
  }

  lemma {:induction false} Read16(b: Bytes, o: nat)
    requires o + 16 <= |b|
    ensures GetUInt128(b, o) == Success(U64(b, o) + 0x1_0000_0000_0000_0000 * U64(b, o + 8))
    ensures GetInt128(b, o)
         == Success(U64(b, o) + 0x1_0000_0000_0000_0000 * Wrapped(U64(b, o + 8), 0x8000_0000_0000_0000))
  {
    hide FromLe, Pow256, U64, Or;
    Powers();
    Read8(b, o);
    Read8(b, o + 8);
    Wide(b, o);
    Le8(b, o);
    Le8(b, o + 8);
    LeSplit(b[o..o + 16], 8);
    assert b[o..o + 16][..8] == b[o..o + 8] && b[o..o + 16][8..] == b[o + 8..o + 16];
  }

  // ----- which rows are valid

  /** Bit `row % 8` of byte `row / 8`, low bits first. */
  predicate BitOfRow(validity: Bytes, row: nat)
    requires row / 8 < |validity|
  {
    validity[row / 8] / [1, 2, 4, 8, 16, 32, 64, 128][row % 8] % 2 == 1
  }

  /** Without a bitmap every row is valid; with one, a row is valid when its bit is set; any other row is NULL. */
  lemma {:induction false} ValidRows(t: LogicalType, allValid: byte, content: Content, validity: Bytes, row: nat)
    requires row / 64 * 8 + 8 <= |validity|
    ensures IsRowValid(None, row) == Success(true)
    ensures IsRowValid(Some(validity), row) == Success(BitOfRow(validity, row))
    ensures !BitOfRow(validity, row) ==>
              ValueFromVector(t, Some(Vector(allValid, Some(validity), content)), row) == Success(NullValue)
  {
    hide FromLe, Pow2;
    var o, j := row / 64 * 8, row % 64;
    var word := validity[o..o + 8];
    BitOfWord(word, j / 8, j % 8);
    assert word[j / 8] == validity[row / 8] by { assert o + j / 8 == row / 8; }
    assert j % 8 == row % 8 && 8 * (j / 8) + j % 8 == j;
    SmallPowers();
  }

  lemma {:induction false} SmallPowers()
    ensures forall i :: 0 <= i < 8 ==> Pow2(i) == [1, 2, 4, 8, 16, 32, 64, 128][i]
  {
    assert Pow2(0) == 1 && Pow2(1) == 2 && Pow2(2) == 4 && Pow2(3) == 8;
    assert Pow2(4) == 16 && Pow2(5) == 32 && Pow2(6) == 64 && Pow2(7) == 128;
  }

  /** Bit `8k + i` of a number is bit `i` of its byte `k`. */
  lemma {:induction false} BitOfWord(b: Bytes, k: nat, i: nat)
    requires k < |b| && i < 8
    ensures FromLe(b) / Pow2(8 * k + i) % 2 == b[k] / Pow2(i) % 2
    decreases k
  {
    hide Pow2;
    var rest := FromLe(b[1..]);
    if k > 0 {
      BitOfWord(b[1..], k - 1, i);
      Pow2Add(8, 8 * (k - 1) + i);
      assert Pow2(8) == 0x100 by { EightBits(); }
      DivTwice(FromLe(b), 0x100, Pow2(8 * (k - 1) + i));
      assert FromLe(b) / 0x100 == rest;
    } else {
      LowBits(b[0], rest, i);
    }
  }

  lemma {:induction false} EightBits()
    ensures Pow2(8) == 0x100
  {
    assert Pow2(4) == 16;
    Pow2Add(4, 4);
  }

  lemma {:induction false} LowBits(x: nat, rest: nat, i: nat)
    requires i < 8
    ensures (x + 0x100 * rest) / Pow2(i) % 2 == x / Pow2(i) % 2
  {
    hide Pow2;
    SmallPowers();
    var p := Pow2(i);
    assert p in {1, 2, 4, 8, 16, 32, 64, 128};
    DropMultiple(x, rest, p);
  }

  lemma {:induction false} DropMultiple(x: nat, rest: nat, p: nat)
    requires p in {1, 2, 4, 8, 16, 32, 64, 128}
    ensures (x + 0x100 * rest) / p % 2 == x / p % 2
  {
    var half := [128, 64, 32, 16, 8, 4, 2, 1][if p == 1 then 0 else if p == 2 then 1 else if p == 4 then 2 else
                                              if p == 8 then 3 else if p == 16 then 4 else if p == 32 then 5 else
                                              if p == 64 then 6 else 7];
    Commute(p, half, rest);
    AddMultiple(x, 2 * (half * rest), p);
    EvenSum(x / p, half * rest);
  }

  lemma {:induction false} Commute(p: nat, half: nat, rest: nat)
    requires p * half == 128
    ensures p * (2 * (half * rest)) == 0x100 * rest
  {
    assert p * (2 * (half * rest)) == 2 * ((p * half) * rest);
  }

  lemma {:induction false} EvenSum(a: nat, b: nat)
    ensures (a + 2 * b) % 2 == a % 2
  {}

  lemma {:induction false} AddMultiple(x: nat, m: nat, p: nat)
    requires p > 0
    ensures (x + p * m) / p == x / p + m
    decreases m
  {
    if m > 0 {
      AddMultiple(x, m - 1, p);
      var y := x + p * (m - 1);
      assert x + p * m == y + p;
      AddOnce(y, p);
    }
  }

  lemma {:induction false} AddOnce(y: nat, p: nat)
    requires p > 0
    ensures (y + p) / p == y / p + 1
  {
    var z := y + p;
    assert y == p * (y / p) + y % p && z == p * (z / p) + z % p;
    assert z == p * (y / p + 1) + y % p;
    OneQuotient(p, z / p, z % p, y / p + 1, y % p);
  }

  lemma {:induction false} OneQuotient(p: nat, q: nat, r: nat, q': nat, r': nat)
    requires r < p && r' < p && p * q + r == p * q' + r'
    ensures q == q'
  {
    if q < q' {
      Gap(p, q, q');
    } else if q' < q {
      Gap(p, q', q);
    }
  }

  lemma {:induction false} Gap(p: nat, q: nat, q': nat)
    requires q < q'
    ensures p * q + p <= p * q'
  {
    assert p * q' == p * q + p * (q' - q);
    assert p * (q' - q) == p + p * (q' - q - 1);
  }

  // ----- rows of fixed width

  /** A valid row of a column of bytes. */
  predicate Holds(v: Vector, data: Bytes, row: int) {
    v.content == Data(data) && IsRowValid(v.validity, row) == Success(true)
  }

  lemma {:induction false} Unfolds(t: LogicalType, f: Format, v: Vector, data: Bytes, row: int)
    requires Holds(v, data, row) && StorageOf(t.id).FixedWidth? && FormatOf(t) == Success(f)
    ensures ValueFromVector(t, Some(v), row) == FixedFrom(t, f, data, row)
  {
    hide IsRowValid, FormatOf, FixedFrom;
  }

  /** BOOLEAN, TINYINT and UTINYINT. */
  lemma {:induction false} OneByteTypes(info: Option<TypeInfo>, v: Vector, data: Bytes, row: nat)
    requires Holds(v, data, row) && row < |data|
    ensures ValueFromVector(LogicalType(10, info), Some(v), row) == Success(Bool(data[row] != 0))
    ensures ValueFromVector(LogicalType(11, info), Some(v), row) == Success(Number(Wrapped(data[row], 0x80)))
    ensures ValueFromVector(LogicalType(28, info), Some(v), row) == Success(Number(data[row]))
  {
    hide ValueFromVector, IsRowValid, GetUint, GetInt;
    Unfolds(LogicalType(10, info), Uint(1), v, data, row);
    Unfolds(LogicalType(11, info), Sint(1), v, data, row);
    Unfolds(LogicalType(28, info), Uint(1), v, data, row);
    Read1(data, row);
  }

  /** SMALLINT and USMALLINT. */
  lemma {:induction false} TwoByteTypes(info: Option<TypeInfo>, v: Vector, data: Bytes, row: nat)
    requires Holds(v, data, row) && 2 * row + 2 <= |data|
    ensures ValueFromVector(LogicalType(12, info), Some(v), row) == Success(Number(Wrapped(U16(data, 2 * row), 0x8000)))
    ensures ValueFromVector(LogicalType(29, info), Some(v), row) == Success(Number(U16(data, 2 * row)))
  {
    hide ValueFromVector, IsRowValid, GetUint, GetInt, U16;
    Unfolds(LogicalType(12, info), Sint(2), v, data, row);
    Unfolds(LogicalType(29, info), Uint(2), v, data, row);
    Read2(data, 2 * row);
  }

  /** INTEGER, DATE, FLOAT and UINTEGER. */
  lemma {:induction false} FourByteTypes(info: Option<TypeInfo>, v: Vector, data: Bytes, row: nat)
    requires Holds(v, data, row) && 4 * row + 4 <= |data|
    ensures ValueFromVector(LogicalType(13, info), Some(v), row) == Success(Number(Wrapped(U32(data, 4 * row), 0x8000_0000)))
    ensures ValueFromVector(LogicalType(15, info), Some(v), row)
         == Success(Typed(15, Wrapped(U32(data, 4 * row), 0x8000_0000)))
    ensures ValueFromVector(LogicalType(22, info), Some(v), row) == Success(Float(data[4 * row..4 * row + 4]))
    ensures ValueFromVector(LogicalType(30, info), Some(v), row) == Success(Number(U32(data, 4 * row)))
  {
    hide ValueFromVector, IsRowValid, GetUint, GetInt, U32;
    Unfolds(LogicalType(13, info), Sint(4), v, data, row);
    Unfolds(LogicalType(15, info), Sint(4), v, data, row);
    Unfolds(LogicalType(22, info), FloatBits(4), v, data, row);
    Unfolds(LogicalType(30, info), Uint(4), v, data, row);
    Read4(data, 4 * row);
  }

  /** BIGINT, DOUBLE and UBIGINT. */
  lemma {:induction false} EightByteTypes(info: Option<TypeInfo>, v: Vector, data: Bytes, row: nat)
    requires Holds(v, data, row) && 8 * row + 8 <= |data|
    ensures ValueFromVector(LogicalType(14, info), Some(v), row)
         == Success(Number(Wrapped(U64(data, 8 * row), 0x8000_0000_0000_0000)))
    ensures ValueFromVector(LogicalType(23, info), Some(v), row) == Success(Float(data[8 * row..8 * row + 8]))
    ensures ValueFromVector(LogicalType(31, info), Some(v), row) == Success(Number(U64(data, 8 * row)))
  {
    hide ValueFromVector, IsRowValid, GetUint, GetInt, U64;
    Unfolds(LogicalType(14, info), Sint(8), v, data, row);
    Unfolds(LogicalType(23, info), FloatBits(8), v, data, row);
    Unfolds(LogicalType(31, info), Uint(8), v, data, row);
    Read8(data, 8 * row);
  }

  /** TIME, the four timestamps, and the timestamp with time zone: a count, of the unit that the id tells. */
  lemma {:induction false} CountTypes(id: byte, info: Option<TypeInfo>, v: Vector, data: Bytes, row: nat)
    requires id in {16, 17, 18, 19, 20, 32} && Holds(v, data, row) && 8 * row + 8 <= |data|
    ensures ValueFromVector(LogicalType(id, info), Some(v), row)
         == Success(Typed(id, Wrapped(U64(data, 8 * row), 0x8000_0000_0000_0000)))
  {
    hide ValueFromVector, IsRowValid, GetUint, GetInt, U64;
    Unfolds(LogicalType(id, info), Sint(8), v, data, row);
    Read8(data, 8 * row);
  }

  /** TIME WITH TIME ZONE: 24 bits of the offset, subtracted from 15:59:59, and above them the microseconds. */
  lemma {:induction false} TimeTzType(info: Option<TypeInfo>, v: Vector, data: Bytes, row: nat)
    requires Holds(v, data, row) && 8 * row + 8 <= |data|
    ensures ValueFromVector(LogicalType(34, info), Some(v), row)
         == Success(TimeTzValue(U64(data, 8 * row) / 0x100_0000, 57599 - U64(data, 8 * row) % 0x100_0000))
  {
    hide ValueFromVector, IsRowValid, GetUint, GetInt, U64, FromLe;
    Unfolds(LogicalType(34, info), Uint(8), v, data, row);
    Read8(data, 8 * row);
    Le8(data, 8 * row);
  }

  /** INTERVAL: months, days and microseconds. */
  lemma {:induction false} IntervalType(info: Option<TypeInfo>, v: Vector, data: Bytes, row: nat)
    requires Holds(v, data, row) && 16 * row + 16 <= |data|
    ensures ValueFromVector(LogicalType(27, info), Some(v), row)
         == Success(IntervalValue(Wrapped(U32(data, 16 * row), 0x8000_0000), Wrapped(U32(data, 16 * row + 4), 0x8000_0000),
                                  Wrapped(U64(data, 16 * row + 8), 0x8000_0000_0000_0000)))
  {
    hide ValueFromVector, IsRowValid, GetUint, GetInt, U32, U64;
    Unfolds(LogicalType(27, info), IntervalFormat(16), v, data, row);
    Read4(data, 16 * row);
    Read4(data, 16 * row + 4);
    Read8(data, 16 * row + 8);
  }

  /** UHUGEINT and HUGEINT. */
  lemma {:induction false} SixteenByteTypes(info: Option<TypeInfo>, v: Vector, data: Bytes, row: nat)
    requires Holds(v, data, row) && 16 * row + 16 <= |data|
    ensures ValueFromVector(LogicalType(49, info), Some(v), row)
         == Success(Number(U64(data, 16 * row) + 0x1_0000_0000_0000_0000 * U64(data, 16 * row + 8)))
    ensures ValueFromVector(LogicalType(50, info), Some(v), row)
         == Success(Number(U64(data, 16 * row)
                           + 0x1_0000_0000_0000_0000 * Wrapped(U64(data, 16 * row + 8), 0x8000_0000_0000_0000)))
  {
    hide ValueFromVector, IsRowValid, GetUInt128, GetInt128, U64;
    Unfolds(LogicalType(49, info), Uint(16), v, data, row);
    Unfolds(LogicalType(50, info), Sint(16), v, data, row);
    Read16(data, 16 * row);
  }

  // ----- UUIDs

  /** The stored bytes in reverse order, the top bit flipped. */
  function UuidBytes(data: Bytes, o: nat): Bytes
    requires o + 16 <= |data|
  {
    [(data[o + 15] as nat + 0x80) % 0x100, data[o + 14], data[o + 13], data[o + 12], data[o + 11], data[o + 10], data[o + 9],
     data[o + 8], data[o + 7], data[o + 6], data[o + 5], data[o + 4], data[o + 3], data[o + 2], data[o + 1], data[o]]
  }

  lemma {:induction false} ToBeReverses(b: Bytes)
    ensures forall k :: 0 <= k < |b| ==> ToBe(FromLe(b), |b|)[k] == b[|b| - 1 - k]
  {
    if b != [] {
      ToBeReverses(b[1..]);
      var rest := FromLe(b[1..]);
      assert FromLe(b) / 0x100 == rest && FromLe(b) % 0x100 == b[0];
      assert ToBe(FromLe(b), |b|) == ToBe(rest, |b| - 1) + [b[0]];
    }
  }

  /** Adding 2^127, modulo 2^128, flips the top bit of the last byte. */
  lemma {:induction false} FlipTop(b: Bytes)
    requires |b| == 16
    ensures Uuid.FromStoredHugeint(Signed(FromLe(b), 16)) == FromLe(b[15 := (b[15] as nat + 0x80) % 0x100])
  {
    hide FromLe, Pow256, Pow2, Uuid.FromStoredHugeint;
    var low, p, x := FromLe(b[..15]), Pow256(15), b[15] as nat;
    TopByte(b, b[15]);
    TopByte(b, (x + 0x80) % 0x100);
    LeBound(b[..15]);
    TopPower();
    Uuid.Width128();
    TopHalf(x, low, p);
    FlippedSum(FromLe(b), x, low, p);
  }

  lemma {:induction false} FlippedSum(u: nat, x: nat, low: nat, p: nat)
    requires x < 0x100 && low < p && p == Pow256(15) && u == low + p * x
    ensures Uuid.FromStoredHugeint(Signed(u, 16)) == low + p * ((x + 0x80) % 0x100)
  {
    hide Pow256, Pow2, Uuid.FromStoredHugeint;
    TopPower();
    Uuid.Width128();
    TopHalf(x, low, p);
    MulMonotone(x, 0xff, p);
    assert p * x == x * p && x * p >= 0;
    Uuid.FlipAddsTop(Signed(u, 16));
  }

  lemma {:induction false} TopByte(b: Bytes, top: byte)
    requires |b| == 16
    ensures FromLe(b[15 := top]) == FromLe(b[..15]) + Pow256(15) * top as nat
    ensures b[15 := b[15]] == b
  {
    hide FromLe, Pow256;
    var c := b[15 := top];
    LeSplit(c, 15);
    assert c[..15] == b[..15];
    LastByte(c);
  }

  lemma {:induction false} LastByte(b: Bytes)
    requires |b| == 16
    ensures FromLe(b[15..]) == b[15]
  {
    var one := b[15..];
    assert one[1..] == [] && FromLe(one) == one[0];
  }

  lemma {:induction false} TopPower()
    ensures Pow2(127) == 0x80 * Pow256(15)
  {
    hide Pow2, Pow256;
    Pow256IsPow2(15);
    Pow2Add(7, 120);
    SmallPowers();
  }

  lemma {:induction false} TopHalf(x: nat, low: nat, p: nat)
    requires x < 0x100 && low < p
    ensures 2 * (low + p * x) < 0x100 * p <==> x < 0x80
    ensures p * ((x + 0x80) % 0x100) == p * x + if x < 0x80 then 0x80 * p else -0x80 * p
  {
    if x < 0x80 {
      MulMonotone(x, 0x7f, p);
      assert p * (x + 0x80) == p * x + 0x80 * p;
    } else {
      MulMonotone(0x80, x, p);
      assert p * (x - 0x80) == p * x - 0x80 * p;
    }
  }

  lemma {:induction false} UuidReversed(data: Bytes, o: nat)
    requires o + 16 <= |data|
    ensures var b := data[o..o + 16];
            ToBe(FromLe(b[15 := (b[15] as nat + 0x80) % 0x100]), 16) == UuidBytes(data, o)
  {
    hide FromLe, ToBe;
    var b := data[o..o + 16];
    var flipped := b[15 := (b[15] as nat + 0x80) % 0x100];
    ToBeReverses(flipped);
    var bytes := ToBe(FromLe(flipped), 16);
    forall k | 0 <= k < 16
      ensures bytes[k] == UuidBytes(data, o)[k]
    {
      assert flipped[15 - k] == if k == 0 then (data[o + 15] as nat + 0x80) % 0x100 else data[o + (15 - k)];
    }
    assert bytes == UuidBytes(data, o);
  }

  lemma {:induction false} UuidType(info: Option<TypeInfo>, v: Vector, data: Bytes, row: nat)
    requires Holds(v, data, row) && 16 * row + 16 <= |data|
    ensures ValueFromVector(LogicalType(54, info), Some(v), row) == Success(UuidValue(UuidBytes(data, 16 * row)))
  {
    hide ValueFromVector, IsRowValid, GetInt128, FromLe, ToBe, Signed, Uuid.FromStoredHugeint, UuidBytes;
    var o := 16 * row;
    Unfolds(LogicalType(54, info), Sint(16), v, data, row);
    Wide(data, o);
    FlipTop(data[o..o + 16]);
    UuidReversed(data, o);
  }

  // ----- types with information: decimals and enums

  /** DECIMAL: 2, 4, 8 or 16 bytes up to widths 4, 9, 18 and 38, with the scale of the type. */
  lemma {:induction false} DecimalType(alias: Option<Bytes>, width: byte, scale: byte, v: Vector, data: Bytes, row: nat)
    requires Holds(v, data, row)
    ensures var t := LogicalType(21, Some(TypeInfo(alias, Decimal(width, scale))));
            if width <= 4 then
              2 * row + 2 <= |data| ==>
                ValueFromVector(t, Some(v), row) == Success(DecimalValue(Wrapped(U16(data, 2 * row), 0x8000), scale))
            else if width <= 9 then
              4 * row + 4 <= |data| ==>
                ValueFromVector(t, Some(v), row) == Success(DecimalValue(Wrapped(U32(data, 4 * row), 0x8000_0000), scale))
            else if width <= 18 then
              8 * row + 8 <= |data| ==>
                ValueFromVector(t, Some(v), row)
                == Success(DecimalValue(Wrapped(U64(data, 8 * row), 0x8000_0000_0000_0000), scale))
            else if width <= 38 then
              16 * row + 16 <= |data| ==>
                ValueFromVector(t, Some(v), row)
                == Success(DecimalValue(U64(data, 16 * row) + 0x1_0000_0000_0000_0000
                                        * Wrapped(U64(data, 16 * row + 8), 0x8000_0000_0000_0000), scale))
            else ValueFromVector(t, Some(v), row) == Failure(UnsupportedDecimalWidth)
  {
    hide IsRowValid, GetUint, GetInt, GetInt128, U16, U32, U64;
    var t := LogicalType(21, Some(TypeInfo(alias, Decimal(width, scale))));
    if width <= 4 {
      if 2 * row + 2 <= |data| { Unfolds(t, Sint(2), v, data, row); Read2(data, 2 * row); }
    } else if width <= 9 {
      if 4 * row + 4 <= |data| { Unfolds(t, Sint(4), v, data, row); Read4(data, 4 * row); }
    } else if width <= 18 {
      if 8 * row + 8 <= |data| { Unfolds(t, Sint(8), v, data, row); Read8(data, 8 * row); }
    } else if width <= 38 {
      if 16 * row + 16 <= |data| { Unfolds(t, Sint(16), v, data, row); Read16(data, 16 * row); }
    }
  }

  /** The value at an index of an enum; undefined past the last. */
  function EnumAt(values: seq<Bytes>, i: nat): Value {
    if i < |values| then Text(values[i]) else Undefined
  }

  /** ENUM: an index of 1, 2 or 4 bytes, by the number of values. */
  lemma {:induction false} EnumType(alias: Option<Bytes>, valuesCount: int, values: seq<Bytes>, v: Vector,
                                    data: Bytes, row: nat)
    requires Holds(v, data, row)
    ensures var t := LogicalType(104, Some(TypeInfo(alias, Enum(valuesCount, values))));
            if |values| < 256 then
              row < |data| ==> ValueFromVector(t, Some(v), row) == Success(EnumAt(values, data[row]))
            else if |values| < 65536 then
              2 * row + 2 <= |data| ==> ValueFromVector(t, Some(v), row) == Success(EnumAt(values, U16(data, 2 * row)))
            else if |values| < 4294967296 then
              4 * row + 4 <= |data| ==> ValueFromVector(t, Some(v), row) == Success(EnumAt(values, U32(data, 4 * row)))
            else ValueFromVector(t, Some(v), row) == Failure(UnsupportedEnumSize)
  {
    hide IsRowValid, GetUint, GetInt, U16, U32;
    var t := LogicalType(104, Some(TypeInfo(alias, Enum(valuesCount, values))));
    if |values| < 256 {
      if row < |data| { Unfolds(t, Uint(1), v, data, row); Read1(data, row); }
    } else if |values| < 65536 {
      if 2 * row + 2 <= |data| { Unfolds(t, Uint(2), v, data, row); Read2(data, 2 * row); }
    } else if |values| < 4294967296 {
      if 4 * row + 4 <= |data| { Unfolds(t, Uint(4), v, data, row); Read4(data, 4 * row); }
    }
  }

  // ----- strings and blobs

  /** CHAR and VARCHAR, BLOB, BIT and BIGNUM: the item at the row. */
  lemma {:induction false} ListedTypes(info: Option<TypeInfo>, v: Vector, items: seq<Bytes>, row: nat)
    requires IsRowValid(v.validity, row) == Success(true) && row < |items|
    ensures v.content == Strings(items) ==>
              && ValueFromVector(LogicalType(24, info), Some(v), row) == Success(Text(items[row]))
              && ValueFromVector(LogicalType(25, info), Some(v), row) == Success(Text(items[row]))
    ensures v.content == Blobs(items) ==>
              && ValueFromVector(LogicalType(26, info), Some(v), row) == Success(BlobValue(items[row]))
              && ValueFromVector(LogicalType(36, info), Some(v), row) == Success(BitValue(items[row]))
              && ValueFromVector(LogicalType(39, info), Some(v), row)
                 == if |items[row]| < 3 then Failure(ViewOutOfRange) else Success(Number(BigNum.ValueOf(items[row])))
  {
    hide IsRowValid, BigNum.ValueOf;
  }

  // ----- nested types

  /** STRUCT: the value of every child at the row, under the name of its field. */
  lemma {:induction false} StructType(alias: Option<Bytes>, fields: seq<Field>, v: Vector, children: seq<Vector>,
                                      row: int, values: seq<Value>)
    requires IsRowValid(v.validity, row) == Success(true) && v.content == Vectors(children)
    requires |children| == |fields| == |values|
    requires forall k :: 0 <= k < |fields| ==>
                           ValueFromVector(fields[k].fieldType, Some(children[k]), row) == Success(values[k])
    ensures ValueFromVector(LogicalType(100, Some(TypeInfo(alias, Struct(fields)))), Some(v), row)
         == Success(StructValue(seq(|fields|, k requires 0 <= k < |fields| => StructEntry(fields[k].name, values[k]))))
  {
    hide IsRowValid;
    var entries := seq(|fields|, k requires 0 <= k < |fields| => StructEntry(fields[k].name, values[k]));
    ColumnLayout.StructReadsBack(fields, children, row, entries);
  }

  /** LIST: as many values of the child as the entry of the row says, from its offset on. */
  lemma {:induction false} ListType(alias: Option<Bytes>, child: LogicalType, v: Vector, size: int,
                                    entries: seq<ListEntry>, items: Vector, row: nat, values: seq<Value>)
    requires IsRowValid(v.validity, row) == Success(true) && v.content == Lists(size, entries, items)
    requires row < |entries| && entries[row].offset >= 0 && entries[row].length == |values|
    requires forall j :: 0 <= j < |values| ==>
                           ValueFromVector(child, Some(items), entries[row].offset + j) == Success(values[j])
    ensures ValueFromVector(LogicalType(101, Some(TypeInfo(alias, List(child)))), Some(v), row) == Success(ListValue(values))
  {
    hide IsRowValid;
    ColumnLayout.ValuesReadBack(child, items, entries[row].offset, values);
  }

  /** MAP: the pairs of the two columns of the child, from the offset of the entry on. */
  lemma {:induction false} MapType(alias: Option<Bytes>, child: LogicalType, fields: seq<Field>, v: Vector, size: int,
                                   entries: seq<ListEntry>, items: Vector, keys: Vector, values: Vector, row: nat,
                                   pairs: seq<MapEntry>)
    requires IsRowValid(v.validity, row) == Success(true) && v.content == Lists(size, entries, items)
    requires child.info.Some? && child.info.value.detail == Struct(fields) && |fields| == 2
    requires items.content == Vectors([keys, values])
    requires row < |entries| && entries[row].offset >= 0 && entries[row].length == |pairs|
    requires forall j :: 0 <= j < |pairs| ==>
                           && ValueFromVector(fields[0].fieldType, Some(keys), entries[row].offset + j) == Success(pairs[j].key)
                           && ValueFromVector(fields[1].fieldType, Some(values), entries[row].offset + j)
                              == Success(pairs[j].value)
    ensures ValueFromVector(LogicalType(102, Some(TypeInfo(alias, List(child)))), Some(v), row) == Success(MapValue(pairs))
  {
    hide IsRowValid;
    ColumnLayout.MapReadsBack(fields, [keys, values], entries[row].offset, pairs);
  }

  /** ARRAY: `size` values of the child, from row times `size` on. */
  lemma {:induction false} ArrayType(alias: Option<Bytes>, element: LogicalType, size: nat, v: Vector, arraySize: int,
                                     items: Vector, row: nat, values: seq<Value>)
    requires IsRowValid(v.validity, row) == Success(true) && v.content == Arrays(arraySize, items) && |values| == size
    requires row * size >= 0
    requires forall j :: 0 <= j < size ==> ValueFromVector(element, Some(items), row * size + j) == Success(values[j])
    ensures ValueFromVector(LogicalType(108, Some(TypeInfo(alias, Array(element, size)))), Some(v), row)
         == Success(ArrayValue(values))
  {
    hide IsRowValid;
    ColumnLayout.ValuesReadBack(element, items, row * size, values);
  }

  /** UNION: the first child holds the tag, and the child after the tag the member. */
  lemma {:induction false} UnionType(alias: Option<Bytes>, fields: seq<Field>, v: Vector, children: seq<Vector>,
                                     row: int, tag: nat)
    requires IsRowValid(v.validity, row) == Success(true) && v.content == Vectors(children)
    requires tag + 1 < |fields| == |children|
    requires ValueFromVector(fields[0].fieldType, Some(children[0]), row) == Success(Number(tag))
    ensures ValueFromVector(LogicalType(107, Some(TypeInfo(alias, Struct(fields)))), Some(v), row)
         == ValueFromVector(fields[tag + 1].fieldType, Some(children[tag + 1]), row)
  {
    hide IsRowValid;
  }

  /** A tag that is NULL or a boolean counts as 0 or 1. */
  lemma {:induction false} UnionTags(alias: Option<Bytes>, fields: seq<Field>, v: Vector, children: seq<Vector>, row: int,
                                     tagValue: Value)
    requires IsRowValid(v.validity, row) == Success(true) && v.content == Vectors(children)
    requires 3 <= |fields| == |children|
    requires ValueFromVector(fields[0].fieldType, Some(children[0]), row) == Success(tagValue)
    ensures var r := ValueFromVector(LogicalType(107, Some(TypeInfo(alias, Struct(fields)))), Some(v), row);
            && (tagValue == NullValue || tagValue == Bool(false) ==>
                  r == ValueFromVector(fields[1].fieldType, Some(children[1]), row))
            && (tagValue == Bool(true) ==> r == ValueFromVector(fields[2].fieldType, Some(children[2]), row))
  {
    hide IsRowValid;
  }

  // ----- errors

  /** A read outside the bytes of the column is an error, for every width. */
  lemma {:induction false} OutOfRange(id: byte, info: Option<TypeInfo>, v: Vector, data: Bytes, row: int)
    requires Holds(v, data, row)
    ensures id in {10, 11, 28} && !(0 <= row < |data|) ==>
              ValueFromVector(LogicalType(id, info), Some(v), row) == Failure(ViewOutOfRange)
    ensures id in {12, 29} && !(0 <= row && 2 * row + 2 <= |data|) ==>
              ValueFromVector(LogicalType(id, info), Some(v), row) == Failure(ViewOutOfRange)
    ensures id in {13, 15, 22, 30} && !(0 <= row && 4 * row + 4 <= |data|) ==>
              ValueFromVector(LogicalType(id, info), Some(v), row) == Failure(ViewOutOfRange)
    ensures id in {14, 16, 17, 18, 19, 20, 23, 31, 32, 34} && !(0 <= row && 8 * row + 8 <= |data|) ==>
              ValueFromVector(LogicalType(id, info), Some(v), row) == Failure(ViewOutOfRange)
    ensures id in {27, 49, 50, 54} && !(0 <= row && 16 * row + 16 <= |data|) ==>
              ValueFromVector(LogicalType(id, info), Some(v), row) == Failure(ViewOutOfRange)
  {
    hide IsRowValid, ValueFromVector;
    var t := LogicalType(id, info);
    if id in {10, 11, 28, 12, 29, 13, 15, 22, 30, 14, 16, 17, 18, 19, 20, 23, 31, 32, 34, 27, 49, 50, 54} {
      Unfolds(t, FormatOf(t).value, v, data, row);
    }
  }

  const KNOWN_IDS: set<int> := {
    10, 11, 12, 13, 14, 15, 16, 17, 18, 19, 20, 21, 22, 23, 24, 25, 26, 27, 28, 29, 30, 31, 32, 34, 36, 39, 49, 50, 54, 100,
    101, 102, 104, 107, 108}

  /** A valid row of any other type is an error; so is one of a decimal or an enum without its information. */
  lemma {:induction false} UnknownTypes(t: LogicalType, v: Vector, row: int)
    requires IsRowValid(v.validity, row) == Success(true)
    ensures t.id !in KNOWN_IDS ==> ValueFromVector(t, Some(v), row) == Failure(NotImplemented(t.id))
    ensures t.id in {21, 104, 100, 101, 102, 107, 108} && t.info.None? ==>
              ValueFromVector(t, Some(v), row) == Failure(MissingInfo)
  {
    hide IsRowValid;
  }

  // ----- which types and values can be laid out

  /** The types whose columns are laid out: all known ones, with the information that they need. */
  lemma {:induction false} LaidOutTypes(t: LogicalType)
    ensures ColumnLayout.TypeOk(t) <==>
              || t.id in {10, 11, 12, 13, 14, 15, 16, 17, 18, 19, 20, 22, 23, 27, 28, 29, 30, 31, 32, 34, 49, 50, 54}
              || t.id in {24, 25, 26, 36, 39}
              || (t.info.Some? && DetailLaidOut(t.id, t.info.value.detail))
  {}

  predicate DetailLaidOut(id: byte, detail: TypeDetail) {
    match detail
    case Decimal(width, _) => id == 21 && width <= 38
    case Enum(_, values) => id == 104 && |values| < 4294967296
    case Struct(fields) =>
      && (id == 100 || (id == 107 && 1 <= |fields| <= 256 && fields[0].fieldType.id == 28))
      && forall f <- fields :: ColumnLayout.TypeOk(f.fieldType)
    case List(child) =>
      && ColumnLayout.TypeOk(child)
      && (id == 101 || (id == 102 && child.id == 100 && |child.info.value.detail.fields| == 2))
    case Array(element, size) => id == 108 && size >= 0 && ColumnLayout.TypeOk(element)
    case Generic => false
  }

  /** The numbers that a column of each width holds. */
  lemma {:induction false} NumberCells(id: byte, info: Option<TypeInfo>, n: int)
    requires ColumnLayout.TypeOk(LogicalType(id, info))
    ensures var ok := ColumnLayout.CellOk(LogicalType(id, info), ColumnLayout.Num(n));
            && (id in {10, 28} ==> (ok <==> 0 <= n < 0x100))
            && (id == 11 ==> (ok <==> -0x80 <= n < 0x80))
            && (id == 29 ==> (ok <==> 0 <= n < 0x1_0000))
            && (id == 12 ==> (ok <==> -0x8000 <= n < 0x8000))
            && (id == 30 ==> (ok <==> 0 <= n < 0x1_0000_0000))
            && (id in {13, 15} ==> (ok <==> -0x8000_0000 <= n < 0x8000_0000))
            && (id in {31, 34} ==> (ok <==> 0 <= n < 0x1_0000_0000_0000_0000))
            && (id in {14, 16, 17, 18, 19, 20, 32} ==> (ok <==> -0x8000_0000_0000_0000 <= n < 0x8000_0000_0000_0000))
  {
    hide Pow256;
    Powers();
    assert Pow256(1) == 0x100 by { WidePower(); }
  }

  lemma {:induction false} WideCells(id: byte, info: Option<TypeInfo>, n: int)
    requires ColumnLayout.TypeOk(LogicalType(id, info))
    ensures var ok := ColumnLayout.CellOk(LogicalType(id, info), ColumnLayout.Num(n));
            && (id == 49 ==> (ok <==> 0 <= n < 0x1_0000_0000_0000_0000_0000_0000_0000_0000))
            && (id in {50, 54} ==>
                  (ok <==> -0x8000_0000_0000_0000_0000_0000_0000_0000 <= n < 0x8000_0000_0000_0000_0000_0000_0000_0000))
  {
    hide Pow256;
    WidePower();
  }

  lemma {:induction false} WidePower()
    ensures Pow256(1) == 0x100 && Pow256(16) == 0x1_0000_0000_0000_0000_0000_0000_0000_0000
  {
    Powers();
    Pow256Add(8, 8);
    assert Pow256(1) == 0x100;
  }

  /** The values of a column that are not plain numbers; NULL is a value of every type. */
  lemma {:induction false} FlatCells(t: LogicalType, c: ColumnLayout.Cell)
    requires ColumnLayout.TypeOk(t) && !c.Null?
    ensures ColumnLayout.CellOk(t, ColumnLayout.Null)
    ensures t.id == 22 ==> (ColumnLayout.CellOk(t, c) <==> c.Raw? && |c.bytes| == 4)
    ensures t.id == 23 ==> (ColumnLayout.CellOk(t, c) <==> c.Raw? && |c.bytes| == 8)
    ensures t.id in {24, 25, 26, 36} ==> (ColumnLayout.CellOk(t, c) <==> c.Raw?)
    ensures t.id == 39 ==> (ColumnLayout.CellOk(t, c) <==> c.Raw? && |c.bytes| >= 3)
    ensures t.id == 27 ==> (ColumnLayout.CellOk(t, c) <==>
                              && c.Span? && -0x8000_0000 <= c.months < 0x8000_0000 && -0x8000_0000 <= c.days < 0x8000_0000
                              && -0x8000_0000_0000_0000 <= c.micros < 0x8000_0000_0000_0000)
  {
    hide Pow256;
    Powers();
  }

  lemma {:induction false} DecimalCells(t: LogicalType, c: ColumnLayout.Cell)
    requires ColumnLayout.TypeOk(t) && !c.Null? && t.id == 21
    ensures var width := t.info.value.detail.width;
            ColumnLayout.CellOk(t, c) <==>
              && c.Num?
              && if width <= 4 then -0x8000 <= c.n < 0x8000
                 else if width <= 9 then -0x8000_0000 <= c.n < 0x8000_0000
                 else if width <= 18 then -0x8000_0000_0000_0000 <= c.n < 0x8000_0000_0000_0000
                 else -0x8000_0000_0000_0000_0000_0000_0000_0000 <= c.n < 0x8000_0000_0000_0000_0000_0000_0000_0000
  {
    hide Pow256;
    Powers();
    WidePower();
  }

  lemma {:induction false} EnumCells(t: LogicalType, c: ColumnLayout.Cell)
    requires ColumnLayout.TypeOk(t) && !c.Null? && t.id == 104
    ensures var count := |t.info.value.detail.values|;
            ColumnLayout.CellOk(t, c) <==>
              c.Num? && 0 <= c.n < if count < 256 then 256 else if count < 65536 then 65536 else 4294967296
  {
    hide Pow256;
    Powers();
    WidePower();
  }

  lemma {:induction false} NestedCells(t: LogicalType, c: ColumnLayout.Cell)
    requires ColumnLayout.TypeOk(t) && !c.Null? && t.id in {100, 107}
    ensures var fields := t.info.value.detail.fields;
            ColumnLayout.CellOk(t, c) <==>
              if t.id == 100 then
                && c.Row? && |c.cells| == |fields|
                && forall k :: 0 <= k < |fields| ==> ColumnLayout.CellOk(fields[k].fieldType, c.cells[k])
              else c.Member? && c.tag + 1 < |fields| && ColumnLayout.CellOk(fields[c.tag + 1].fieldType, c.member)
  {}

  lemma {:induction false} ItemCells(t: LogicalType, c: ColumnLayout.Cell)
    requires ColumnLayout.TypeOk(t) && !c.Null? && t.id in {101, 102, 108}
    ensures var detail := t.info.value.detail;
            ColumnLayout.CellOk(t, c) <==>
              if t.id == 101 then c.Items? && forall x <- c.items :: ColumnLayout.CellOk(detail.child, x)
              else if t.id == 102 then
                c.Pairs? && forall p <- c.pairs :: ColumnLayout.CellOk(detail.child, ColumnLayout.Row([p.key, p.value]))
              else
                c.Items? && |c.items| == detail.size && forall x <- c.items :: ColumnLayout.CellOk(detail.element, x)
  {}
}
