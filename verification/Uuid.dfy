/** UUID values: from the stored number to bytes, and from bytes to text. */
module Uuid {
  import opened Wrappers
  import opened Words
  import opened ByteOrder

  datatype UuidError = InvalidLength | UndefinedByte

  // ----- from a stored number to bytes

  /**
   * The represented 128-bit number. Exclusive OR and masking are taken on the low 128 bits of the stored number, the
   * only ones that the mask keeps.
   */
  function FromStoredHugeint(hugeint: int): nat {
    Xor(Pattern(hugeint, 16), Pow2(127))
  }

  /** Flipping the top bit of a signed 128-bit number adds 2^127. */
  lemma FlipAddsTop(hugeint: int)
    requires -(Pow2(127) as int) <= hugeint < Pow2(127)
    ensures FromStoredHugeint(hugeint) == hugeint + Pow2(127) < Pow256(16)
  {
    hide Pow2, Pow256, Xor;
    Width128();
    var u := Pattern(hugeint, 16);
    if hugeint < 0 {
      QuotientIs(hugeint, Pow256(16), -1, hugeint + Pow256(16));
    } else {
      QuotientIs(hugeint, Pow256(16), 0, hugeint);
    }
    XorBit(u, 127);
  }

  lemma Width128()
    ensures Pow256(16) == 2 * Pow2(127)
  {
    Pow256IsPow2(16);
  }

  /** Stores the low 64 bits of `value` at `offset`, most significant byte first. */
  method SetBigUint64(a: array<byte>, offset: nat, value: nat)
    requires offset + 8 <= a.Length
    modifies a
    ensures a[..] == old(a[..offset]) + ToBe(value, 8) + old(a[offset + 8..])
  {
    var i, rest := 8, value;
    ghost var tail := [];
    while i > 0
      invariant 0 <= i <= 8 && |tail| == 8 - i
      invariant a[..] == old(a[..offset + i]) + tail + old(a[offset + 8..])
      invariant ToBe(value, 8) == ToBe(rest, i) + tail
    {
      i := i - 1;
      tail := [rest % 0x100] + tail;
      a[offset + i] := rest % 0x100;
      rest := rest / 0x100;
    }
  }

  /** The low 128 bits of a number, as 16 bytes, most significant first. */
  method FromUint128(uint128: nat) returns (bytes: array<byte>)
    ensures fresh(bytes) && bytes[..] == ToBe(uint128, 16)
  {
    bytes := new byte[16](_ => 0);
    SetBigUint64(bytes, 0, High(uint128, 8));
    SetBigUint64(bytes, 8, uint128);
    ToBeConcat(uint128, 8, 8);
  }

  // ----- from bytes to text

  function HexDigit(n: nat): char
    requires n < 16
  {
    "0123456789abcdef"[n]
  }

  function Hex(b: Bytes): string {
    if b == [] then [] else Hex(b[..|b| - 1]) + [HexDigit(b[|b| - 1] / 16), HexDigit(b[|b| - 1] % 16)]
  }

  /** `n` in base 16, without leading zeros. */
  function ToString16(n: byte): string {
    if n < 16 then [HexDigit(n)] else [HexDigit(n / 16), HexDigit(n % 16)]
  }

  function TwoDigits(n: byte): string {
    (if n < 16 then "0" else "") + ToString16(n)
  }

  /** The digits of the bytes from `start` to `end`; a position outside the blob is an error, if there is any to read. */
  function HexOf(blob: Bytes, start: int, end: int): Result<string, UuidError> {
    if start >= end then Success([])
    else if 0 <= start && end <= |blob| then Success(Hex(blob[start..end]))
    else Failure(UndefinedByte)
  }

  method HexFromBlob(blob: Bytes, start: Option<int>, end: Option<int>) returns (r: Result<string, UuidError>)
    ensures r == HexOf(blob, if start.None? then 0 else start.value, if end.None? then |blob| else end.value)
  {
    hide HexOf, TwoDigits;
    var first := if start.None? then 0 else start.value;
    var last := if end.None? then |blob| else end.value;
    var hex, i := [], first;
    HexOfNone(blob, first, first);
    while i < last
      invariant i == first || first < i <= last
      invariant HexOf(blob, first, i) == Success(hex)
    {
      HexOfNext(blob, first, i, last);
      if i < 0 || i >= |blob| { return Failure(UndefinedByte); }
      hex := hex + TwoDigits(blob[i]);
      i := i + 1;
    }
    if last <= first { HexOfNone(blob, first, last); }
    return Success(hex);
  }

  lemma HexOfNone(blob: Bytes, first: int, last: int)
    requires last <= first
    ensures HexOf(blob, first, last) == Success([])
  {}

  /** One byte more, or the error of reading outside the blob. */
  lemma HexOfNext(blob: Bytes, first: int, i: int, last: int)
    requires first <= i < last && HexOf(blob, first, i).Success?
    ensures if 0 <= i < |blob| then
              HexOf(blob, first, i + 1) == Success(HexOf(blob, first, i).value + TwoDigits(blob[i]))
            else HexOf(blob, first, last) == Failure(UndefinedByte)
  {
    if 0 <= i < |blob| { HexAppend(blob, first, i); }
  }

  lemma HexAppend(blob: Bytes, first: nat, i: nat)
    requires first <= i < |blob|
    ensures Hex(blob[first..i + 1]) == Hex(blob[first..i]) + TwoDigits(blob[i])
  {
    var x := blob[i];
    assert blob[first..i + 1][..i - first] == blob[first..i];
    assert x < 16 ==> HexDigit(x / 16) == '0' && x % 16 == x;
  }

  function ToDuckDBString(bytes: Bytes): Result<string, UuidError> {
    if |bytes| != 16 then Failure(InvalidLength) else Success(Text(bytes))
  }

  /** Groups of 4, 2, 2, 2 and 6 bytes, with dashes between them. */
  function Text(bytes: Bytes): string
    requires |bytes| == 16
  {
    Hex(bytes[0..4]) + ("-" + (Hex(bytes[4..6]) + ("-" + (Hex(bytes[6..8]) + ("-" + (Hex(bytes[8..10])
    + ("-" + Hex(bytes[10..16]))))))))
  }

  method ToDuckDBStringFromBytes(bytes: Bytes) returns (r: Result<string, UuidError>)
    ensures r == ToDuckDBString(bytes)
  {
    if |bytes| != 16 { return Failure(InvalidLength); }
    var g1 := HexFromBlob(bytes, Some(0), Some(4));
    var g2 := HexFromBlob(bytes, Some(4), Some(6));
    var g3 := HexFromBlob(bytes, Some(6), Some(8));
    var g4 := HexFromBlob(bytes, Some(8), Some(10));
    var g5 := HexFromBlob(bytes, Some(10), Some(16));
    return Success(g1.value + ("-" + (g2.value + ("-" + (g3.value + ("-" + (g4.value + ("-" + g5.value))))))));
  }

  // ----- order

  /** How strings compare in JavaScript: by the first character that differs. */
  predicate Before(s: string, t: string) {
    if t == [] then false
    else if s == [] then true
    else s[0] < t[0] || (s[0] == t[0] && Before(s[1..], t[1..]))
  }

  lemma {:induction false} BeforeConcat(s: string, t: string, s': string, t': string)
    requires |s| == |t|
    ensures Before(s + s', t + t') <==> Before(s, t) || (s == t && Before(s', t'))
  {
    if s == [] {
      assert s + s' == s' && t + t' == t';
    } else {
      BeforeConcat(s[1..], t[1..], s', t');
      assert (s + s')[1..] == s[1..] + s' && (t + t')[1..] == t[1..] + t';
    }
  }

  lemma BeforeDigit(m: byte, n: byte)
    ensures var s, t := [HexDigit(m / 16), HexDigit(m % 16)], [HexDigit(n / 16), HexDigit(n % 16)];
            (Before(s, t) <==> m < n) && (s == t <==> m == n)
  {
    DigitOrder(m / 16, n / 16);
    DigitOrder(m % 16, n % 16);
    BeforeConcat([HexDigit(m / 16)], [HexDigit(n / 16)], [HexDigit(m % 16)], [HexDigit(n % 16)]);
    assert [HexDigit(m / 16), HexDigit(m % 16)] == [HexDigit(m / 16)] + [HexDigit(m % 16)];
    assert [HexDigit(n / 16), HexDigit(n % 16)] == [HexDigit(n / 16)] + [HexDigit(n % 16)];
  }

  lemma DigitOrder(m: nat, n: nat)
    requires m < 16 && n < 16
    ensures HexDigit(m) < HexDigit(n) <==> m < n
    ensures HexDigit(m) == HexDigit(n) <==> m == n
  {}

  /** Hexadecimal text of a given length is ordered as the number it stands for. */
  lemma {:induction false} HexOrder(x: Bytes, y: Bytes)
    requires |x| == |y|
    ensures |Hex(x)| == 2 * |x| == |Hex(y)|
    ensures Before(Hex(x), Hex(y)) <==> FromBe(x) < FromBe(y)
    ensures Hex(x) == Hex(y) <==> x == y
    ensures FromBe(x) == FromBe(y) <==> x == y
  {
    if x != [] {
      var n := |x| - 1;
      HexOrder(x[..n], y[..n]);
      HexStep(x, y);
    }
  }

  lemma HexStep(x: Bytes, y: Bytes)
    requires |x| == |y| > 0
    requires var x', y' := x[..|x| - 1], y[..|y| - 1];
             && |Hex(x')| == 2 * |x'| == |Hex(y')|
             && (Before(Hex(x'), Hex(y')) <==> FromBe(x') < FromBe(y'))
             && (Hex(x') == Hex(y') <==> x' == y') && (FromBe(x') == FromBe(y') <==> x' == y')
    ensures |Hex(x)| == 2 * |x| == |Hex(y)|
    ensures Before(Hex(x), Hex(y)) <==> FromBe(x) < FromBe(y)
    ensures Hex(x) == Hex(y) <==> x == y
    ensures FromBe(x) == FromBe(y) <==> x == y
  {
    hide Before, HexDigit;
    var n := |x| - 1;
    BeforeDigit(x[n], y[n]);
    var s, t := [HexDigit(x[n] / 16), HexDigit(x[n] % 16)], [HexDigit(y[n] / 16), HexDigit(y[n] % 16)];
    BeforeConcat(Hex(x[..n]), Hex(y[..n]), s, t);
    assert x == x[..n] + [x[n]] && y == y[..n] + [y[n]];
    assert Hex(x)[..2 * n] == Hex(x[..n]) && Hex(y)[..2 * n] == Hex(y[..n]);
    assert Hex(x)[2 * n..] == s && Hex(y)[2 * n..] == t;
  }

  /** One more group of bytes in front, with the dash that follows it. */
  lemma GroupOrder(x: Bytes, y: Bytes, x': Bytes, y': Bytes, s': string, t': string)
    requires |x| == |y| && |x'| == |y'|
    requires Before(s', t') <==> FromBe(x') < FromBe(y')
    ensures Before(Hex(x) + ("-" + s'), Hex(y) + ("-" + t')) <==> FromBe(x + x') < FromBe(y + y')
  {
    HexOrder(x, y);
    BeforeConcat("-", "-", s', t');
    BeforeConcat(Hex(x), Hex(y), "-" + s', "-" + t');
    ConcatOrder(x, y, x', y');
  }

  lemma ScaledLess(a: nat, b: nat, m: nat, x: nat, y: nat)
    requires x < m && y < m
    ensures a * m + x < b * m + y <==> a < b || (a == b && x < y)
  {
    if a < b {
      MulAtLeast(b - a, m);
      assert (b - a) * m == b * m - a * m;
    } else if b < a {
      MulAtLeast(a - b, m);
      assert (a - b) * m == a * m - b * m;
    }
  }

  lemma ConcatOrder(x: Bytes, y: Bytes, x': Bytes, y': Bytes)
    requires |x| == |y| && |x'| == |y'|
    ensures FromBe(x + x') < FromBe(y + y')
       <==> FromBe(x) < FromBe(y) || (FromBe(x) == FromBe(y) && FromBe(x') < FromBe(y'))
  {
    hide FromBe, Pow256;
    BeConcat(x, x');
    BeConcat(y, y');
    BeBound(x');
    BeBound(y');
    ScaledLess(FromBe(x), FromBe(y), Pow256(|x'|), FromBe(x'), FromBe(y'));
  }

  /** The last three groups. */
  function LowText(bytes: Bytes): string
    requires |bytes| == 16
  {
    Hex(bytes[6..8]) + ("-" + (Hex(bytes[8..10]) + ("-" + Hex(bytes[10..16]))))
  }

  lemma LowTextOrder(x: Bytes, y: Bytes)
    requires |x| == |y| == 16
    ensures Before(LowText(x), LowText(y)) <==> FromBe(x[6..16]) < FromBe(y[6..16])
  {
    hide Hex, Before, FromBe;
    HexOrder(x[10..16], y[10..16]);
    var s, t := Hex(x[10..16]), Hex(y[10..16]);
    GroupOrder(x[8..10], y[8..10], x[10..16], y[10..16], s, t);
    assert x[8..10] + x[10..16] == x[8..16] && y[8..10] + y[10..16] == y[8..16];
    GroupOrder(x[6..8], y[6..8], x[8..16], y[8..16], Hex(x[8..10]) + ("-" + s), Hex(y[8..10]) + ("-" + t));
    assert x[6..8] + x[8..16] == x[6..16] && y[6..8] + y[8..16] == y[6..16];
  }

  lemma TextOrder(x: Bytes, y: Bytes)
    requires |x| == |y| == 16
    ensures Before(Text(x), Text(y)) <==> FromBe(x) < FromBe(y)
  {
    hide Hex, Before, FromBe;
    LowTextOrder(x, y);
    var s, t := LowText(x), LowText(y);
    GroupOrder(x[4..6], y[4..6], x[6..16], y[6..16], s, t);
    assert x[4..6] + x[6..16] == x[4..16] && y[4..6] + y[6..16] == y[4..16];
    GroupOrder(x[0..4], y[0..4], x[4..16], y[4..16], Hex(x[4..6]) + ("-" + s), Hex(y[4..6]) + ("-" + t));
    assert x[0..4] + x[4..16] == x && y[0..4] + y[4..16] == y;
  }

  /** The text of a stored UUID. */
  function StoredText(hugeint: int): string {
    Text(ToBe(FromStoredHugeint(hugeint), 16))
  }

  /** Stored UUIDs are ordered as their texts are, and different ones have different texts. */
  lemma StoredOrder(a: int, b: int)
    requires -(Pow2(127) as int) <= a < Pow2(127) && -(Pow2(127) as int) <= b < Pow2(127)
    ensures a < b <==> Before(StoredText(a), StoredText(b))
    ensures a == b <==> StoredText(a) == StoredText(b)
  {
    hide Pow2, Before, FromStoredHugeint, Text, ToBe, FromBe;
    FlipAddsTop(a);
    FlipAddsTop(b);
    BeRoundTrip(FromStoredHugeint(a), 16);
    BeRoundTrip(FromStoredHugeint(b), 16);
    TextOrder(ToBe(FromStoredHugeint(a), 16), ToBe(FromStoredHugeint(b), 16));
    TextOrder(ToBe(FromStoredHugeint(b), 16), ToBe(FromStoredHugeint(a), 16));
    BeforeIrreflexive(StoredText(a));
  }

  lemma {:induction false} BeforeIrreflexive(s: string)
    ensures !Before(s, s)
  {
    if s != [] { BeforeIrreflexive(s[1..]); }
  }

  // ----- form

  predicate IsHexDigit(c: char) {
    '0' <= c <= '9' || 'a' <= c <= 'f'
  }

  lemma {:induction false} HexAt(b: Bytes, k: nat)
    requires k < |b|
    ensures |Hex(b)| == 2 * |b|
    ensures Hex(b)[2 * k] == "0123456789abcdef"[b[k] / 16] && Hex(b)[2 * k + 1] == "0123456789abcdef"[b[k] % 16]
  {
    var n := |b| - 1;
    if n > 0 {
      HexAt(b[..n], if k < n then k else 0);
    } else {
      assert b[..0] == [];
    }
  }

  /** Where the digits of each byte stand in the text. */
  lemma {:induction false} TextDigits(bytes: Bytes, k: nat)
    requires |bytes| == 16 && k < 16
    ensures var p := 2 * k + (if k < 4 then 0 else if k < 6 then 1 else if k < 8 then 2 else if k < 10 then 3 else 4);
            && p + 1 < |Text(bytes)|
            && Text(bytes)[p] == "0123456789abcdef"[bytes[k] / 16]
            && Text(bytes)[p + 1] == "0123456789abcdef"[bytes[k] % 16]
  {
    hide Hex;
    HexAt(bytes[0..4], if k < 4 then k else 0);
    HexAt(bytes[4..6], if 4 <= k < 6 then k - 4 else 0);
    HexAt(bytes[6..8], if 6 <= k < 8 then k - 6 else 0);
    HexAt(bytes[8..10], if 8 <= k < 10 then k - 8 else 0);
    HexAt(bytes[10..16], if 10 <= k then k - 10 else 0);
  }

  const DASHES := {8, 13, 18, 23}

  /** The text has 36 characters: dashes at four places, lower-case hexadecimal digits at all others. */
  lemma TextForm(bytes: Bytes)
    requires |bytes| == 16
    ensures |Text(bytes)| == 36
    ensures forall i :: 0 <= i < 36 ==> if i in DASHES then Text(bytes)[i] == '-' else IsHexDigit(Text(bytes)[i])
  {
    hide Hex;
    HexForm(bytes[0..4]);
    HexForm(bytes[4..6]);
    HexForm(bytes[6..8]);
    HexForm(bytes[8..10]);
    HexForm(bytes[10..16]);
  }

  lemma {:induction false} HexForm(b: Bytes)
    ensures |Hex(b)| == 2 * |b| && forall i :: 0 <= i < |Hex(b)| ==> IsHexDigit(Hex(b)[i])
  {
    if b != [] {
      HexForm(b[..|b| - 1]);
      DigitForm(b[|b| - 1] / 16);
      DigitForm(b[|b| - 1] % 16);
    }
  }

  lemma DigitForm(n: nat)
    requires n < 16
    ensures IsHexDigit(HexDigit(n))
  {
    assert forall i :: 0 <= i < 16 ==> IsHexDigit("0123456789abcdef"[i]);
  }
}
