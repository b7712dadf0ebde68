/**
 * Base64 between the client, whose alphabet ends in `+/`, and the server, whose decoding table ends in `+_`.
 * Strings are sequences of character codes below 256.
 */
module Base64 {
  import opened Words

  const PAD: byte := 61
  const SLASH: byte := 47
  const UNDERSCORE: byte := 95

  /** The character for six bits, in an alphabet whose last character is `last`. */
  function Code(n: nat, last: byte): byte
    requires n < 64
  {
    if n < 26 then 65 + n else if n < 52 then 71 + n else if n < 62 then n - 4 else if n == 62 then 43 else last
  }

  /** The server's decoding table: zero for every character outside its alphabet. */
  function Decoded(c: byte): byte {
    if 65 <= c <= 90 then c - 65
    else if 97 <= c <= 122 then c - 71
    else if 48 <= c <= 57 then c + 4
    else if c == 43 then 62
    else if c == UNDERSCORE then 63
    else 0
  }

  method BuildDecodingTable() returns (table: array<byte>)
    ensures fresh(table) && table.Length == 256 && forall c: byte :: table[c] == Decoded(c)
  {
    table := new byte[256](_ => 0);
    var i := 0;
    while i < 64
      invariant 0 <= i <= 64
      invariant forall c: byte :: table[c] == if Decoded(c) < i then Decoded(c) else 0
    {
      table[Code(i, UNDERSCORE)] := i;
      i := i + 1;
    }
  }

  // ----- decoding

  function Sextet(c: byte): nat {
    if c == PAD then 0 else Decoded(c)
  }

  /** Four characters as three bytes. */
  function Triple(a: byte, b: byte, c: byte, d: byte): (r: Bytes)
    ensures |r| == 3
  {
    Bytes3(Sextet(a), Sextet(b), Sextet(c), Sextet(d))
  }

  function Bytes3(a: nat, b: nat, c: nat, d: nat): (r: Bytes)
    ensures |r| == 3
  {
    var triple := a * 0x4_0000 + b * 0x1000 + c * 0x40 + d;
    [triple / 0x1_0000 % 0x100, triple / 0x100 % 0x100, triple % 0x100]
  }

  function Triples(data: Bytes): Bytes {
    if |data| < 4 then [] else Triple(data[0], data[1], data[2], data[3]) + Triples(data[4..])
  }

  function OutputLength(data: Bytes): nat
    requires |data| >= 4
  {
    |data| / 4 * 3 - (if data[|data| - 1] == PAD then 1 else 0) - (if data[|data| - 2] == PAD then 1 else 0)
  }

  lemma {:induction false} TriplesLength(data: Bytes)
    ensures |Triples(data)| == |data| / 4 * 3
  {
    if |data| >= 4 { TriplesLength(data[4..]); }
  }

  function DecodeSpec(data: Bytes): Bytes {
    if |data| < 4 || |data| % 4 != 0 then []
    else
      TriplesLength(data);
      Triples(data)[..OutputLength(data)]
  }

  /** Where the bytes of each block stand. */
  lemma {:induction false} TriplesAt(data: Bytes, i: nat, m: nat)
    requires i + 4 <= |data| && i % 4 == 0 && m < 3
    ensures i / 4 * 3 + m < |Triples(data)|
    ensures Triples(data)[i / 4 * 3 + m] == Triple(data[i], data[i + 1], data[i + 2], data[i + 3])[m]
    decreases i
  {
    hide Triple;
    TriplesLength(data);
    if i > 0 {
      TriplesAt(data[4..], i - 4, m);
      TriplesLength(data[4..]);
      var block := Triple(data[0], data[1], data[2], data[3]);
      var k := (i - 4) / 4 * 3 + m;
      assert i / 4 * 3 + m == 3 + k && |block| == 3;
      assert (block + Triples(data[4..]))[3 + k] == Triples(data[4..])[k];
    }
  }

  /** The three bytes of the block at `i`, from the sum that the loop forms. */
  lemma {:induction false} BlockOf(data: Bytes, i: nat, triple: nat)
    requires i + 4 <= |data| && i % 4 == 0
    requires triple == Sextet(data[i]) * 0x4_0000 + Sextet(data[i + 1]) * 0x1000 + Sextet(data[i + 2]) * 0x40
                       + Sextet(data[i + 3])
    ensures i / 4 * 3 + 3 <= |Triples(data)|
    ensures forall k :: i / 4 * 3 <= k < i / 4 * 3 + 3 ==>
              Triples(data)[k] == [triple / 0x1_0000 % 0x100, triple / 0x100 % 0x100, triple % 0x100][k - i / 4 * 3]
  {
    hide Triples, Sextet;
    TriplesAt(data, i, 0);
    TriplesAt(data, i, 1);
    TriplesAt(data, i, 2);
  }

  /** Up to three bytes from position `j`, as many as there is room for. */
  method WriteTriple(decodedData: array<byte>, j: nat, triple: nat) returns (next: nat)
    requires j <= decodedData.Length
    modifies decodedData
    ensures next == if j + 3 <= decodedData.Length then j + 3 else decodedData.Length
    ensures forall k :: 0 <= k < j ==> decodedData[k] == old(decodedData[k])
    ensures forall k :: j <= k < next ==>
                          decodedData[k] == [triple / 0x1_0000 % 0x100, triple / 0x100 % 0x100, triple % 0x100][k - j]
  {
    next := j;
    if next < decodedData.Length {
      decodedData[next] := triple / 0x1_0000 % 0x100;
      next := next + 1;
    }
    if next < decodedData.Length {
      decodedData[next] := triple / 0x100 % 0x100;
      next := next + 1;
    }
    if next < decodedData.Length {
      decodedData[next] := triple % 0x100;
      next := next + 1;
    }
  }

  method DecodeBase64(table: array<byte>, data: Bytes) returns (decoded: Bytes)
    requires table.Length == 256 && forall c: byte :: table[c] == Decoded(c)
    ensures decoded == DecodeSpec(data)
  {
    hide Triples, Decoded, Bytes3, Triple;
    var inputLength := |data|;
    if inputLength < 4 || inputLength % 4 != 0 { return []; }
    var outputLength := inputLength / 4 * 3;
    if data[inputLength - 1] == PAD { outputLength := outputLength - 1; }
    if data[inputLength - 2] == PAD { outputLength := outputLength - 1; }
    TriplesLength(data);
    var decodedData := new byte[outputLength](_ => 0);
    var i, j := 0, 0;
    while i < inputLength
      invariant 0 <= i <= inputLength && i % 4 == 0
      invariant outputLength == decodedData.Length && j == if i / 4 * 3 <= outputLength then i / 4 * 3 else outputLength
      invariant forall k :: 0 <= k < j ==> decodedData[k] == Triples(data)[k]
    {
      var a: int := if data[i] == PAD then 0 else table[data[i]];
      var b: int := if data[i + 1] == PAD then 0 else table[data[i + 1]];
      var c: int := if data[i + 2] == PAD then 0 else table[data[i + 2]];
      var d: int := if data[i + 3] == PAD then 0 else table[data[i + 3]];
      var triple := a * 0x4_0000 + b * 0x1000 + c * 0x40 + d;
      BlockOf(data, i, triple);
      j := WriteTriple(decodedData, j, triple);
      i := i + 4;
    }
    assert outputLength == OutputLength(data) && j == outputLength;
    assert decodedData[..] == Triples(data)[..outputLength];
    return decodedData[..];
  }

  // ----- encoding

  function First(x: byte): nat { x / 4 }

  function Second(x: byte, y: byte): nat { x % 4 * 16 + y / 16 }

  function Third(y: byte, z: byte): nat { y % 16 * 4 + z / 64 }

  function Fourth(z: byte): nat { z % 64 }

  /** Base64 of section 4 of RFC 4648, in an alphabet that ends in `last`. */
  function Encode(b: Bytes, last: byte): Bytes {
    if |b| == 0 then []
    else if |b| == 1 then [Code(First(b[0]), last), Code(Second(b[0], 0), last), PAD, PAD]
    else if |b| == 2 then
      [Code(First(b[0]), last), Code(Second(b[0], b[1]), last), Code(Third(b[1], 0), last), PAD]
    else
      [Code(First(b[0]), last), Code(Second(b[0], b[1]), last), Code(Third(b[1], b[2]), last), Code(Fourth(b[2]), last)]
      + Encode(b[3..], last)
  }

  /** The client's encoder, on the UTF-8 bytes of its input. */
  function ToBase64(utf8: Bytes): Bytes {
    Encode(utf8, SLASH)
  }

  /** What the server makes of six bits written by an encoder whose alphabet ends in `last`. */
  function Received(n: nat, last: byte): nat {
    if n == 63 && last != UNDERSCORE then 0 else n
  }

  /** The bytes the server decodes, when an encoder whose alphabet ends in `last` wrote `b`. */
  function Delivered(b: Bytes, last: byte): (r: Bytes)
    ensures |r| == |b|
  {
    if |b| == 0 then []
    else if |b| == 1 then Bytes3(Received(First(b[0]), last), Received(Second(b[0], 0), last), 0, 0)[..1]
    else if |b| == 2 then
      Bytes3(Received(First(b[0]), last), Received(Second(b[0], b[1]), last), Received(Third(b[1], 0), last), 0)[..2]
    else
      Bytes3(Received(First(b[0]), last), Received(Second(b[0], b[1]), last), Received(Third(b[1], b[2]), last),
             Received(Fourth(b[2]), last))
      + Delivered(b[3..], last)
  }

  lemma SextetOfCode(n: nat, last: byte)
    requires n < 64 && (last == SLASH || last == UNDERSCORE)
    ensures Code(n, last) != PAD && Sextet(Code(n, last)) == Received(n, last)
  {
  }

  /** The encoding is whole blocks, and its padding tells how many bytes were encoded. */
  lemma {:induction false} EncodedLength(b: Bytes, last: byte)
    requires last == SLASH || last == UNDERSCORE
    ensures |Encode(b, last)| % 4 == 0 && (b != [] ==> |Encode(b, last)| >= 4)
    ensures b != [] ==> OutputLength(Encode(b, last)) == |b|
  {
    hide Code, Decoded, Sextet, Bytes3, Delivered, Triple;
    if b != [] {
      EncodedBlock(b, last);
      if |b| >= 3 {
        var e, rest := Encode(b, last), Encode(b[3..], last);
        EncodedLength(b[3..], last);
        assert e[4..] == rest && |e| == 4 + |rest|;
        if |b| > 3 { PaddingOfRest(e, rest); }
      }
    }
  }

  lemma PaddingOfRest(e: Bytes, rest: Bytes)
    requires |e| == 4 + |rest| && e[4..] == rest && |rest| >= 4
    ensures OutputLength(e) == 3 + OutputLength(rest)
  {
    assert e[|e| - 1] == rest[|rest| - 1] && e[|e| - 2] == rest[|rest| - 2];
  }

  lemma {:induction false} EncodedTriples(b: Bytes, last: byte)
    requires last == SLASH || last == UNDERSCORE
    ensures |Triples(Encode(b, last))| >= |b| && Triples(Encode(b, last))[..|b|] == Delivered(b, last)
  {
    hide Code, Decoded, Sextet, Bytes3, Triple, Delivered;
    var e := Encode(b, last);
    NothingDelivered(last);
    if b != [] {
      EncodedBlock(b, last);
      var block := Triple(e[0], e[1], e[2], e[3]);
      assert Triples(e) == block + Triples(e[4..]);
      if |b| >= 3 {
        assert e[4..] == Encode(b[3..], last);
        EncodedTriples(b[3..], last);
        assert (block + Triples(e[4..]))[..|b|] == block + Triples(e[4..])[..|b| - 3];
      } else {
        assert e[4..] == [];
        assert Triples(e) == block;
      }
    }
  }

  lemma NothingDelivered(last: byte)
    ensures Delivered([], last) == []
  {
  }

  lemma DecodeEncoded(b: Bytes, last: byte)
    requires last == SLASH || last == UNDERSCORE
    ensures DecodeSpec(Encode(b, last)) == Delivered(b, last)
  {
    EncodedLength(b, last);
    EncodedTriples(b, last);
  }

  /** The first block of an encoding, decoded. */
  lemma EncodedBlock(b: Bytes, last: byte)
    requires b != [] && (last == SLASH || last == UNDERSCORE)
    ensures var e := Encode(b, last);
            && |e| >= 4
            && (|b| <= 2 ==> |e| == 4 && e[3] == PAD && (e[2] == PAD <==> |b| == 1))
            && (|b| >= 3 ==> e[2] != PAD && e[3] != PAD)
            && |Triple(e[0], e[1], e[2], e[3])| == 3
            && (if |b| >= 3 then Delivered(b, last) == Triple(e[0], e[1], e[2], e[3]) + Delivered(b[3..], last)
                else Delivered(b, last) == Triple(e[0], e[1], e[2], e[3])[..|b|])
  {
    SextetOfCode(First(b[0]), last);
    if |b| == 1 {
      SextetOfCode(Second(b[0], 0), last);
    } else {
      SextetOfCode(Second(b[0], b[1]), last);
      if |b| == 2 {
        SextetOfCode(Third(b[1], 0), last);
      } else {
        SextetOfCode(Third(b[1], b[2]), last);
        SextetOfCode(Fourth(b[2]), last);
      }
    }
  }

  // ----- when the two ends agree

  /** The groups of six bits of `b`, the last ones filled with zeros. */
  function Sextets(b: Bytes): seq<nat> {
    if |b| == 0 then []
    else if |b| == 1 then [First(b[0]), Second(b[0], 0)]
    else if |b| == 2 then [First(b[0]), Second(b[0], b[1]), Third(b[1], 0)]
    else [First(b[0]), Second(b[0], b[1]), Third(b[1], b[2]), Fourth(b[2])] + Sextets(b[3..])
  }

  lemma Bytes3Parts(a: nat, b: nat, c: nat, d: nat)
    requires a < 64 && b < 64 && c < 64 && d < 64
    ensures Bytes3(a, b, c, d) == [a * 4 + b / 16, b % 16 * 16 + c / 4, c % 4 * 64 + d]
  {
    var x, y, z := a * 4 + b / 16, b % 16 * 16 + c / 4, c % 4 * 64 + d;
    assert a * 0x4_0000 + b * 0x1000 + c * 0x40 + d == 0x1_0000 * x + 0x100 * y + z;
    BytesOfSum(x, y, z);
  }

  lemma BytesOfSum(x: byte, y: byte, z: byte)
    ensures var t := 0x1_0000 * x as int + 0x100 * y as int + z as int;
            t / 0x1_0000 % 0x100 == x && t / 0x100 % 0x100 == y && t % 0x100 == z
  {}

  /** Three bytes come from the six-bit groups they are made of, and from no others. */
  lemma Bytes3Injective(a: nat, b: nat, c: nat, d: nat, x: byte, y: byte, z: byte)
    requires a < 64 && b < 64 && c < 64 && d < 64
    ensures Bytes3(a, b, c, d)[0] == x && Bytes3(a, b, c, d)[1] == y ==> a == First(x) && b == Second(x, y)
    ensures Bytes3(a, b, c, d) == [x, y, z] <==>
            a == First(x) && b == Second(x, y) && c == Third(y, z) && d == Fourth(z)
    ensures c == d == 0 && b % 16 == 0 ==>
            (Bytes3(a, b, c, d)[..1] == [x] <==> a == First(x) && b == Second(x, 0))
    ensures d == 0 && c % 4 == 0 ==>
            (Bytes3(a, b, c, d)[..2] == [x, y] <==> a == First(x) && b == Second(x, y) && c == Third(y, 0))
  {
    hide Bytes3, Second, Third;
    Bytes3Parts(a, b, c, d);
    DigitsOf(a, b / 16, x, 4);
    DigitsOf(b % 16, c / 4, y, 16);
    DigitsOf(c % 4, d, z, 64);
    SecondParts(b, x, y);
    SecondParts(b, x, 0);
    ThirdParts(c, y, z);
    ThirdParts(c, y, 0);
  }

  lemma DigitsOf(high: nat, low: nat, x: nat, base: nat)
    requires low < base && (base == 4 || base == 16 || base == 64)
    ensures high * base + low == x <==> high == x / base && low == x % base
  {}

  lemma SecondParts(b: nat, x: byte, y: byte)
    requires b < 64
    ensures b == Second(x, y) <==> b / 16 == x % 4 && b % 16 == y / 16
  {}

  lemma ThirdParts(c: nat, y: byte, z: byte)
    requires c < 64
    ensures c == Third(y, z) <==> c / 4 == y % 16 && c % 4 == z / 64
  {}

  /** The server receives exactly the bytes that were encoded if, and only if, no group of six bits is lost. */
  lemma {:induction false} DeliveredExactly(b: Bytes, last: byte)
    ensures Delivered(b, last) == b <==> last == UNDERSCORE || 63 !in Sextets(b)
  {
    hide Bytes3, Received;
    if |b| == 1 {
      OneDelivered(b, last);
    } else if |b| == 2 {
      TwoDelivered(b, last);
    } else if |b| >= 3 {
      DeliveredExactly(b[3..], last);
      BlockDelivered(b, last);
    }
  }

  lemma AboutReceived(n: nat, last: byte)
    requires n < 64
    ensures Received(n, last) < 64 && (Received(n, last) == n <==> last == UNDERSCORE || n != 63)
    ensures n % 4 == 0 ==> Received(n, last) % 4 == 0
    ensures n % 16 == 0 ==> Received(n, last) % 16 == 0
  {}

  lemma OneDelivered(b: Bytes, last: byte)
    requires |b| == 1
    ensures Delivered(b, last) == b <==> last == UNDERSCORE || 63 !in Sextets(b)
  {
    hide Bytes3, Received, First, Second;
    GroupsSmall(b[0], 0, 0);
    AboutReceived(First(b[0]), last);
    AboutReceived(Second(b[0], 0), last);
    Bytes3Injective(Received(First(b[0]), last), Received(Second(b[0], 0), last), 0, 0, b[0], 0, 0);
    assert b == [b[0]];
  }

  lemma TwoDelivered(b: Bytes, last: byte)
    requires |b| == 2
    ensures Delivered(b, last) == b <==> last == UNDERSCORE || 63 !in Sextets(b)
  {
    hide Bytes3, Received, First, Second, Third;
    GroupsSmall(b[0], b[1], 0);
    AboutReceived(First(b[0]), last);
    AboutReceived(Second(b[0], b[1]), last);
    AboutReceived(Third(b[1], 0), last);
    Bytes3Injective(Received(First(b[0]), last), Received(Second(b[0], b[1]), last), Received(Third(b[1], 0), last), 0,
                    b[0], b[1], 0);
    assert b == [b[0], b[1]];
  }

  lemma BlockDelivered(b: Bytes, last: byte)
    requires |b| >= 3
    requires Delivered(b[3..], last) == b[3..] <==> last == UNDERSCORE || 63 !in Sextets(b[3..])
    ensures Delivered(b, last) == b <==> last == UNDERSCORE || 63 !in Sextets(b)
  {
    hide Bytes3, Received, First, Second, Third, Fourth;
    var s1, s2 := First(b[0]), Second(b[0], b[1]);
    var s3, s4 := Third(b[1], b[2]), Fourth(b[2]);
    GroupsSmall(b[0], b[1], b[2]);
    AboutReceived(s1, last);
    AboutReceived(s2, last);
    AboutReceived(s3, last);
    AboutReceived(s4, last);
    var block := Bytes3(Received(s1, last), Received(s2, last), Received(s3, last), Received(s4, last));
    Bytes3Injective(Received(s1, last), Received(s2, last), Received(s3, last), Received(s4, last), b[0], b[1], b[2]);
    BlockThenRest(block, Delivered(b[3..], last), b);
    assert Sextets(b) == [s1, s2, s3, s4] + Sextets(b[3..]);
  }

  lemma GroupsSmall(x: byte, y: byte, z: byte)
    ensures First(x) < 64 && Second(x, y) < 64 && Third(y, z) < 64 && Fourth(z) < 64
    ensures (y == 0 ==> Second(x, y) % 16 == 0) && (z == 0 ==> Third(y, z) % 4 == 0)
  {}

  lemma BlockThenRest(block: Bytes, rest: Bytes, b: Bytes)
    requires |block| == 3 <= |b|
    ensures block + rest == b <==> block == [b[0], b[1], b[2]] && rest == b[3..]
  {}

  /** The server's decoder inverts encoding with the server's own alphabet, on all byte strings. */
  lemma OwnRoundTrip(b: Bytes)
    ensures DecodeSpec(Encode(b, UNDERSCORE)) == b
  {
    DecodeEncoded(b, UNDERSCORE);
    DeliveredExactly(b, UNDERSCORE);
  }

  /** What the client sends arrives unchanged if, and only if, no group of six bits in it is 63. */
  lemma ClientToServer(utf8: Bytes)
    ensures DecodeSpec(ToBase64(utf8)) == utf8 <==> 63 !in Sextets(utf8)
  {
    DecodeEncoded(utf8, SLASH);
    DeliveredExactly(utf8, SLASH);
  }

  /** One text that does not arrive unchanged: two question marks after a tilde. */
  lemma LostText()
    ensures DecodeSpec(Encode([126, 63, 63], SLASH)) == [126, 63, 0]
  {
    hide Bytes3, DecodeSpec, Encode;
    var b: Bytes := [126, 63, 63];
    DecodeEncoded(b, SLASH);
    Bytes3Parts(31, 35, 60, 0);
    assert Delivered(b[3..], SLASH) == [];
    assert First(126) == 31 && Second(126, 63) == 35 && Third(63, 63) == 60 && Fourth(63) == 63;
  }

  // ----- the two alphabets and the padding written out

  const SERVER_ALPHABET := "ABCDEFGHIJKLMNOPQRSTUVWXYZ" + "abcdefghijklmnopqrstuvwxyz" + "0123456789+_"
  const CLIENT_ALPHABET := "ABCDEFGHIJKLMNOPQRSTUVWXYZ" + "abcdefghijklmnopqrstuvwxyz" + "0123456789+/"

  lemma {:induction false} CodesAre(n: nat)
    requires n < 64
    ensures Code(n, 95) == SERVER_ALPHABET[n] as int && Code(n, 47) == CLIENT_ALPHABET[n] as int
  {
    var u, l := "ABCDEFGHIJKLMNOPQRSTUVWXYZ", "abcdefghijklmnopqrstuvwxyz";
    if n < 26 {
      UpperCodes(n);
      ThreeParts(u, l, "0123456789+_", n);
      ThreeParts(u, l, "0123456789+/", n);
    } else if n < 52 {
      LowerCodes(n - 26);
      ThreeParts(u, l, "0123456789+_", n);
      ThreeParts(u, l, "0123456789+/", n);
    } else {
      LastCodes(n - 52);
      ThreeParts(u, l, "0123456789+_", n);
      ThreeParts(u, l, "0123456789+/", n);
    }
  }

  lemma {:induction false} ThreeParts(a: string, b: string, c: string, n: nat)
    requires |a| == |b| == 26 && n < 52 + |c|
    ensures (a + b + c)[n] == if n < 26 then a[n] else if n < 52 then b[n - 26] else c[n - 52]
  {}

  lemma {:induction false} UpperCodes(n: nat)
    requires n < 26
    ensures "ABCDEFGHIJKLMNOPQRSTUVWXYZ"[n] as int == 65 + n
  {}

  lemma {:induction false} LowerCodes(n: nat)
    requires n < 26
    ensures "abcdefghijklmnopqrstuvwxyz"[n] as int == 97 + n
  {}

  lemma {:induction false} LastCodes(n: nat)
    requires n < 12
    ensures "0123456789+_"[n] as int == if n < 10 then 48 + n else if n == 10 then 43 else 95
    ensures "0123456789+/"[n] as int == if n < 10 then 48 + n else if n == 10 then 43 else 47
  {}

  /** `v` is the place of the character in the server's alphabet, and 0 for a character that has none. */
  ghost predicate PlaceOf(c: byte, v: nat) {
    if exists i :: 0 <= i < 64 && SERVER_ALPHABET[i] as int == c
    then v < 64 && SERVER_ALPHABET[v] as int == c
    else v == 0
  }

  lemma {:induction false} SextetIsPlace(c: byte, v: nat)
    ensures PlaceOf(c, v) <==> Sextet(c) == v
  {
    hide Code;
    CodeOfSextet(c);
    if i: nat :| i < 64 && SERVER_ALPHABET[i] as int == c {
      CodesAre(i);
      SextetOfCode(i, 95);
      if v < 64 {
        CodesAre(v);
        SextetOfCode(v, 95);
      }
    }
  }

  lemma {:induction false} CodeOfSextet(c: byte)
    ensures Sextet(c) < 64
    ensures Sextet(c) != 0 ==> SERVER_ALPHABET[Sextet(c)] as int == c
  {
    CodesAre(Sextet(c));
  }

  /** Decoding block by block: the places of four characters are 24 bits, and a final block loses a byte for each `=`. */
  lemma {:induction false} DecodedBlocks(block: Bytes, rest: Bytes, i: nat, j: nat, k: nat, l: nat)
    requires |block| == 4
    requires PlaceOf(block[0], i) && PlaceOf(block[1], j) && PlaceOf(block[2], k) && PlaceOf(block[3], l)
    ensures var three := [i * 4 + j / 16, j % 16 * 16 + k / 4, k % 4 * 64 + l];
            && DecodeSpec(block) == three[..3 - (if block[3] == 61 then 1 else 0) - (if block[2] == 61 then 1 else 0)]
            && (rest != [] ==> DecodeSpec(block + rest) == if |rest| % 4 == 0 then three + DecodeSpec(rest) else [])
    ensures |rest| < 4 ==> DecodeSpec(rest) == []
  {
    hide PlaceOf, Bytes3, Sextet, Triple, Triples;
    SextetIsPlace(block[0], i);
    SextetIsPlace(block[1], j);
    SextetIsPlace(block[2], k);
    SextetIsPlace(block[3], l);
    SextetsSmall(block[0], block[1], block[2], block[3]);
    Bytes3Parts(i, j, k, l);
    assert Triple(block[0], block[1], block[2], block[3]) == Bytes3(i, j, k, l) by {
      TripleOf(block[0], block[1], block[2], block[3]);
    }
    var three := Triple(block[0], block[1], block[2], block[3]);
    TriplesOfBlock(block, rest);
    if rest != [] && |rest| % 4 == 0 {
      PaddingOfRest(block + rest, rest);
      var n := OutputLength(rest);
      TriplesLength(rest);
      assert Triples(block + rest)[..3 + n] == three + Triples(rest)[..n];
    }
  }

  lemma {:induction false} TripleOf(a: byte, b: byte, c: byte, d: byte)
    ensures Triple(a, b, c, d) == Bytes3(Sextet(a), Sextet(b), Sextet(c), Sextet(d))
  {}

  lemma {:induction false} SextetsSmall(a: byte, b: byte, c: byte, d: byte)
    ensures Sextet(a) < 64 && Sextet(b) < 64 && Sextet(c) < 64 && Sextet(d) < 64
  {}

  lemma {:induction false} TriplesOfBlock(block: Bytes, rest: Bytes)
    requires |block| == 4
    ensures Triples(block) == Triple(block[0], block[1], block[2], block[3])
    ensures Triples(block + rest) == Triple(block[0], block[1], block[2], block[3]) + Triples(rest)
  {
    hide Triple;
    assert block[4..] == [] && (block + rest)[4..] == rest;
  }

  /** The client's encoding: three bytes are four characters of its alphabet, and one or two at the end are padded. */
  lemma {:induction false} EncodedByClient(x: byte, y: byte, z: byte, rest: Bytes)
    ensures ToBase64([]) == []
    ensures ToBase64([x]) == [CLIENT_ALPHABET[x / 4] as int, CLIENT_ALPHABET[x % 4 * 16] as int, 61, 61]
    ensures ToBase64([x, y]) == [CLIENT_ALPHABET[x / 4] as int, CLIENT_ALPHABET[x % 4 * 16 + y / 16] as int,
                                 CLIENT_ALPHABET[y % 16 * 4] as int, 61]
    ensures ToBase64([x, y, z] + rest) ==
            [CLIENT_ALPHABET[x / 4] as int, CLIENT_ALPHABET[x % 4 * 16 + y / 16] as int,
             CLIENT_ALPHABET[y % 16 * 4 + z / 64] as int, CLIENT_ALPHABET[z % 64] as int] + ToBase64(rest)
  {
    hide Encode;
    EncodedBlocks(x, y, z, rest);
    Groups(x, y, z);
  }

  lemma {:induction false} EncodedBlocks(x: byte, y: byte, z: byte, rest: Bytes)
    ensures Encode([], 47) == []
    ensures First(x) < 64 && Second(x, y) < 64 && Third(y, z) < 64 && Fourth(z) < 64
    ensures Second(x, 0) < 64 && Third(y, 0) < 64
    ensures Encode([x], 47) == [Code(First(x), 47), Code(Second(x, 0), 47), 61, 61]
    ensures Encode([x, y], 47) == [Code(First(x), 47), Code(Second(x, y), 47), Code(Third(y, 0), 47), 61]
    ensures Encode([x, y, z] + rest, 47) ==
            [Code(First(x), 47), Code(Second(x, y), 47), Code(Third(y, z), 47), Code(Fourth(z), 47)] + Encode(rest, 47)
  {
    hide Code;
    assert ([x, y, z] + rest)[3..] == rest;
  }

  lemma {:induction false} Groups(x: byte, y: byte, z: byte)
    ensures First(x) == x / 4 < 64 && Fourth(z) == z % 64
    ensures Second(x, 0) == x % 4 * 16 < 64 && Second(x, y) == x % 4 * 16 + y / 16 < 64
    ensures Third(y, 0) == y % 16 * 4 < 64 && Third(y, z) == y % 16 * 4 + z / 64 < 64
    ensures Code(First(x), 47) == CLIENT_ALPHABET[x / 4] as int
    ensures Code(Second(x, 0), 47) == CLIENT_ALPHABET[x % 4 * 16] as int
    ensures Code(Second(x, y), 47) == CLIENT_ALPHABET[x % 4 * 16 + y / 16] as int
    ensures Code(Third(y, 0), 47) == CLIENT_ALPHABET[y % 16 * 4] as int
    ensures Code(Third(y, z), 47) == CLIENT_ALPHABET[y % 16 * 4 + z / 64] as int
    ensures Code(Fourth(z), 47) == CLIENT_ALPHABET[z % 64] as int
  {
    hide Code;
    GroupValues(x, y, z);
    CodesAre(First(x));
    CodesAre(Second(x, 0));
    CodesAre(Second(x, y));
    CodesAre(Third(y, 0));
    CodesAre(Third(y, z));
    CodesAre(Fourth(z));
  }

  lemma {:induction false} GroupValues(x: byte, y: byte, z: byte)
    ensures First(x) == x / 4 < 64 && Fourth(z) == z % 64 < 64
    ensures Second(x, 0) == x % 4 * 16 < 64 && Second(x, y) == x % 4 * 16 + y / 16 < 64
    ensures Third(y, 0) == y % 16 * 4 < 64 && Third(y, z) == y % 16 * 4 + z / 64 < 64
  {}
}
