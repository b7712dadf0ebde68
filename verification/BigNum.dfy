/** BIGNUM values: a three-byte header, then the magnitude, most significant byte first, all inverted when negative. */
module BigNum {
  import opened Wrappers
  import opened Words
  import opened ByteOrder

  datatype BigNumError = OutOfRange

  /** Bytes as they are, or inverted. */
  function Masked(b: Bytes, invert: bool): (r: Bytes)
    ensures |r| == |b|
  {
    if invert then seq(|b|, i requires 0 <= i < |b| => 0xff - b[i]) else b
  }

  /** The value of a stored number, one byte at a time. */
  function ValueOf(bytes: Bytes): int
    requires |bytes| >= 3
  {
    if bytes[0] >= 0x80 then FromBe(Masked(bytes[3..], false)) else -(FromBe(Masked(bytes[3..], true)) as int)
  }

  /** Inverting every byte inverts every bit of the number. */
  lemma {:induction false} InvertedValue(b: Bytes)
    ensures FromBe(Masked(b, true)) == Pow256(|b|) - 1 - FromBe(b)
  {
    if b != [] {
      var n := |b| - 1;
      InvertedValue(b[..n]);
      assert Masked(b, true)[..n] == Masked(b[..n], true);
    }
  }

  /** Exclusive OR with a mask of ones, or of zeros, on a number of `k` bytes. */
  lemma MaskedValue(b: Bytes, invert: bool, mask: nat)
    requires mask == if invert then Pow256(|b|) - 1 else 0
    ensures Xor(FromBe(b), mask) == FromBe(Masked(b, invert)) < Pow256(|b|)
  {
    hide Xor, FromBe, Pow2, Pow256;
    Pow256IsPow2(|b|);
    BeBound(b);
    XorMask(FromBe(b), 8 * |b|);
    InvertedValue(b);
  }

  /** Appending `k` masked bytes by shifting and OR-ing. */
  lemma AppendBytes(dv: Bytes, offset: nat, k: nat, invert: bool, mask: nat, result: nat)
    requires offset + k <= |dv| && mask == if invert then Pow256(k) - 1 else 0
    requires result == FromBe(Masked(dv[..offset], invert))
    ensures Or(Xor(FromBe(dv[offset..offset + k]), mask), result * Pow256(k)) == FromBe(Masked(dv[..offset + k], invert))
  {
    hide Or, Xor, FromBe, Pow2, Pow256;
    var x, y := dv[..offset], dv[offset..offset + k];
    MaskedValue(y, invert, mask);
    Pow256IsPow2(k);
    OrDisjoint(FromBe(Masked(y, invert)), result, 8 * k);
    BeConcat(Masked(x, invert), Masked(y, invert));
    assert Masked(dv[..offset + k], invert) == Masked(x, invert) + Masked(y, invert);
  }

  /** Eight bytes at a time while there are eight, then one at a time. */
  method GetBigNumFromBytes(bytes: Bytes) returns (r: Result<int, BigNumError>)
    ensures r == if |bytes| < 3 then Failure(OutOfRange) else Success(ValueOf(bytes))
  {
    if |bytes| < 3 { return Failure(OutOfRange); }
    hide Or, Xor, FromBe, Pow2, Pow256, Masked;
    var positive := bytes[0] >= 0x80;
    var uint64Mask := if positive then 0 else 0xffff_ffff_ffff_ffff;
    var uint8Mask := if positive then 0 else 0xff;
    var dv := bytes[3..];
    var lastUint64Offset := |dv| - 8;
    var offset, result := 0, 0;
    Powers();
    NothingMasked(dv, !positive);
    while offset <= lastUint64Offset
      invariant 0 <= offset <= |dv|
      invariant result == FromBe(Masked(dv[..offset], !positive))
    {
      AppendBytes(dv, offset, 8, !positive, uint64Mask, result);
      result := Or(Xor(FromBe(dv[offset..offset + 8]), uint64Mask), result * 0x1_0000_0000_0000_0000);
      offset := offset + 8;
    }
    while offset < |dv|
      invariant 0 <= offset <= |dv|
      invariant result == FromBe(Masked(dv[..offset], !positive))
    {
      AppendByte(dv, offset, !positive, uint8Mask, result);
      result := Or(Xor(dv[offset], uint8Mask), result * 0x100);
      offset := offset + 1;
    }
    assert dv[..offset] == bytes[3..];
    return Success(if positive then result else -(result as int));
  }

  lemma AppendByte(dv: Bytes, offset: nat, invert: bool, mask: nat, result: nat)
    requires offset < |dv| && mask == (if invert then 0xff else 0)
    requires result == FromBe(Masked(dv[..offset], invert))
    ensures Or(Xor(dv[offset], mask), result * 0x100) == FromBe(Masked(dv[..offset + 1], invert))
  {
    hide Or, Xor, FromBe, Masked, Pow2;
    Powers();
    AppendBytes(dv, offset, 1, invert, mask, result);
    OneByte(dv[offset]);
    assert dv[offset..offset + 1] == [dv[offset]];
  }

  lemma Powers()
    ensures Pow256(8) == 0x1_0000_0000_0000_0000 && Pow256(1) == 0x100
  {}

  lemma NothingMasked(dv: Bytes, invert: bool)
    ensures FromBe(Masked(dv[..0], invert)) == 0
  {
  }

  lemma OneByte(x: byte)
    ensures FromBe([x]) == x
  {
  }

  // ----- the stored form of a number

  /** How many bytes a magnitude takes: at least one. */
  function ByteCount(m: nat): nat {
    if m < 0x100 then 1 else 1 + ByteCount(m / 0x100)
  }

  /** As many bytes as the magnitude needs, and no more. */
  lemma {:induction false} ByteCountFits(m: nat)
    ensures m < Pow256(ByteCount(m)) && ByteCount(m) >= 1
    ensures ByteCount(m) == 1 || Pow256(ByteCount(m) - 1) <= m
  {
    if m >= 0x100 { ByteCountFits(m / 0x100); } else { Powers(); }
  }

  /** The header holds the byte count with its top bit set; a negative number has all bytes inverted. */
  function Stored(n: int): Bytes {
    var m := if n < 0 then -n else n;
    var k := ByteCount(m);
    Masked(ToBe(0x80_0000 + k, 3) + ToBe(m, k), n < 0)
  }

  lemma {:induction false} HeaderTop(k: nat)
    requires k < 0x80_0000
    ensures ToBe(0x80_0000 + k, 3)[0] >= 0x80
  {
    var h := 0x80_0000 + k;
    assert ToBe(h, 3) == ToBe(h / 0x100, 2) + [h % 0x100];
    assert ToBe(h / 0x100, 2) == ToBe(h / 0x100 / 0x100, 1) + [h / 0x100 % 0x100];
    assert ToBe(h / 0x100 / 0x100, 1) == [] + [h / 0x100 / 0x100 % 0x100];
  }

  /** Every number whose byte count fits the header is recovered from its stored form. */
  lemma StoredRoundTrip(n: int)
    requires ByteCount(if n < 0 then -n else n) < 0x80_0000
    ensures |Stored(n)| >= 4 && ValueOf(Stored(n)) == n
  {
    hide FromBe, ToBe, Pow256;
    var m := if n < 0 then -n else n;
    var k := ByteCount(m);
    var header, payload := ToBe(0x80_0000 + k, 3), ToBe(m, k);
    HeaderTop(k);
    ByteCountFits(m);
    BeRoundTrip(m, k);
    var stored := Stored(n);
    if n < 0 {
      assert Masked(stored[3..], true) == payload;
    } else {
      assert Masked(stored[3..], false) == payload;
    }
  }
}
