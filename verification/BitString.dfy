/** BIT values: a byte that counts the padding bits, then the padding, all ones, and the bits, eight to a byte. */
module BitString {
  import opened Words
  import opened ByteOrder

  /** The number written by a string of bits, most significant first. */
  function FromBits(bits: seq<bool>): nat {
    if bits == [] then 0 else 2 * FromBits(bits[..|bits| - 1]) + (if bits[|bits| - 1] then 1 else 0)
  }

  lemma {:induction false} BitsBound(bits: seq<bool>)
    ensures FromBits(bits) < Pow2(|bits|)
  {
    if bits != [] { BitsBound(bits[..|bits| - 1]); }
  }

  /** Bit `j` from the top of a number of `n` bits. */
  predicate TopBit(x: nat, n: nat, j: nat)
    requires j < n
  {
    x / Pow2(n - 1 - j) % 2 == 1
  }

  lemma {:induction false} BitAt(bits: seq<bool>, j: nat)
    requires j < |bits|
    ensures TopBit(FromBits(bits), |bits|, j) <==> bits[j]
    decreases |bits|
  {
    var n := |bits| - 1;
    var x, last := FromBits(bits[..n]), if bits[n] then 1 else 0;
    if j < n {
      BitAt(bits[..n], j);
      HalfThenShift(x, last, n - 1 - j);
    } else {
      assert Pow2(0) == 1;
    }
  }

  // ----- reading

  function Padding(data: Bytes): nat
    requires data != []
  {
    data[0]
  }

  function Length(data: Bytes): int
    requires data != []
  {
    (|data| - 1) * 8 - Padding(data)
  }

  /** Past the end of the data, every bit reads as false. */
  predicate GetBool(data: Bytes, index: nat)
    requires data != []
  {
    var offset := index + Padding(data);
    var dataIndex := offset / 8 + 1;
    dataIndex < |data| && TopBit(data[dataIndex], 8, offset % 8)
  }

  method ToBools(data: Bytes) returns (bools: seq<bool>)
    requires data != []
    ensures |bools| == if Length(data) < 0 then 0 else Length(data)
    ensures forall i :: 0 <= i < |bools| ==> bools[i] == GetBool(data, i)
  {
    bools := [];
    var length, i := Length(data), 0;
    while i < length
      invariant 0 <= i && |bools| == i && (i <= length || i == 0)
      invariant forall j :: 0 <= j < i ==> bools[j] == GetBool(data, j)
    {
      bools := bools + [GetBool(data, i)];
      i := i + 1;
    }
  }

  // ----- packing

  function PaddingFor(length: nat): nat {
    (8 - length % 8) % 8
  }

  /** Bit `i` of the packed data after the first byte: padding, then the predicate. */
  predicate PackedBit(length: nat, p: nat -> bool, i: nat) {
    i < PaddingFor(length) || p(i - PaddingFor(length))
  }

  function PackedBits(length: nat, p: nat -> bool, from: nat, n: nat): (bits: seq<bool>)
    ensures |bits| == n
  {
    seq(n, i requires 0 <= i < n => PackedBit(length, p, from + i))
  }

  function PackedByte(length: nat, p: nat -> bool, k: nat): byte {
    var bits := PackedBits(length, p, 8 * k, 8);
    BitsBound(bits);
    assert Pow2(8) == 0x100;
    FromBits(bits)
  }

  function Packed(length: nat, p: nat -> bool): Bytes {
    [PaddingFor(length)] + seq((length + 7) / 8, k requires 0 <= k < (length + 7) / 8 => PackedByte(length, p, k))
  }

  /** Packs the bits, asking `predicate` for each; `asked` is the list of the indices it was asked for. */
  method FromLengthAndPredicate(length: nat, bitAt: nat -> bool) returns (data: array<byte>, ghost asked: seq<nat>)
    ensures fresh(data) && data[..] == Packed(length, bitAt)
    ensures asked == seq(length, i => i)
  {
    hide FromBits, PackedBits, PackedBit;
    NoBits(length, bitAt);
    var byteCount := (length + 7) / 8 + 1;
    var paddingBitCount := (8 - length % 8) % 8;
    data := new byte[byteCount](_ => 0);
    asked := [];
    data[0] := paddingBitCount;
    var byteIndex, byte, byteBit := 1, 0, 0;
    while byteBit < paddingBitCount
      invariant 0 <= byteBit <= paddingBitCount < 8 && data[0] == paddingBitCount
      invariant byte == FromBits(PackedBits(length, bitAt, 0, byteBit))
    {
      PaddingBit(length, bitAt, byteBit);
      byte := 2 * byte + 1;
      byteBit := byteBit + 1;
    }
    var bitIndex := 0;
    while byteIndex < byteCount
      invariant 1 <= byteIndex <= byteCount && 0 <= byteBit < 8 && data.Length == byteCount
      invariant byteIndex < byteCount ==> bitIndex + paddingBitCount == 8 * (byteIndex - 1) + byteBit
      invariant byteIndex == byteCount ==> bitIndex + paddingBitCount == 8 * (byteIndex - 1)
      invariant byte == FromBits(PackedBits(length, bitAt, 8 * (byteIndex - 1), byteBit))
      invariant asked == seq(bitIndex, i => i)
      invariant data[0] == paddingBitCount
      invariant forall k :: 0 <= k < byteIndex - 1 ==> data[1 + k] == PackedByte(length, bitAt, k)
    {
      while byteBit < 8
        invariant 0 <= byteBit <= 8
        invariant bitIndex + paddingBitCount == 8 * (byteIndex - 1) + byteBit
        invariant byte == FromBits(PackedBits(length, bitAt, 8 * (byteIndex - 1), byteBit))
        invariant asked == seq(bitIndex, i => i)
        invariant data[0] == paddingBitCount
        invariant forall k :: 0 <= k < byteIndex - 1 ==> data[1 + k] == PackedByte(length, bitAt, k)
      {
        DataBit(length, bitAt, 8 * (byteIndex - 1), byteBit, bitIndex);
        byte := 2 * byte;
        asked := asked + [bitIndex];
        if bitAt(bitIndex) { byte := byte + 1; }
        bitIndex := bitIndex + 1;
        byteBit := byteBit + 1;
      }
      assert byte == PackedByte(length, bitAt, byteIndex - 1);
      data[byteIndex] := byte;
      byteIndex := byteIndex + 1;
      byte, byteBit := 0, 0;
    }
  }

  lemma NoBits(length: nat, p: nat -> bool)
    ensures forall from: nat :: FromBits(PackedBits(length, p, from, 0)) == 0
  {
  }

  lemma NextBit(length: nat, p: nat -> bool, from: nat, n: nat)
    ensures FromBits(PackedBits(length, p, from, n + 1))
         == 2 * FromBits(PackedBits(length, p, from, n)) + (if PackedBit(length, p, from + n) then 1 else 0)
  {
    assert PackedBits(length, p, from, n + 1)[..n] == PackedBits(length, p, from, n);
  }

  lemma PaddingBit(length: nat, p: nat -> bool, n: nat)
    requires n < PaddingFor(length)
    ensures FromBits(PackedBits(length, p, 0, n + 1)) == 2 * FromBits(PackedBits(length, p, 0, n)) + 1
  {
    hide FromBits, PackedBits;
    NextBit(length, p, 0, n);
  }

  lemma DataBit(length: nat, p: nat -> bool, from: nat, n: nat, i: nat)
    requires from + n == PaddingFor(length) + i
    ensures FromBits(PackedBits(length, p, from, n + 1))
         == 2 * FromBits(PackedBits(length, p, from, n)) + (if p(i) then 1 else 0)
  {
    hide FromBits, PackedBits;
    NextBit(length, p, from, n);
  }

  /** Packed data has the asked length, and every bit reads back as the predicate gave it. */
  lemma PackedReadsBack(length: nat, p: nat -> bool)
    ensures Length(Packed(length, p)) == length
    ensures forall i :: 0 <= i < length ==> GetBool(Packed(length, p), i) == p(i)
  {
    forall i | 0 <= i < length ensures GetBool(Packed(length, p), i) == p(i) {
      PackedBitReadsBack(length, p, i);
    }
  }

  lemma PackedBitReadsBack(length: nat, p: nat -> bool, i: nat)
    requires i < length
    ensures GetBool(Packed(length, p), i) == p(i)
  {
    hide TopBit, FromBits;
    var offset := i + PaddingFor(length);
    var k, j := offset / 8, offset % 8;
    assert offset == 8 * k + j && k < (length + 7) / 8;
    assert Packed(length, p)[k + 1] == PackedByte(length, p, k);
    BitAt(PackedBits(length, p, 8 * k, 8), j);
    assert PackedBits(length, p, 8 * k, 8)[j] == PackedBit(length, p, offset);
  }

  // ----- one representation for each string of bits

  /** What every packed value looks like. */
  ghost predicate WellFormed(data: Bytes) {
    && data != [] && data[0] < 8 && (|data| == 1 ==> data[0] == 0)
    && forall i :: 0 <= i < data[0] ==> TopBit(data[1], 8, i)
  }

  lemma PackedWellFormed(length: nat, p: nat -> bool)
    ensures WellFormed(Packed(length, p))
  {
    var data := Packed(length, p);
    forall i | 0 <= i < data[0] ensures TopBit(data[1], 8, i) {
      BitAt(PackedBits(length, p, 0, 8), i);
    }
  }

  /** Two well-formed values of one length with the same bits are the same bytes. */
  lemma SameBitsSameBytes(a: Bytes, b: Bytes)
    requires WellFormed(a) && WellFormed(b) && Length(a) == Length(b)
    requires forall i :: 0 <= i < Length(a) ==> GetBool(a, i) == GetBool(b, i)
    ensures a == b
  {
    assert |a| == |b| && a[0] == b[0];
    forall k | 1 <= k < |a| ensures a[k] == b[k] {
      forall j | 0 <= j < 8 ensures TopBit(a[k], 8, j) == TopBit(b[k], 8, j) {
        var offset := 8 * (k - 1) + j;
        if offset >= a[0] {
          assert GetBool(a, offset - a[0]) == GetBool(b, offset - a[0]);
          assert offset / 8 + 1 == k && offset % 8 == j;
        }
      }
      SameBits(a[k], b[k], 8);
    }
  }

  lemma {:induction false} SameBits(x: nat, y: nat, n: nat)
    requires x < Pow2(n) && y < Pow2(n)
    requires forall j :: 0 <= j < n ==> TopBit(x, n, j) == TopBit(y, n, j)
    ensures x == y
  {
    if n > 0 {
      var u, v, m := x / 2, y / 2, n - 1;
      forall j | 0 <= j < m ensures TopBit(u, m, j) == TopBit(v, m, j) {
        assert TopBit(x, n, j) == TopBit(y, n, j);
        HalfThenShift(x / 2, x % 2, n - 2 - j);
        HalfThenShift(y / 2, y % 2, n - 2 - j);
      }
      SameBits(u, v, m);
      assert TopBit(x, n, n - 1) == TopBit(y, n, n - 1);
      assert Pow2(0) == 1;
    }
  }
}
