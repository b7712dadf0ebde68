/** Bytes and fixed-width machine integers, as mathematical integers with explicit wrap-around. */
module Words {

  type byte = x: int | 0 <= x < 0x100

  type word32 = x: int | 0 <= x < 0x1_0000_0000

  type Bytes = seq<byte>

  /** 2 to the power n. */
  function Pow2(n: nat): (r: nat)
    ensures r >= 1
  {
    if n == 0 then 1 else 2 * Pow2(n - 1)
  }

  lemma {:induction false} Pow2Add(m: nat, n: nat)
    ensures Pow2(m + n) == Pow2(m) * Pow2(n)
  {
    if m != 0 {
      Pow2Add(m - 1, n);
      assert m + n - 1 == (m - 1) + n;
    }
  }

  /** Bitwise OR of two non-negative integers, one bit at a time. */
  function Or(a: nat, b: nat): nat {
    if a == 0 && b == 0 then 0
    else (if a % 2 == 1 || b % 2 == 1 then 1 else 0) + 2 * Or(a / 2, b / 2)
  }

  /** OR-ing a value below 2^s with a multiple of 2^s adds them. */
  lemma {:induction false} OrDisjoint(a: nat, k: nat, s: nat)
    requires a < Pow2(s)
    ensures Or(a, k * Pow2(s)) == a + k * Pow2(s)
    decreases s
  {
    if s == 0 {
      assert a == 0 && k * Pow2(s) == k;
      OrZero(k);
    } else {
      var b := k * Pow2(s);
      assert b == 2 * (k * Pow2(s - 1));
      OrDisjoint(a / 2, k, s - 1);
    }
  }

  lemma {:induction false} OrZero(k: nat)
    ensures Or(0, k) == k
  {
    if k != 0 { OrZero(k / 2); }
  }

  /** An OR of two words stays inside the width of the words. */
  lemma {:induction false} OrBound(a: nat, b: nat, s: nat)
    requires a < Pow2(s) && b < Pow2(s)
    ensures Or(a, b) < Pow2(s)
    decreases s
  {
    if s != 0 && !(a == 0 && b == 0) { OrBound(a / 2, b / 2, s - 1); }
  }

  /** Bitwise exclusive OR of two non-negative integers, one bit at a time. */
  function Xor(a: nat, b: nat): nat {
    if a == 0 && b == 0 then 0
    else (if a % 2 != b % 2 then 1 else 0) + 2 * Xor(a / 2, b / 2)
  }

  /** Exclusive OR with zeros changes nothing; with ones, it inverts every bit. */
  lemma {:induction false} XorMask(x: nat, k: nat)
    requires x < Pow2(k)
    ensures Xor(x, 0) == x
    ensures Xor(x, Pow2(k) - 1) == Pow2(k) - 1 - x
    decreases k
  {
    if k != 0 {
      XorMask(x / 2, k - 1);
      assert (Pow2(k) - 1) / 2 == Pow2(k - 1) - 1;
    }
  }

  /** Exclusive OR with a single bit adds it where it was clear, and takes it away where it was set. */
  lemma {:induction false} XorBit(x: nat, k: nat)
    requires x < 2 * Pow2(k)
    ensures Xor(x, Pow2(k)) == if x < Pow2(k) then x + Pow2(k) else x - Pow2(k)
    decreases k
  {
    if k == 0 {
      assert Xor(x, 1) == (if x % 2 != 1 then 1 else 0) + 2 * Xor(x / 2, 0);
      assert Xor(0, 0) == 0;
    } else {
      var half := Pow2(k - 1);
      XorBit(x / 2, k - 1);
      assert Pow2(k) == 2 * half && (2 * half) / 2 == half && (2 * half) % 2 == 0;
      assert Xor(x, Pow2(k)) == x % 2 + 2 * Xor(x / 2, half);
    }
  }

  /** The `|` operator of JavaScript on the bit patterns of two 32-bit integers. */
  function Or32(a: word32, b: word32): (r: word32) {
    Pow2Of32();
    OrBound(a, b, 32);
    Or(a, b)
  }

  lemma Pow2Of32()
    ensures Pow2(32) == 0x1_0000_0000
  {
    assert Pow2(8) == 0x100;
    Pow2Add(8, 8);
    Pow2Add(16, 16);
  }

  /** The `<<` operator of JavaScript: only the low five bits of the shift count are used, and the result wraps. */
  function Shl32(a: word32, shift: nat): word32 {
    (a * Pow2(shift % 32)) % 0x1_0000_0000
  }

  /** The signed value of a 32-bit pattern. */
  function ToInt32(w: word32): (r: int)
    ensures -0x8000_0000 <= r < 0x8000_0000
    ensures r % 0x1_0000_0000 == w
  {
    if w < 0x8000_0000 then w else w - 0x1_0000_0000
  }
}
