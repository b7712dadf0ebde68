/** Numbers as bytes, least or most significant byte first. */
module ByteOrder {
  import opened Words

  function Pow256(n: nat): (r: nat)
    ensures r >= 1
  {
    if n == 0 then 1 else 0x100 * Pow256(n - 1)
  }

  lemma {:induction false} Pow256Add(m: nat, n: nat)
    ensures Pow256(m + n) == Pow256(m) * Pow256(n)
  {
    if m != 0 {
      Pow256Add(m - 1, n);
      assert m + n - 1 == (m - 1) + n;
    }
  }

  lemma {:induction false} Pow256IsPow2(n: nat)
    ensures Pow256(n) == Pow2(8 * n)
  {
    if n != 0 {
      Pow256IsPow2(n - 1);
      Pow2Add(8, 8 * (n - 1));
      assert Pow2(8) == 0x100;
    }
  }

  // ----- little endian

  function FromLe(b: Bytes): nat {
    if b == [] then 0 else b[0] as int + 0x100 * FromLe(b[1..])
  }

  function ToLe(n: nat, k: nat): (b: Bytes)
    ensures |b| == k
  {
    if k == 0 then [] else [n % 0x100] + ToLe(n / 0x100, k - 1)
  }

  lemma {:induction false} LeRoundTrip(n: nat, k: nat)
    requires n < Pow256(k)
    ensures FromLe(ToLe(n, k)) == n
  {
    if k != 0 {
      LeRoundTrip(n / 0x100, k - 1);
      assert ToLe(n, k)[1..] == ToLe(n / 0x100, k - 1);
    }
  }

  lemma {:induction false} LeBound(b: Bytes)
    ensures FromLe(b) < Pow256(|b|)
  {
    if b != [] { LeBound(b[1..]); }
  }

  lemma {:induction false} LeSplit(b: Bytes, i: nat)
    requires i <= |b|
    ensures FromLe(b) == FromLe(b[..i]) + Pow256(i) * FromLe(b[i..])
  {
    if i == 0 {
      assert b[0..] == b;
    } else {
      LeSplit(b[1..], i - 1);
      assert b[..i][1..] == b[1..][..i - 1];
      assert b[1..][i - 1..] == b[i..];
      LeStep(b[0], FromLe(b[1..][..i - 1]), Pow256(i - 1), FromLe(b[i..]));
    }
  }

  lemma LeStep(x: int, low: int, p: int, high: int)
    ensures x + 0x100 * (low + p * high) == (x + 0x100 * low) + (0x100 * p) * high
  {}

  /** The number whose two's complement pattern of `k` bytes is `u`. */
  function Signed(u: nat, k: nat): int {
    if 2 * u < Pow256(k) then u else u - Pow256(k)
  }

  /** The two's complement pattern of `k` bytes for `n`. */
  function Pattern(n: int, k: nat): nat {
    n % Pow256(k)
  }

  lemma SignedRoundTrip(n: int, k: nat)
    requires -(Pow256(k) as int) <= 2 * n < Pow256(k)
    ensures Pattern(n, k) < Pow256(k) && Signed(Pattern(n, k), k) == n
  {
    var m := Pow256(k);
    if n < 0 { QuotientIs(n, m, -1, n + m); } else { QuotientIs(n, m, 0, n); }
  }

  lemma MulAtLeast(d: int, m: nat)
    requires d >= 1
    ensures d * m >= m
  {
    assert d * m == m + (d - 1) * m;
  }

  /** Quotient and remainder are unique. */
  lemma QuotientIs(n: int, m: nat, q: int, r: nat)
    requires r < m && n == q * m + r
    ensures n / m == q && n % m == r
  {
    var d := n / m - q;
    assert d * m == r - n % m by {
      assert d * m == (n / m) * m - q * m;
    }
    if d >= 1 { MulAtLeast(d, m); }
    assert (-d) * m == -(d * m);
    if d <= -1 { MulAtLeast(-d, m); }
  }

  lemma HalfThenShift(x: nat, last: nat, k: nat)
    requires last < 2
    ensures (2 * x + last) / Pow2(k + 1) == x / Pow2(k)
  {
    var p := Pow2(k);
    var q, r := x / p, x % p;
    assert 2 * x + last == (2 * p) * q + (2 * r + last);
    assert (2 * p) * q == q * (2 * p);
    QuotientIs(2 * x + last, 2 * p, q, 2 * r + last);
  }

  lemma MulMonotone(x: nat, y: nat, z: nat)
    requires x <= y
    ensures x * z <= y * z
  {
  }

  // ----- big endian

  function FromBe(b: Bytes): nat {
    if b == [] then 0 else 0x100 * FromBe(b[..|b| - 1]) + b[|b| - 1] as int
  }

  function ToBe(n: nat, k: nat): (b: Bytes)
    ensures |b| == k
  {
    if k == 0 then [] else ToBe(n / 0x100, k - 1) + [n % 0x100]
  }

  lemma {:induction false} BeRoundTrip(n: nat, k: nat)
    requires n < Pow256(k)
    ensures FromBe(ToBe(n, k)) == n
  {
    if k != 0 {
      BeRoundTrip(n / 0x100, k - 1);
      assert ToBe(n, k)[..k - 1] == ToBe(n / 0x100, k - 1);
    }
  }

  lemma {:induction false} BeBound(b: Bytes)
    ensures FromBe(b) < Pow256(|b|)
  {
    if b != [] { BeBound(b[..|b| - 1]); }
  }

  lemma {:induction false} BeConcat(x: Bytes, y: Bytes)
    ensures FromBe(x + y) == FromBe(x) * Pow256(|y|) + FromBe(y)
  {
    if y == [] {
      assert x + y == x;
    } else {
      var y' := y[..|y| - 1];
      BeConcat(x, y');
      assert (x + y)[..|x + y| - 1] == x + y';
      BeStep(FromBe(x), Pow256(|y'|), FromBe(y'), y[|y| - 1]);
    }
  }

  lemma BeStep(high: int, p: int, low: int, last: int)
    ensures 0x100 * (high * p + low) + last == high * (0x100 * p) + (0x100 * low + last)
  {}

  lemma DivTwice(n: nat, a: nat, b: nat)
    requires a > 0 && b > 0
    ensures a * b > 0 && n / a / b == n / (a * b)
  {
    var q, r := n / a, n % a;
    var q2, r2 := q / b, q % b;
    QuotientAndRest(n, a);
    QuotientAndRest(q, b);
    MulAtLeast(a, b);
    DivTwiceParts(a, b, q2, r2, r);
    QuotientIs(n, a * b, q2, a * r2 + r);
  }

  lemma QuotientAndRest(n: nat, a: nat)
    requires a > 0
    ensures n == n / a * a + n % a && 0 <= n % a < a && n / a >= 0
  {
    DivNat(n, a);
  }

  lemma DivTwiceParts(a: nat, b: nat, q2: nat, r2: nat, r: nat)
    requires a > 0 && r2 < b && r < a
    ensures (q2 * b + r2) * a + r == q2 * (a * b) + (a * r2 + r)
    ensures 0 <= a * r2 + r < a * b
  {
    assert (q2 * b + r2) * a == (q2 * b) * a + r2 * a;
    assert (q2 * b) * a == q2 * (b * a);
    assert a * b == a * r2 + a * (b - r2);
    MulAtLeast(b - r2, a);
  }

  /** What is left of `n` without its `k` low bytes. */
  function High(n: nat, k: nat): nat {
    DivNat(n, Pow256(k));
    n / Pow256(k)
  }

  lemma DivNat(n: nat, m: nat)
    requires m > 0
    ensures n / m >= 0
  {
  }

  lemma HighStep(n: nat, k: nat)
    ensures High(n, 0) == n
    ensures k > 0 ==> High(n / 0x100, k - 1) == High(n, k)
  {
    if k > 0 { DivTwice(n, 0x100, Pow256(k - 1)); }
  }

  /** The high bytes of a number come first. */
  lemma {:induction false} ToBeConcat(n: nat, j: nat, k: nat)
    ensures ToBe(n, j + k) == ToBe(High(n, k), j) + ToBe(n, k)
  {
    hide High;
    HighStep(n, k);
    if k == 0 {
      assert ToBe(n, j) + [] == ToBe(n, j);
    } else {
      var m, d := n / 0x100, n % 0x100;
      ToBeConcat(m, j, k - 1);
      assert ToBe(n, j + k) == ToBe(m, j + (k - 1)) + [d];
      assert ToBe(n, k) == ToBe(m, k - 1) + [d];
    }
  }

  /** Reading only the low bytes of a number forgets the rest. */
  lemma {:induction false} ToBeLow(n: nat, k: nat)
    ensures ToBe(n % Pow256(k), k) == ToBe(n, k)
  {
    if k != 0 {
      LowParts(n, Pow256(k - 1));
      ToBeLow(n / 0x100, k - 1);
    }
  }

  /** The low digit and the rest of a remainder. */
  lemma LowParts(n: nat, m: nat)
    requires m > 0
    ensures 0x100 * m > 0 && n % (0x100 * m) >= 0 && n % (0x100 * m) % 0x100 == n % 0x100
    ensures n % (0x100 * m) / 0x100 == n / 0x100 % m
  {
    var q, r := n / (0x100 * m), n % (0x100 * m);
    QuotientAndRest(n, 0x100 * m);
    var p := m * q;
    assert q * (0x100 * m) == 0x100 * p;
    LowDigit(n, p, r);
    assert r / 0x100 < m;
    QuotientIs(n / 0x100, m, q, r / 0x100);
  }

  lemma LowDigit(n: nat, p: nat, r: nat)
    requires n == 0x100 * p + r
    ensures r % 0x100 == n % 0x100 && n / 0x100 == p + r / 0x100
  {}
}
