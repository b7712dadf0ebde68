/** Decimal numbers as text. */
module Decimals {

  function Digit(n: nat): char
    requires n < 10
  {
    '0' + n as char
  }

  predicate IsDigit(c: char) {
    '0' <= c <= '9'
  }

  ghost predicate AllDigits(s: string) {
    forall i :: 0 <= i < |s| ==> IsDigit(s[i])
  }

  /** `String(n)`. */
  function Dec(n: nat): (s: string)
    ensures |s| >= 1
  {
    if n < 10 then [Digit(n)] else Dec(n / 10) + [Digit(n % 10)]
  }

  /** `Number(s)`, for a string of digits. */
  function Value(s: string): int {
    if s == [] then 0 else 10 * Value(s[..|s| - 1]) + (s[|s| - 1] as int - '0' as int)
  }

  lemma {:induction false} ValueOfDec(n: nat)
    ensures AllDigits(Dec(n)) && Value(Dec(n)) == n
  {
    if n < 10 {
      assert Value([]) == 0 && [Digit(n)][..0] == [];
    } else {
      ValueOfDec(n / 10);
      assert Dec(n)[..|Dec(n)| - 1] == Dec(n / 10);
    }
  }

  lemma {:induction false} NoLeadingZero(n: nat)
    ensures n > 0 ==> Dec(n)[0] != '0'
  {
    if n >= 10 { NoLeadingZero(n / 10); }
  }

  function Pow10(k: nat): nat {
    if k == 0 then 1 else 10 * Pow10(k - 1)
  }

  lemma {:induction false} DecLength(n: nat, k: nat)
    requires n < Pow10(k) && k >= 1
    ensures |Dec(n)| <= k
    decreases k
  {
    if n >= 10 {
      assert Pow10(1) == 10;
      DecLength(n / 10, k - 1);
    }
  }

  /** `s.padStart(n, '0')`. */
  function Pad(s: string, n: nat): string
    decreases n - |s|
  {
    if |s| >= n then s else Pad("0" + s, n)
  }

  lemma {:induction false} PadKeeps(s: string, n: nat)
    requires AllDigits(s)
    ensures AllDigits(Pad(s, n)) && Value(Pad(s, n)) == Value(s)
    ensures |Pad(s, n)| == if |s| >= n then |s| else n
    decreases n - |s|
  {
    if |s| < n {
      ZeroInFront(s);
      PadKeeps("0" + s, n);
    }
  }

  lemma {:induction false} ZeroInFront(s: string)
    ensures Value("0" + s) == Value(s)
  {
    if s == [] {
      assert "0" + s == "0" && "0"[..0] == [];
    } else {
      ZeroInFront(s[..|s| - 1]);
      assert ("0" + s)[..|s|] == "0" + s[..|s| - 1];
    }
  }

  function Padded(n: nat, k: nat): string {
    Pad(Dec(n), k)
  }

  lemma AboutPadded(n: nat, k: nat)
    ensures AllDigits(Padded(n, k)) && Value(Padded(n, k)) == n && |Padded(n, k)| >= k && |Padded(n, k)| >= 1
    ensures k >= 1 && n < Pow10(k) ==> |Padded(n, k)| == k
  {
    ValueOfDec(n);
    PadKeeps(Dec(n), k);
    if k >= 1 && n < Pow10(k) { DecLength(n, k); }
  }

  lemma ConcatAt(x: string, r: string, i: nat)
    ensures i < |x + r| ==> (x + r)[i] == if i < |x| then x[i] else r[i - |x|]
  {
  }

  /** Equal strings with first parts of equal length. */
  lemma SameParts(x: string, y: string, r: string, t: string)
    requires |x| == |y| && x + r == y + t
    ensures x == y && r == t
  {
    assert x == (x + r)[..|x|] && y == (y + t)[..|y|];
    assert r == (x + r)[|x|..] && t == (y + t)[|y|..];
  }
}
