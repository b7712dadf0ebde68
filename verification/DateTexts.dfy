/** Where each part of a printed date, time, offset and timestamp stands in its text, and which number it shows. */
module DateTexts {
  import opened Calendar
  import opened DateStrings
  import opened Decimals

  // ----- numbers with leading zeros

  /** Two digits that show a number below 100. */
  predicate TwoDigits(a: char, b: char, n: int) {
    '0' <= a <= '9' && '0' <= b <= '9' && (a as int - 48) * 10 + (b as int - 48) == n
  }

  /** The digits of a number, with leading zeros only up to the width. */
  ghost predicate ShowsNumber(s: string, width: nat, n: int) {
    && |s| >= width && (|s| > width ==> s[0] != '0')
    && (forall i :: 0 <= i < |s| ==> '0' <= s[i] <= '9')
    && Value(s) == n
  }

  lemma {:induction false} PaddedShows(n: nat, width: nat)
    requires width >= 1
    ensures ShowsNumber(Padded(n, width), width, n)
  {
    AboutPadded(n, width);
    NoLeadingZero(n);
    ValueOfDec(n);
    PadKeeps(Dec(n), width);
  }

  lemma {:induction false} PaddedTwo(n: nat)
    requires n < 100
    ensures |Padded(n, 2)| == 2 && TwoDigits(Padded(n, 2)[0], Padded(n, 2)[1], n)
  {
    AboutPadded(n, 2);
    assert Pow10(2) == 100;
    var s := Padded(n, 2);
    assert s[..1] == [s[0]] && s[..1][..0] == [];
    assert Value(s) == 10 * Value(s[..1]) + (s[1] as int - 48);
  }

  // ----- dates

  /**
   * A date, with its year in the first `n` characters: years before year 0 are shown one further from it, and end in (BC).
   */
  ghost predicate ShowsDate(s: string, n: nat, c: Civil) {
    && |s| == n + 6 + (if c.year < 0 then 5 else 0)
    && ShowsNumber(s[..n], 4, if c.year < 0 then 1 - c.year else c.year)
    && s[n] == '-' && TwoDigits(s[n + 1], s[n + 2], c.month)
    && s[n + 3] == '-' && TwoDigits(s[n + 4], s[n + 5], c.day)
    && s[n + 6..] == if c.year < 0 then " (BC)" else ""
  }

  /** The text of a day shows its civil date. */
  lemma {:induction false} DateText(days: int, c: Civil)
    requires Valid(c) && DayNumber(c) == days
    ensures exists n :: ShowsDate(DateStringFromDays(days), n, c)
  {
    hide SplitCivil, YearMonthDayString, ShowsDate;
    DateOf(days, c);
    DayBelow100(c);
    YearMonthDayShows(c);
    assert DateStringFromDays(days) == YearMonthDayString(if c.year < 0 then c.year - 1 else c.year, c.month, c.day);
  }

  lemma {:induction false} YearMonthDayShows(c: Civil)
    requires 0 <= c.month < 100 && 0 <= c.day < 100
    ensures var s := YearMonthDayString(if c.year < 0 then c.year - 1 else c.year, c.month, c.day);
            exists n :: ShowsDate(s, n, c)
  {
    hide Padded, ShowsNumber;
    var year := if c.year < 0 then 1 - c.year else c.year;
    var y := Padded(year, 4);
    var s := YearMonthDayString(if c.year < 0 then c.year - 1 else c.year, c.month, c.day);
    PaddedShows(year, 4);
    PaddedTwo(c.month);
    PaddedTwo(c.day);
    assert s[..|y|] == y;
    assert ShowsDate(s, |y|, c);
  }

  /** The first and the last day of a month. */
  lemma {:induction false} PrintedIn1970()
    ensures DateStringFromDays(30) == "1970-01-31" && DateStringFromDays(0) == "1970-01-01"
  {
    hide YearMonthDayString, SplitCivil, Padded;
    DateOf(30, Civil(1970, 1, 31));
    DateOf(0, Civil(1970, 1, 1));
    SmallNumbers();
    LargerNumbers();
    Assembled(1970, 1, 31, "1970", "01", "31");
    Assembled(1970, 1, 1, "1970", "01", "01");
  }

  /** The first day of astronomical year 0, and the day before it. */
  lemma {:induction false} AroundYearZero()
    ensures DateStringFromDays(-719528) == "0000-01-01"
    ensures DateStringFromDays(-719529) == "0002-12-31 (BC)"
  {
    hide YearMonthDayString, SplitCivil, Padded;
    DateOf(-719528, Civil(0, 1, 1));
    DateOf(-719529, Civil(-1, 12, 31));
    SmallNumbers();
    LargerNumbers();
    Assembled(0, 1, 1, "0000", "01", "01");
    Assembled(-2, 12, 31, "0002", "12", "31");
  }

  lemma {:induction false} Assembled(year: int, month: nat, day: nat, y: string, m: string, d: string)
    requires Padded(if year < 0 then -year else year, 4) == y && Padded(month, 2) == m && Padded(day, 2) == d
    ensures YearMonthDayString(year, month, day) == y + "-" + m + "-" + d + (if year < 0 then " (BC)" else "")
  {
    hide Padded;
    var bc := if year < 0 then " (BC)" else "";
    assert y + ("-" + (m + ("-" + (d + bc)))) == y + "-" + m + "-" + d + bc;
  }

  lemma {:induction false} SmallNumbers()
    ensures Padded(0, 4) == "0000" && Padded(2, 4) == "0002" && Padded(1, 2) == "01"
  {
    PadDigit('0', 4);
    PadDigit('2', 4);
    PadDigit('1', 2);
    assert Digit(0) == '0' && Digit(1) == '1' && Digit(2) == '2';
  }

  lemma {:induction false} PadDigit(c: char, n: nat)
    ensures n == 2 ==> Pad([c], n) == ['0', c]
    ensures n == 4 ==> Pad([c], n) == ['0', '0', '0', c]
  {
    assert ['0'] + [c] == ['0', c] && ['0'] + ['0', c] == ['0', '0', c] && ['0'] + ['0', '0', c] == ['0', '0', '0', c];
    if n == 2 || n == 4 { PadOnce([c], n); }
    if n == 4 {
      PadOnce(['0', c], n);
      PadOnce(['0', '0', c], n);
    }
  }

  lemma {:induction false} PadOnce(s: string, n: nat)
    requires |s| < n
    ensures Pad(s, n) == Pad(['0'] + s, n)
    ensures |s| + 1 == n ==> Pad(s, n) == ['0'] + s
  {}

  lemma {:induction false} LargerNumbers()
    ensures Padded(1970, 4) == "1970" && Padded(12, 2) == "12" && Padded(31, 2) == "31"
  {
    assert Dec(1) == "1" && Dec(3) == "3";
    assert Dec(12) == Dec(1) + [Digit(2)] == "12";
    assert Dec(31) == Dec(3) + [Digit(1)] == "31";
    assert Dec(19) == Dec(1) + [Digit(9)] == "19";
    assert Dec(197) == Dec(19) + [Digit(7)] == "197";
    assert Dec(1970) == Dec(197) + [Digit(0)] == "1970";
  }

  // ----- times

  /** Microseconds after a full second: nothing for none, and otherwise a point and digits without zeros at the end. */
  ghost predicate ShowsFraction(s: string, microseconds: int) {
    if microseconds == 0 then s == ""
    else
      && 2 <= |s| <= 7 && s[0] == '.' && s[|s| - 1] != '0'
      && (forall i :: 1 <= i < |s| ==> '0' <= s[i] <= '9')
      && Value(s[1..]) * [100000, 10000, 1000, 100, 10, 1][|s| - 2] == microseconds
  }

  /** Hours in the first `n` characters, minutes, seconds and their fraction. */
  ghost predicate ShowsTime(s: string, n: nat, microseconds: nat) {
    && |s| >= n + 6 && ShowsNumber(s[..n], 2, microseconds / 3600000000)
    && s[n] == ':' && TwoDigits(s[n + 1], s[n + 2], microseconds / 60000000 % 60)
    && s[n + 3] == ':' && TwoDigits(s[n + 4], s[n + 5], microseconds / 1000000 % 60)
    && ShowsFraction(s[n + 6..], microseconds % 1000000)
  }

  lemma {:induction false} TimeText(microseconds: nat)
    ensures exists n :: ShowsTime(TimeStringFromPositiveMicroseconds(microseconds), n, microseconds)
  {
    hide Padded, TrimZeros, ShowsNumber, ShowsFraction;
    var seconds, u := microseconds / 1000000, microseconds % 1000000;
    var hours, minutes := seconds / 60 / 60, seconds / 60 % 60;
    assert hours == microseconds / 3600000000 && seconds / 60 == microseconds / 60000000;
    PaddedShows(hours, 2);
    PaddedTwo(minutes);
    PaddedTwo(seconds % 60);
    FractionShows(u);
    var h, fraction := Padded(hours, 2), TrimZeros(Padded(u, 6));
    var f := if fraction != [] then "." + fraction else [];
    var s := h + (":" + (Padded(minutes, 2) + (":" + (Padded(seconds % 60, 2) + f))));
    assert s == TimeStringFromPositiveMicroseconds(microseconds);
    assert s[..|h|] == h && s[|h| + 6..] == f;
    assert ShowsTime(s, |h|, microseconds);
  }

  lemma {:induction false} FractionShows(u: nat)
    requires u < 1000000
    ensures var fraction := TrimZeros(Padded(u, 6));
            ShowsFraction(if fraction != [] then "." + fraction else [], u)
  {
    hide Padded, TrimZeros, Value;
    var p := Padded(u, 6);
    var f := TrimZeros(p);
    AboutPadded(u, 6);
    assert Pow10(6) == 1000000;
    TrimmedThenZeros(p);
    TrimmedEnd(p);
    ValueOfZeros(f, 6 - |f|);
    PowersOfTen();
    assert f == p[..|f|];
    assert p == f + Zeros(6 - |f|);
    if f != [] { assert ("." + f)[1..] == f; }
    if f == [] { assert Value(f) == 0 by { ValueOfNothing(); } }
    if f != [] && u == 0 { AllZeros(p, f); }
  }

  function Zeros(n: nat): string {
    seq(n, _ => '0')
  }

  lemma {:induction false} ValueOfNothing()
    ensures Value("") == 0
  {}

  lemma {:induction false} TrimmedEnd(s: string)
    ensures TrimZeros(s) == [] || TrimZeros(s)[|TrimZeros(s)| - 1] != '0'
  {
    if s != [] && s[|s| - 1] == '0' { TrimmedEnd(s[..|s| - 1]); }
  }

  lemma {:induction false} ValueOfZeros(s: string, n: nat)
    ensures Value(s + Zeros(n)) == Value(s) * Pow10(n)
  {
    if n == 0 {
      assert s + Zeros(n) == s;
    } else {
      ValueOfZeros(s, n - 1);
      var all := s + Zeros(n);
      assert all[..|all| - 1] == s + Zeros(n - 1) && all[|all| - 1] == '0';
      TimesTen(Value(s), Pow10(n - 1));
    }
  }

  lemma {:induction false} TimesTen(a: int, b: int)
    ensures 10 * (a * b) == a * (10 * b)
  {}

  lemma {:induction false} PowersOfTen()
    ensures Pow10(0) == 1 && Pow10(1) == 10 && Pow10(2) == 100 && Pow10(3) == 1000 && Pow10(4) == 10000
    ensures Pow10(5) == 100000 && Pow10(6) == 1000000
  {}

  /** Digits that end in a digit other than 0 do not show 0. */
  lemma {:induction false} AllZeros(p: string, f: string)
    requires f != [] && f[|f| - 1] != '0' && f <= p && AllDigits(p)
    ensures Value(f) > 0
  {
    ValueNotNegative(f[..|f| - 1]);
    assert '0' < f[|f| - 1] <= '9' by { assert f[|f| - 1] == p[|f| - 1]; }
  }

  lemma {:induction false} ValueNotNegative(s: string)
    requires AllDigits(s)
    ensures Value(s) >= 0
  {
    if s != [] { ValueNotNegative(s[..|s| - 1]); }
  }

  // ----- time-zone offsets

  /** A sign, the hours in the next `n` characters, and the minutes unless they are 0. */
  ghost predicate ShowsOffset(s: string, n: nat, offsetInMinutes: int) {
    var minutes := if offsetInMinutes < 0 then -offsetInMinutes else offsetInMinutes;
    && |s| == 1 + n + (if minutes % 60 == 0 then 0 else 3)
    && s[0] == (if offsetInMinutes < 0 then '-' else '+')
    && ShowsNumber(s[1..1 + n], 2, minutes / 60)
    && (minutes % 60 != 0 ==> s[n + 1] == ':' && TwoDigits(s[n + 2], s[n + 3], minutes % 60))
  }

  lemma {:induction false} OffsetText(offsetInMinutes: int)
    ensures exists n :: ShowsOffset(TimeZoneOffsetString(offsetInMinutes), n, offsetInMinutes)
  {
    hide Padded, ShowsNumber;
    var minutes := if offsetInMinutes < 0 then -offsetInMinutes else offsetInMinutes;
    PaddedShows(minutes / 60, 2);
    PaddedTwo(minutes % 60);
    var h, s := Padded(minutes / 60, 2), TimeZoneOffsetString(offsetInMinutes);
    assert s[1..1 + |h|] == h;
    assert ShowsOffset(s, |h|, offsetInMinutes);
  }

  // ----- timestamps

  /** The two infinities, and otherwise the date of the day and the time in it, with a space between them. */
  lemma {:induction false} TimestampText(microseconds: int)
    ensures TimestampStringFromMicroseconds(microseconds) ==
            if microseconds == -9223372036854775807 then "-infinity"
            else if microseconds == 9223372036854775807 then "infinity"
            else DateStringFromDays(microseconds / 86400000000) + " "
                 + TimeStringFromPositiveMicroseconds(microseconds % 86400000000)
  {
    hide DateStringFromDays, TimeStringFromPositiveMicroseconds, SplitMicroseconds;
    SplitIsFloor(microseconds);
    Associate(DateStringFromDays(microseconds / 86400000000),
              TimeStringFromPositiveMicroseconds(microseconds % 86400000000), "");
  }

  lemma {:induction false} Associate(a: string, b: string, c: string)
    ensures a + " " + b + c == a + (" " + (b + c)) && a + " " + b == a + (" " + b)
  {}

  lemma {:induction false} OtherUnitsText(n: int)
    ensures TimestampStringFromSeconds(n) == TimestampStringFromMicroseconds(1000000 * n)
    ensures TimestampStringFromMilliseconds(n) == TimestampStringFromMicroseconds(1000 * n)
    ensures TimestampStringFromNanoseconds(n) == TimestampStringFromMicroseconds(if n < 0 then -(-n / 1000) else n / 1000)
  {
    hide TimestampStringFromMicroseconds;
  }

  /** With an offset, the local date and time and then the offset; only the instant itself can be an infinity. */
  lemma {:induction false} ZonedTimestampText(microseconds: int, offsetInMinutes: int)
    ensures var local := microseconds + 60000000 * offsetInMinutes;
            ZonedTimestampString(microseconds, offsetInMinutes) ==
            if microseconds == -9223372036854775807 then "-infinity"
            else if microseconds == 9223372036854775807 then "infinity"
            else DateStringFromDays(local / 86400000000) + " "
                 + TimeStringFromPositiveMicroseconds(local % 86400000000) + TimeZoneOffsetString(offsetInMinutes)
  {
    hide DateStringFromDays, TimeStringFromPositiveMicroseconds, SplitMicroseconds, TimeZoneOffsetString;
    var local := microseconds + 60000000 * offsetInMinutes;
    SplitIsFloor(local);
    Associate(DateStringFromDays(local / 86400000000), TimeStringFromPositiveMicroseconds(local % 86400000000),
              TimeZoneOffsetString(offsetInMinutes));
  }
}
