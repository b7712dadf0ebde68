/** Dates, times and timestamps as text: what is printed, and that nothing is lost by printing it. */
module DateStrings {
  import opened Decimals
  import opened Calendar

  const MICROSECONDS_PER_SECOND := 1000000
  const MICROSECONDS_PER_DAY := 86400000000
  const NEGATIVE_INFINITY_TIMESTAMP := -9223372036854775807
  const POSITIVE_INFINITY_TIMESTAMP := 9223372036854775807

  // ----- dates

  function YearMonthDayString(year: int, month: nat, dayOfMonth: nat): string {
    Padded(if year < 0 then -year else year, 4)
    + ("-" + (Padded(month, 2) + ("-" + (Padded(dayOfMonth, 2) + (if year < 0 then " (BC)" else "")))))
  }

  /** Negative years are printed one lower; year 0 is printed as it is. */
  function DateStringFromDays(days: int): string {
    SplitIsTrueDate(days);
    MonthsGrow(SplitCivil(days).month, 1, Leap(SplitCivil(days).year));
    var date := SplitCivil(days);
    YearMonthDayString(if date.year < 0 then date.year - 1 else date.year, date.month, date.day)
  }

  /** Digits are told from what follows them by the first character that is not a digit. */
  lemma {:induction false} SameDigits(x: string, y: string, r: string, t: string)
    requires AllDigits(x) && AllDigits(y) && x + r == y + t
    requires r != [] && t != [] && !IsDigit(r[0]) && !IsDigit(t[0])
    ensures x == y && r == t
  {
    ConcatAt(x, r, |x|);
    ConcatAt(y, t, |x|);
    ConcatAt(x, r, |y|);
    ConcatAt(y, t, |y|);
    assert |x| == |y|;
    SameParts(x, y, r, t);
  }

  lemma YearMonthDayInjective(y: int, m: nat, d: nat, y': int, m': nat, d': nat)
    requires m < 100 && d < 100 && m' < 100 && d' < 100
    requires YearMonthDayString(y, m, d) == YearMonthDayString(y', m', d')
    ensures y == y' && m == m' && d == d'
  {
    hide Padded, AllDigits;
    assert Pow10(2) == 100;
    var a, a' := if y < 0 then -y else y, if y' < 0 then -y' else y';
    var s, s' := if y < 0 then " (BC)" else "", if y' < 0 then " (BC)" else "";
    AboutPadded(a, 4);
    AboutPadded(a', 4);
    AboutPadded(m, 2);
    AboutPadded(m', 2);
    AboutPadded(d, 2);
    AboutPadded(d', 2);
    var r3, r3' := Padded(d, 2) + s, Padded(d', 2) + s';
    var r2, r2' := Padded(m, 2) + ("-" + r3), Padded(m', 2) + ("-" + r3');
    SameDigits(Padded(a, 4), Padded(a', 4), "-" + r2, "-" + r2');
    SameParts("-", "-", r2, r2');
    SameParts(Padded(m, 2), Padded(m', 2), "-" + r3, "-" + r3');
    SameParts("-", "-", r3, r3');
    SameParts(Padded(d, 2), Padded(d', 2), s, s');
  }

  /** As the program computes it, from the absolute number of days. */
  method GetDuckDBDateStringFromDays(days: int) returns (r: string)
    ensures r == DateStringFromDays(days)
  {
    hide CivilFromDay, DaysBefore, YearMonthDayString;
    var absDays := if days < 0 then -days else days;
    var sign := if days < 0 then -1 else 1;
    var num400YearIntervals := absDays / DAYS_IN_400_YEARS;
    var absDaysFromRemainingInterval := absDays % DAYS_IN_400_YEARS;
    var date := CivilFromDay(sign * absDaysFromRemainingInterval);
    var year := sign * num400YearIntervals * 400 + date.year;
    SplitIsTrueDate(days);
    MonthsGrow(SplitCivil(days).month, 1, Leap(SplitCivil(days).year));
    if year < 0 {
      year := year - 1;
    }
    r := YearMonthDayString(year, date.month, date.day);
  }

  /** Different days are printed differently. */
  lemma DatesDiffer(a: int, b: int)
    ensures DateStringFromDays(a) == DateStringFromDays(b) <==> a == b
  {
    if DateStringFromDays(a) == DateStringFromDays(b) {
      SplitIsTrueDate(a);
      SplitIsTrueDate(b);
      var x, y := SplitCivil(a), SplitCivil(b);
      hide SplitCivil, YearMonthDayString, DaysBefore, DayFromYear;
      DayBelow100(x);
      DayBelow100(y);
      YearMonthDayInjective(if x.year < 0 then x.year - 1 else x.year, x.month, x.day,
                            if y.year < 0 then y.year - 1 else y.year, y.month, y.day);
    }
  }

  lemma DateOf(days: int, date: Civil)
    requires Valid(date) && DayNumber(date) == days
    ensures SplitCivil(days) == date
  {
    hide SplitCivil;
    SplitIsTrueDate(days);
    OneDate(SplitCivil(days), date);
  }

  lemma DayBelow100(c: Civil)
    requires Valid(c)
    ensures 1 <= c.month <= 12 && 1 <= c.day < 100
  {
  }

  // ----- times

  function TimeStringFromParts(hours: nat, minutes: nat, seconds: nat, microseconds: nat): string {
    var fraction := TrimZeros(Padded(microseconds, 6));
    Padded(hours, 2) + (":" + (Padded(minutes, 2) + (":" + (Padded(seconds, 2)
    + (if fraction != [] then "." + fraction else [])))))
  }

  /** `s.replace(/0+$/, '')`. */
  function TrimZeros(s: string): string {
    if s != [] && s[|s| - 1] == '0' then TrimZeros(s[..|s| - 1]) else s
  }

  function TimeStringFromPositiveMicroseconds(positiveMicroseconds: nat): string {
    var microseconds := positiveMicroseconds % MICROSECONDS_PER_SECOND;
    var seconds := positiveMicroseconds / MICROSECONDS_PER_SECOND;
    var minutes := seconds / 60;
    TimeStringFromParts(minutes / 60, minutes % 60, seconds % 60, microseconds)
  }

  function TimeStringFromMicrosecondsInDay(microsecondsInDay: int): string
    requires -MICROSECONDS_PER_DAY <= microsecondsInDay
  {
    TimeStringFromPositiveMicroseconds(
      if microsecondsInDay < 0 then microsecondsInDay + MICROSECONDS_PER_DAY else microsecondsInDay)
  }

  /** A string is its trimmed form followed by zeros. */
  lemma {:induction false} TrimmedThenZeros(s: string)
    ensures |TrimZeros(s)| <= |s|
    ensures s == TrimZeros(s) + seq(|s| - |TrimZeros(s)|, _ => '0')
  {
    if s != [] && s[|s| - 1] == '0' {
      TrimmedThenZeros(s[..|s| - 1]);
    }
  }

  lemma FractionInjective(u: nat, u': nat)
    requires u < 1000000 && u' < 1000000
    requires TrimZeros(Padded(u, 6)) == TrimZeros(Padded(u', 6))
    ensures u == u'
  {
    hide Padded;
    assert Pow10(6) == 1000000;
    AboutPadded(u, 6);
    AboutPadded(u', 6);
    TrimmedThenZeros(Padded(u, 6));
    TrimmedThenZeros(Padded(u', 6));
  }

  lemma TimeInjective(t: nat, t': nat)
    requires t < MICROSECONDS_PER_DAY && t' < MICROSECONDS_PER_DAY
    requires TimeStringFromPositiveMicroseconds(t) == TimeStringFromPositiveMicroseconds(t')
    ensures t == t'
  {
    var u, u' := t % MICROSECONDS_PER_SECOND, t' % MICROSECONDS_PER_SECOND;
    var s, s' := t / MICROSECONDS_PER_SECOND, t' / MICROSECONDS_PER_SECOND;
    TimePartsInjective(s / 60 / 60, s / 60 % 60, s % 60, u, s' / 60 / 60, s' / 60 % 60, s' % 60, u');
  }

  lemma TimePartsInjective(h: nat, m: nat, s: nat, u: nat, h': nat, m': nat, s': nat, u': nat)
    requires h < 100 && m < 100 && s < 100 && u < 1000000 && h' < 100 && m' < 100 && s' < 100 && u' < 1000000
    requires TimeStringFromParts(h, m, s, u) == TimeStringFromParts(h', m', s', u')
    ensures h == h' && m == m' && s == s' && u == u'
  {
    hide Padded, AllDigits, TrimZeros;
    assert Pow10(2) == 100;
    AboutPadded(h, 2);
    AboutPadded(h', 2);
    AboutPadded(m, 2);
    AboutPadded(m', 2);
    AboutPadded(s, 2);
    AboutPadded(s', 2);
    var f, f' := TrimZeros(Padded(u, 6)), TrimZeros(Padded(u', 6));
    var d, d' := if f != [] then "." + f else [], if f' != [] then "." + f' else [];
    var r3, r3' := Padded(s, 2) + d, Padded(s', 2) + d';
    var r2, r2' := Padded(m, 2) + (":" + r3), Padded(m', 2) + (":" + r3');
    SameParts(Padded(h, 2), Padded(h', 2), ":" + r2, ":" + r2');
    SameParts(":", ":", r2, r2');
    SameParts(Padded(m, 2), Padded(m', 2), ":" + r3, ":" + r3');
    SameParts(":", ":", r3, r3');
    SameParts(Padded(s, 2), Padded(s', 2), d, d');
    if f != [] && f' != [] { SameParts(".", ".", f, f'); }
    FractionInjective(u, u');
  }

  // ----- timestamps

  /** Division of JavaScript's big integers, which rounds towards zero. */
  function TruncDiv(a: int, b: int): int
    requires b > 0
  {
    if a < 0 then -(-a / b) else a / b
  }

  function TruncMod(a: int, b: int): int
    requires b > 0
  {
    a - TruncDiv(a, b) * b
  }

  /** Days and microseconds in the day: the quotient and remainder, corrected for negative remainders. */
  function SplitMicroseconds(microseconds: int): (int, int) {
    var days := TruncDiv(microseconds, MICROSECONDS_PER_DAY);
    var part := TruncMod(microseconds, MICROSECONDS_PER_DAY);
    if part < 0 then (days - 1, part + MICROSECONDS_PER_DAY) else (days, part)
  }

  /** The corrected split is division that rounds down. */
  lemma SplitIsFloor(microseconds: int)
    ensures var (days, part) := SplitMicroseconds(microseconds);
            && microseconds == days * MICROSECONDS_PER_DAY + part && 0 <= part < MICROSECONDS_PER_DAY
            && days == microseconds / MICROSECONDS_PER_DAY && part == microseconds % MICROSECONDS_PER_DAY
  {
  }

  function TimestampStringFromMicroseconds(microseconds: int): string {
    if microseconds == NEGATIVE_INFINITY_TIMESTAMP then "-infinity"
    else if microseconds == POSITIVE_INFINITY_TIMESTAMP then "infinity"
    else
      SplitIsFloor(microseconds);
      var (days, part) := SplitMicroseconds(microseconds);
      DateStringFromDays(days) + (" " + TimeStringFromMicrosecondsInDay(part))
  }

  /** As the program computes it, with the correction of a negative remainder. */
  method GetDuckDBTimestampStringFromMicroseconds(microseconds: int) returns (r: string)
    ensures r == TimestampStringFromMicroseconds(microseconds)
  {
    hide DateStringFromDays, TimeStringFromMicrosecondsInDay;
    SplitIsFloor(microseconds);
    if microseconds == NEGATIVE_INFINITY_TIMESTAMP { return "-infinity"; }
    if microseconds == POSITIVE_INFINITY_TIMESTAMP { return "infinity"; }
    var days := TruncDiv(microseconds, MICROSECONDS_PER_DAY);
    var microsecondsPart := TruncMod(microseconds, MICROSECONDS_PER_DAY);
    if microsecondsPart < 0 {
      days := days - 1;
      microsecondsPart := microsecondsPart + MICROSECONDS_PER_DAY;
    }
    var dateStr := GetDuckDBDateStringFromDays(days);
    r := dateStr + (" " + TimeStringFromMicrosecondsInDay(microsecondsPart));
  }

  function TimestampStringFromSeconds(seconds: int): string {
    TimestampStringFromMicroseconds(seconds * MICROSECONDS_PER_SECOND)
  }

  function TimestampStringFromMilliseconds(milliseconds: int): string {
    TimestampStringFromMicroseconds(milliseconds * 1000)
  }

  function TimestampStringFromNanoseconds(nanoseconds: int): string {
    TimestampStringFromMicroseconds(TruncDiv(nanoseconds, 1000))
  }

  /** The part after the last space starts at the same place in equal strings. */
  lemma SameAfterLastSpace(x: string, y: string, r: string, t: string)
    requires ' ' !in r && ' ' !in t && x + (" " + r) == y + (" " + t)
    ensures x == y && r == t
  {
    ConcatAt(x, " " + r, |x|);
    ConcatAt(y, " " + t, |x|);
    ConcatAt(x, " " + r, |y|);
    ConcatAt(y, " " + t, |y|);
    assert |x| == |y|;
    SameParts(x, y, " " + r, " " + t);
    SameParts(" ", " ", r, t);
  }

  lemma NoSpace(t: nat)
    ensures ' ' !in TimeStringFromPositiveMicroseconds(t)
  {
    hide Padded, TrimZeros;
    var u := t % MICROSECONDS_PER_SECOND;
    var s := t / MICROSECONDS_PER_SECOND;
    AboutPadded(s / 60 / 60, 2);
    AboutPadded(s / 60 % 60, 2);
    AboutPadded(s % 60, 2);
    AboutPadded(u, 6);
    var f := TrimZeros(Padded(u, 6));
    TrimmedThenZeros(Padded(u, 6));
    assert f == Padded(u, 6)[..|f|];
    assert ' ' !in f;
  }

  lemma StartsWithDigit(days: int, rest: string)
    ensures DateStringFromDays(days) != [] && IsDigit((DateStringFromDays(days) + rest)[0])
  {
    hide Padded, SplitCivil;
    var y := SplitCivil(days).year;
    AboutPadded(if y < 0 then -(y - 1) else y, 4);
  }

  /** Different timestamps, infinities included, are printed differently. */
  lemma TimestampsDiffer(a: int, b: int)
    ensures TimestampStringFromMicroseconds(a) == TimestampStringFromMicroseconds(b) <==> a == b
  {
    hide DateStringFromDays, TimeStringFromPositiveMicroseconds, SplitMicroseconds;
    SplitIsFloor(a);
    SplitIsFloor(b);
    var (d, t) := SplitMicroseconds(a);
    var (d', t') := SplitMicroseconds(b);
    var r, r' := TimeStringFromPositiveMicroseconds(t), TimeStringFromPositiveMicroseconds(t');
    StartsWithDigit(d, " " + r);
    StartsWithDigit(d', " " + r');
    var finite := a != NEGATIVE_INFINITY_TIMESTAMP && a != POSITIVE_INFINITY_TIMESTAMP;
    var finite' := b != NEGATIVE_INFINITY_TIMESTAMP && b != POSITIVE_INFINITY_TIMESTAMP;
    if finite && finite' && DateStringFromDays(d) + (" " + r) == DateStringFromDays(d') + (" " + r') {
      NoSpace(t);
      NoSpace(t');
      SameAfterLastSpace(DateStringFromDays(d), DateStringFromDays(d'), r, r');
      DatesDiffer(d, d');
      TimeInjective(t, t');
    }
  }

  /** Timestamps in seconds and milliseconds lose nothing; those in nanoseconds lose what rounding towards zero drops. */
  lemma OtherUnits(a: int, b: int)
    ensures TimestampStringFromSeconds(a) == TimestampStringFromSeconds(b) <==> a == b
    ensures TimestampStringFromMilliseconds(a) == TimestampStringFromMilliseconds(b) <==> a == b
    ensures TimestampStringFromNanoseconds(a) == TimestampStringFromNanoseconds(b)
       <==> TruncDiv(a, 1000) == TruncDiv(b, 1000)
  {
    TimestampsDiffer(a * MICROSECONDS_PER_SECOND, b * MICROSECONDS_PER_SECOND);
    TimestampsDiffer(a * 1000, b * 1000);
    TimestampsDiffer(TruncDiv(a, 1000), TruncDiv(b, 1000));
  }

  // ----- timestamps with a time zone, whose offset in minutes is given

  function TimeZoneOffsetString(offsetInMinutes: int): string {
    var minutes := if offsetInMinutes < 0 then -offsetInMinutes else offsetInMinutes;
    (if offsetInMinutes < 0 then "-" else "+")
    + (Padded(minutes / 60, 2) + (if minutes % 60 != 0 then ":" + Padded(minutes % 60, 2) else []))
  }

  function ZonedTimestampString(microseconds: int, offsetInMinutes: int): string {
    if microseconds == NEGATIVE_INFINITY_TIMESTAMP then "-infinity"
    else if microseconds == POSITIVE_INFINITY_TIMESTAMP then "infinity"
    else
      var offsetMicroseconds := microseconds + offsetInMinutes * MICROSECONDS_PER_SECOND * 60;
      SplitIsFloor(offsetMicroseconds);
      var (days, part) := SplitMicroseconds(offsetMicroseconds);
      DateStringFromDays(days) + (" " + (TimeStringFromMicrosecondsInDay(part) + TimeZoneOffsetString(offsetInMinutes)))
  }

  predicate IsSign(c: char) {
    c == '+' || c == '-'
  }

  lemma OffsetInjective(o: int, o': int)
    ensures TimeZoneOffsetString(o) == TimeZoneOffsetString(o') <==> o == o'
  {
    hide Padded, AllDigits;
    var m, m' := if o < 0 then -o else o, if o' < 0 then -o' else o';
    AboutPadded(m / 60, 2);
    AboutPadded(m' / 60, 2);
    AboutPadded(m % 60, 2);
    AboutPadded(m' % 60, 2);
    if TimeZoneOffsetString(o) == TimeZoneOffsetString(o') {
      var h, h' := Padded(m / 60, 2), Padded(m' / 60, 2);
      var r, r' := if m % 60 != 0 then ":" + Padded(m % 60, 2) else [], if m' % 60 != 0 then ":" + Padded(m' % 60, 2) else [];
      SameParts(if o < 0 then "-" else "+", if o' < 0 then "-" else "+", h + r, h' + r');
      // a colon put after both leaves the digits apart
      assert (h + r) + ":" == h + (r + ":") && (h' + r') + ":" == h' + (r' + ":");
      SameDigits(h, h', r + ":", r' + ":");
      SameParts(":", ":", (r + ":")[1..], (r' + ":")[1..]);
      assert r == (r + ":")[..|r|] && r' == (r' + ":")[..|r'|];
      if r != [] { assert r[1..] == Padded(m % 60, 2) && r'[1..] == Padded(m' % 60, 2); }
    }
  }

  /** What comes before the sign of an offset holds no sign. */
  lemma SameBeforeSign(x: string, y: string, r: string, t: string)
    requires (forall i :: 0 <= i < |x| ==> !IsSign(x[i])) && forall i :: 0 <= i < |y| ==> !IsSign(y[i])
    requires r != [] && t != [] && IsSign(r[0]) && IsSign(t[0]) && x + r == y + t
    ensures x == y && r == t
  {
    ConcatAt(x, r, |x|);
    ConcatAt(y, t, |x|);
    ConcatAt(x, r, |y|);
    ConcatAt(y, t, |y|);
    assert |x| == |y|;
    SameParts(x, y, r, t);
  }

  lemma PlainTime(t: nat)
    ensures var s := TimeStringFromPositiveMicroseconds(t); forall i :: 0 <= i < |s| ==> !IsSign(s[i])
  {
    hide Padded, TrimZeros;
    var u := t % MICROSECONDS_PER_SECOND;
    var s := t / MICROSECONDS_PER_SECOND;
    AboutPadded(s / 60 / 60, 2);
    AboutPadded(s / 60 % 60, 2);
    AboutPadded(s % 60, 2);
    AboutPadded(u, 6);
    var f := TrimZeros(Padded(u, 6));
    TrimmedThenZeros(Padded(u, 6));
    assert f == Padded(u, 6)[..|f|];
  }

  lemma NoSpaceInOffset(o: int)
    ensures ' ' !in TimeZoneOffsetString(o)
  {
    hide Padded;
    var m := if o < 0 then -o else o;
    AboutPadded(m / 60, 2);
    AboutPadded(m % 60, 2);
  }

  /** Finite timestamps shown at some offset are the same text only for the same instant at the same offset. */
  lemma ZonedTimestampsDiffer(a: int, o: int, b: int, p: int)
    requires a !in {NEGATIVE_INFINITY_TIMESTAMP, POSITIVE_INFINITY_TIMESTAMP}
    requires b !in {NEGATIVE_INFINITY_TIMESTAMP, POSITIVE_INFINITY_TIMESTAMP}
    ensures ZonedTimestampString(a, o) == ZonedTimestampString(b, p) <==> a == b && o == p
  {
    hide DateStringFromDays, TimeStringFromPositiveMicroseconds, SplitMicroseconds, TimeZoneOffsetString;
    if ZonedTimestampString(a, o) == ZonedTimestampString(b, p) {
      var a', b' := a + o * MICROSECONDS_PER_SECOND * 60, b + p * MICROSECONDS_PER_SECOND * 60;
      SplitIsFloor(a');
      SplitIsFloor(b');
      var (d, t) := SplitMicroseconds(a');
      var (d', t') := SplitMicroseconds(b');
      var s, s' := TimeStringFromPositiveMicroseconds(t), TimeStringFromPositiveMicroseconds(t');
      NoSpace(t);
      NoSpace(t');
      NoSpaceInOffset(o);
      NoSpaceInOffset(p);
      SameAfterLastSpace(DateStringFromDays(d), DateStringFromDays(d'),
                         s + TimeZoneOffsetString(o), s' + TimeZoneOffsetString(p));
      DatesDiffer(d, d');
      PlainTime(t);
      PlainTime(t');
      StartsWithSign(o);
      StartsWithSign(p);
      SameBeforeSign(s, s', TimeZoneOffsetString(o), TimeZoneOffsetString(p));
      TimeInjective(t, t');
      OffsetInjective(o, p);
    }
  }

  lemma StartsWithSign(o: int)
    ensures TimeZoneOffsetString(o) != [] && IsSign(TimeZoneOffsetString(o)[0])
  {
  }
}
