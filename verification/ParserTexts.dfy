/** What the parser makes of strings that no printer writes: other white space, letters, numbers and names. */
module ParserTexts {
  import opened Wrappers
  import opened Decimals
  import opened TypeStrings
  import opened FieldSplitting
  import opened PrintedTypes
  import opened TypeStringRoundTrip
  import opened RecordKeys
  import opened WordFields

  // ----- simple types

  /** A string is parsed as a simple type exactly when it is one of these names, and then as that one. */
  lemma {:induction false} SimpleTypes(s: string, name: string)
    ensures Parse(s) == Success(Simple(name)) <==> s == name && name in {
              "BIGINT", "BIGNUM", "BIT", "BOOLEAN", "BLOB", "BOX_2D", "BOX_2DF", "DATE", "DOUBLE", "FLOAT", "GEOMETRY",
              "HUGEINT", "INET", "INTEGER", "INTERVAL", "JSON", "LINESTRING_2D", "POINT_2D", "POINT_3D", "POINT_4D",
              "POLYGON_2D", "SMALLINT", "SQLNULL", "TIME", "TIME WITH TIME ZONE", "TIMESTAMP",
              "TIMESTAMP WITH TIME ZONE", "TIMESTAMP_S", "TIMESTAMP_MS", "TIMESTAMP_NS", "TINYINT", "UBIGINT",
              "UHUGEINT", "UINTEGER", "USMALLINT", "UTINYINT", "UUID", "VARCHAR", "WKB_BLOB"}
  {
    hide EndsWith, ArraySuffix, DecimalParts, EnumText, Trim, StructLike, Split, SIMPLE_NAMES;
    SimpleNamesAre();
    OthersNotSimple(s);
  }

  lemma {:induction false} SimpleNamesAre()
    ensures SIMPLE_NAMES == {
              "BIGINT", "BIGNUM", "BIT", "BOOLEAN", "BLOB", "BOX_2D", "BOX_2DF", "DATE", "DOUBLE", "FLOAT", "GEOMETRY",
              "HUGEINT", "INET", "INTEGER", "INTERVAL", "JSON", "LINESTRING_2D", "POINT_2D", "POINT_3D", "POINT_4D",
              "POLYGON_2D", "SMALLINT", "SQLNULL", "TIME", "TIME WITH TIME ZONE", "TIMESTAMP",
              "TIMESTAMP WITH TIME ZONE", "TIMESTAMP_S", "TIMESTAMP_MS", "TIMESTAMP_NS", "TINYINT", "UBIGINT",
              "UHUGEINT", "UINTEGER", "USMALLINT", "UTINYINT", "UUID", "VARCHAR", "WKB_BLOB"}
  {}

  lemma {:induction false} OthersNotSimple(s: string)
    ensures s in SIMPLE_NAMES ==> Parse(s) == Success(Simple(s))
    ensures s !in SIMPLE_NAMES && Parse(s).Success? ==> !Parse(s).value.Simple?
  {
    hide EndsWith, ArraySuffix, DecimalParts, EnumText, Trim, StructLike, Split, SIMPLE_NAMES, Record, ParseAll;
  }

  /** The types of the round trip of printed types: all without enums and without double quotes in names. */
  lemma {:induction false} PrintableTypes(t: Type)
    ensures t.Simple? ==> (Printable(t) <==> Parse(t.name) == Success(t))
    ensures t.Decimal? ==> Printable(t)
    ensures t.Enum? ==> !Printable(t)
    ensures t.List? || t.Array? ==> (Printable(t) <==> Printable(t.element))
    ensures t.Struct? || t.Union? ==>
              (Printable(t) <==> forall e <- t.entries :: (forall c <- e.name :: c != '"') && Printable(e.ty))
    ensures t.Map? ==> (Printable(t) <==> Printable(t.key) && Printable(t.value))
  {
    hide Parse, SIMPLE_NAMES;
    if t.Simple? {
      OthersNotSimple(t.name);
      SimpleTypes(t.name, t.name);
      SimpleNamesAre();
    }
  }

  /** Two fields without quotes. */
  lemma {:induction false} PlainStruct()
    ensures Parse("STRUCT(a INTEGER, b VARCHAR)") ==
            Success(Struct([Entry("a", Simple("INTEGER")), Entry("b", Simple("VARCHAR"))]))
  {
    hide *;
    var entries := [Entry("a", Simple("INTEGER")), Entry("b", Simple("VARCHAR"))];
    PlainEntries();
    WordRoundTrip("STRUCT", entries);
    PlainStructText();
  }

  lemma {:induction false} PlainEntries()
    ensures var entries := [Entry("a", Simple("INTEGER")), Entry("b", Simple("VARCHAR"))];
            && IsFields("STRUCT") && WordEntries(entries) && KeptNames(entries) == entries && InKeyOrder(entries)
            && WithFields("STRUCT", entries) == Struct(entries)
            && forall i :: 0 <= i < |entries| ==> ReadsBack(entries[i].ty)
  {
    hide SIMPLE_NAMES, IsIndex, Value;
    TwoNames();
    assert !IsIndex("b") by { LetterNoIndex(); }
  }

  lemma {:induction false} TwoNames()
    ensures "INTEGER" in SIMPLE_NAMES && "VARCHAR" in SIMPLE_NAMES
  {
    assert "INTEGER" in NUMBER_NAMES && "VARCHAR" in OTHER_NAMES;
  }

  lemma {:induction false} LetterNoIndex()
    ensures !IsIndex("b")
  {
    IndexKeys("b");
  }

  lemma {:induction false} PlainStructText()
    ensures WordText("STRUCT", [Entry("a", Simple("INTEGER")), Entry("b", Simple("VARCHAR"))])
         == "STRUCT(a INTEGER, b VARCHAR)"
  {}

  // ----- printed names and types

  /** Of the double quotes in a name only the first is doubled. */
  lemma {:induction false} FirstQuoteDoubled(before: string, after: string)
    requires '"' !in before
    ensures QuotedIdentifier(before + "\"" + after) == "\"" + before + "\"\"" + after + "\""
    ensures QuotedIdentifier(before) == "\"" + before + "\""
  {
    var name := before + "\"" + after;
    FirstQuoteAt(before, after);
    NoQuoteAt(before);
    assert name[..|before|] == before && name[|before| + 1..] == after;
  }

  lemma {:induction false} FirstQuoteAt(before: string, after: string)
    requires '"' !in before
    ensures IndexOfQuote(before + "\"" + after) == |before|
  {
    if before != [] {
      FirstQuoteAt(before[1..], after);
      assert (before + "\"" + after)[1..] == before[1..] + "\"" + after;
    }
  }

  /** Types as they are printed, around the names and the texts of the types in them. */
  lemma {:induction false} PrintedKinds(a: Entry, b: Entry)
    ensures var x, y := QuotedIdentifier(a.name) + " " + Print(a.ty), QuotedIdentifier(b.name) + " " + Print(b.ty);
            && Print(Struct([a, b])) == "STRUCT(" + (x + ", " + y) + ")" && Print(Struct([a])) == "STRUCT(" + x + ")"
            && Print(Union([a, b])) == "UNION(" + (x + ", " + y) + ")" && Print(Union([a])) == "UNION(" + x + ")"
    ensures Print(Map(a.ty, b.ty)) == "MAP(" + (Print(a.ty) + ", " + Print(b.ty)) + ")"
    ensures Print(List(a.ty)) == Print(a.ty) + "[]" && Print(Array(a.ty, 3)) == Print(a.ty) + "[3]"
    ensures Print(Decimal(9, 3)) == "DECIMAL(9,3)" && Print(Enum("'a', 'b'")) == "ENUM('a', 'b')"
  {
    hide QuotedIdentifier, Print, FieldTexts, Join;
    TwoFields(a, b);
    OneField(a);
    OneLevel(Struct([a, b]));
    OneLevel(Struct([a]));
    OneLevel(Union([a, b]));
    OneLevel(Union([a]));
    OneLevel(Map(a.ty, b.ty));
    JoinTwo(QuotedIdentifier(a.name) + " " + Print(a.ty), QuotedIdentifier(b.name) + " " + Print(b.ty));
    JoinTwo(Print(a.ty), Print(b.ty));
    PrintedPlain(a.ty);
  }

  lemma {:induction false} OneLevel(t: Type)
    ensures t.Struct? ==> Print(t) == "STRUCT(" + Join(FieldTexts(t.entries)) + ")"
    ensures t.Union? ==> Print(t) == "UNION(" + Join(FieldTexts(t.entries)) + ")"
    ensures t.Map? ==> Print(t) == "MAP(" + Join([Print(t.key), Print(t.value)]) + ")"
  {}

  lemma {:induction false} PrintedPlain(t: Type)
    ensures Print(List(t)) == Print(t) + "[]" && Print(Array(t, 3)) == Print(t) + "[3]"
    ensures Print(Decimal(9, 3)) == "DECIMAL(9,3)" && Print(Enum("'a', 'b'")) == "ENUM('a', 'b')"
  {
    assert Dec(9) == "9" && Dec(3) == "3";
    assert Print(t) + "[" + "3" + "]" == Print(t) + "[3]";
  }

  lemma {:induction false} OneField(a: Entry)
    ensures FieldTexts([a]) == [QuotedIdentifier(a.name) + " " + Print(a.ty)]
  {
    hide QuotedIdentifier, Print;
  }

  lemma {:induction false} TwoFields(a: Entry, b: Entry)
    ensures FieldTexts([a, b])
         == [QuotedIdentifier(a.name) + " " + Print(a.ty), QuotedIdentifier(b.name) + " " + Print(b.ty)]
  {
    hide QuotedIdentifier, Print;
  }

  lemma {:induction false} JoinTwo(a: string, b: string)
    ensures Join([a]) == a && Join([a, b]) == a + ", " + b
  {}

  // ----- numbers

  /** Any digits are a length, with leading zeros too. */
  lemma {:induction false} ArrayOfDigits(text: string, digits: string)
    requires digits != [] && forall i :: 0 <= i < |digits| ==> '0' <= digits[i] <= '9'
    ensures Value(digits) >= 0
    ensures Parse(text + ("[" + digits + "]"))
         == match Parse(text) case Failure(e) => Failure(e) case Success(t) => Success(Array(t, Value(digits)))
  {
    hide Value, NameText, SIMPLE_NAMES, EndsWith, ArraySuffix;
    var s := text + ("[" + digits + "]");
    DigitsValue(digits);
    DigitSuffix(text, digits);
    assert s[..|text|] == text && s[|text| + 1..|s| - 1] == digits;
    assert s[|s| - 1] == ']';
    NotSimple(s, ']');
  }

  lemma {:induction false} DigitsValue(digits: string)
    requires forall i :: 0 <= i < |digits| ==> '0' <= digits[i] <= '9'
    ensures Value(digits) >= 0
  {
    if digits != [] { DigitsValue(digits[..|digits| - 1]); }
  }

  lemma {:induction false} DigitSuffix(text: string, digits: string)
    requires digits != [] && forall i :: 0 <= i < |digits| ==> '0' <= digits[i] <= '9'
    ensures var s := text + ("[" + digits + "]"); !EndsWith(s, "[]") && ArraySuffix(s) == Some(|text|)
  {
    var s := text + ("[" + digits + "]");
    assert s == (text + "[") + digits + "]";
    assert s[|s| - 2] == digits[|digits| - 1] && s[|text|] == '[';
    DigitRunOver(text + "[", digits, "]");
  }

  /** Anything but digits between the last brackets is no length. */
  lemma {:induction false} NoLength(text: string, c: char, digits: string)
    requires !('0' <= c <= '9') && c != '['
    requires forall i :: 0 <= i < |digits| ==> '0' <= digits[i] <= '9'
    ensures ArraySuffix(text + ([c] + digits + "]")) == None
  {
    var s := text + ([c] + digits + "]");
    assert s == (text + [c]) + digits + "]" && s[|text|] == c;
    DigitRunOver(text + [c], digits, "]");
  }

  lemma {:induction false} DecimalOfDigits(width: string, scale: string)
    requires width != [] && forall i :: 0 <= i < |width| ==> '0' <= width[i] <= '9'
    requires scale != [] && forall i :: 0 <= i < |scale| ==> '0' <= scale[i] <= '9'
    ensures Value(width) >= 0 && Value(scale) >= 0
    ensures Parse("DECIMAL(" + width + "," + scale + ")") == Success(Decimal(Value(width), Value(scale)))
  {
    hide Value, SIMPLE_NAMES, NameText, EnumText, EndsWith, ArraySuffix, DecimalParts;
    var s := "DECIMAL(" + width + "," + scale + ")";
    DigitsValue(width);
    DigitsValue(scale);
    DecimalPartsOf(width, scale);
    DecimalText(width, scale);
  }

  lemma {:induction false} DecimalText(width: string, scale: string)
    ensures var s := "DECIMAL(" + width + "," + scale + ")";
            s !in SIMPLE_NAMES && !EndsWith(s, "[]") && ArraySuffix(s).None?
  {
    hide SIMPLE_NAMES, NameText, DigitRun;
    var s := "DECIMAL(" + width + "," + scale + ")";
    assert s[7] == '(' && s[|s| - 1] == ')';
    NotSimple(s, '(');
  }

  /** Without digits for the width or the scale there is no decimal. */
  lemma {:induction false} NoDecimal(width: string, scale: string, c: char)
    requires forall i :: 0 <= i < |width| ==> '0' <= width[i] <= '9'
    requires forall i :: 0 <= i < |scale| ==> '0' <= scale[i] <= '9'
    requires c != ',' && !('0' <= c <= '9')
    ensures DecimalParts("DECIMAL(" + width + "," + ")") == None
    ensures DecimalParts("DECIMAL(" + "," + scale + ")") == None
    ensures DecimalParts("DECIMAL(" + width + [c] + scale + ")") == None
  {
    hide DigitsEnd;
    NoScale(width);
    assert "DECIMAL(" + "," + scale + ")" == "DECIMAL(" + "" + ("," + scale + ")");
    DigitsEndOver("DECIMAL(", "", "," + scale + ")", 8);
    var s := "DECIMAL(" + width + [c] + scale + ")";
    assert s == "DECIMAL(" + width + ([c] + scale + ")") && s[8 + |width|] == c;
    DigitsEndOver("DECIMAL(", width, [c] + scale + ")", 8);
  }

  lemma {:induction false} NoScale(width: string)
    requires forall i :: 0 <= i < |width| ==> '0' <= width[i] <= '9'
    ensures DecimalParts("DECIMAL(" + width + "," + ")") == None
  {
    hide DigitsEnd;
    var s := "DECIMAL(" + width + "," + ")";
    assert s == "DECIMAL(" + width + ("," + ")") && s[8 + |width|] == ',';
    DigitsEndOver("DECIMAL(", width, "," + ")", 8);
    var before := "DECIMAL(" + width + ",";
    assert s == before + "" + ")";
    DigitsEndOver(before, "", ")", |before|);
  }

  // ----- enums

  /** The word ENUM before the first parenthesis, in upper or lower case letters, makes an enum of any string. */
  lemma {:induction false} EnumAnywhere(before: string, e: char, n: char, u: char, m: char, body: string, after: string)
    requires '(' !in before && ')' !in body && (after != [] ==> after[|after| - 1] != ']')
    requires (e == 'E' || e == 'e') && (n == 'N' || n == 'n') && (u == 'U' || u == 'u') && (m == 'M' || m == 'm')
    ensures Parse(before + [e, n, u, m, '('] + body + ")" + after) == Success(Enum(body))
  {
    hide SIMPLE_NAMES, NameText, EnumText, DigitRun;
    var s, k := before + [e, n, u, m, '('] + body + ")" + after, |before|;
    assert s[k] == e && s[k + 1] == n && s[k + 2] == u && s[k + 3] == m && s[k + 4] == '(';
    NotSimple(s, '(');
    assert s[|s| - 1] != ']' by {
      assert s[|s| - 1] == if after == [] then ')' else after[|after| - 1];
    }
    assert k >= 8 ==> s[7] == before[7];
    NotDecimal(s, if k >= 8 then 7 else if k == 3 then 6 else if k < 3 then k + 4 else 7);
    EnumBody(before, [e, n, u, m, '('], body, ")" + after);
    assert s == before + [e, n, u, m, '('] + body + (")" + after);
  }

  lemma {:induction false} NotDecimal(s: string, i: nat)
    requires i < 8 && i < |s| && s[i] != "DECIMAL("[i]
    ensures DecimalParts(s).None?
  {}

  lemma {:induction false} FindEnumFirst(s: string, i: nat, k: nat)
    requires i <= k && EnumAt(s, k) && forall j :: i <= j < k ==> !EnumAt(s, j)
    ensures FindEnum(s, i) == Some(k)
    decreases k - i
  {
    hide EnumAt;
    assert k + 5 <= |s| by { EnumInside(s, k); }
    if i < k { FindEnumFirst(s, i + 1, k); }
  }

  lemma {:induction false} EnumInside(s: string, k: nat)
    requires EnumAt(s, k)
    ensures k + 5 <= |s|
  {}

  lemma {:induction false} EnumBody(before: string, word: string, body: string, after: string)
    requires '(' !in before && ')' !in body && |word| == 5 && EnumAt(word, 0) && after != [] && after[0] == ')'
    ensures EnumText(before + word + body + after) == Some(body)
  {
    var s, k := before + word + body + after, |before|;
    assert forall i :: 0 <= i < 5 ==> s[k + i] == word[i];
    assert EnumAt(s, k);
    forall j | 0 <= j < k
      ensures !EnumAt(s, j)
    {
      if j + 4 < k { assert s[j + 4] == before[j + 4]; } else if j + 4 < |s| { assert s[j + 4] == word[j + 4 - k]; }
    }
    FindEnumFirst(s, 0, k);
    assert s[k + 5..k + 5 + |body|] == body && s[k + 5 + |body|] == ')';
    assert forall j :: k + 5 <= j < k + 5 + |body| ==> s[j] == body[j - k - 5];
    assert FindChar(s, ')', k + 5) == k + 5 + |body|;
  }

  /** Without a closing parenthesis after the first opening one there is no enum. */
  lemma {:induction false} EnumUnclosed(before: string, body: string)
    requires '(' !in before && ')' !in body
    ensures EnumText(before + "(" + body) == None
  {
    var s, n := before + "(" + body, |before|;
    forall k | 0 <= k < |s|
      ensures (k < n ==> s[k] != '(') && (k > n ==> s[k] != ')')
    {
      assert s[k] == if k < n then before[k] else if k == n then '(' else body[k - n - 1];
    }
  }

  /** A name in quotes ends before the first line terminator. */
  lemma {:induction false} TerminatorInName(name: string, c: char, rest: string)
    requires '"' !in name && IsTerminator(c)
    ensures NamedField("\"" + name + [c] + rest) == None
  {
    NoClosingQuote(name, c, rest, 1);
  }

  lemma {:induction false} NoClosingQuote(name: string, c: char, rest: string, i: nat)
    requires '"' !in name && IsTerminator(c) && 1 <= i <= |name| + 1
    ensures ClosingQuote("\"" + name + [c] + rest, i) == None
    decreases |name| + 1 - i
  {
    var s := "\"" + name + [c] + rest;
    if i == |name| + 1 {
      assert s[i] == c;
    } else {
      assert s[i] == name[i - 1] && name[i - 1] in name;
      NoClosingQuote(name, c, rest, i + 1);
    }
  }

  // ----- white space

  /** White space and line terminators (sections 12.2 and 12.3 of ECMA-262). */
  lemma {:induction false} SpaceCharacters(c: char)
    ensures IsTerminator(c) <==> c as int in {10, 13, 8232, 8233}
    ensures IsSpace(c) <==> 8192 <= c as int <= 8202 ||
                            c as int in {9, 10, 11, 12, 13, 32, 160, 5760, 8232, 8233, 8239, 8287, 12288, 65279}
  {}

  predicate AllSpaces(s: string) {
    forall i :: 0 <= i < |s| ==> IsSpace(s[i])
  }

  lemma {:induction false} TrimStartOf(a: string, x: string)
    requires AllSpaces(a) && x != [] && !IsSpace(x[0])
    ensures TrimStart(a + x) == x
  {
    hide IsSpace;
    if a == [] {
      assert a + x == x;
    } else {
      assert (a + x)[1..] == a[1..] + x;
      TrimStartOf(a[1..], x);
    }
  }

  lemma {:induction false} TrimEndOf(x: string, c: string)
    requires AllSpaces(c) && x != [] && !IsSpace(x[|x| - 1])
    ensures TrimEnd(x + c) == x
    decreases |c|
  {
    hide IsSpace;
    if c == [] {
      assert x + c == x;
    } else {
      var s, d := x + c, c[..|c| - 1];
      assert s[..|s| - 1] == x + d && s[|s| - 1] == c[|c| - 1];
      TrimEndOf(x, d);
    }
  }

  lemma {:induction false} SpacesOver(before: string, b: string, after: string, i: nat)
    requires AllSpaces(b) && after != [] && !IsSpace(after[0]) && |before| <= i <= |before| + |b|
    ensures SpacesFrom(before + b + after, i) == |before| + |b|
    decreases |before| + |b| - i
  {
    hide IsSpace;
    var s := before + b + after;
    if i < |before| + |b| {
      assert s[i] == b[i - |before|];
      SpacesOver(before, b, after, i + 1);
    } else {
      assert s[i] == after[0];
    }
  }

  /** White space around a struct, map or union and before its parenthesis changes nothing. */
  lemma {:induction false} SpacesAround(a: string, keyword: string, b: string, inner: string, c: string)
    requires Keyword(keyword) && AllSpaces(a) && AllSpaces(b) && AllSpaces(c)
    requires !HasEnum(a + (keyword + b + ("(" + inner + ")")) + c) && !HasEnum(keyword + ("(" + inner + ")"))
    ensures var s := a + (keyword + b + ("(" + inner + ")")) + c;
            match Parse(keyword + ("(" + inner + ")"))
            case Failure(_) => Parse(s) == Failure("unimplemented type match: " + s)
                               || (NoTerminator(inner) && ParseAll(Split(inner), |inner|).Failure? && Parse(s).Failure?)
            case Success(t) => Parse(s) == Success(t)
  {
    hide ParseAll, Split, NoTerminator, StructMapOrUnion, SIMPLE_NAMES, EndsWith, ArraySuffix, DecimalParts, EnumText;
    hide HasEnum, Trim, StructLike, IsSpace;
    var x := keyword + b + ("(" + inner + ")");
    var s := a + x + c;
    ParseStructLike(keyword, inner);
    SpacedText(a, keyword, b, inner, c);
    SpacedStructLike(keyword, b, inner);
    SameKeyword(keyword, b + ("(" + inner + ")"), "(" + inner + ")");
    assert x == keyword + (b + ("(" + inner + ")"));
  }

  lemma {:induction false} SameKeyword(keyword: string, rest: string, other: string)
    requires Keyword(keyword)
    ensures forall fields :: StructMapOrUnion(keyword + rest, fields) == StructMapOrUnion(keyword + other, fields)
  {
    hide StructMapOrUnion;
    forall fields
      ensures StructMapOrUnion(keyword + rest, fields) == StructMapOrUnion(keyword + other, fields)
    {
      StructMapOrUnionIs(keyword, rest, fields);
      StructMapOrUnionIs(keyword, other, fields);
    }
  }

  lemma {:induction false} SpacedText(a: string, keyword: string, b: string, inner: string, c: string)
    requires Keyword(keyword) && AllSpaces(a) && AllSpaces(c)
    ensures var x := keyword + b + ("(" + inner + ")");
            var s := a + x + c;
            && s !in SIMPLE_NAMES && !EndsWith(s, "[]") && ArraySuffix(s).None? && DecimalParts(s).None?
            && (!HasEnum(s) ==> EnumText(s).None?) && Trim(s) == x
  {
    hide SIMPLE_NAMES, NameText, DigitRun, FindEnum, IsSpace, DigitsEnd, FindChar, TrimStart, TrimEnd;
    SpaceCharacters('S');
    SpaceCharacters('M');
    SpaceCharacters('U');
    SpaceCharacters(')');
    SpaceCharacters('D');
    SpaceCharacters(']');
    var x := keyword + b + ("(" + inner + ")");
    var s := a + x + c;
    assert x[|keyword| + |b|] == '(' && x[0] == keyword[0] && x[|x| - 1] == ')';
    assert s[|a| + |keyword| + |b|] == '(';
    NotSimple(s, '(');
    assert s[|s| - 1] != ']' by { assert s[|s| - 1] == if c == [] then ')' else c[|c| - 1]; }
    assert s[0] != 'D' by { assert s[0] == if a == [] then keyword[0] else a[0]; }
    assert a + (x + c) == s;
    TrimStartOf(a, x + c);
    TrimEndOf(x, c);
  }

  lemma {:induction false} SpacedStructLike(keyword: string, b: string, inner: string)
    requires Keyword(keyword) && AllSpaces(b)
    ensures StructLike(keyword + b + ("(" + inner + ")")) == if NoTerminator(inner) then Some(inner) else None
  {
    hide NoTerminator, IsSpace;
    var s := keyword + b + ("(" + inner + ")");
    assert s[|keyword| + |b|] == '(' && s[|s| - 1] == ')';
    assert KeywordLength(s) == |keyword| by {
      assert keyword <= s;
      if keyword == "MAP" { assert s[0] == 'M'; }
      if keyword == "UNION" { assert s[0] == 'U'; }
    }
    assert !IsSpace('(') by { SpaceCharacters('('); }
    SpacesOver(keyword, b, "(" + inner + ")", |keyword|);
    assert s[|keyword| + |b| + 1..|s| - 1] == inner;
  }

  // ----- fields

  function Later(start: Option<nat>): Option<nat> {
    match start case None => None case Some(i) => Some(i + 1)
  }

  /** One step of a scan. */
  lemma {:induction false} ScanNext(s: string, i: nat, start: Option<nat>, p: Pos)
    requires i < |s| && (start.Some? ==> start.value <= i)
    ensures var started := if start.None? && !CannotStart(s[i]) then Some(i) else start;
            Scan(s, i, start, p) ==
            if s[i] == ',' && p.depth == 0 && !p.quoted && started.Some?
            then [Trim(s[started.value..i])] + Scan(s, i + 1, None, p) else Scan(s, i + 1, started, Move(p, s[i]))
  {
    hide Trim, Move, CannotStart;
  }

  lemma {:induction false} ShiftedSlice(c: char, s: string, i: nat, j: nat)
    requires i <= j <= |s|
    ensures ([c] + s)[i + 1..j + 1] == s[i..j] && ([c] + s)[i + 1..] == s[i..]
    ensures j < |s| ==> ([c] + s)[j + 1] == s[j]
  {}

  lemma {:induction false} ScanShifted(c: char, s: string, i: nat, start: Option<nat>, p: Pos)
    requires i <= |s| && (start.Some? ==> start.value <= i)
    ensures Scan([c] + s, i + 1, Later(start), p) == Scan(s, i, start, p)
    decreases |s| - i
  {
    hide Trim, Move, CannotStart;
    var t := [c] + s;
    if i == |s| {
      if start.Some? { ShiftedSlice(c, s, start.value, i); }
      ScanNoMore(s, start, p);
      ScanNoMore(t, Later(start), p);
    } else {
      hide Scan;
      ShiftedSlice(c, s, i, i);
      ScanNext(s, i, start, p);
      ScanNext(t, i + 1, Later(start), p);
      var started := if start.None? && !CannotStart(s[i]) then Some(i) else start;
      if s[i] == ',' && p.depth == 0 && !p.quoted && started.Some? {
        ShiftedSlice(c, s, started.value, i);
        ScanShifted(c, s, i + 1, None, p);
      } else {
        ScanShifted(c, s, i + 1, started, Move(p, s[i]));
      }
    }
  }

  lemma {:induction false} ScanNoMore(s: string, start: Option<nat>, p: Pos)
    requires start.Some? ==> start.value <= |s|
    ensures Scan(s, |s|, start, p) == if start.Some? then [Trim(s[start.value..])] else []
  {
    hide Trim;
  }

  /**
   * No field starts with a comma or a parenthesis, though parentheses count. A comma with nothing before it is skipped, so
   * that no field is empty.
   */
  lemma {:induction false} SkippedStart(s: string)
    ensures Split("," + s) == Split(s)
    ensures Split("(" + s) == Scan(s, 0, None, Pos(1, false))
    ensures Split(")" + s) == Scan(s, 0, None, Pos(-1, false))
  {
    ScanShifted(',', s, 0, None, Pos(0, false));
    ScanShifted('(', s, 0, None, Pos(1, false));
    ScanShifted(')', s, 0, None, Pos(-1, false));
  }

  // ----- errors

  ghost predicate IsMismatch(error: string, length: nat) {
    exists x: string :: |x| <= length && error == "unimplemented type match: " + x
  }

  /** Every error names a text, no longer than the string, that none of the expressions matches. */
  lemma {:induction false} ErrorsNameText(s: string)
    ensures Parse(s).Failure? ==> IsMismatch(Parse(s).error, |s|)
    decreases |s|, 0
  {
    hide Parse, IsMismatch, ArraySuffix, StructLike, Trim, Split, ParseAll;
    Mismatch(s);
    ParseErrors(s);
    if |s| >= 2 {
      ErrorsNameText(s[..|s| - 2]);
      LongerMismatch(|s| - 2, |s|);
    }
    if ArraySuffix(s).Some? {
      ErrorsNameText(s[..ArraySuffix(s).value]);
      LongerMismatch(ArraySuffix(s).value, |s|);
    }
    var inner := StructLike(Trim(s));
    if inner.Some? {
      FieldErrors(Split(inner.value), |inner.value|);
      LongerMismatch(|inner.value|, |s|);
    }
  }

  /** An error of this level, of the element of a list or array, or of a field. */
  predicate ErrorFrom(s: string, error: string) {
    || error == "unimplemented type match: " + s
    || (|s| >= 2 && Parse(s[..|s| - 2]) == Failure(error))
    || (ArraySuffix(s).Some? && Parse(s[..ArraySuffix(s).value]) == Failure(error))
    || match StructLike(Trim(s))
       case None => false
       case Some(inner) => ParseAll(Split(inner), |inner|) == Failure(error)
  }

  lemma {:induction false} ParseErrors(s: string)
    ensures Parse(s).Failure? ==> ErrorFrom(s, Parse(s).error)
  {
    hide ArraySuffix, DecimalParts, EnumText, SIMPLE_NAMES, StructMapOrUnion, StructLike, Trim, Split, ParseAll;
  }

  lemma {:induction false} Mismatch(s: string)
    ensures IsMismatch(Unimplemented(s), |s|)
  {}

  lemma {:induction false} LongerMismatch(n: nat, m: nat)
    requires n <= m
    ensures forall error :: IsMismatch(error, n) ==> IsMismatch(error, m)
  {}

  lemma {:induction false} FieldErrors(texts: seq<string>, bound: nat)
    requires forall f <- texts :: |f| <= bound
    ensures ParseAll(texts, bound).Failure? ==> IsMismatch(ParseAll(texts, bound).error, bound)
    decreases bound, 2, |texts|
  {
    hide IsMismatch, NamedField, Parse;
    if texts != [] {
      FieldError(texts[0]);
      LongerMismatch(|texts[0]|, bound);
      FieldErrors(texts[1..], bound);
    }
  }

  lemma {:induction false} FieldError(s: string)
    ensures TypeStrings.ParseField(s).Failure? ==> IsMismatch(TypeStrings.ParseField(s).error, |s|)
    decreases |s|, 1
  {
    hide IsMismatch, Parse, NamedField;
    match NamedField(s)
    case Some(named) =>
      ErrorsNameText(named.1);
      LongerMismatch(|named.1|, |s|);
    case None => ErrorsNameText(s);
  }
}
