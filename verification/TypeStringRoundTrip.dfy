/** Reading printed types back: exactly when the parser gives the type that was printed. */
module TypeStringRoundTrip {
  import opened Wrappers
  import opened Decimals
  import opened TypeStrings
  import opened FieldSplitting
  import opened PrintedTypes

  // ----- one level of a printed type

  lemma ParseSimple(n: string)
    requires n in SIMPLE_NAMES
    ensures Parse(n) == Success(Simple(n))
  {}

  lemma NotSimple(s: string, c: char)
    requires c in s && !IsNameChar(c)
    ensures s !in SIMPLE_NAMES
  {
    if s in SIMPLE_NAMES { SimpleNameText(s); }
  }

  lemma ParseList(text: string)
    ensures Parse(text + "[]") == match Parse(text) case Failure(e) => Failure(e) case Success(t) => Success(List(t))
  {
    var s := text + "[]";
    assert s[|s| - 1] == ']';
    NotSimple(s, ']');
    assert s[..|s| - 2] == text;
  }

  lemma {:induction false} DigitRunOver(before: string, digits: string, after: string)
    requires AllDigits(digits) && (before != [] ==> !IsDigit(before[|before| - 1]))
    ensures DigitRun(before + digits + after, |before| + |digits|) == |before|
    decreases |digits|
  {
    var s := before + digits + after;
    if digits != [] {
      var n := |digits| - 1;
      assert s[|before| + n] == digits[n];
      assert s == before + digits[..n] + ([digits[n]] + after);
      DigitRunOver(before, digits[..n], [digits[n]] + after);
    }
  }

  lemma ArrayText(text: string, length: nat)
    ensures var s := text + ("[" + Dec(length) + "]");
            && !EndsWith(s, "[]") && ArraySuffix(s) == Some(|text|) && s !in SIMPLE_NAMES
            && s[..|text|] == text && s[|text| + 1..|s| - 1] == Dec(length)
  {
    hide Dec, Value, NameText, SIMPLE_NAMES;
    var s, digits := text + ("[" + Dec(length) + "]"), Dec(length);
    ValueOfDec(length);
    assert s == (text + "[") + digits + "]";
    assert s[|s| - 1] == ']';
    NotSimple(s, ']');
    assert s[|s| - 2] == digits[|digits| - 1];
    DigitRunOver(text + "[", digits, "]");
    assert s[|text|] == '[';
  }

  lemma ParseArray(text: string, length: nat)
    ensures Parse(text + ("[" + Dec(length) + "]"))
         == match Parse(text) case Failure(e) => Failure(e) case Success(t) => Success(Array(t, length))
  {
    hide Dec, Value, ArraySuffix, EndsWith, SIMPLE_NAMES;
    ArrayText(text, length);
    ValueOfDec(length);
  }

  lemma {:induction false} DigitsEndOver(before: string, digits: string, after: string, i: nat)
    requires AllDigits(digits) && (after != [] ==> !IsDigit(after[0])) && |before| <= i <= |before| + |digits|
    ensures DigitsEnd(before + digits + after, i) == |before| + |digits|
    decreases |before| + |digits| - i
  {
    var s := before + digits + after;
    if i < |before| + |digits| {
      assert s[i] == digits[i - |before|];
      DigitsEndOver(before, digits, after, i + 1);
    }
  }

  lemma DecimalEnds(w: string, d: string)
    requires AllDigits(w) && AllDigits(d) && w != [] && d != []
    ensures var s := "DECIMAL(" + w + "," + d + ")";
            && "DECIMAL(" <= s && DigitsEnd(s, 8) == 8 + |w| && DigitsEnd(s, 9 + |w|) == 9 + |w| + |d| == |s| - 1
            && s[8 + |w|] == ',' && s[|s| - 1] == ')' && s[8..8 + |w|] == w && s[9 + |w|..|s| - 1] == d
  {
    var s := "DECIMAL(" + w + "," + d + ")";
    assert s == "DECIMAL(" + w + ("," + d + ")");
    DigitsEndOver("DECIMAL(", w, "," + d + ")", 8);
    var before := "DECIMAL(" + w + ",";
    assert s == before + d + ")" && |before| == 9 + |w|;
    DigitsEndOver(before, d, ")", |before|);
  }

  lemma {:induction false} DecimalPartsOf(w: string, d: string)
    requires AllDigits(w) && AllDigits(d) && w != [] && d != []
    ensures DecimalParts("DECIMAL(" + w + "," + d + ")") == Some((w, d))
  {
    hide DigitsEnd, AllDigits, IsDigit;
    DecimalEnds(w, d);
  }

  lemma DecimalPartsAre(width: nat, scale: nat)
    ensures DecimalParts("DECIMAL(" + Dec(width) + "," + Dec(scale) + ")") == Some((Dec(width), Dec(scale)))
  {
    hide Dec, Value, DecimalParts;
    ValueOfDec(width);
    ValueOfDec(scale);
    DecimalPartsOf(Dec(width), Dec(scale));
  }

  lemma ParseDecimal(width: nat, scale: nat)
    ensures Parse(Print(Decimal(width, scale))) == Success(Decimal(width, scale))
  {
    hide Dec, Value, DecimalParts, SIMPLE_NAMES, NameText, EnumText;
    var s := "DECIMAL(" + Dec(width) + "," + Dec(scale) + ")";
    DecimalPartsAre(width, scale);
    ValueOfDec(width);
    ValueOfDec(scale);
    assert s[7] == '(' && s[|s| - 1] == ')';
    NotSimple(s, '(');
    assert !EndsWith(s, "[]") && ArraySuffix(s).None?;
  }

  predicate Keyword(k: string) {
    k == "STRUCT" || k == "MAP" || k == "UNION"
  }

  /** A keyword with text in parentheses: an enum in it comes first, then a line terminator, then the fields. */
  lemma ParseStructLike(k: string, inner: string)
    requires Keyword(k)
    ensures var s := k + ("(" + inner + ")");
            && (HasEnum(s) ==> exists text :: Parse(s) == Success(Enum(text)))
            && (!HasEnum(s) && !NoTerminator(inner) ==> Parse(s).Failure?)
            && (!HasEnum(s) && NoTerminator(inner) ==>
                  match ParseAll(Split(inner), |inner|)
                  case Failure(_) => Parse(s).Failure?
                  case Success(fields) => match StructMapOrUnion(s, fields)
                                          case None => Parse(s).Failure?
                                          case Some(t) => Parse(s) == Success(t))
  {
    hide ParseAll, Split, NoTerminator, StructMapOrUnion, SIMPLE_NAMES, EndsWith, ArraySuffix, DecimalParts, EnumText;
    hide HasEnum, Trim, StructLike;
    var s := k + ("(" + inner + ")");
    StructLikeText(k, inner);
    if HasEnum(s) {
      assert Parse(s) == Success(Enum(EnumText(s).value));
    } else {
      StructLikeIs(k, inner);
    }
  }

  /** None of the other expressions matches, but for that of an enum. */
  lemma StructLikeText(k: string, inner: string)
    requires Keyword(k)
    ensures var s := k + ("(" + inner + ")");
            && s !in SIMPLE_NAMES && !EndsWith(s, "[]") && ArraySuffix(s).None? && DecimalParts(s).None?
            && (HasEnum(s) <==> EnumText(s).Some?) && Trim(s) == s
  {
    hide SIMPLE_NAMES, NameText;
    var s := k + ("(" + inner + ")");
    assert s[|k|] == '(' && s[|s| - 1] == ')';
    NotSimple(s, '(');
    assert DecimalParts(s).None? by { assert s[0] == k[0]; }
    assert HasEnum(s) <==> EnumText(s).Some?;
    TrimNothing(s);
  }

  lemma StructLikeIs(k: string, inner: string)
    requires Keyword(k)
    ensures StructLike(k + ("(" + inner + ")")) == if NoTerminator(inner) then Some(inner) else None
  {
    hide NoTerminator;
    var s := k + ("(" + inner + ")");
    InnerText(k, inner);
    assert KeywordLength(s) == |k| by {
      assert k <= s;
      if k == "MAP" { assert s[0] == 'M'; }
      if k == "UNION" { assert s[0] == 'U'; }
    }
  }

  lemma {:induction false} InnerText(k: string, inner: string)
    ensures var s := k + ("(" + inner + ")");
            s[|k|] == '(' && s[|s| - 1] == ')' && s[|k| + 1..|s| - 1] == inner
  {}

  // ----- named fields

  lemma {:induction false} ClosingQuoteAt(name: string, text: string, i: nat)
    requires '"' !in name && NoTerminator(name) && 1 <= i <= |name| + 1
    requires text != [] && !IsSpace(text[0]) && NoTerminator(text)
    ensures ClosingQuote("\"" + name + "\"" + (" " + text), i) == Some(|name| + 1)
    decreases |name| + 1 - i
  {
    hide NoTerminator;
    var s := "\"" + name + "\"" + (" " + text);
    if i == |name| + 1 {
      TextFollows(s, i + 1, text);
    } else {
      assert s[i] == name[i - 1] && name[i - 1] in name;
      assert !IsTerminator(s[i]) by { TerminatorIn(name, i - 1); }
      ClosingQuoteAt(name, text, i + 1);
    }
  }

  lemma TerminatorIn(s: string, i: nat)
    requires NoTerminator(s) && i < |s|
    ensures !IsTerminator(s[i])
  {
    assert s[i] in s;
  }

  lemma TextFollows(s: string, i: nat, text: string)
    requires i < |s| && s[i] == ' ' && s[i + 1..] == text && text != [] && !IsSpace(text[0]) && NoTerminator(text)
    ensures TypeFollows(s, i) && s[SpacesFrom(s, i)..] == text
  {}

  lemma ParseNamedField(name: string, text: string)
    requires '"' !in name && NoTerminator(name)
    requires Ends(text) && NoTerminator(text)
    ensures TypeStrings.ParseField("\"" + name + "\"" + (" " + text))
         == match Parse(text) case Failure(e) => Failure(e) case Success(t) => Success(Field(Some("\"" + name + "\""), t))
  {
    hide NoTerminator, Parse;
    var s := "\"" + name + "\"" + (" " + text);
    ClosingQuoteAt(name, text, 1);
    assert s[..|name| + 2] == "\"" + name + "\"";
    TextFollows(s, |name| + 2, text);
    TrimNothing(text);
    assert NamedField(s) == Some(("\"" + name + "\"", text));
  }

  // ----- arguments of a map

  /** Prints as a type with time zone, or as lists and arrays of one. */
  predicate Zoned(t: Type) {
    match t
    case Simple(name) => name == TIME_TZ || name == TIMESTAMP_TZ
    case List(element) => Zoned(element)
    case Array(element, _) => Zoned(element)
    case _ => false
  }

  lemma {:induction false} WordEndAt(s: string, i: nat, n: nat)
    requires i <= n <= |s| && (n < |s| ==> !IsWordChar(s[n])) && forall k :: i <= k < n ==> IsWordChar(s[k])
    ensures WordEnd(s, i) == n
    decreases n - i
  {
    if i < n { WordEndAt(s, i + 1, n); }
  }

  /** The first word of the text of a type, and what follows it. */
  predicate FirstWord(s: string, word: string) {
    && word <= s && word != [] && (forall c <- word :: IsWordChar(c))
    && (|word| < |s| ==> s[|word|] == '[' || s[|word|] == '(')
  }

  lemma {:induction false} FirstWordOf(t: Type) returns (word: string)
    requires Printable(t) && !Zoned(t)
    ensures FirstWord(Print(t), word)
    decreases t
  {
    hide Dec, Print, FirstWord, NameText, SIMPLE_NAMES, Printable;
    match t
    case Simple(name) =>
      word := name;
      SimpleWord(t);
    case Decimal(_, _) =>
      word := "DECIMAL";
      KeywordWord(t, word);
    case List(element) =>
      ElementPrintable(t);
      word := FirstWordOf(element);
      PrintList(t);
      WordBefore(Print(element), word, "[]");
    case Array(element, length) =>
      ElementPrintable(t);
      word := FirstWordOf(element);
      PrintList(t);
      WordBefore(Print(element), word, "[" + Dec(length) + "]");
    case Struct(_) =>
      word := "STRUCT";
      KeywordWord(t, word);
    case Union(_) =>
      word := "UNION";
      KeywordWord(t, word);
    case Map(_, _) =>
      word := "MAP";
      KeywordWord(t, word);
    case Enum(_) => ElementPrintable(t);
  }

  lemma ElementPrintable(t: Type)
    requires Printable(t)
    ensures t.List? || t.Array? ==> Printable(t.element)
    ensures !t.Enum?
  {}

  lemma SimpleWord(t: Type)
    requires Printable(t) && t.Simple? && !Zoned(t)
    ensures FirstWord(Print(t), t.name)
  {
    hide SIMPLE_NAMES;
    SimpleNameText(t.name);
  }

  lemma KeywordWord(t: Type, word: string)
    requires (t.Decimal? && word == "DECIMAL") || (t.Struct? && word == "STRUCT") || (t.Union? && word == "UNION")
             || (t.Map? && word == "MAP")
    ensures FirstWord(Print(t), word)
  {}

  lemma WordBefore(text: string, word: string, suffix: string)
    requires FirstWord(text, word) && suffix != [] && suffix[0] == '['
    ensures FirstWord(text + suffix, word)
  {}

  lemma ParseUnnamedField(t: Type)
    requires Printable(t) && !Zoned(t)
    ensures TypeStrings.ParseField(Print(t))
         == match Parse(Print(t)) case Failure(e) => Failure(e) case Success(r) => Success(Field(None, r))
  {
    hide Print, Parse, Printable, Zoned, NamedField, FirstWord;
    var word := FirstWordOf(t);
    WordOnly(Print(t), word);
  }

  /** A text that starts with a word and goes on with a bracket is not a named field. */
  lemma WordOnly(s: string, word: string)
    requires FirstWord(s, word)
    ensures NamedField(s) == None
  {
    assert s[0] == word[0] && word[0] in word;
    forall k | 0 <= k < |word|
      ensures IsWordChar(s[k])
    {
      assert s[k] == word[k] && word[k] in word;
    }
    WordEndAt(s, 0, |word|);
  }

  /** What is left of a zoned type when its first word is taken for a name. */
  function ZoneText(t: Type): string {
    match t
    case List(element) => ZoneText(element) + "[]"
    case Array(element, length) => ZoneText(element) + ("[" + Dec(length) + "]")
    case _ => "WITH TIME ZONE"
  }

  lemma ZoneUnknown()
    ensures Parse("WITH TIME ZONE").Failure?
  {
    hide SIMPLE_NAMES, IsSpace, HasEnum, EndsWith, ArraySuffix, DecimalParts;
    var s := "WITH TIME ZONE";
    ZoneNotSimple();
    ZoneHasNoSuffix();
    NoParenNoEnum(s);
    assert EnumText(s).None?;
    assert KeywordLength(s) == 0 by { assert s[0] == 'W'; }
    assert !IsSpace(s[0]) && !IsSpace(s[|s| - 1]) by { ZoneHasNoSuffix(); }
    TrimNothing(s);
  }

  lemma ZoneNotSimple()
    ensures "WITH TIME ZONE" !in SIMPLE_NAMES
  {
    if "WITH TIME ZONE" in SIMPLE_NAMES {
      SimpleNameText("WITH TIME ZONE");
    }
  }

  lemma ZoneHasNoSuffix()
    ensures var s := "WITH TIME ZONE";
            && !EndsWith(s, "[]") && ArraySuffix(s).None? && DecimalParts(s).None?
            && !IsSpace(s[0]) && !IsSpace(s[|s| - 1])
  {}

  lemma {:induction false} ZoneTextUnknown(t: Type)
    requires Zoned(t)
    ensures Parse(ZoneText(t)).Failure?
    decreases t
  {
    hide Parse, Dec;
    match t
    case List(element) =>
      ZoneTextUnknown(element);
      ParseList(ZoneText(element));
    case Array(element, length) =>
      ZoneTextUnknown(element);
      ParseArray(ZoneText(element), length);
    case _ => ZoneUnknown();
  }

  function ZoneWord(t: Type): string {
    match t
    case Simple(name) => if name == TIME_TZ then "TIME" else "TIMESTAMP"
    case List(element) => ZoneWord(element)
    case Array(element, _) => ZoneWord(element)
    case _ => ""
  }

  /** Text of a zoned type after its first word: no line terminators, and no white space at its ends. */
  predicate ZoneLike(text: string) {
    text != [] && text[0] == 'W' && NoTerminator(text) && !IsSpace(text[|text| - 1])
  }

  lemma {:induction false} ZonedPrint(t: Type)
    requires Zoned(t)
    ensures Print(t) == ZoneWord(t) + (" " + ZoneText(t)) && ZoneLike(ZoneText(t))
    ensures ZoneWord(t) == "TIME" || ZoneWord(t) == "TIMESTAMP"
    decreases t
  {
    hide Dec, Print, ZoneLike, NoTerminator;
    match t
    case List(element) =>
      ZonedPrint(element);
      Brackets(0);
      ZonedSuffix(element, "[]");
      PrintList(t);
    case Array(element, length) =>
      ZonedPrint(element);
      Brackets(length);
      ZonedSuffix(element, "[" + Dec(length) + "]");
      PrintList(t);
    case Simple(name) => ZonedSimple(t);
  }

  lemma ZonedSimple(t: Type)
    requires t.Simple? && Zoned(t)
    ensures Print(t) == ZoneWord(t) + (" " + ZoneText(t)) && ZoneLike(ZoneText(t))
    ensures ZoneWord(t) == "TIME" || ZoneWord(t) == "TIMESTAMP"
  {
    ZoneNames();
  }

  lemma {:induction false} ZoneNames()
    ensures TIME_TZ == "TIME" + (" " + "WITH TIME ZONE") && TIMESTAMP_TZ == "TIMESTAMP" + (" " + "WITH TIME ZONE")
  {}

  lemma ZonedSuffix(t: Type, suffix: string)
    requires Print(t) == ZoneWord(t) + (" " + ZoneText(t)) && ZoneLike(ZoneText(t))
    requires suffix != [] && suffix[|suffix| - 1] == ']' && NoTerminator(suffix)
    ensures Print(t) + suffix == ZoneWord(t) + (" " + (ZoneText(t) + suffix))
    ensures ZoneLike(ZoneText(t) + suffix)
  {
    hide Print, ZoneText, ZoneWord, NoTerminator;
    NoTerminatorConcat(ZoneText(t), suffix);
  }

  lemma {:induction false} ZonedNamed(word: string, text: string)
    requires (word == "TIME" || word == "TIMESTAMP") && ZoneLike(text)
    ensures NamedField(word + (" " + text)) == Some((word, text))
  {
    hide NoTerminator, WordEnd, SpacesFrom, TypeFollows, Trim;
    var s := word + (" " + text);
    assert s[|word|] == ' ' && s[|word| + 1..] == text && s[..|word|] == word;
    assert forall k :: 0 <= k < |word| ==> s[k] == word[k];
    WordEndAt(s, 0, |word|);
    TextFollows(s, |word|, text);
    TrimNothing(text);
  }

  lemma ParseZonedField(t: Type)
    requires Zoned(t)
    ensures TypeStrings.ParseField(Print(t)).Failure?
  {
    hide Print, Parse, ZoneText, ZoneLike, NamedField;
    ZonedPrint(t);
    ZoneTextUnknown(t);
    ZonedNamed(ZoneWord(t), ZoneText(t));
  }

  // ----- records of the fields

  predicate DistinctNames(entries: seq<Entry>) {
    forall i, j :: 0 <= i < j < |entries| ==> entries[i].name != entries[j].name
  }

  function Keyed(entries: seq<Entry>): seq<Field> {
    seq(|entries|, i requires 0 <= i < |entries| => Field(Some(entries[i].name), entries[i].ty))
  }

  predicate QuotedNames(entries: seq<Entry>) {
    forall e <- entries :: e.name != [] && e.name[0] == '"'
  }

  lemma {:induction false} InsertQuoted(entries: seq<Entry>, key: string, ty: Type)
    requires key != [] && key[0] == '"'
    ensures Insert(entries, key, ty) == entries + [Entry(key, ty)]
  {
    assert !IsArrayIndex(key) by { QuotedNoIndex(key, |key|); }
    if entries != [] { InsertQuoted(entries[1..], key, ty); }
  }

  lemma {:induction false} QuotedNoIndex(key: string, j: nat)
    requires key != [] && key[0] == '"' && 0 < j <= |key|
    ensures DigitRun(key, j) > 0
  {
    if IsDigit(key[j - 1]) && j > 1 { QuotedNoIndex(key, j - 1); }
  }

  /** A record of all the entries when their names are distinct, and otherwise of fewer. */
  predicate RecordFits(entries: seq<Entry>, record: seq<Entry>) {
    && |record| <= |entries|
    && (if DistinctNames(entries) then record == entries else |record| < |entries|)
    && forall e <- entries :: HasName(record, e.name)
  }

  /** Keys in quotes are kept in order; a repeated key is not added, so that entries are lost. */
  lemma {:induction false} RecordOf(entries: seq<Entry>)
    requires QuotedNames(entries)
    ensures RecordFits(entries, Record(Keyed(entries)))
  {
    hide RecordFits, Put, DistinctNames;
    if entries == [] {
      NoEntries();
    } else {
      var n := |entries| - 1;
      var last, before := entries[n], entries[..n];
      assert last in entries && forall e <- before :: e in entries;
      RecordOf(before);
      assert Keyed(entries)[..n] == Keyed(before);
      RecordStep(before, last, Record(Keyed(before)));
      assert entries == before + [last];
    }
  }

  lemma NoEntries()
    ensures RecordFits([], Record(Keyed([])))
  {}

  lemma PutNew(entries: seq<Entry>, key: string, ty: Type)
    requires key != [] && key[0] == '"' && !HasName(entries, key)
    ensures Put(entries, key, ty) == entries + [Entry(key, ty)]
  {
    InsertQuoted(entries, key, ty);
  }

  lemma PutOld(entries: seq<Entry>, key: string, ty: Type)
    requires HasName(entries, key)
    ensures |Put(entries, key, ty)| == |entries|
    ensures forall i :: 0 <= i < |entries| ==> Put(entries, key, ty)[i].name == entries[i].name
  {}

  lemma {:induction false} DistinctAppend(entries: seq<Entry>, last: Entry)
    ensures DistinctNames(entries + [last]) <==> DistinctNames(entries) && !HasName(entries, last.name)
  {
    var all := entries + [last];
    assert forall i :: 0 <= i < |entries| ==> all[i] == entries[i];
    if HasName(entries, last.name) {
      var i :| 0 <= i < |entries| && entries[i].name == last.name;
      assert all[i].name == all[|entries|].name;
    }
    if !DistinctNames(entries) {
      var i, j :| 0 <= i < j < |entries| && entries[i].name == entries[j].name;
      assert all[i].name == all[j].name;
    }
  }

  lemma RecordStep(before: seq<Entry>, last: Entry, record: seq<Entry>)
    requires RecordFits(before, record) && last.name != [] && last.name[0] == '"'
    ensures RecordFits(before + [last], Put(record, last.name, last.ty))
  {
    hide Put, DistinctNames;
    var after := Put(record, last.name, last.ty);
    DistinctAppend(before, last);
    if HasName(record, last.name) {
      PutOld(record, last.name, last.ty);
      assert forall name :: HasName(record, name) ==> HasName(after, name) by { SameNames(record, after); }
    } else {
      PutNew(record, last.name, last.ty);
      assert forall name :: HasName(record, name) || name == last.name ==> HasName(after, name) by {
        assert forall e <- record :: e in after;
        assert Entry(last.name, last.ty) in after;
      }
    }
    assert forall e <- before + [last] :: e in before || e == last;
  }

  lemma SameNames(entries: seq<Entry>, after: seq<Entry>)
    requires |after| == |entries| && forall i :: 0 <= i < |entries| ==> after[i].name == entries[i].name
    ensures forall name :: HasName(entries, name) ==> HasName(after, name)
  {}

  // ----- the theorem

  /** What a caller can check before printing: names, and the arguments of maps. */
  predicate ReadsBack(t: Type) {
    match t
    case List(element) => ReadsBack(element)
    case Array(element, _) => ReadsBack(element)
    case Struct(entries) => EntriesReadBack(entries)
    case Union(entries) => EntriesReadBack(entries)
    case Map(key, value) => !Zoned(key) && !Zoned(value) && ReadsBack(key) && ReadsBack(value)
    case _ => true
  }

  predicate EntriesReadBack(entries: seq<Entry>) {
    && DistinctNames(entries)
    && forall i :: 0 <= i < |entries| ==>
                     !HasEnum(entries[i].name) && NoTerminator(entries[i].name) && ReadsBack(entries[i].ty)
  }

  lemma {:induction false} ReadsBackClean(t: Type)
    requires ReadsBack(t)
    ensures !EnumInNames(t) && !TerminatorInNames(t)
    decreases t
  {
    hide HasEnum, NoTerminator;
    match t
    case List(element) => ReadsBackClean(element);
    case Array(element, _) => ReadsBackClean(element);
    case Struct(entries) => EntriesClean(entries);
    case Union(entries) => EntriesClean(entries);
    case Map(key, value) =>
      ReadsBackClean(key);
      ReadsBackClean(value);
    case _ =>
  }

  lemma {:induction false} EntriesClean(entries: seq<Entry>)
    requires EntriesReadBack(entries)
    ensures forall i :: 0 <= i < |entries| ==> !EnumInNames(entries[i].ty) && !TerminatorInNames(entries[i].ty)
    decreases entries
  {
    hide HasEnum, NoTerminator;
    forall i | 0 <= i < |entries|
      ensures !EnumInNames(entries[i].ty) && !TerminatorInNames(entries[i].ty)
    {
      ReadsBackClean(entries[i].ty);
    }
  }

  /** The printed type is parsed to itself, with its names in quotes. */
  predicate IsReadBack(t: Type) {
    Parse(Print(t)) == Success(Quoted(t))
  }

  lemma LeafReadsBack(t: Type)
    requires Printable(t) && (t.Simple? || t.Decimal?)
    ensures IsReadBack(t) && ReadsBack(t)
  {
    hide Parse;
    if t.Simple? { ParseSimple(t.name); } else { ParseDecimal(t.width, t.scale); }
  }

  lemma ListReadsBack(t: Type)
    requires t.List? || t.Array?
    requires IsReadBack(t.element) <==> ReadsBack(t.element)
    ensures IsReadBack(t) <==> ReadsBack(t)
  {
    hide Parse, Dec;
    PrintList(t);
    if t.List? { ParseList(Print(t.element)); } else { ParseArray(Print(t.element), t.length); }
  }

  predicate AllParse(entries: seq<Entry>) {
    forall i :: 0 <= i < |entries| ==> Parse(Print(entries[i].ty)).Success?
  }

  /** The entries with the types that the parser makes of their texts. */
  function Results(entries: seq<Entry>): seq<Entry>
    requires AllParse(entries)
  {
    seq(|entries|, i requires 0 <= i < |entries| =>
      Entry("\"" + entries[i].name + "\"", Parse(Print(entries[i].ty)).value))
  }

  predicate CleanEntries(entries: seq<Entry>) {
    && PrintableEntries(entries)
    && forall i :: 0 <= i < |entries| ==> NoTerminator(entries[i].name) && NoTerminator(Print(entries[i].ty))
  }

  lemma {:induction false} ParseFieldTexts(entries: seq<Entry>, bound: nat)
    requires CleanEntries(entries) && forall f <- FieldTexts(entries) :: |f| <= bound
    ensures if AllParse(entries) then ParseAll(FieldTexts(entries), bound) == Success(Keyed(Results(entries)))
            else ParseAll(FieldTexts(entries), bound).Failure?
  {
    hide *;
    if entries == [] {
      NoResults();
      NoTexts(bound);
    } else {
      FirstField(entries);
      ParseFieldTexts(entries[1..], bound);
      if AllParse(entries) { FirstResult(entries); }
      FirstParsed(FieldTexts(entries), bound);
    }
  }

  lemma NoTexts(bound: nat)
    ensures ParseAll([], bound) == Success([])
  {}

  lemma FirstParsed(texts: seq<string>, bound: nat)
    requires texts != [] && forall f <- texts :: |f| <= bound
    ensures match TypeStrings.ParseField(texts[0])
            case Failure(_) => ParseAll(texts, bound).Failure?
            case Success(first) =>
              match ParseAll(texts[1..], bound)
              case Failure(_) => ParseAll(texts, bound).Failure?
              case Success(rest) => ParseAll(texts, bound) == Success([first] + rest)
  {
    hide Parse, TypeStrings.ParseField;
  }

  lemma FirstField(entries: seq<Entry>)
    requires CleanEntries(entries) && entries != []
    ensures CleanEntries(entries[1..]) && FieldTexts(entries)[1..] == FieldTexts(entries[1..])
    ensures AllParse(entries) <==> Parse(Print(entries[0].ty)).Success? && AllParse(entries[1..])
    ensures TypeStrings.ParseField(FieldTexts(entries)[0])
         == match Parse(Print(entries[0].ty))
            case Failure(e) => Failure(e)
            case Success(t) => Success(Field(Some("\"" + entries[0].name + "\""), t))
  {
    hide Parse, TypeStrings.ParseField, Print, NoTerminator, QuotedIdentifier, Printable, Ends;
    FieldText(entries, 0);
    PrintEnds(entries[0].ty);
    ParseNamedField(entries[0].name, Print(entries[0].ty));
  }

  lemma NoResults()
    ensures AllParse([]) && Keyed(Results([])) == [] && FieldTexts([]) == []
  {}

  lemma FirstResult(entries: seq<Entry>)
    requires entries != [] && AllParse(entries)
    ensures AllParse(entries[1..])
    ensures Keyed(Results(entries))
         == [Field(Some("\"" + entries[0].name + "\""), Parse(Print(entries[0].ty)).value)] + Keyed(Results(entries[1..]))
  {
    hide Parse, Print;
  }

  lemma SplitFieldTexts(entries: seq<Entry>)
    requires PrintableEntries(entries)
    ensures Split(Join(FieldTexts(entries))) == FieldTexts(entries)
  {
    hide Split, Join, Print, Settled, QuotedIdentifier, Trim, Printable, Starts;
    var fields := FieldTexts(entries);
    EntriesSettled(entries, 0);
    forall i | 0 <= i < |entries|
      ensures Trim(fields[i]) == fields[i] && Starts(fields[i])
    {
      FieldTrimmed(entries, i);
    }
    SplitJoin(fields);
    assert Trimmed(fields) == fields;
  }

  lemma FieldTrimmed(entries: seq<Entry>, i: nat)
    requires PrintableEntries(entries) && i < |entries|
    ensures Trim(FieldTexts(entries)[i]) == FieldTexts(entries)[i] && Starts(FieldTexts(entries)[i])
  {
    hide *;
    FieldText(entries, i);
    EntryPrintable(entries, i);
    PrintEnds(entries[i].ty);
    QuotedTrimmed(entries[i].name, Print(entries[i].ty));
  }

  lemma EntryPrintable(entries: seq<Entry>, i: nat)
    requires PrintableEntries(entries) && i < |entries|
    ensures '"' !in entries[i].name && Printable(entries[i].ty)
  {}

  lemma QuotedTrimmed(name: string, text: string)
    requires Ends(text)
    ensures var f := "\"" + name + "\"" + (" " + text); Trim(f) == f && Starts(f)
  {}

  lemma StructMapOrUnionIs(k: string, rest: string, fields: seq<Field>)
    requires Keyword(k)
    ensures StructMapOrUnion(k + rest, fields)
         == if k == "STRUCT" then Some(Struct(Record(fields)))
            else if k == "UNION" then Some(Union(Record(fields)))
            else if |fields| >= 2 then Some(Map(fields[0].ty, fields[1].ty))
            else None
  {
    var s := k + rest;
    assert k <= s && s[0] == k[0];
  }

  lemma NamesInQuotes(entries: seq<Entry>)
    requires AllParse(entries)
    ensures QuotedNames(Results(entries))
    ensures DistinctNames(Results(entries)) <==> DistinctNames(entries)
  {
    hide Parse, Print;
    var results := Results(entries);
    forall i, j | 0 <= i < j < |entries| && results[i].name == results[j].name
      ensures entries[i].name == entries[j].name
    {
      assert results[i].name[1..|results[i].name| - 1] == entries[i].name;
      assert results[j].name[1..|results[j].name| - 1] == entries[j].name;
    }
  }

  lemma ResultsAreQuoted(entries: seq<Entry>)
    requires PrintableEntries(entries) && AllParse(entries)
    ensures Results(entries) == QuotedEntries(entries) <==> forall i :: 0 <= i < |entries| ==> IsReadBack(entries[i].ty)
  {
    hide Parse, Print, Quoted, QuotedIdentifier, Printable;
    forall i | 0 <= i < |entries|
      ensures Results(entries)[i] == QuotedEntries(entries)[i] <==> IsReadBack(entries[i].ty)
    {
      QuoteName(entries[i].name);
    }
  }

  /** The fields of a struct or union as a record, against its entries in quotes. */
  lemma RecordIsQuoted(entries: seq<Entry>)
    requires PrintableEntries(entries) && AllParse(entries)
    ensures Record(Keyed(Results(entries))) == QuotedEntries(entries)
       <==> DistinctNames(entries) && forall i :: 0 <= i < |entries| ==> IsReadBack(entries[i].ty)
  {
    hide Parse, Print, Quoted, Printable, Record, IsReadBack;
    NamesInQuotes(entries);
    RecordOf(Results(entries));
    ResultsAreQuoted(entries);
  }

  /** A struct or union whose fields have no enum and no line terminator in their text. */
  lemma FieldsParse(t: Type, k: string, entries: seq<Entry>)
    requires PrintableEntries(entries)
    requires (t == Struct(entries) && k == "STRUCT") || (t == Union(entries) && k == "UNION")
    requires !HasEnum(Print(t)) && NoTerminator(Print(t))
    ensures !AllParse(entries) ==> Parse(Print(t)).Failure?
    ensures AllParse(entries) ==>
              Parse(Print(t)) == Success(if t.Struct? then Struct(Record(Keyed(Results(entries))))
                                         else Union(Record(Keyed(Results(entries)))))
  {
    hide Parse, Print, HasEnum, NoTerminator, Split, ParseAll, Join, StructMapOrUnion, Record, Printable, Results,
         Keyed;
    hide AllParse, FieldTexts;
    var parts := FieldTexts(entries);
    var inner := Join(parts);
    PrintStructLike(t);
    ParseStructLike(k, inner);
    TerminatorKeyword(k, parts);
    NoTerminatorJoin(parts);
    assert CleanEntries(entries) by { CleanWhenPrinted(entries); }
    SplitFieldTexts(entries);
    ParseFieldTexts(entries, |inner|);
    if AllParse(entries) { StructMapOrUnionIs(k, "(" + inner + ")", Keyed(Results(entries))); }
  }

  /** An enum or a line terminator in the printed form: it is not read back. */
  lemma NotReadBack(t: Type, k: string, inner: string)
    requires (t.Struct? && k == "STRUCT") || (t.Union? && k == "UNION") || (t.Map? && k == "MAP")
    requires Print(t) == k + ("(" + inner + ")")
    requires HasEnum(Print(t)) || !NoTerminator(inner)
    ensures !IsReadBack(t)
  {
    hide Parse, Print, HasEnum, NoTerminator, Split, ParseAll;
    ParseStructLike(k, inner);
  }

  lemma FieldsReadBack(t: Type, k: string, entries: seq<Entry>)
    requires PrintableEntries(entries)
    requires (t == Struct(entries) && k == "STRUCT") || (t == Union(entries) && k == "UNION")
    requires forall i :: 0 <= i < |entries| ==> (IsReadBack(entries[i].ty) <==> ReadsBack(entries[i].ty))
    ensures IsReadBack(t) <==> ReadsBack(t)
  {
    hide *;
    FieldsPrintable(t, entries);
    PrintStructLike(t);
    TerminatorKeyword(k, FieldTexts(entries));
    NoTerminatorJoin(FieldTexts(entries));
    EnumPrinted(t);
    TerminatorPrinted(t);
    if HasEnum(Print(t)) || !NoTerminator(Print(t)) {
      NotReadBack(t, k, Join(FieldTexts(entries)));
      if ReadsBack(t) { ReadsBackClean(t); }
    } else {
      FieldsParse(t, k, entries);
      FieldsDecide(t, entries);
    }
  }

  lemma FieldsPrintable(t: Type, entries: seq<Entry>)
    requires PrintableEntries(entries) && (t == Struct(entries) || t == Union(entries))
    ensures Printable(t)
  {}

  lemma FieldsDecide(t: Type, entries: seq<Entry>)
    requires PrintableEntries(entries) && (t == Struct(entries) || t == Union(entries))
    requires forall i :: 0 <= i < |entries| ==> (IsReadBack(entries[i].ty) <==> ReadsBack(entries[i].ty))
    requires !EnumInNames(t) && !TerminatorInNames(t)
    requires !AllParse(entries) ==> Parse(Print(t)).Failure?
    requires AllParse(entries) ==>
               Parse(Print(t)) == Success(if t.Struct? then Struct(Record(Keyed(Results(entries))))
                                          else Union(Record(Keyed(Results(entries)))))
    ensures IsReadBack(t) <==> ReadsBack(t)
  {
    hide Parse, Print, HasEnum, NoTerminator, Record, Printable, Results, Keyed, DistinctNames;
    assert ReadsBack(t) <==> DistinctNames(entries) && forall i :: 0 <= i < |entries| ==> IsReadBack(entries[i].ty);
    if AllParse(entries) {
      RecordIsQuoted(entries);
    } else {
      var i :| 0 <= i < |entries| && Parse(Print(entries[i].ty)).Failure?;
      assert !IsReadBack(entries[i].ty);
    }
  }

  lemma CleanWhenPrinted(entries: seq<Entry>)
    requires PrintableEntries(entries) && forall i :: 0 <= i < |entries| ==> NoTerminator(FieldTexts(entries)[i])
    ensures CleanEntries(entries)
  {
    hide Print, NoTerminator, QuotedIdentifier, Printable;
    forall i | 0 <= i < |entries|
      ensures NoTerminator(entries[i].name) && NoTerminator(Print(entries[i].ty))
    {
      FieldText(entries, i);
      TerminatorField(entries[i].name, Print(entries[i].ty));
    }
  }

  lemma PrintTrimmed(t: Type)
    requires Printable(t)
    ensures Trim(Print(t)) == Print(t) && Starts(Print(t)) && Settled(Print(t), 0)
  {
    hide *;
    PrintSettled(t, 0);
    PrintEnds(t);
    EndsTrimmed(Print(t));
  }

  lemma EndsTrimmed(s: string)
    requires Ends(s)
    ensures Trim(s) == s && Starts(s)
  {
    TrimNothing(s);
  }

  lemma SplitArguments(key: Type, value: Type)
    requires Printable(key) && Printable(value)
    ensures Split(Join([Print(key), Print(value)])) == [Print(key), Print(value)]
  {
    hide Split, Join, Print, Settled, Trim, Printable, Starts;
    var parts := [Print(key), Print(value)];
    PrintTrimmed(key);
    PrintTrimmed(value);
    SplitJoin(parts);
    assert Trimmed(parts) == parts;
  }

  lemma ParseTwo(a: string, b: string, bound: nat)
    requires |a| <= bound && |b| <= bound
    ensures match TypeStrings.ParseField(a)
            case Failure(_) => ParseAll([a, b], bound).Failure?
            case Success(x) =>
              match TypeStrings.ParseField(b)
              case Failure(_) => ParseAll([a, b], bound).Failure?
              case Success(y) => ParseAll([a, b], bound) == Success([x, y])
  {
    hide TypeStrings.ParseField, Parse;
    assert [a, b][1..] == [b] && [b][1..] == [];
    assert ParseAll([], bound) == Success([]);
    if TypeStrings.ParseField(b).Success? {
      var y := TypeStrings.ParseField(b).value;
      assert [y] + [] == [y];
      assert ParseAll([b], bound) == Success([y]);
      if TypeStrings.ParseField(a).Success? {
        var x := TypeStrings.ParseField(a).value;
        assert [x] + [y] == [x, y];
      }
    }
  }

  lemma ArgumentsParsed(t: Type, bound: nat)
    requires t.Map? && Printable(t.key) && Printable(t.value)
    requires |Print(t.key)| <= bound && |Print(t.value)| <= bound
    ensures var r := ParseAll([Print(t.key), Print(t.value)], bound);
            if !Zoned(t.key) && !Zoned(t.value) && Parse(Print(t.key)).Success? && Parse(Print(t.value)).Success?
            then r == Success([Field(None, Parse(Print(t.key)).value), Field(None, Parse(Print(t.value)).value)])
            else r.Failure?
  {
    hide Parse, TypeStrings.ParseField, Print, ParseAll, Printable, Zoned;
    ParseTwo(Print(t.key), Print(t.value), bound);
    if Zoned(t.key) { ParseZonedField(t.key); } else { ParseUnnamedField(t.key); }
    if Zoned(t.value) { ParseZonedField(t.value); } else { ParseUnnamedField(t.value); }
  }

  /** A map without an enum and a line terminator in its text. */
  lemma MapParse(t: Type)
    requires t.Map? && Printable(t.key) && Printable(t.value)
    requires !HasEnum(Print(t)) && NoTerminator(Print(t))
    ensures if !Zoned(t.key) && !Zoned(t.value) && Parse(Print(t.key)).Success? && Parse(Print(t.value)).Success?
            then Parse(Print(t)) == Success(Map(Parse(Print(t.key)).value, Parse(Print(t.value)).value))
            else Parse(Print(t)).Failure?
  {
    hide Parse, Print, HasEnum, NoTerminator, Split, ParseAll, Join, StructMapOrUnion, Zoned, Printable;
    var parts := [Print(t.key), Print(t.value)];
    var inner := Join(parts);
    PrintStructLike(t);
    ParseStructLike("MAP", inner);
    TerminatorKeyword("MAP", parts);
    NoTerminatorJoin(parts);
    SplitArguments(t.key, t.value);
    assert forall f <- Split(inner) :: |f| <= |inner|;
    assert parts[0] in Split(inner) && parts[1] in Split(inner);
    ArgumentsParsed(t, |inner|);
    MapArguments(t, "(" + inner + ")");
  }

  lemma MapReadsBack(t: Type)
    requires t.Map? && Printable(t.key) && Printable(t.value)
    requires (IsReadBack(t.key) <==> ReadsBack(t.key)) && (IsReadBack(t.value) <==> ReadsBack(t.value))
    ensures IsReadBack(t) <==> ReadsBack(t)
  {
    hide Parse, Print, HasEnum, NoTerminator, Join, Zoned, Printable;
    var parts := [Print(t.key), Print(t.value)];
    PrintStructLike(t);
    TerminatorKeyword("MAP", parts);
    NoTerminatorJoin(parts);
    MapPrintable(t);
    EnumPrinted(t);
    TerminatorPrinted(t);
    if HasEnum(Print(t)) || !NoTerminator(Print(t)) {
      NotReadBack(t, "MAP", Join(parts));
      if ReadsBack(t) { ReadsBackClean(t); }
    } else {
      MapParse(t);
    }
  }

  lemma MapPrintable(t: Type)
    requires t.Map? && Printable(t.key) && Printable(t.value)
    ensures Printable(t)
  {}

  lemma MapArguments(t: Type, rest: string)
    ensures forall x, y :: StructMapOrUnion("MAP" + rest, [Field(None, x), Field(None, y)]) == Some(Map(x, y))
  {
    hide StructMapOrUnion;
    forall x, y
      ensures StructMapOrUnion("MAP" + rest, [Field(None, x), Field(None, y)]) == Some(Map(x, y))
    {
      StructMapOrUnionIs("MAP", rest, [Field(None, x), Field(None, y)]);
    }
  }

  /**
   * A printed type is read back exactly when its structs and unions have distinct names without line terminators and
   * without the text of an enum, and no argument of a map prints as a type with time zone.
   */
  lemma {:induction false} TypeStringRoundTrip(t: Type)
    requires Printable(t)
    ensures IsReadBack(t) <==> ReadsBack(t)
    decreases t
  {
    hide ReadsBack, IsReadBack;
    match t
    case Simple(_) => LeafReadsBack(t);
    case Decimal(_, _) => LeafReadsBack(t);
    case List(element) =>
      TypeStringRoundTrip(element);
      ListReadsBack(t);
    case Array(element, _) =>
      TypeStringRoundTrip(element);
      ListReadsBack(t);
    case Struct(entries) =>
      EntriesRoundTrip(entries);
      FieldsReadBack(t, "STRUCT", entries);
    case Union(entries) =>
      EntriesRoundTrip(entries);
      FieldsReadBack(t, "UNION", entries);
    case Map(key, value) =>
      TypeStringRoundTrip(key);
      TypeStringRoundTrip(value);
      MapReadsBack(t);
  }

  lemma {:induction false} EntriesRoundTrip(entries: seq<Entry>)
    requires PrintableEntries(entries)
    ensures forall i :: 0 <= i < |entries| ==> (IsReadBack(entries[i].ty) <==> ReadsBack(entries[i].ty))
    decreases entries
  {
    hide IsReadBack, ReadsBack;
    forall i | 0 <= i < |entries|
      ensures IsReadBack(entries[i].ty) <==> ReadsBack(entries[i].ty)
    {
      TypeStringRoundTrip(entries[i].ty);
    }
  }

  // ----- types outside the theorem or its condition

  /** A map from a time with time zone is not read back: its first argument is taken for a named field. */
  lemma ZonedKeyFails()
    ensures Print(Map(Simple(TIME_TZ), Simple("INTEGER"))) == "MAP(TIME WITH TIME ZONE, INTEGER)"
    ensures !IsReadBack(Map(Simple(TIME_TZ), Simple("INTEGER")))
  {
    hide *;
    ZonedKeyPrintable();
    TypeStringRoundTrip(Map(Simple(TIME_TZ), Simple("INTEGER")));
    ZonedKeyText();
  }

  lemma {:induction false} ZonedKeyText()
    ensures Print(Map(Simple(TIME_TZ), Simple("INTEGER"))) == "MAP(TIME WITH TIME ZONE, INTEGER)"
  {
    hide Join, Print;
    var t := Map(Simple(TIME_TZ), Simple("INTEGER"));
    PrintSimple(t.key);
    PrintSimple(t.value);
    PrintStructLike(t);
    ZonedJoin();
    ZonedParens();
  }

  lemma {:induction false} ZonedJoin()
    ensures Join([TIME_TZ, "INTEGER"]) == "TIME WITH TIME ZONE, INTEGER"
  {}

  lemma {:induction false} ZonedParens()
    ensures "MAP" + ("(" + "TIME WITH TIME ZONE, INTEGER" + ")") == "MAP(TIME WITH TIME ZONE, INTEGER)"
  {
    assert "(" + "TIME WITH TIME ZONE, INTEGER" + ")" == "(TIME WITH TIME ZONE, INTEGER)";
    assert "MAP" + "(TIME WITH TIME ZONE, INTEGER)" == "MAP(TIME WITH TIME ZONE, INTEGER)";
  }

  lemma ZonedKeyPrintable()
    ensures Printable(Map(Simple(TIME_TZ), Simple("INTEGER"))) && !ReadsBack(Map(Simple(TIME_TZ), Simple("INTEGER")))
  {
    assert TIME_TZ in TIME_NAMES && "INTEGER" in NUMBER_NAMES;
  }

  /** An enum on its own is read back exactly when no closing parenthesis is among its values. */
  lemma EnumReadsBack(text: string)
    ensures IsReadBack(Enum(text)) <==> ')' !in text
  {
    hide Parse, EnumText;
    EnumTextIs(text);
    FirstClosing(text);
  }

  lemma EnumTextIs(text: string)
    ensures var s := "ENUM(" + text + ")";
            Print(Enum(text)) == s && Parse(s) == Success(Enum(s[5..FindChar(s, ')', 5)])) && FindChar(s, ')', 5) < |s|
  {
    hide SIMPLE_NAMES, NameText, DigitRun;
    var s := "ENUM(" + text + ")";
    assert s[4] == '(' && s[|s| - 1] == ')';
    NotSimple(s, '(');
    assert DecimalParts(s).None? by { assert s[0] == 'E'; }
    assert EnumAt(s, 0);
    assert EnumText(s) == Some(s[5..FindChar(s, ')', 5)]);
  }

  lemma FirstClosing(text: string)
    ensures var s := "ENUM(" + text + ")";
            s[5..FindChar(s, ')', 5)] == text <==> ')' !in text
  {
    var s := "ENUM(" + text + ")";
    assert s[5..|s| - 1] == text && s[|s| - 1] == ')';
    if ')' in text {
      var i :| 0 <= i < |text| && text[i] == ')';
      assert s[5 + i] == ')';
    } else {
      assert forall k :: 5 <= k < |s| - 1 ==> s[k] == text[k - 5];
    }
  }

  /** A struct is never read back when one of its fields is an enum: the whole string is taken for the enum. */
  lemma NestedEnumLost(entries: seq<Entry>, i: nat)
    requires i < |entries| && entries[i].ty.Enum?
    ensures exists text :: Parse(Print(Struct(entries))) == Success(Enum(text))
  {
    hide Parse, Join, FieldTexts, HasEnum, NoTerminator, ParseAll, Split, StructMapOrUnion;
    var t, parts := Struct(entries), FieldTexts(entries);
    PrintStructLike(t);
    EnumFieldText(entries[i]);
    HasEnumJoin(parts);
    EnumKeyword("STRUCT", parts);
    ParseStructLike("STRUCT", Join(parts));
  }

  lemma EnumFieldText(e: Entry)
    requires e.ty.Enum?
    ensures HasEnum(QuotedIdentifier(e.name) + " " + Print(e.ty))
  {
    hide QuotedIdentifier;
    var before := QuotedIdentifier(e.name) + " ";
    var s := before + Print(e.ty);
    assert Print(e.ty) == "ENUM(" + e.ty.text + ")";
    assert forall k :: 0 <= k < 5 ==> s[|before| + k] == "ENUM("[k];
    assert EnumAt(s, |before|);
  }
}
