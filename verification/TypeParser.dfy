/** The loops of the type-string printer and parser, against the functions that say what they compute. */
module TypeParser {
  import opened Wrappers
  import opened TypeStrings

  /** `toString` of a type. */
  method ToString(t: Type) returns (s: string)
    ensures s == Print(t)
    decreases t, 0
  {
    match t
    case List(element) =>
      var text := ToString(element);
      s := text + "[]";
    case Array(element, length) =>
      var text := ToString(element);
      s := text + "[" + Decimals.Dec(length) + "]";
    case Struct(entries) =>
      var parts := FieldParts(entries);
      s := "STRUCT(" + Join(parts) + ")";
    case Union(entries) =>
      var parts := FieldParts(entries);
      s := "UNION(" + Join(parts) + ")";
    case Map(key, value) =>
      var keyText := ToString(key);
      var valueText := ToString(value);
      s := "MAP(" + Join([keyText, valueText]) + ")";
    case _ =>
      s := Print(t);
  }

  method FieldParts(entries: seq<Entry>) returns (parts: seq<string>)
    ensures parts == FieldTexts(entries)
    decreases entries, 1
  {
    hide Print, QuotedIdentifier;
    parts := [];
    for i := 0 to |entries|
      invariant |parts| == i && forall k :: 0 <= k < i ==> parts[k] == FieldTexts(entries)[k]
    {
      var text := ToString(entries[i].ty);
      parts := parts + [QuotedIdentifier(entries[i].name) + " " + text];
    }
  }

  method ParseLogicalTypeString(s: string) returns (r: Result<Type, string>)
    ensures r == Parse(s)
    decreases |s|, 1
  {
    if s in SIMPLE_NAMES {
      return Success(Simple(s));
    }
    if EndsWith(s, "[]") {
      var element := ParseLogicalTypeString(s[..|s| - 2]);
      if element.Failure? { return Failure(element.error); }
      return Success(List(element.value));
    }
    if ArraySuffix(s).Some? {
      var bracket := ArraySuffix(s).value;
      var element := ParseLogicalTypeString(s[..bracket]);
      if element.Failure? { return Failure(element.error); }
      return Success(Array(element.value, Number(s[bracket + 1..|s| - 1])));
    }
    if DecimalParts(s).Some? || EnumText(s).Some? {
      return Parse(s);
    }
    var found := MatchStructMapOrUnion(s);
    if found.Failure? { return Failure(found.error); }
    r := if found.value.Some? then Success(found.value.value) else Failure(Unimplemented(s));
  }

  /** The type, none if the string is not one of these, or the error of a field. */
  method MatchStructMapOrUnion(s: string) returns (r: Result<Option<Type>, string>)
    ensures var trimmed := Trim(s);
            match StructLike(trimmed)
            case None => r == Success(None)
            case Some(inner) =>
              match ParseAll(Split(inner), |inner|)
              case Failure(error) => r == Failure(error)
              case Success(fields) => r == Success(StructMapOrUnion(trimmed, fields))
    decreases |s|, 0
  {
    hide Parse, ParseAll, Trim, StructLike, Record, Split, KeywordLength;
    var typeString := Trim(s);
    var inner := StructLike(typeString);
    if inner.None? {
      return Success(None);
    }
    var parsed := ParseFields(inner.value);
    if parsed.Failure? { return Failure(parsed.error); }
    var fields := parsed.value;
    if "STRUCT" <= typeString {
      var entries := ToRecord(fields);
      return Success(Some(Struct(entries)));
    }
    if "MAP" <= typeString && |fields| >= 2 {
      return Success(Some(Map(fields[0].ty, fields[1].ty)));
    }
    if "UNION" <= typeString {
      var members := ToRecord(fields);
      return Success(Some(Union(members)));
    }
    r := Success(None);
  }

  method ToRecord(fields: seq<Field>) returns (entries: seq<Entry>)
    ensures entries == Record(fields)
  {
    entries := [];
    for i := 0 to |fields|
      invariant entries == Record(fields[..i])
    {
      assert fields[..i + 1][..i] == fields[..i];
      if fields[i].key.Some? {
        entries := Put(entries, fields[i].key.value, fields[i].ty);
      }
    }
    assert fields[..|fields|] == fields;
  }

  /** One pass that counts parentheses and quotes, and parses each field when it ends. */
  method ParseFields(fieldsString: string) returns (r: Result<seq<Field>, string>)
    ensures r == ParseAll(Split(fieldsString), |fieldsString|)
    decreases |fieldsString|, 3
  {
    hide Parse, TypeStrings.ParseField, ParseAll, Trim, CannotStart, Progress;
    var fields := [];
    ghost var texts: seq<string> := [];
    var currentFieldStartIndex: Option<nat> := None;
    var parenCount := 0;
    var quoteCount: nat := 0;
    var i := 0;
    NoProgress(fieldsString);
    while i < |fieldsString|
      invariant i <= |fieldsString| && (currentFieldStartIndex.Some? ==> currentFieldStartIndex.value <= i)
      invariant Progress(fieldsString, texts, fields, i, currentFieldStartIndex, parenCount, quoteCount)
      decreases |fieldsString| - i
    {
      var c := fieldsString[i];
      ScanStep(fieldsString, texts, fields, i, currentFieldStartIndex, parenCount, quoteCount);
      if currentFieldStartIndex.None? && !CannotStart(c) {
        currentFieldStartIndex := Some(i);
      }
      if c == '"' {
        quoteCount := quoteCount + 1;
      }
      if c == ',' && parenCount == 0 && quoteCount % 2 == 0 && currentFieldStartIndex.Some? {
        var text := Trim(fieldsString[currentFieldStartIndex.value..i]);
        var field := ParseField(text);
        if field.Failure? { return Failure(field.error); }
        texts := texts + [text];
        fields := fields + [field.value];
        currentFieldStartIndex := None;
      } else {
        if c == '(' && quoteCount % 2 == 0 { parenCount := parenCount + 1; }
        if c == ')' && quoteCount % 2 == 0 { parenCount := parenCount - 1; }
      }
      i := i + 1;
    }
    ScanEnd(fieldsString, texts, fields, currentFieldStartIndex, parenCount, quoteCount);
    if currentFieldStartIndex.Some? {
      var text := Trim(fieldsString[currentFieldStartIndex.value..]);
      var field := ParseField(text);
      if field.Failure? { return Failure(field.error); }
      fields := fields + [field.value];
    }
    r := Success(fields);
  }

  /** The fields so far, with the rest of the scan, are all the fields; and they are parsed. */
  ghost predicate Progress(s: string, texts: seq<string>, fields: seq<Field>, i: nat, start: Option<nat>, parens: int,
                           quotes: nat)
    requires i <= |s| && (start.Some? ==> start.value <= i)
  {
    && Split(s) == texts + Scan(s, i, start, Pos(parens, quotes % 2 == 1))
    && (forall f <- texts :: |f| <= |s|)
    && ParseAll(texts, |s|) == Success(fields)
  }

  lemma NoProgress(s: string)
    ensures Progress(s, [], [], 0, None, 0, 0)
  {}

  /** One character of a scan: a comma that ends a field, or a step of the counts. */
  lemma ScanStep(s: string, texts: seq<string>, fields: seq<Field>, i: nat, start: Option<nat>, parens: int, quotes: nat)
    requires i < |s| && (start.Some? ==> start.value <= i) && Progress(s, texts, fields, i, start, parens, quotes)
    ensures var c := s[i];
            var started := if start.None? && !CannotStart(c) then Some(i) else start;
            var quotes' := if c == '"' then quotes + 1 else quotes;
            var parens' := if quotes' % 2 == 0 && c == '(' then parens + 1
                           else if quotes' % 2 == 0 && c == ')' then parens - 1 else parens;
            if c == ',' && parens == 0 && quotes' % 2 == 0 && started.Some? then
              var text := Trim(s[started.value..i]);
              match TypeStrings.ParseField(text)
              case Failure(error) => ParseAll(Split(s), |s|) == Failure(error)
              case Success(field) => Progress(s, texts + [text], fields + [field], i + 1, None, parens, quotes')
            else Progress(s, texts, fields, i + 1, started, parens', quotes')
  {
    hide Trim, Parse, TypeStrings.ParseField, ParseAll, Split, Scan, CannotStart;
    ScanOne(s, i, start, parens, quotes);
    var started := if start.None? && !CannotStart(s[i]) then Some(i) else start;
    if s[i] == ',' && parens == 0 && quotes % 2 == 0 && started.Some? {
      FieldEnds(Split(s), texts, Trim(s[started.value..i]), Scan(s, i + 1, None, Pos(parens, false)), fields, |s|);
    }
  }

  /** The same of the scan alone, with a count of quotes for their parity. */
  lemma ScanOne(s: string, i: nat, start: Option<nat>, parens: int, quotes: nat)
    requires i < |s| && (start.Some? ==> start.value <= i)
    ensures var c := s[i];
            var started := if start.None? && !CannotStart(c) then Some(i) else start;
            var quotes' := if c == '"' then quotes + 1 else quotes;
            var parens' := if quotes' % 2 == 0 && c == '(' then parens + 1
                           else if quotes' % 2 == 0 && c == ')' then parens - 1 else parens;
            Scan(s, i, start, Pos(parens, quotes % 2 == 1)) == (
              if c == ',' && parens == 0 && quotes' % 2 == 0 && started.Some?
              then [Trim(s[started.value..i])] + Scan(s, i + 1, None, Pos(parens, false))
              else Scan(s, i + 1, started, Pos(parens', quotes' % 2 == 1)))
  {
    hide Trim;
  }

  lemma ScanEnd(s: string, texts: seq<string>, fields: seq<Field>, start: Option<nat>, parens: int, quotes: nat)
    requires (start.Some? ==> start.value <= |s|) && Progress(s, texts, fields, |s|, start, parens, quotes)
    ensures if start.None? then ParseAll(Split(s), |s|) == Success(fields)
            else match TypeStrings.ParseField(Trim(s[start.value..]))
                 case Failure(error) => ParseAll(Split(s), |s|) == Failure(error)
                 case Success(field) => ParseAll(Split(s), |s|) == Success(fields + [field])
  {
    hide Trim, Parse, TypeStrings.ParseField, ParseAll, Split;
    assert texts + [] == texts;
    if start.Some? { FieldEnds(Split(s), texts, Trim(s[start.value..]), [], fields, |s|); }
  }

  /** One more field in a scan: an error in it is the result, and otherwise the field is appended. */
  lemma FieldEnds(all: seq<string>, texts: seq<string>, text: string, more: seq<string>, fields: seq<Field>, bound: nat)
    requires all == texts + ([text] + more) && forall f <- all :: |f| <= bound
    requires (forall f <- texts :: |f| <= bound) && ParseAll(texts, bound) == Success(fields)
    requires forall f <- texts + [text] :: |f| <= bound
    ensures match TypeStrings.ParseField(text)
            case Failure(error) => ParseAll(all, bound) == Failure(error)
            case Success(field) => ParseAll(texts + [text], bound) == Success(fields + [field])
    ensures all == (texts + [text]) + more && (more == [] ==> all == texts + [text])
  {
    hide Parse, TypeStrings.ParseField, ParseAll;
    assert all == (texts + [text]) + more;
    assert forall f <- [text] + more :: f in all;
    assert text in texts + [text];
    FirstOfAll(text, more, bound);
    FirstOfAll(text, [], bound);
    assert [text] + [] == [text];
    ParseAllAppend(all, texts, [text] + more, fields, bound);
    ParseAllAppend(texts + [text], texts, [text], fields, bound);
  }

  lemma FirstOfAll(text: string, more: seq<string>, bound: nat)
    requires forall f <- [text] + more :: |f| <= bound
    ensures TypeStrings.ParseField(text).Failure? ==>
              ParseAll([text] + more, bound) == Failure(TypeStrings.ParseField(text).error)
    ensures TypeStrings.ParseField(text).Success? && more == [] ==>
              ParseAll([text] + more, bound) == Success([TypeStrings.ParseField(text).value])
  {
    hide Parse, TypeStrings.ParseField;
    assert ([text] + more)[0] == text && ([text] + more)[1..] == more;
    if TypeStrings.ParseField(text).Success? && more == [] {
      var field := TypeStrings.ParseField(text).value;
      assert ParseAll(more, bound) == Success([]) && [field] + [] == [field];
    }
  }

  lemma {:induction false} ParseAllAppend(all: seq<string>, texts: seq<string>, more: seq<string>, fields: seq<Field>,
                                          bound: nat)
    requires all == texts + more && forall f <- all :: |f| <= bound
    requires (forall f <- texts :: |f| <= bound) && ParseAll(texts, bound) == Success(fields)
    requires forall f <- more :: |f| <= bound
    ensures ParseAll(all, bound) == match ParseAll(more, bound)
                                    case Failure(error) => Failure(error)
                                    case Success(rest) => Success(fields + rest)
    decreases |texts|
  {
    hide Parse, TypeStrings.ParseField;
    if texts == [] {
      assert all == more;
      assert forall rest: seq<Field> :: fields + rest == rest;
    } else {
      assert all[1..] == texts[1..] + more;
      ParseAllAppend(all[1..], texts[1..], more, fields[1..], bound);
      assert forall rest :: [fields[0]] + (fields[1..] + rest) == fields + rest;
    }
  }

  method ParseField(s: string) returns (r: Result<Field, string>)
    ensures r == TypeStrings.ParseField(s)
    decreases |s|, 2
  {
    var named := NamedField(s);
    if named.Some? {
      var ty := ParseLogicalTypeString(named.value.1);
      if ty.Failure? { return Failure(ty.error); }
      return Success(Field(Some(named.value.0), ty.value));
    }
    var ty := ParseLogicalTypeString(s);
    if ty.Failure? { return Failure(ty.error); }
    r := Success(Field(None, ty.value));
  }
}
