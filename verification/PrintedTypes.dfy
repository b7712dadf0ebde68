/** What printed types look like. */
module PrintedTypes {
  import opened Wrappers
  import opened Decimals
  import opened TypeStrings
  import opened FieldSplitting

  /** Types without enums, of the simple types that the parser knows, without double quotes in names. */
  predicate Printable(t: Type) {
    match t
    case Simple(name) => name in SIMPLE_NAMES
    case Decimal(_, _) => true
    case Enum(_) => false
    case List(element) => Printable(element)
    case Array(element, _) => Printable(element)
    case Struct(entries) => PrintableEntries(entries)
    case Union(entries) => PrintableEntries(entries)
    case Map(key, value) => Printable(key) && Printable(value)
  }

  predicate PrintableEntries(entries: seq<Entry>) {
    forall i :: 0 <= i < |entries| ==> '"' !in entries[i].name && Printable(entries[i].ty)
  }

  /** "ENUM(" occurs, in any case. */
  predicate HasEnum(s: string) {
    FindEnum(s, 0).Some?
  }

  predicate EnumInNames(t: Type) {
    match t
    case List(element) => EnumInNames(element)
    case Array(element, _) => EnumInNames(element)
    case Struct(entries) => exists i :: 0 <= i < |entries| && (HasEnum(entries[i].name) || EnumInNames(entries[i].ty))
    case Union(entries) => exists i :: 0 <= i < |entries| && (HasEnum(entries[i].name) || EnumInNames(entries[i].ty))
    case Map(key, value) => EnumInNames(key) || EnumInNames(value)
    case _ => false
  }

  predicate TerminatorInNames(t: Type) {
    match t
    case List(element) => TerminatorInNames(element)
    case Array(element, _) => TerminatorInNames(element)
    case Struct(entries) =>
      exists i :: 0 <= i < |entries| && (!NoTerminator(entries[i].name) || TerminatorInNames(entries[i].ty))
    case Union(entries) =>
      exists i :: 0 <= i < |entries| && (!NoTerminator(entries[i].name) || TerminatorInNames(entries[i].ty))
    case Map(key, value) => TerminatorInNames(key) || TerminatorInNames(value)
    case _ => false
  }

  // ----- simple names

  predicate IsNameChar(c: char) {
    'A' <= c <= 'Z' || '0' <= c <= '9' || c == '_' || c == ' '
  }

  predicate NameText(n: string) {
    && n != [] && 'A' <= n[0] <= 'Z' && IsWordChar(n[|n| - 1])
    && (forall c <- n :: IsNameChar(c))
    && (' ' in n ==> n == TIME_TZ || n == TIMESTAMP_TZ)
  }

  lemma SimpleNameText(n: string)
    requires n in SIMPLE_NAMES
    ensures NameText(n)
  {
    hide NameText;
    if n in NUMBER_NAMES {
      NumberNameText(n);
    } else if n in OTHER_NAMES {
      OtherNameText(n);
    } else if n in TIME_NAMES {
      TimeNameText(n);
    } else {
      ExtensionNameText(n);
    }
  }

  lemma NumberNameText(n: string)
    requires n in NUMBER_NAMES
    ensures NameText(n)
  {}

  lemma OtherNameText(n: string)
    requires n in OTHER_NAMES
    ensures NameText(n)
  {}

  lemma TimeNameText(n: string)
    requires n in TIME_NAMES
    ensures NameText(n)
  {}

  lemma ExtensionNameText(n: string)
    requires n in EXTENSION_NAMES
    ensures NameText(n)
  {}

  /** A name is plain text without terminators, and no enum is in it. */
  lemma NameIsPlain(n: string)
    requires NameText(n)
    ensures PlainText(n) && NoTerminator(n) && '[' !in n && ']' !in n && !HasEnum(n)
  {
    NoParenNoEnum(n);
  }

  // ----- where an enum can be found

  lemma NoParenNoEnum(s: string)
    requires '(' !in s
    ensures !HasEnum(s)
  {
    assert forall k :: EnumAt(s, k) ==> s[k + 4] in s;
  }

  /** A seam that no "ENUM(" can cross. */
  predicate Seam(a: string, b: string) {
    a == [] || b == [] || NotBeforeParen(a[|a| - 1]) || NotInEnum(b[0])
  }

  predicate NotBeforeParen(c: char) {
    !SameLetter(c, 'E') && !SameLetter(c, 'N') && !SameLetter(c, 'U') && !SameLetter(c, 'M')
  }

  predicate NotInEnum(c: char) {
    !SameLetter(c, 'N') && !SameLetter(c, 'U') && !SameLetter(c, 'M') && c != '('
  }

  lemma HasEnumConcat(a: string, b: string)
    requires Seam(a, b)
    ensures HasEnum(a + b) <==> HasEnum(a) || HasEnum(b)
  {
    if HasEnum(a) {
      assert EnumAt(a + b, FindEnum(a, 0).value);
    }
    if HasEnum(b) {
      assert EnumAt(a + b, |a| + FindEnum(b, 0).value);
    }
    if HasEnum(a + b) {
      var i := FindEnum(a + b, 0).value;
      if i + 5 <= |a| {
        assert EnumAt(a, i);
      } else if i >= |a| {
        assert EnumAt(b, i - |a|);
      } else {
        assert (a + b)[|a| - 1] == a[|a| - 1] && (a + b)[|a|] == b[0];
      }
    }
  }

  lemma {:induction false} HasEnumJoin(parts: seq<string>)
    ensures HasEnum(Join(parts)) <==> exists i :: 0 <= i < |parts| && HasEnum(parts[i])
  {
    if |parts| > 1 {
      HasEnumJoin(parts[1..]);
      NoParenNoEnum(", ");
      HasEnumConcat(parts[0], ", ");
      HasEnumConcat(parts[0] + ", ", Join(parts[1..]));
      assert forall i :: 0 < i < |parts| ==> parts[i] == parts[1..][i - 1];
    }
  }

  lemma {:induction false} NoTerminatorJoin(parts: seq<string>)
    ensures NoTerminator(Join(parts)) <==> forall i :: 0 <= i < |parts| ==> NoTerminator(parts[i])
  {
    if |parts| > 1 {
      NoTerminatorJoin(parts[1..]);
      NoTerminatorConcat(parts[0], ", ");
      NoTerminatorConcat(parts[0] + ", ", Join(parts[1..]));
      assert NoTerminator(", ");
      assert forall i :: 0 < i < |parts| ==> parts[i] == parts[1..][i - 1];
    }
  }

  lemma NoTerminatorConcat(a: string, b: string)
    ensures NoTerminator(a + b) <==> NoTerminator(a) && NoTerminator(b)
  {}

  // ----- the ends of printed types

  predicate Ends(s: string) {
    s != [] && 'A' <= s[0] <= 'Z' && (IsWordChar(s[|s| - 1]) || s[|s| - 1] == ')' || s[|s| - 1] == ']')
  }

  lemma {:induction false} PrintEnds(t: Type)
    requires Printable(t)
    ensures Ends(Print(t))
    decreases t
  {
    match t
    case Simple(name) => SimpleNameText(name);
    case List(element) => PrintEnds(element);
    case Array(element, _) => PrintEnds(element);
    case _ =>
  }

  lemma TrimNothing(s: string)
    requires s != [] && !IsSpace(s[0]) && !IsSpace(s[|s| - 1])
    ensures Trim(s) == s
  {}

  lemma QuoteName(name: string)
    requires '"' !in name
    ensures QuotedIdentifier(name) == "\"" + name + "\""
  {
    NoQuoteAt(name);
  }

  lemma {:induction false} NoQuoteAt(s: string)
    requires '"' !in s
    ensures IndexOfQuote(s) == |s|
  {
    if s != [] { NoQuoteAt(s[1..]); }
  }

  // ----- no field ends inside a printed type

  lemma DigitsPlain(n: nat)
    ensures PlainText(Dec(n)) && NoTerminator(Dec(n)) && AllDigits(Dec(n)) && Dec(n) != []
  {
    ValueOfDec(n);
    assert forall c <- Dec(n) :: IsDigit(c);
  }

  lemma {:induction false} PrintSettled(t: Type, depth: nat)
    requires Printable(t)
    ensures Settled(Print(t), depth)
    decreases t
  {
    hide Walk, Print, Dec, Settled, AllSettled, Join, NameText, SIMPLE_NAMES;
    match t
    case Simple(name) =>
      SimpleNameText(name);
      NameIsPlain(name);
      PrintSimple(t);
      PlainIsSettled(name, depth);
    case Decimal(width, scale) => DecimalSettled(t, depth);
    case List(element) =>
      PrintSettled(element, depth);
      PrintList(t);
      BracketsSettled(Print(element), 0, depth);
    case Array(element, length) =>
      PrintSettled(element, depth);
      PrintList(t);
      BracketsSettled(Print(element), length, depth);
    case Struct(entries) =>
      EntriesSettled(entries, depth + 1);
      KeywordSettled("STRUCT", FieldTexts(entries), depth);
      PrintStructLike(t);
    case Union(entries) =>
      EntriesSettled(entries, depth + 1);
      KeywordSettled("UNION", FieldTexts(entries), depth);
      PrintStructLike(t);
    case Map(key, value) =>
      PrintSettled(key, depth + 1);
      PrintSettled(value, depth + 1);
      TwoSettled(Print(key), Print(value), depth + 1);
      KeywordSettled("MAP", [Print(key), Print(value)], depth);
      PrintStructLike(t);
  }

  lemma PlainIsSettled(s: string, depth: nat)
    requires PlainText(s)
    ensures Settled(s, depth)
  {
    PlainSettled(s, Pos(depth, false));
  }

  lemma BracketsSettled(text: string, length: nat, depth: nat)
    requires Settled(text, depth)
    ensures Settled(text + "[]", depth) && Settled(text + ("[" + Dec(length) + "]"), depth)
  {
    hide Walk, Settled, Dec;
    PlainIsSettled("[]", depth);
    SettledConcat(text, "[]", depth);
    DigitsPlain(length);
    PlainIsSettled("[" + Dec(length) + "]", depth);
    SettledConcat(text, "[" + Dec(length) + "]", depth);
  }

  lemma TwoSettled(a: string, b: string, depth: nat)
    requires Settled(a, depth) && Settled(b, depth)
    ensures AllSettled([a, b], depth)
  {
    hide Settled;
  }

  lemma PrintSimple(t: Type)
    requires t.Simple?
    ensures Print(t) == t.name
  {}

  lemma PrintList(t: Type)
    ensures t.List? ==> Print(t) == Print(t.element) + "[]"
    ensures t.Array? ==> Print(t) == Print(t.element) + ("[" + Dec(t.length) + "]")
  {
    if t.Array? { assert Print(t) == Print(t.element) + "[" + Dec(t.length) + "]"; }
  }

  /** The printed form of a type with fields: its keyword and the texts that are joined. */
  lemma PrintStructLike(t: Type)
    ensures t.Struct? ==> Print(t) == "STRUCT" + ("(" + Join(FieldTexts(t.entries)) + ")")
    ensures t.Union? ==> Print(t) == "UNION" + ("(" + Join(FieldTexts(t.entries)) + ")")
    ensures t.Map? ==> Print(t) == "MAP" + ("(" + Join([Print(t.key), Print(t.value)]) + ")")
  {}

  lemma KeywordSettled(keyword: string, parts: seq<string>, depth: nat)
    requires PlainText(keyword) && AllSettled(parts, depth + 1)
    ensures Settled(keyword + ("(" + Join(parts) + ")"), depth)
  {
    hide Walk, Join;
    PlainSettled(keyword, Pos(depth, false));
    JoinSettled(parts, depth + 1);
    InParens(Join(parts), depth);
    SettledConcat(keyword, "(" + Join(parts) + ")", depth);
  }

  lemma DecimalSettled(t: Type, depth: nat)
    requires t.Decimal?
    ensures Settled(Print(t), depth)
  {
    hide Walk, Dec;
    var w, s := Dec(t.width), Dec(t.scale);
    DigitsPlain(t.width);
    DigitsPlain(t.scale);
    PlainSettled(w, Pos(depth + 1, false));
    PlainSettled(s, Pos(depth + 1, false));
    Comma(depth + 1);
    SettledConcat(w, ",", depth + 1);
    SettledConcat(w + ",", s, depth + 1);
    InParens(w + "," + s, depth);
    PlainSettled("DECIMAL", Pos(depth, false));
    SettledConcat("DECIMAL", "(" + (w + "," + s) + ")", depth);
    assert Print(t) == "DECIMAL" + ("(" + (w + "," + s) + ")");
  }

  lemma Comma(depth: nat)
    requires depth > 0
    ensures Settled(",", depth)
  {
    assert ","[1..] == [];
  }

  lemma FieldText(entries: seq<Entry>, i: nat)
    requires PrintableEntries(entries) && i < |entries|
    ensures FieldTexts(entries)[i] == "\"" + entries[i].name + "\"" + (" " + Print(entries[i].ty))
  {
    hide Print, QuotedIdentifier, Printable;
    var e := entries[i];
    QuoteName(e.name);
    assert FieldTexts(entries)[i] == QuotedIdentifier(e.name) + " " + Print(e.ty);
    Associate(QuotedIdentifier(e.name), " ", Print(e.ty));
  }

  lemma Associate(a: string, b: string, c: string)
    ensures a + b + c == a + (b + c)
  {}

  lemma {:induction false} EntriesSettled(entries: seq<Entry>, depth: nat)
    requires PrintableEntries(entries)
    ensures AllSettled(FieldTexts(entries), depth)
    decreases entries
  {
    hide Walk, Print, Settled, QuotedIdentifier;
    forall f <- FieldTexts(entries)
      ensures Settled(f, depth)
    {
      var i :| 0 <= i < |entries| && FieldTexts(entries)[i] == f;
      FieldText(entries, i);
      PrintSettled(entries[i].ty, depth);
      FieldSettled(entries[i], depth);
    }
  }

  lemma FieldSettled(e: Entry, depth: nat)
    requires '"' !in e.name && Settled(Print(e.ty), depth)
    ensures Settled("\"" + e.name + "\"" + (" " + Print(e.ty)), depth)
  {
    hide Walk, Print;
    InQuotes(e.name, depth);
    PlainSettled(" ", Pos(depth, false));
    SettledConcat(" ", Print(e.ty), depth);
    SettledConcat("\"" + e.name + "\"", " " + Print(e.ty), depth);
  }

  // ----- line terminators and enums in printed types are in its names

  lemma {:induction false} TerminatorPrinted(t: Type)
    requires Printable(t)
    ensures NoTerminator(Print(t)) <==> !TerminatorInNames(t)
    decreases t
  {
    hide Print, NoTerminator, Dec, FieldTexts;
    match t
    case Simple(name) =>
      SimpleNameText(name);
      NameIsPlain(name);
      PrintSimple(t);
    case Decimal(_, _) => DecimalText(t);
    case List(element) =>
      TerminatorPrinted(element);
      PrintList(t);
      NoTerminatorConcat(Print(element), "[]");
      Brackets(0);
    case Array(element, length) =>
      TerminatorPrinted(element);
      PrintList(t);
      NoTerminatorConcat(Print(element), "[" + Dec(length) + "]");
      Brackets(length);
    case Struct(entries) =>
      TerminatorEntries(entries);
      PrintStructLike(t);
      TerminatorKeyword("STRUCT", FieldTexts(entries));
    case Union(entries) =>
      TerminatorEntries(entries);
      PrintStructLike(t);
      TerminatorKeyword("UNION", FieldTexts(entries));
    case Map(key, value) =>
      TerminatorPrinted(key);
      TerminatorPrinted(value);
      PrintStructLike(t);
      TerminatorKeyword("MAP", [Print(key), Print(value)]);
  }

  lemma Brackets(length: nat)
    ensures NoTerminator("[]") && !HasEnum("[]")
    ensures NoTerminator("[" + Dec(length) + "]") && !HasEnum("[" + Dec(length) + "]")
  {
    hide Dec;
    DigitsPlain(length);
    NoParenNoEnum("[]");
    NoParenNoEnum("[" + Dec(length) + "]");
  }

  lemma DecimalText(t: Type)
    requires t.Decimal?
    ensures NoTerminator(Print(t)) && !HasEnum(Print(t))
  {
    hide Dec;
    DigitsPlain(t.width);
    DigitsPlain(t.scale);
    var rest := Dec(t.width) + "," + Dec(t.scale) + ")";
    NoParenNoEnum(rest);
    NoParenNoEnum("DECIMAL");
    assert "DECIMAL(" == "DECIMAL" + "(" && EnumFree("(");
    HasEnumConcat("DECIMAL", "(");
    HasEnumConcat("DECIMAL(", rest);
    assert Print(t) == "DECIMAL(" + rest;
  }

  predicate EnumFree(s: string) {
    !HasEnum(s)
  }

  lemma TerminatorKeyword(keyword: string, parts: seq<string>)
    requires forall c <- keyword :: 'A' <= c <= 'Z'
    ensures NoTerminator(keyword + ("(" + Join(parts) + ")")) <==> forall i :: 0 <= i < |parts| ==> NoTerminator(parts[i])
  {
    NoTerminatorJoin(parts);
    NoTerminatorConcat("(", Join(parts));
    NoTerminatorConcat("(" + Join(parts), ")");
    NoTerminatorConcat(keyword, "(" + Join(parts) + ")");
  }

  lemma {:induction false} TerminatorEntries(entries: seq<Entry>)
    requires PrintableEntries(entries)
    ensures forall i :: 0 <= i < |entries| ==>
              (NoTerminator(FieldTexts(entries)[i]) <==> NoTerminator(entries[i].name) && !TerminatorInNames(entries[i].ty))
    decreases entries
  {
    hide Print, NoTerminator, QuotedIdentifier;
    forall i | 0 <= i < |entries|
      ensures NoTerminator(FieldTexts(entries)[i]) <==> NoTerminator(entries[i].name) && !TerminatorInNames(entries[i].ty)
    {
      FieldText(entries, i);
      TerminatorPrinted(entries[i].ty);
      TerminatorField(entries[i].name, Print(entries[i].ty));
    }
  }

  lemma TerminatorField(name: string, text: string)
    ensures NoTerminator("\"" + name + "\"" + (" " + text)) <==> NoTerminator(name) && NoTerminator(text)
  {}

  lemma {:induction false} EnumPrinted(t: Type)
    requires Printable(t)
    ensures HasEnum(Print(t)) <==> EnumInNames(t)
    decreases t
  {
    hide Print, HasEnum, Dec, FieldTexts, NameText, SIMPLE_NAMES, Join;
    match t
    case Simple(name) =>
      SimpleNameText(name);
      NameIsPlain(name);
      PrintSimple(t);
    case Decimal(_, _) => DecimalText(t);
    case List(element) =>
      EnumPrinted(element);
      PrintList(t);
      EnumBrackets(Print(element), 0);
    case Array(element, length) =>
      EnumPrinted(element);
      PrintList(t);
      EnumBrackets(Print(element), length);
    case Struct(entries) =>
      EnumEntries(entries);
      PrintStructLike(t);
      EnumKeyword("STRUCT", FieldTexts(entries));
    case Union(entries) =>
      EnumEntries(entries);
      PrintStructLike(t);
      UnionKeyword(FieldTexts(entries));
    case Map(key, value) =>
      EnumPrinted(key);
      EnumPrinted(value);
      PrintStructLike(t);
      EnumKeyword("MAP", [Print(key), Print(value)]);
      EnumOfTwo(Print(key), Print(value));
  }

  lemma EnumOfTwo(a: string, b: string)
    ensures (exists i :: 0 <= i < |[a, b]| && HasEnum([a, b][i])) <==> HasEnum(a) || HasEnum(b)
  {
    hide HasEnum;
    assert [a, b][0] == a && [a, b][1] == b;
  }

  lemma EnumBrackets(text: string, length: nat)
    ensures HasEnum(text + "[]") <==> HasEnum(text)
    ensures HasEnum(text + ("[" + Dec(length) + "]")) <==> HasEnum(text)
  {
    hide HasEnum, Dec;
    Brackets(length);
    HasEnumConcat(text, "[]");
    HasEnumConcat(text, "[" + Dec(length) + "]");
  }

  lemma EnumParens(parts: seq<string>)
    ensures HasEnum("(" + Join(parts) + ")") <==> exists i :: 0 <= i < |parts| && HasEnum(parts[i])
  {
    HasEnumJoin(parts);
    assert EnumFree("(");
    NoParenNoEnum(")");
    HasEnumConcat("(", Join(parts));
    HasEnumConcat("(" + Join(parts), ")");
  }

  lemma EnumKeyword(keyword: string, parts: seq<string>)
    requires '(' !in keyword && keyword != [] && NotBeforeParen(keyword[|keyword| - 1])
    ensures HasEnum(keyword + ("(" + Join(parts) + ")")) <==> exists i :: 0 <= i < |parts| && HasEnum(parts[i])
  {
    EnumParens(parts);
    NoParenNoEnum(keyword);
    HasEnumConcat(keyword, "(" + Join(parts) + ")");
  }

  lemma UnionKeyword(parts: seq<string>)
    ensures HasEnum("UNION" + ("(" + Join(parts) + ")")) <==> exists i :: 0 <= i < |parts| && HasEnum(parts[i])
  {
    EnumParens(parts);
    UnionBefore("(" + Join(parts) + ")");
  }

  /** The letter before the parenthesis of "UNION(" is an N, so no "ENUM(" ends there. */
  lemma UnionBefore(inner: string)
    ensures HasEnum("UNION" + inner) <==> HasEnum(inner)
  {
    if HasEnum(inner) { assert EnumAt("UNION" + inner, 5 + FindEnum(inner, 0).value); }
    if HasEnum("UNION" + inner) {
      var i := FindEnum("UNION" + inner, 0).value;
      assert i >= 5;
      assert EnumAt(inner, i - 5);
    }
  }

  lemma {:induction false} EnumEntries(entries: seq<Entry>)
    requires PrintableEntries(entries)
    ensures forall i :: 0 <= i < |entries| ==>
              (HasEnum(FieldTexts(entries)[i]) <==> HasEnum(entries[i].name) || EnumInNames(entries[i].ty))
    decreases entries
  {
    hide Print, HasEnum, QuotedIdentifier;
    forall i | 0 <= i < |entries|
      ensures HasEnum(FieldTexts(entries)[i]) <==> HasEnum(entries[i].name) || EnumInNames(entries[i].ty)
    {
      FieldText(entries, i);
      EnumPrinted(entries[i].ty);
      EnumField(entries[i].name, Print(entries[i].ty));
    }
  }

  lemma EnumField(name: string, text: string)
    ensures HasEnum("\"" + name + "\"" + (" " + text)) <==> HasEnum(name) || HasEnum(text)
  {
    NoParenNoEnum("\"");
    NoParenNoEnum(" ");
    HasEnumConcat("\"", name);
    HasEnumConcat("\"" + name, "\"");
    HasEnumConcat(" ", text);
    HasEnumConcat("\"" + name + "\"", " " + text);
  }
}
