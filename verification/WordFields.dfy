/** Fields of structs and unions whose names stand without quotes. */
module WordFields {
  import opened Wrappers
  import opened Decimals
  import opened TypeStrings
  import opened FieldSplitting
  import opened PrintedTypes
  import opened TypeStringRoundTrip
  import opened RecordKeys

  // ----- one field

  predicate WordCharacter(c: char) {
    'a' <= c <= 'z' || 'A' <= c <= 'Z' || '0' <= c <= '9' || c == '_'
  }

  predicate IsWord(w: string) {
    w != [] && forall c <- w :: WordCharacter(c)
  }

  /** A word, a space and a text without line terminators are a name and a type. */
  lemma {:induction false} WordField(w: string, text: string)
    requires IsWord(w) && text != [] && Trim(text) == text && NoTerminator(text)
    ensures NamedField(w + " " + text) == Some((w, text))
  {
    hide NoTerminator, Trim;
    var s := w + " " + text;
    assert s[0] == w[0] && w[0] in w;
    assert forall k :: 0 <= k < |w| ==> s[k] == w[k] && w[k] in w;
    WordEndAt(s, 0, |w|);
    TrimmedStart(text);
    TextFollows(s, |w|, text);
    assert s[..|w|] == w;
  }

  lemma {:induction false} TrimmedStart(text: string)
    requires text != []
    ensures IsSpace(text[0]) ==> |Trim(text)| < |text|
  {
    hide IsSpace;
  }

  /** Without quotes, a field has a name only if all characters before its first white space are of a word. */
  lemma {:induction false} NoWordField(w: string, c: char, rest: string)
    requires (forall x <- w :: WordCharacter(x)) && !WordCharacter(c) && !IsSpace(c) && (w == [] ==> c != '"')
    ensures NamedField(w + [c] + rest) == None
  {
    hide IsSpace;
    var s := w + [c] + rest;
    assert s[|w|] == c;
    assert forall k :: 0 <= k < |w| ==> s[k] == w[k] && w[k] in w;
    WordEndAt(s, 0, |w|);
    if w != [] { assert s[0] == w[0]; }
  }

  // ----- structs and unions

  function WordTexts(entries: seq<Entry>): (texts: seq<string>)
    ensures |texts| == |entries|
  {
    seq(|entries|, i requires 0 <= i < |entries| => entries[i].name + " " + Print(entries[i].ty))
  }

  /** The type without quotes around its own names; the types of its fields are printed, with quotes. */
  function WordText(keyword: string, entries: seq<Entry>): string {
    keyword + ("(" + Join(WordTexts(entries)) + ")")
  }

  predicate WordEntries(entries: seq<Entry>) {
    forall i :: 0 <= i < |entries| ==> IsWord(entries[i].name) && Printable(entries[i].ty)
  }

  function KeptNames(entries: seq<Entry>): (r: seq<Entry>) {
    seq(|entries|, i requires 0 <= i < |entries| => Entry(entries[i].name, Quoted(entries[i].ty)))
  }

  lemma {:induction false} WordIsPlain(w: string)
    requires IsWord(w)
    ensures PlainText(w) && NoTerminator(w) && !HasEnum(w) && !IsSpace(w[0]) && !CannotStart(w[0])
  {
    assert w[0] in w;
    NoParenNoEnum(w);
  }

  lemma {:induction false} WordTextSettled(w: string, text: string)
    requires IsWord(w) && Ends(text) && Settled(text, 0)
    ensures var f := w + " " + text; Settled(f, 0) && Starts(f) && Trim(f) == f
    ensures HasEnum(w + " " + text) <==> HasEnum(text)
    ensures NoTerminator(w + " " + text) <==> NoTerminator(text)
  {
    hide Walk, HasEnum, NoTerminator, Settled;
    WordIsPlain(w);
    assert PlainText(w + " ");
    PlainIsSettled(w + " ", 0);
    SettledConcat(w + " ", text, 0);
    NoTerminatorConcat(w, " ");
    NoTerminatorConcat(w + " ", text);
    assert NoTerminator(" ") by { SpaceIsPlain(); }
    NoParenNoEnum(w + " ");
    HasEnumConcat(w + " ", text);
    TrimNothing(w + " " + text);
  }

  lemma {:induction false} SpaceIsPlain()
    ensures NoTerminator(" ")
  {}

  /** The entry at `i`, as a text. */
  lemma {:induction false} OneWordText(entries: seq<Entry>, i: nat)
    requires WordEntries(entries) && i < |entries|
    ensures var f, text := WordTexts(entries)[i], Print(entries[i].ty);
            && f == entries[i].name + " " + text && Settled(f, 0) && Starts(f) && Trim(f) == f
            && (HasEnum(f) <==> EnumInNames(entries[i].ty))
            && (NoTerminator(f) <==> NoTerminator(text)) && (NoTerminator(text) <==> !TerminatorInNames(entries[i].ty))
            && text != [] && Trim(text) == text
  {
    hide *;
    WordEntry(entries, i);
    PrintTrimmed(entries[i].ty);
    PrintEnds(entries[i].ty);
    EnumPrinted(entries[i].ty);
    TerminatorPrinted(entries[i].ty);
    WordTextSettled(entries[i].name, Print(entries[i].ty));
    EndsNotEmpty(Print(entries[i].ty));
  }

  lemma {:induction false} WordEntry(entries: seq<Entry>, i: nat)
    requires WordEntries(entries) && i < |entries|
    ensures IsWord(entries[i].name) && Printable(entries[i].ty)
    ensures WordTexts(entries)[i] == entries[i].name + " " + Print(entries[i].ty)
  {
    hide Print, Printable, IsWord;
  }

  lemma {:induction false} EndsNotEmpty(s: string)
    requires Ends(s)
    ensures s != []
  {}

  lemma {:induction false} SplitWordTexts(entries: seq<Entry>)
    requires WordEntries(entries)
    ensures Split(Join(WordTexts(entries))) == WordTexts(entries)
  {
    hide Split, Join, Print, Settled, Trim, Printable, Starts, WordTexts, WordEntries, HasEnum, NoTerminator, EnumInNames,
         TerminatorInNames;
    var fields := WordTexts(entries);
    forall i | 0 <= i < |entries|
      ensures Settled(fields[i], 0) && Starts(fields[i]) && Trim(fields[i]) == fields[i]
    {
      OneWordText(entries, i);
    }
    assert AllSettled(fields, 0);
    SplitJoin(fields);
    assert Trimmed(fields) == fields;
  }

  /** The entries with the types that the parser makes of their texts. */
  function WordResults(entries: seq<Entry>): seq<Entry>
    requires AllParse(entries)
  {
    seq(|entries|, i requires 0 <= i < |entries| => Entry(entries[i].name, Parse(Print(entries[i].ty)).value))
  }

  predicate NoTerminators(entries: seq<Entry>) {
    forall i :: 0 <= i < |entries| ==> NoTerminator(Print(entries[i].ty))
  }

  lemma {:induction false} ParseWordField(entries: seq<Entry>, i: nat)
    requires WordEntries(entries) && i < |entries| && NoTerminators(entries)
    ensures TypeStrings.ParseField(WordTexts(entries)[i])
         == match Parse(Print(entries[i].ty))
            case Failure(e) => Failure(e)
            case Success(t) => Success(Field(Some(entries[i].name), t))
  {
    hide *;
    OneWordText(entries, i);
    WordEntry(entries, i);
    OneNoTerminator(entries, i);
    WordField(entries[i].name, Print(entries[i].ty));
    FieldOfName(WordTexts(entries)[i], entries[i].name, Print(entries[i].ty));
  }

  lemma {:induction false} OneNoTerminator(entries: seq<Entry>, i: nat)
    requires i < |entries| && NoTerminators(entries)
    ensures NoTerminator(Print(entries[i].ty))
  {
    hide Print, NoTerminator;
  }

  lemma {:induction false} FieldOfName(s: string, name: string, text: string)
    requires NamedField(s) == Some((name, text))
    ensures TypeStrings.ParseField(s)
         == match Parse(text) case Failure(e) => Failure(e) case Success(t) => Success(Field(Some(name), t))
  {
    hide Parse, NamedField;
  }

  lemma {:induction false} ParseWordTexts(entries: seq<Entry>, bound: nat)
    requires WordEntries(entries) && NoTerminators(entries) && forall f <- WordTexts(entries) :: |f| <= bound
    ensures if AllParse(entries) then ParseAll(WordTexts(entries), bound) == Success(Keyed(WordResults(entries)))
            else ParseAll(WordTexts(entries), bound).Failure?
  {
    hide *;
    if entries == [] {
      NoWords();
      NoTexts(bound);
    } else {
      ParseWordField(entries, 0);
      RestOfWords(entries);
      ParseWordTexts(entries[1..], bound);
      if AllParse(entries) { FirstWordResult(entries); }
      FirstParsed(WordTexts(entries), bound);
    }
  }

  lemma {:induction false} NoWords()
    ensures AllParse([]) && Keyed(WordResults([])) == [] && WordTexts([]) == []
  {}

  lemma {:induction false} RestOfWords(entries: seq<Entry>)
    requires entries != [] && WordEntries(entries) && NoTerminators(entries)
    ensures WordEntries(entries[1..]) && NoTerminators(entries[1..])
    ensures WordTexts(entries)[1..] == WordTexts(entries[1..])
    ensures AllParse(entries) <==> Parse(Print(entries[0].ty)).Success? && AllParse(entries[1..])
  {
    hide Print, Parse, NoTerminator, IsWord, Printable;
  }

  lemma {:induction false} FirstWordResult(entries: seq<Entry>)
    requires entries != [] && AllParse(entries)
    ensures AllParse(entries[1..])
    ensures Keyed(WordResults(entries))
         == [Field(Some(entries[0].name), Parse(Print(entries[0].ty)).value)] + Keyed(WordResults(entries[1..]))
  {
    hide Parse, Print;
  }

  predicate IsFields(keyword: string) {
    keyword == "STRUCT" || keyword == "UNION"
  }

  function WithFields(keyword: string, entries: seq<Entry>): Type {
    if keyword == "STRUCT" then Struct(entries) else Union(entries)
  }

  /** What the parser makes of the text, by the names and types of the entries. */
  lemma {:induction false} ParseWordText(keyword: string, entries: seq<Entry>)
    requires IsFields(keyword) && WordEntries(entries)
    ensures if NoTerminators(entries) && AllParse(entries) && !AnyEnum(entries)
            then Parse(WordText(keyword, entries))
              == Success(WithFields(keyword, Record(Keyed(WordResults(entries)))))
            else Parse(WordText(keyword, entries)).Failure?
                 || exists text :: Parse(WordText(keyword, entries)) == Success(Enum(text))
  {
    hide *;
    var parts := WordTexts(entries);
    var inner, s := Join(parts), WordText(keyword, entries);
    WordTextIs(keyword, entries);
    KeywordOf(keyword);
    ParseStructLike(keyword, inner);
    EnumInWords(keyword, entries);
    TerminatorInWords(entries);
    SplitWordTexts(entries);
    if !AnyEnum(entries) && NoTerminators(entries) {
      ParseWordTexts(entries, |inner|);
      if AllParse(entries) {
        StructMapOrUnionIs(keyword, "(" + inner + ")", Keyed(WordResults(entries)));
        FieldsType(keyword, Record(Keyed(WordResults(entries))));
      }
    }
  }

  lemma {:induction false} WordTextIs(keyword: string, entries: seq<Entry>)
    ensures WordText(keyword, entries) == keyword + ("(" + Join(WordTexts(entries)) + ")")
  {
    hide Join, WordTexts;
  }

  lemma {:induction false} KeywordOf(keyword: string)
    requires IsFields(keyword)
    ensures Keyword(keyword)
  {}

  lemma {:induction false} FieldsType(keyword: string, entries: seq<Entry>)
    requires IsFields(keyword)
    ensures keyword == "STRUCT" || keyword == "UNION"
    ensures WithFields(keyword, entries) == if keyword == "STRUCT" then Struct(entries) else Union(entries)
  {}

  predicate AnyEnum(entries: seq<Entry>) {
    exists i :: 0 <= i < |entries| && EnumInNames(entries[i].ty)
  }

  lemma {:induction false} EnumInWords(keyword: string, entries: seq<Entry>)
    requires IsFields(keyword) && WordEntries(entries)
    ensures HasEnum(keyword + ("(" + Join(WordTexts(entries)) + ")")) <==> AnyEnum(entries)
  {
    hide HasEnum, Join, WordTexts, WordEntries, EnumInNames, NoTerminator, TerminatorInNames, Trim, Print, Settled, Starts;
    forall i | 0 <= i < |entries|
      ensures HasEnum(WordTexts(entries)[i]) <==> EnumInNames(entries[i].ty)
    {
      OneWordText(entries, i);
    }
    if keyword == "STRUCT" { EnumKeyword(keyword, WordTexts(entries)); } else { UnionKeyword(WordTexts(entries)); }
  }

  lemma {:induction false} TerminatorInWords(entries: seq<Entry>)
    requires WordEntries(entries)
    ensures NoTerminator(Join(WordTexts(entries))) <==> NoTerminators(entries)
  {
    hide HasEnum, Join, WordTexts, WordEntries, EnumInNames, NoTerminator, TerminatorInNames, Trim, Print, Settled, Starts;
    forall i | 0 <= i < |entries|
      ensures NoTerminator(WordTexts(entries)[i]) <==> NoTerminator(Print(entries[i].ty))
    {
      OneWordText(entries, i);
    }
    NoTerminatorJoin(WordTexts(entries));
  }

  /**
   * Fields without quotes keep their names: the struct or union is read back exactly when the names are in the order in
   * which an object holds them, none of them twice, and the type of each field is read back.
   */
  lemma {:induction false} WordRoundTrip(keyword: string, entries: seq<Entry>)
    requires IsFields(keyword) && WordEntries(entries)
    ensures Parse(WordText(keyword, entries)) == Success(WithFields(keyword, KeptNames(entries)))
       <==> InKeyOrder(entries) && forall i :: 0 <= i < |entries| ==> ReadsBack(entries[i].ty)
  {
    hide *;
    ParseWordText(keyword, entries);
    AllReadBack(entries);
    WordsReadBack(entries);
    NotAnEnum(keyword, KeptNames(entries));
    if NoTerminators(entries) && AllParse(entries) && !AnyEnum(entries) {
      SameFields(keyword, Record(Keyed(WordResults(entries))), KeptNames(entries));
      ResultsKeepNames(entries);
      RecordInOrder(WordResults(entries), KeptNames(entries));
      OrderOfNames(WordResults(entries), entries);
    }
  }

  lemma {:induction false} SameFields(keyword: string, a: seq<Entry>, b: seq<Entry>)
    ensures WithFields(keyword, a) == WithFields(keyword, b) <==> a == b
  {}

  lemma {:induction false} NotAnEnum(keyword: string, entries: seq<Entry>)
    ensures !WithFields(keyword, entries).Enum?
  {}

  /** Types that are read back have no enum and no line terminator in them. */
  lemma {:induction false} AllReadBack(entries: seq<Entry>)
    requires WordEntries(entries)
    ensures (forall i :: 0 <= i < |entries| ==> ReadsBack(entries[i].ty)) ==>
              NoTerminators(entries) && !AnyEnum(entries)
  {
    hide ReadsBack, EnumInNames, TerminatorInNames, NoTerminator, Print, Printable, IsWord;
    if forall i :: 0 <= i < |entries| ==> ReadsBack(entries[i].ty) {
      forall i | 0 <= i < |entries|
        ensures NoTerminator(Print(entries[i].ty)) && !EnumInNames(entries[i].ty)
      {
        ReadsBackClean(entries[i].ty);
        TerminatorPrinted(entries[i].ty);
      }
    }
  }

  lemma {:induction false} WordsReadBack(entries: seq<Entry>)
    requires WordEntries(entries)
    ensures (forall i :: 0 <= i < |entries| ==> ReadsBack(entries[i].ty)) ==> AllParse(entries)
    ensures AllParse(entries) ==>
              (WordResults(entries) == KeptNames(entries) <==> forall i :: 0 <= i < |entries| ==> ReadsBack(entries[i].ty))
  {
    hide ReadsBack, Print, Parse, Printable, IsWord, Quoted;
    forall i | 0 <= i < |entries|
      ensures Parse(Print(entries[i].ty)) == Success(Quoted(entries[i].ty)) <==> ReadsBack(entries[i].ty)
    {
      TypeStringRoundTrip.TypeStringRoundTrip(entries[i].ty);
    }
    if AllParse(entries) {
      assert forall i :: 0 <= i < |entries| ==>
        (WordResults(entries)[i] == KeptNames(entries)[i] <==> ReadsBack(entries[i].ty));
    }
  }

  lemma {:induction false} ResultsKeepNames(entries: seq<Entry>)
    requires AllParse(entries)
    ensures RecordKeys.SameNames(WordResults(entries), KeptNames(entries))
    ensures RecordKeys.SameNames(WordResults(entries), entries)
  {
    hide Print, Parse, Quoted;
  }

  lemma {:induction false} OrderOfNames(a: seq<Entry>, b: seq<Entry>)
    requires RecordKeys.SameNames(a, b)
    ensures InKeyOrder(a) <==> InKeyOrder(b)
  {
    hide IsIndex, Value;
  }
}
