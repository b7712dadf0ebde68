/**
 * Logical types as text: the printers of the type classes, and what the parser makes of a string.
 *
 * The regular expressions of the parser are written out as functions. Their `\s` and `trim` remove the white space and
 * line terminators of ECMAScript, their `\w` and `\d` are the ASCII ones, and their `.` is anything but a line terminator.
 */
module TypeStrings {
  import opened Wrappers
  import opened Decimals

  datatype Type =
    | Simple(name: string)
    | Decimal(width: nat, scale: nat)
    | Enum(text: string) // the text between the parentheses, which lists the values
    | List(element: Type)
    | Array(element: Type, length: nat)
    | Struct(entries: seq<Entry>)
    | Union(entries: seq<Entry>)
    | Map(key: Type, value: Type)

  datatype Entry = Entry(name: string, ty: Type)

  const NUMBER_NAMES := {
    "BIGINT", "BIGNUM", "DOUBLE", "FLOAT", "HUGEINT", "INTEGER", "SMALLINT", "TINYINT", "UBIGINT", "UHUGEINT",
    "UINTEGER", "USMALLINT", "UTINYINT"}
  const OTHER_NAMES := {"BIT", "BOOLEAN", "BLOB", "SQLNULL", "UUID", "VARCHAR"}
  const TIME_NAMES := {
    "DATE", "INTERVAL", "TIME", TIME_TZ, "TIMESTAMP", TIMESTAMP_TZ, "TIMESTAMP_S", "TIMESTAMP_MS", "TIMESTAMP_NS"}
  const EXTENSION_NAMES := {
    "BOX_2D", "BOX_2DF", "GEOMETRY", "INET", "JSON", "LINESTRING_2D", "POINT_2D", "POINT_3D", "POINT_4D", "POLYGON_2D",
    "WKB_BLOB"}

  const SIMPLE_NAMES := NUMBER_NAMES + OTHER_NAMES + TIME_NAMES + EXTENSION_NAMES

  const TIME_TZ := "TIME WITH TIME ZONE"
  const TIMESTAMP_TZ := "TIMESTAMP WITH TIME ZONE"

  // ----- printing

  function IndexOfQuote(s: string): nat {
    if s == [] || s[0] == '"' then 0 else 1 + IndexOfQuote(s[1..])
  }

  /** Only the first double quote is doubled. */
  function QuotedIdentifier(name: string): string {
    var k := IndexOfQuote(name);
    "\"" + (if k < |name| then name[..k] + "\"\"" + name[k + 1..] else name) + "\""
  }

  function Print(t: Type): string {
    match t
    case Simple(name) => name
    case Decimal(width, scale) => "DECIMAL(" + Dec(width) + "," + Dec(scale) + ")"
    case Enum(text) => "ENUM(" + text + ")"
    case List(element) => Print(element) + "[]"
    case Array(element, length) => Print(element) + "[" + Dec(length) + "]"
    case Struct(entries) => "STRUCT(" + Join(FieldTexts(entries)) + ")"
    case Union(entries) => "UNION(" + Join(FieldTexts(entries)) + ")"
    case Map(key, value) => "MAP(" + Join([Print(key), Print(value)]) + ")"
  }

  function FieldTexts(entries: seq<Entry>): (texts: seq<string>)
    ensures |texts| == |entries|
    ensures forall i :: 0 <= i < |entries| ==> texts[i] == QuotedIdentifier(entries[i].name) + " " + Print(entries[i].ty)
  {
    if entries == [] then []
    else [QuotedIdentifier(entries[0].name) + " " + Print(entries[0].ty)] + FieldTexts(entries[1..])
  }

  /** `parts.join(', ')`. */
  function Join(parts: seq<string>): string {
    if parts == [] then ""
    else if |parts| == 1 then parts[0]
    else parts[0] + ", " + Join(parts[1..])
  }

  /** The type that the parser is to read back: it keeps the quotes around names. */
  function Quoted(t: Type): Type {
    match t
    case List(element) => List(Quoted(element))
    case Array(element, length) => Array(Quoted(element), length)
    case Struct(entries) => Struct(QuotedEntries(entries))
    case Union(entries) => Union(QuotedEntries(entries))
    case Map(key, value) => Map(Quoted(key), Quoted(value))
    case _ => t
  }

  function QuotedEntries(entries: seq<Entry>): (r: seq<Entry>)
    ensures |r| == |entries|
    ensures forall i :: 0 <= i < |r| ==> r[i] == Entry(QuotedIdentifier(entries[i].name), Quoted(entries[i].ty))
  {
    if entries == [] then []
    else [Entry(QuotedIdentifier(entries[0].name), Quoted(entries[0].ty))] + QuotedEntries(entries[1..])
  }

  // ----- characters

  predicate IsTerminator(c: char) {
    c == '\n' || c == '\r' || c == '\U{2028}' || c == '\U{2029}'
  }

  predicate IsSpace(c: char) {
    || c == ' ' || c == '\t' || c == '\U{0B}' || c == '\U{0C}' || c == '\U{A0}' || c == '\U{1680}'
    || '\U{2000}' <= c <= '\U{200A}' || c == '\U{202F}' || c == '\U{205F}' || c == '\U{3000}' || c == '\U{FEFF}'
    || IsTerminator(c)
  }

  predicate IsWordChar(c: char) {
    'a' <= c <= 'z' || 'A' <= c <= 'Z' || '0' <= c <= '9' || c == '_'
  }

  predicate NoTerminator(s: string) {
    forall c <- s :: !IsTerminator(c)
  }

  function TrimStart(s: string): (r: string)
    ensures |r| <= |s|
  {
    if s != [] && IsSpace(s[0]) then TrimStart(s[1..]) else s
  }

  function TrimEnd(s: string): (r: string)
    ensures |r| <= |s|
  {
    if s != [] && IsSpace(s[|s| - 1]) then TrimEnd(s[..|s| - 1]) else s
  }

  function Trim(s: string): (r: string)
    ensures |r| <= |s|
  {
    TrimEnd(TrimStart(s))
  }

  /** The first position from `i` that is not white space. */
  function SpacesFrom(s: string, i: nat): (j: nat)
    requires i <= |s|
    ensures i <= j <= |s|
    decreases |s| - i
  {
    if i < |s| && IsSpace(s[i]) then SpacesFrom(s, i + 1) else i
  }

  // ----- the expressions for one level of a type

  predicate EndsWith(s: string, suffix: string) {
    |suffix| <= |s| && s[|s| - |suffix|..] == suffix
  }

  /** Where the digits that end before `j` begin. */
  function DigitRun(s: string, j: nat): (i: nat)
    requires j <= |s|
    ensures i <= j
  {
    if j > 0 && IsDigit(s[j - 1]) then DigitRun(s, j - 1) else j
  }

  /** The position of the bracket of an array length at the end of the string. */
  function ArraySuffix(s: string): (r: Option<nat>)
    ensures r.Some? ==> r.value + 3 <= |s|
  {
    if s == [] || s[|s| - 1] != ']' then None
    else
      var i := DigitRun(s, |s| - 1);
      if 0 < i < |s| - 1 && s[i - 1] == '[' then Some(i - 1) else None
  }

  function DigitsEnd(s: string, i: nat): (j: nat)
    requires i <= |s|
    ensures i <= j <= |s|
    decreases |s| - i
  {
    if i < |s| && IsDigit(s[i]) then DigitsEnd(s, i + 1) else i
  }

  function DecimalParts(s: string): Option<(string, string)> {
    if !("DECIMAL(" <= s) then None
    else
      var i := DigitsEnd(s, 8);
      if i == 8 || i == |s| || s[i] != ',' then None
      else
        var j := DigitsEnd(s, i + 1);
        if j == i + 1 || j != |s| - 1 || s[j] != ')' then None else Some((s[8..i], s[i + 1..j]))
  }

  predicate SameLetter(c: char, upper: char)
    requires 'A' <= upper <= 'Z'
  {
    c == upper || c as int == upper as int + 32
  }

  predicate EnumAt(s: string, i: nat) {
    && i + 5 <= |s| && SameLetter(s[i], 'E') && SameLetter(s[i + 1], 'N') && SameLetter(s[i + 2], 'U')
    && SameLetter(s[i + 3], 'M') && s[i + 4] == '('
  }

  /** The first position from `i` of "ENUM(", in any case. */
  function FindEnum(s: string, i: nat): (r: Option<nat>)
    requires i <= |s|
    ensures r.Some? ==> i <= r.value && EnumAt(s, r.value)
    ensures r.None? ==> forall k :: i <= k ==> !EnumAt(s, k)
    decreases |s| - i
  {
    if i == |s| then None else if EnumAt(s, i) then Some(i) else FindEnum(s, i + 1)
  }

  function FindChar(s: string, c: char, i: nat): (j: nat)
    requires i <= |s|
    ensures i <= j <= |s| && (j < |s| ==> s[j] == c)
    ensures forall k :: i <= k < j ==> s[k] != c
    decreases |s| - i
  {
    if i == |s| || s[i] == c then i else FindChar(s, c, i + 1)
  }

  /** The expression is not anchored, so it finds an enum anywhere in the string. */
  function EnumText(s: string): Option<string> {
    match FindEnum(s, 0)
    case None => None
    case Some(i) =>
      var close := FindChar(s, ')', i + 5);
      if close < |s| then Some(s[i + 5..close]) else None
  }

  function KeywordLength(s: string): nat {
    if "STRUCT" <= s then 6 else if "MAP" <= s then 3 else if "UNION" <= s then 5 else 0
  }

  /** The text between the parentheses of a struct, map or union. */
  function StructLike(s: string): (r: Option<string>)
    ensures r.Some? ==> |r.value| < |s|
  {
    var k := KeywordLength(s);
    if k == 0 then None
    else
      var open := SpacesFrom(s, k);
      if open < |s| - 1 && s[open] == '(' && s[|s| - 1] == ')' && NoTerminator(s[open + 1..|s| - 1])
      then Some(s[open + 1..|s| - 1]) else None
  }

  // ----- fields

  /** Where a scan of fields stands: how many parentheses are open, and whether an odd number of quotes has passed. */
  datatype Pos = Pos(depth: int, quoted: bool)

  function Move(p: Pos, c: char): Pos {
    if c == '"' then p.(quoted := !p.quoted)
    else if c == '(' && !p.quoted then p.(depth := p.depth + 1)
    else if c == ')' && !p.quoted then p.(depth := p.depth - 1)
    else p
  }

  predicate CannotStart(c: char) {
    c == '(' || c == ')' || c == ','
  }

  /** The trimmed fields from position `i`, when a field has started at `start`. */
  function Scan(s: string, i: nat, start: Option<nat>, p: Pos): (r: seq<string>)
    requires i <= |s| && (start.Some? ==> start.value <= i)
    ensures forall f <- r :: |f| <= |s|
    decreases |s| - i
  {
    if i == |s| then if start.Some? then [Trim(s[start.value..])] else []
    else
      var started := if start.None? && !CannotStart(s[i]) then Some(i) else start;
      if s[i] == ',' && p.depth == 0 && !p.quoted && started.Some?
      then [Trim(s[started.value..i])] + Scan(s, i + 1, None, p)
      else Scan(s, i + 1, started, Move(p, s[i]))
  }

  function Split(s: string): (r: seq<string>)
    ensures forall f <- r :: |f| <= |s|
  {
    Scan(s, 0, None, Pos(0, false))
  }

  function WordEnd(s: string, i: nat): (j: nat)
    requires i <= |s|
    ensures i <= j <= |s|
    decreases |s| - i
  {
    if i < |s| && IsWordChar(s[i]) then WordEnd(s, i + 1) else i
  }

  /** White space and the text of a type follow position `i`; `s` is trimmed. */
  predicate TypeFollows(s: string, i: nat)
    requires i <= |s|
  {
    i < |s| && IsSpace(s[i]) && SpacesFrom(s, i) < |s| && NoTerminator(s[SpacesFrom(s, i)..])
  }

  /** The first quote from `i` that a type follows. */
  function ClosingQuote(s: string, i: nat): (r: Option<nat>)
    requires i <= |s|
    ensures r.Some? ==> i <= r.value < |s| && TypeFollows(s, r.value + 1)
    decreases |s| - i
  {
    if i == |s| then None
    else if s[i] == '"' && TypeFollows(s, i + 1) then Some(i)
    else if IsTerminator(s[i]) then None
    else ClosingQuote(s, i + 1)
  }

  /** The name and the type of a named field. */
  function NamedField(s: string): (r: Option<(string, string)>)
    ensures r.Some? ==> |r.value.1| < |s|
  {
    if s != [] && s[0] == '"' then
      match ClosingQuote(s, 1)
      case None => None
      case Some(i) => Some((s[..i + 1], Trim(s[SpacesFrom(s, i + 1)..])))
    else
      var i := WordEnd(s, 0);
      if i > 0 && TypeFollows(s, i) then Some((s[..i], Trim(s[SpacesFrom(s, i)..]))) else None
  }

  // ----- the parser

  datatype Field = Field(key: Option<string>, ty: Type)

  function Unimplemented(s: string): string {
    "unimplemented type match: " + s
  }

  function Parse(s: string): Result<Type, string>
    decreases |s|, 0
  {
    if s in SIMPLE_NAMES then Success(Simple(s))
    else if EndsWith(s, "[]") then
      var element :- Parse(s[..|s| - 2]);
      Success(List(element))
    else if ArraySuffix(s).Some? then
      var bracket := ArraySuffix(s).value;
      var element :- Parse(s[..bracket]);
      Success(Array(element, Number(s[bracket + 1..|s| - 1])))
    else if DecimalParts(s).Some? then
      Success(Decimal(Number(DecimalParts(s).value.0), Number(DecimalParts(s).value.1)))
    else if EnumText(s).Some? then Success(Enum(EnumText(s).value))
    else
      var trimmed := Trim(s);
      match StructLike(trimmed)
      case None => Failure(Unimplemented(s))
      case Some(inner) =>
        var fields :- ParseAll(Split(inner), |inner|);
        match StructMapOrUnion(trimmed, fields)
        case None => Failure(Unimplemented(s))
        case Some(t) => Success(t)
  }

  function Number(digits: string): nat {
    var v := Value(digits);
    if v < 0 then 0 else v
  }

  function ParseField(s: string): Result<Field, string>
    decreases |s|, 1
  {
    match NamedField(s)
    case Some(named) =>
      var ty :- Parse(named.1);
      Success(Field(Some(named.0), ty))
    case None =>
      var ty :- Parse(s);
      Success(Field(None, ty))
  }

  /** The fields in order, up to the first that cannot be parsed. */
  function ParseAll(texts: seq<string>, bound: nat): Result<seq<Field>, string>
    requires forall f <- texts :: |f| <= bound
    decreases bound, 2, |texts|
  {
    if texts == [] then Success([])
    else
      var first :- ParseField(texts[0]);
      var rest :- ParseAll(texts[1..], bound);
      Success([first] + rest)
  }

  function StructMapOrUnion(s: string, fields: seq<Field>): Option<Type> {
    if "STRUCT" <= s then Some(Struct(Record(fields)))
    else if "MAP" <= s && |fields| >= 2 then Some(Map(fields[0].ty, fields[1].ty))
    else if "UNION" <= s then Some(Union(Record(fields)))
    else None
  }

  // ----- records: keys in the order of an ECMAScript object

  /** The keys that an object orders by number, before the others. */
  predicate IsArrayIndex(key: string) {
    key != [] && DigitRun(key, |key|) == 0 && (key == "0" || key[0] != '0') && Number(key) < 0xFFFF_FFFF
  }

  /** Whether a new key goes before an existing one. */
  predicate Before(key: string, other: string) {
    IsArrayIndex(key) && (IsArrayIndex(other) ==> Number(key) < Number(other))
  }

  predicate HasName(entries: seq<Entry>, name: string) {
    exists e <- entries :: e.name == name
  }

  /** `entries[key] = ty`. */
  function Put(entries: seq<Entry>, key: string, ty: Type): seq<Entry> {
    if HasName(entries, key)
    then seq(|entries|, i requires 0 <= i < |entries| => if entries[i].name == key then Entry(key, ty) else entries[i])
    else Insert(entries, key, ty)
  }

  function Insert(entries: seq<Entry>, key: string, ty: Type): seq<Entry> {
    if entries == [] || Before(key, entries[0].name) then [Entry(key, ty)] + entries
    else [entries[0]] + Insert(entries[1..], key, ty)
  }

  /** The named fields as a record. */
  function Record(fields: seq<Field>): seq<Entry> {
    if fields == [] then []
    else
      var last := fields[|fields| - 1];
      var before := Record(fields[..|fields| - 1]);
      if last.key.Some? then Put(before, last.key.value, last.ty) else before
  }
}
