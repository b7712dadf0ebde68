/** Splitting fields is the inverse of joining them, for fields whose own commas are inside parentheses or quotes. */
module FieldSplitting {
  import opened Wrappers
  import opened TypeStrings

  /** Where a scan stands after `s`, unless it meets a comma that ends a field. */
  function Walk(s: string, p: Pos): Option<Pos> {
    if s == [] then Some(p)
    else if s[0] == ',' && p.depth == 0 && !p.quoted then None
    else Walk(s[1..], Move(p, s[0]))
  }

  /** Reading `s` at this depth ends no field, and leaves the parentheses and the quotes as they were. */
  predicate Settled(s: string, depth: nat) {
    Walk(s, Pos(depth, false)) == Some(Pos(depth, false))
  }

  lemma {:induction false} WalkConcat(a: string, b: string, p: Pos)
    ensures Walk(a + b, p) == match Walk(a, p) case None => None case Some(q) => Walk(b, q)
  {
    if a == [] {
      assert a + b == b;
    } else {
      assert (a + b)[1..] == a[1..] + b;
      WalkConcat(a[1..], b, Move(p, a[0]));
    }
  }

  lemma SettledConcat(a: string, b: string, depth: nat)
    requires Settled(a, depth) && Settled(b, depth)
    ensures Settled(a + b, depth)
  {
    WalkConcat(a, b, Pos(depth, false));
  }

  /** Text without parentheses, quotes and commas. */
  predicate PlainText(s: string) {
    forall c <- s :: c != '(' && c != ')' && c != ',' && c != '"'
  }

  lemma {:induction false} PlainSettled(s: string, p: Pos)
    requires PlainText(s)
    ensures Walk(s, p) == Some(p)
  {
    if s != [] {
      assert s[0] in s && forall c <- s[1..] :: c in s;
      PlainSettled(s[1..], p);
    }
  }

  lemma InParens(s: string, depth: nat)
    requires Settled(s, depth + 1)
    ensures Settled("(" + s + ")", depth)
  {
    var p := Pos(depth, false);
    assert "(" + s + ")" == "(" + (s + ")");
    WalkConcat("(", s + ")", p);
    WalkConcat(s, ")", Pos(depth + 1, false));
    assert "("[1..] == [] && ")"[1..] == [];
  }

  lemma {:induction false} NoQuoteWalk(s: string, depth: nat)
    requires '"' !in s
    ensures Walk(s, Pos(depth, true)) == Some(Pos(depth, true))
  {
    if s != [] { NoQuoteWalk(s[1..], depth); }
  }

  lemma InQuotes(s: string, depth: nat)
    requires '"' !in s
    ensures Settled("\"" + s + "\"", depth)
  {
    var p := Pos(depth, false);
    assert "\"" + s + "\"" == "\"" + (s + "\"");
    WalkConcat("\"", s + "\"", p);
    NoQuoteWalk(s, depth);
    WalkConcat(s, "\"", Pos(depth, true));
    assert "\""[1..] == [];
  }

  predicate AllSettled(fields: seq<string>, depth: nat) {
    forall f <- fields :: Settled(f, depth)
  }

  lemma CommaInside(depth: nat)
    requires depth > 0
    ensures Settled(", ", depth)
  {
    var p := Pos(depth, false);
    assert ", "[1..] == " " && " "[1..] == [];
    assert Walk(", ", p) == Walk(" ", p) == Walk([], p);
  }

  /** Inside parentheses, joined fields end no field either. */
  lemma {:induction false} JoinSettled(fields: seq<string>, depth: nat)
    requires depth > 0 && AllSettled(fields, depth)
    ensures Settled(Join(fields), depth)
  {
    if |fields| == 1 {
      assert fields[0] in fields;
    } else if |fields| > 1 {
      assert fields[0] in fields && forall f <- fields[1..] :: f in fields;
      JoinSettled(fields[1..], depth);
      CommaInside(depth);
      SettledConcat(fields[0], ", ", depth);
      SettledConcat(fields[0] + ", ", Join(fields[1..]), depth);
    }
  }

  // ----- scanning

  lemma {:induction false} ScanThrough(s: string, i: nat, j: nat, start: nat, p: Pos, q: Pos)
    requires start <= i <= j <= |s| && Walk(s[i..j], p) == Some(q)
    ensures Scan(s, i, Some(start), p) == Scan(s, j, Some(start), q)
    decreases j - i
  {
    if i == j {
      assert s[i..j] == [];
    } else {
      assert s[i..j][1..] == s[i + 1..j] && s[i..j][0] == s[i];
      ScanThrough(s, i + 1, j, start, Move(p, s[i]), q);
    }
  }

  function Trimmed(fields: seq<string>): seq<string> {
    seq(|fields|, i requires 0 <= i < |fields| => Trim(fields[i]))
  }

  predicate Starts(field: string) {
    field != [] && !CannotStart(field[0])
  }

  lemma SpaceBefore(f: string)
    requires Settled(f, 0)
    ensures Settled(" " + f, 0) && Trim(" " + f) == Trim(f) && Starts(" " + f)
  {
    assert (" " + f)[1..] == f;
  }

  /** The first field of what is left, up to its comma or the end. */
  lemma ScanFirst(s: string, i: nat, f: string)
    requires i + |f| <= |s| && s[i..i + |f|] == f && Starts(f) && Settled(f, 0)
    requires i + |f| < |s| ==> s[i + |f|] == ','
    ensures Scan(s, i, None, Pos(0, false))
         == [Trim(f)] + if i + |f| == |s| then [] else Scan(s, i + |f| + 1, None, Pos(0, false))
  {
    var p, j := Pos(0, false), i + |f|;
    assert s[i] == f[0];
    assert Scan(s, i, None, p) == Scan(s, i, Some(i), p);
    ScanThrough(s, i, j, i, p, p);
    if j == |s| { assert s[i..] == f; }
  }

  lemma {:induction false} ScanFields(s: string, i: nat, fields: seq<string>)
    requires i <= |s| && s[i..] == Join(fields) && fields != []
    requires Starts(fields[0]) && AllSettled(fields, 0)
    ensures Scan(s, i, None, Pos(0, false)) == Trimmed(fields)
    decreases |fields|
  {
    hide Walk, Scan, Trim, Trimmed;
    var f := fields[0];
    assert f in fields;
    assert s[i..i + |f|] == f by { assert s[i..][..|f|] == f; }
    if |fields| == 1 {
      ScanFirst(s, i, f);
      OneTrimmed(f);
      assert fields == [f] && i + |f| == |s|;
    } else {
      NextFields(fields);
      assert s[i..][|f|] == ',';
      ScanFirst(s, i, f);
      assert s[i + |f| + 1..] == Join(Next(fields)) by { assert s[i..][|f| + 1..] == Join(Next(fields)); }
      ScanFields(s, i + |f| + 1, Next(fields));
    }
  }

  /** The fields after the first, with the space of the separator. */
  function Next(fields: seq<string>): seq<string>
    requires |fields| > 1
  {
    [" " + fields[1]] + fields[2..]
  }

  lemma OneTrimmed(f: string)
    ensures Trimmed([f]) == [Trim(f)]
  {}

  lemma NextFields(fields: seq<string>)
    requires |fields| > 1 && AllSettled(fields, 0)
    ensures Join(fields) == fields[0] + "," + Join(Next(fields))
    ensures AllSettled(Next(fields), 0) && Starts(Next(fields)[0])
    ensures Trimmed(fields) == [Trim(fields[0])] + Trimmed(Next(fields))
  {
    hide Walk, Trim, Join, Settled, AllSettled, Trimmed, Starts;
    NextSettled(fields);
    NextTrimmed(fields);
    NextJoined(fields);
  }

  lemma NextSettled(fields: seq<string>)
    requires |fields| > 1 && AllSettled(fields, 0)
    ensures AllSettled(Next(fields), 0) && Starts(Next(fields)[0]) && Trim(Next(fields)[0]) == Trim(fields[1])
  {
    hide Walk, Trim, Join, Settled, Trimmed;
    assert fields[1] in fields;
    SpaceBefore(fields[1]);
    forall f <- Next(fields)
      ensures Settled(f, 0)
    {
      if f != " " + fields[1] { assert f in fields[2..] && f in fields; }
    }
  }

  lemma NextTrimmed(fields: seq<string>)
    requires |fields| > 1 && Trim(Next(fields)[0]) == Trim(fields[1])
    ensures Trimmed(fields) == [Trim(fields[0])] + Trimmed(Next(fields))
  {}

  lemma NextJoined(fields: seq<string>)
    requires |fields| > 1
    ensures Join(fields) == fields[0] + "," + Join(Next(fields))
  {
    assert fields[1..][1..] == fields[2..];
    JoinSpace(fields[1..]);
    assert Join(Next(fields)) == " " + Join(fields[1..]);
    CommaSpace(fields[0], Join(fields[1..]));
  }

  lemma CommaSpace(a: string, b: string)
    ensures a + ", " + b == a + "," + (" " + b)
  {}

  lemma JoinSpace(fields: seq<string>)
    requires fields != []
    ensures " " + Join(fields) == Join([" " + fields[0]] + fields[1..])
  {
    var next := [" " + fields[0]] + fields[1..];
    assert next[1..] == fields[1..];
    if |fields| > 1 {
      assert " " + (fields[0] + ", " + Join(fields[1..])) == (" " + fields[0]) + ", " + Join(fields[1..]);
    }
  }

  /** Joining and then splitting gives the fields back, trimmed. */
  lemma SplitJoin(fields: seq<string>)
    requires AllSettled(fields, 0) && (fields != [] ==> Starts(fields[0]))
    ensures Split(Join(fields)) == Trimmed(fields)
  {
    if fields != [] {
      var s := Join(fields);
      assert s[0..] == s;
      ScanFields(s, 0, fields);
    }
  }
}
