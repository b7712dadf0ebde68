/** The record of named fields, as an ECMAScript object holds them: the last value of each key, in the order of keys. */
module RecordKeys {
  import opened Wrappers
  import opened Decimals
  import opened TypeStrings
  import opened TypeStringRoundTrip

  // ----- array indices (section 6.1.7 of ECMA-262)

  /** The decimal text of a number below 2^32 - 1. */
  ghost predicate IsIndex(key: string) {
    exists n: nat :: n < 4294967295 && key == Dec(n)
  }

  lemma {:induction false} IndexKeys(key: string)
    ensures IsArrayIndex(key) <==> IsIndex(key)
    ensures IsIndex(key) ==> Value(key) == Number(key) && Dec(Number(key)) == key
  {
    hide Dec, Value;
    if IsArrayIndex(key) {
      RunOfDigits(key, |key|);
      DecOfValue(key);
      assert Number(key) == Value(key);
    }
    if n: nat :| n < 4294967295 && key == Dec(n) {
      ValueOfDec(n);
      RunOfDigits(key, |key|);
      NoLeadingZero(n);
      ZeroText();
    }
  }

  lemma {:induction false} ZeroText()
    ensures Dec(0) == "0"
  {}

  lemma {:induction false} RunOfDigits(s: string, j: nat)
    requires j <= |s|
    ensures DigitRun(s, j) == 0 <==> AllDigits(s[..j])
    decreases j
  {
    if j > 0 {
      assert s[..j][..j - 1] == s[..j - 1] && s[..j][j - 1] == s[j - 1];
      if IsDigit(s[j - 1]) { RunOfDigits(s, j - 1); }
    }
  }

  /** Digits without a leading zero are the text of their value. */
  lemma {:induction false} DecOfValue(s: string)
    requires s != [] && AllDigits(s) && (s == "0" || s[0] != '0')
    ensures Value(s) >= 0 && Dec(Value(s)) == s
  {
    var n := |s| - 1;
    assert IsDigit(s[n]);
    if n == 0 {
      assert s == [s[0]] && s[..0] == [] && Value([]) == 0;
    } else {
      DecOfValue(s[..n]);
      assert Value(s[..n]) > 0 by { NotZero(s[..n]); }
      assert Dec(Value(s)) == Dec(Value(s[..n])) + [s[n]];
    }
  }

  lemma {:induction false} NotZero(s: string)
    requires s != [] && AllDigits(s) && s[0] != '0' && Value(s) >= 0 && Dec(Value(s)) == s
    ensures Value(s) > 0
  {
    if Value(s) == 0 { ZeroText(); }
  }

  // ----- the order of keys

  /** The first entry with the name. */
  function FirstAt(entries: seq<Entry>, name: string): (k: nat)
    ensures k <= |entries| && (k < |entries| ==> entries[k].name == name)
    ensures forall j :: 0 <= j < k ==> entries[j].name != name
  {
    if entries == [] || entries[0].name == name then 0 else 1 + FirstAt(entries[1..], name)
  }

  /** Keys that are indices come first, by number; the others follow, in the order in which they came first. */
  ghost predicate Precedes(entries: seq<Entry>, a: string, b: string) {
    if IsIndex(b) then IsIndex(a) && Value(a) < Value(b)
    else IsIndex(a) || FirstAt(entries, a) < FirstAt(entries, b)
  }

  /** The entry is the last with its name. */
  ghost predicate IsLast(entries: seq<Entry>, e: Entry) {
    exists i :: 0 <= i < |entries| && entries[i] == e && forall j :: i < j < |entries| ==> entries[j].name != e.name
  }

  ghost predicate Ordered(entries: seq<Entry>, record: seq<Entry>) {
    forall i, j :: 0 <= i < j < |record| ==> Precedes(entries, record[i].name, record[j].name)
  }

  ghost predicate HoldsLast(entries: seq<Entry>, record: seq<Entry>) {
    forall e :: e in record <==> IsLast(entries, e)
  }

  /** Which entries the record of the fields has, and in which order. */
  lemma {:induction false} ObjectOrder(entries: seq<Entry>)
    ensures HoldsLast(entries, Record(Keyed(entries))) && Ordered(entries, Record(Keyed(entries)))
  {
    hide HoldsLast, Ordered, Put;
    if entries == [] {
      EmptyRecord();
    } else {
      var n := |entries| - 1;
      ObjectOrder(entries[..n]);
      assert Keyed(entries)[..n] == Keyed(entries[..n]);
      assert entries == entries[..n] + [entries[n]];
      PutKeeps(entries[..n], entries[n], Record(Keyed(entries[..n])));
    }
  }

  lemma {:induction false} EmptyRecord()
    ensures HoldsLast([], Record(Keyed([]))) && Ordered([], Record(Keyed([])))
  {}

  lemma {:induction false} PutKeeps(entries: seq<Entry>, last: Entry, record: seq<Entry>)
    requires HoldsLast(entries, record) && Ordered(entries, record)
    ensures HoldsLast(entries + [last], Put(record, last.name, last.ty))
    ensures Ordered(entries + [last], Put(record, last.name, last.ty))
  {
    hide Ordered, Precedes, IsIndex, FirstAt;
    LastAppended(entries, last);
    SameOrder(entries, last, record);
    if HasName(record, last.name) {
      PutOver(entries + [last], record, last);
      NamesDiffer(entries, record);
      PutHolds(record, last);
    } else {
      NewKey(entries, last, record);
      InsertOrdered(entries + [last], record, last);
      assert forall e <- record :: e.name != last.name;
    }
  }

  lemma {:induction false} PutHolds(record: seq<Entry>, last: Entry)
    requires DistinctNames(record) && HasName(record, last.name)
    ensures forall e :: e in Put(record, last.name, last.ty) <==> e == last || (e in record && e.name != last.name)
  {
    var after := Put(record, last.name, last.ty);
    assert forall i :: 0 <= i < |record| ==> after[i] == if record[i].name == last.name then last else record[i];
    var k :| 0 <= k < |record| && record[k].name == last.name;
    assert after[k] == last;
    forall e | e in record && e.name != last.name
      ensures e in after
    {
      var i :| 0 <= i < |record| && record[i] == e;
      assert after[i] == e;
    }
  }

  lemma {:induction false} LastAppended(entries: seq<Entry>, last: Entry)
    ensures forall e :: IsLast(entries + [last], e) <==> e == last || (IsLast(entries, e) && e.name != last.name)
  {
    hide IsLast;
    forall e
      ensures IsLast(entries + [last], e) <==> e == last || (IsLast(entries, e) && e.name != last.name)
    {
      LastBefore(entries, last, e);
    }
  }

  lemma {:induction false} LastBefore(entries: seq<Entry>, last: Entry, e: Entry)
    ensures IsLast(entries + [last], e) <==> e == last || (IsLast(entries, e) && e.name != last.name)
  {
    var all, n := entries + [last], |entries|;
    assert all[n] == last && forall i :: 0 <= i < n ==> all[i] == entries[i];
    if IsLast(all, e) && e != last {
      var i :| 0 <= i < |all| && all[i] == e && forall j :: i < j < |all| ==> all[j].name != e.name;
      assert entries[i] == e && all[n].name != e.name;
      assert forall j :: i < j < n ==> entries[j].name == all[j].name;
    }
    if IsLast(entries, e) && e.name != last.name {
      var i :| 0 <= i < n && entries[i] == e && forall j :: i < j < n ==> entries[j].name != e.name;
      assert all[i] == e && forall j :: i < j < |all| ==> all[j].name != e.name;
    }
  }

  lemma {:induction false} FirstAtAppended(entries: seq<Entry>, last: Entry, name: string)
    ensures FirstAt(entries + [last], name) ==
            if FirstAt(entries, name) < |entries| || name == last.name then FirstAt(entries, name) else |entries| + 1
  {
    var all := entries + [last];
    var k, k' := FirstAt(entries, name), FirstAt(all, name);
    if k < |entries| { assert all[k] == entries[k]; }
    if k' < |entries| { assert all[k'] == entries[k']; }
    assert all[|entries|] == last;
  }

  /** The names of the record stand in the entries, and are ordered in the same way when an entry is added. */
  lemma {:induction false} SameOrder(entries: seq<Entry>, last: Entry, record: seq<Entry>)
    requires HoldsLast(entries, record) && Ordered(entries, record)
    ensures Ordered(entries + [last], record)
  {
    hide IsIndex, IsLast, FirstAt;
    forall i, j | 0 <= i < j < |record|
      ensures Precedes(entries + [last], record[i].name, record[j].name)
    {
      assert record[i] in record && record[j] in record;
      Stands(entries, record[i]);
      Stands(entries, record[j]);
      FirstAtAppended(entries, last, record[i].name);
      FirstAtAppended(entries, last, record[j].name);
    }
  }

  lemma {:induction false} Stands(entries: seq<Entry>, e: Entry)
    requires IsLast(entries, e)
    ensures FirstAt(entries, e.name) < |entries|
  {}

  lemma {:induction false} PutOver(entries: seq<Entry>, record: seq<Entry>, last: Entry)
    requires Ordered(entries, record) && HasName(record, last.name)
    ensures Ordered(entries, Put(record, last.name, last.ty))
  {
    PutOld(record, last.name, last.ty);
  }

  lemma {:induction false} NamesDiffer(entries: seq<Entry>, record: seq<Entry>)
    requires Ordered(entries, record)
    ensures DistinctNames(record)
  {
    hide IsIndex;
  }

  /** A key that is new comes after the others that are not indices. */
  lemma {:induction false} NewKey(entries: seq<Entry>, last: Entry, record: seq<Entry>)
    requires HoldsLast(entries, record) && !HasName(record, last.name)
    ensures forall e <- record :: FirstAt(entries + [last], e.name) < FirstAt(entries + [last], last.name)
  {
    hide FirstAt;
    NameHeld(entries, record, last.name);
    FirstAtAppended(entries, last, last.name);
    forall e <- record
      ensures FirstAt(entries + [last], e.name) < FirstAt(entries + [last], last.name)
    {
      assert IsLast(entries, e);
      Stands(entries, e);
      FirstAtAppended(entries, last, e.name);
    }
  }

  lemma {:induction false} NameHeld(entries: seq<Entry>, record: seq<Entry>, name: string)
    requires HoldsLast(entries, record)
    ensures FirstAt(entries, name) < |entries| ==> HasName(record, name)
  {
    hide FirstAt;
    if FirstAt(entries, name) < |entries| {
      HasLast(entries, name);
      var e :| IsLast(entries, e) && e.name == name;
      assert e in record;
    }
  }

  lemma {:induction false} HasLast(entries: seq<Entry>, name: string)
    requires FirstAt(entries, name) < |entries|
    ensures exists e :: IsLast(entries, e) && e.name == name
  {
    hide FirstAt;
    var k := FirstAt(entries, name);
    var n := |entries| - 1;
    if entries[n].name == name {
      assert IsLast(entries, entries[n]);
    } else {
      assert entries == entries[..n] + [entries[n]];
      FirstAtAppended(entries[..n], entries[n], name);
      HasLast(entries[..n], name);
      LastAppended(entries[..n], entries[n]);
    }
  }

  lemma {:induction false} InsertOrdered(entries: seq<Entry>, record: seq<Entry>, last: Entry)
    requires Ordered(entries, record) && forall e <- record :: FirstAt(entries, e.name) < FirstAt(entries, last.name)
    ensures var after := Insert(record, last.name, last.ty);
            Ordered(entries, after) && forall e :: e in after <==> e == last || e in record
  {
    hide IsIndex, FirstAt;
    if record == [] {
      assert Insert(record, last.name, last.ty) == [last];
    } else if Before(last.name, record[0].name) {
      InsertFront(entries, record, last);
    } else {
      var rest := Insert(record[1..], last.name, last.ty);
      assert forall i :: 0 <= i < |record| - 1 ==> record[1..][i] == record[i + 1];
      InsertOrdered(entries, record[1..], last);
      NotBefore(entries, record[0].name, last.name);
      forall e <- rest
        ensures Precedes(entries, record[0].name, e.name)
      {
        if e != last { assert e in record[1..]; }
      }
      FrontOrdered(entries, record[0], rest);
    }
  }

  lemma {:induction false} FrontOrdered(entries: seq<Entry>, first: Entry, rest: seq<Entry>)
    requires Ordered(entries, rest) && forall e <- rest :: Precedes(entries, first.name, e.name)
    ensures Ordered(entries, [first] + rest)
  {
    hide Precedes;
    var all := [first] + rest;
    forall i, j | 0 <= i < j < |all|
      ensures Precedes(entries, all[i].name, all[j].name)
    {
      assert all[j] == rest[j - 1] && rest[j - 1] in rest;
    }
  }

  lemma {:induction false} InsertFront(entries: seq<Entry>, record: seq<Entry>, last: Entry)
    requires Ordered(entries, record) && record != [] && Before(last.name, record[0].name)
    ensures Ordered(entries, [last] + record)
  {
    hide FirstAt, IsIndex, IsArrayIndex, Number, Value;
    forall e <- record
      ensures Precedes(entries, last.name, e.name)
    {
      IndexKeys(last.name);
      IndexKeys(record[0].name);
      IndexKeys(e.name);
      assert e == record[0] || Precedes(entries, record[0].name, e.name);
    }
    FrontOrdered(entries, last, record);
  }

  lemma {:induction false} NotBefore(entries: seq<Entry>, other: string, key: string)
    requires !Before(key, other) && FirstAt(entries, other) < FirstAt(entries, key)
    ensures Precedes(entries, other, key)
  {
    hide FirstAt, IsIndex, IsArrayIndex, Number, Value;
    IndexKeys(key);
    IndexKeys(other);
  }

  // ----- when a record keeps its fields as they are

  /** No name is repeated, and the names that are indices come first, in the order of their numbers. */
  ghost predicate InKeyOrder(entries: seq<Entry>) {
    forall i, j :: 0 <= i < j < |entries| ==>
                     && entries[i].name != entries[j].name
                     && (IsIndex(entries[j].name) ==>
                           IsIndex(entries[i].name) && Value(entries[i].name) < Value(entries[j].name))
  }

  predicate SameNames(a: seq<Entry>, b: seq<Entry>) {
    |a| == |b| && forall i :: 0 <= i < |a| ==> a[i].name == b[i].name
  }

  lemma {:induction false} RecordInOrder(entries: seq<Entry>, wanted: seq<Entry>)
    requires SameNames(entries, wanted)
    ensures Record(Keyed(entries)) == wanted <==> InKeyOrder(entries) && entries == wanted
  {
    hide Record;
    ObjectOrder(entries);
    if Record(Keyed(entries)) == wanted { OrderedRecord(entries, wanted); }
    if InKeyOrder(entries) { KeptInOrder(entries); }
  }

  lemma {:induction false} OrderedRecord(entries: seq<Entry>, record: seq<Entry>)
    requires SameNames(entries, record) && HoldsLast(entries, record) && Ordered(entries, record)
    ensures InKeyOrder(entries) && entries == record
  {
    hide IsIndex, FirstAt;
    NamesDiffer(entries, record);
    forall i | 0 <= i < |record|
      ensures entries[i] == record[i]
    {
      assert record[i] in record;
      assert IsLast(entries, record[i]);
      var k :| 0 <= k < |entries| && entries[k] == record[i];
      assert record[k].name == record[i].name;
    }
  }

  lemma {:induction false} KeptInOrder(entries: seq<Entry>)
    requires InKeyOrder(entries)
    ensures Record(Keyed(entries)) == entries
  {
    hide IsIndex, Put;
    if entries != [] {
      var n := |entries| - 1;
      var last, before := entries[n], entries[..n];
      KeptInOrder(before);
      assert Keyed(entries)[..n] == Keyed(before);
      PutLast(before, last);
      assert entries == before + [last];
    }
  }

  lemma {:induction false} PutLast(entries: seq<Entry>, last: Entry)
    requires InKeyOrder(entries + [last])
    ensures Put(entries, last.name, last.ty) == entries + [last]
  {
    hide IsIndex, Insert;
    var all := entries + [last];
    forall e | e in entries
      ensures e.name != last.name && !Before(last.name, e.name)
    {
      var i :| 0 <= i < |entries| && entries[i] == e;
      assert all[i] == e && all[|entries|] == last;
      IndexKeys(last.name);
      IndexKeys(e.name);
    }
    InsertLast(entries, last);
  }

  lemma {:induction false} InsertLast(entries: seq<Entry>, last: Entry)
    requires forall e <- entries :: !Before(last.name, e.name)
    ensures Insert(entries, last.name, last.ty) == entries + [last]
  {
    hide Before;
    if entries != [] { InsertLast(entries[1..], last); }
  }
}
