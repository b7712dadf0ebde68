/**
 * The watcher: polls the catalog versions of the attached databases, and reports a change when the versions differ from
 * those of the poll before.
 *
 * What a round of the loop observes of its surroundings (whether to go on, the database instance, the settings, the
 * attached databases) is an input, and so is whether reading it throws.
 */
module Watcher {
  import opened Wrappers

  type Oid = nat

  /** An attached database; its catalog may have no version, and reading the version may throw. */
  datatype Database = Database(oid: Oid, temporary: bool, version: Result<Option<nat>, string>)

  type Versions = map<Oid, Option<nat>>

  // ----- one poll

  predicate Readable(databases: seq<Database>) {
    forall d <- databases :: d.temporary || d.version.Success?
  }

  /** The versions of the databases that are not temporary (and can be read). */
  function Snapshot(databases: seq<Database>): Versions {
    if databases == [] then map[]
    else
      var d, before := databases[|databases| - 1], Snapshot(databases[..|databases| - 1]);
      if d.temporary || d.version.Failure? then before else before[d.oid := d.version.value]
  }

  function Oids(databases: seq<Database>): set<Oid> {
    set d <- databases | !d.temporary :: d.oid
  }

  /** No two databases with one id have different versions; distinct ids are enough. */
  predicate Consistent(databases: seq<Database>) {
    forall d, e | d in databases && e in databases && !d.temporary && !e.temporary && d.oid == e.oid :: d.version == e.version
  }

  lemma {:induction false} SnapshotIs(databases: seq<Database>)
    requires Readable(databases)
    ensures Snapshot(databases).Keys == Oids(databases)
    ensures forall oid <- Snapshot(databases) :: InVersion(databases, oid, Snapshot(databases)[oid])
  {
    if databases != [] {
      var n := |databases| - 1;
      SnapshotIs(databases[..n]);
      assert databases == databases[..n] + [databases[n]];
      assert forall d <- databases :: d in databases[..n] || d == databases[n];
      assert forall d <- databases[..n] :: d in databases;
      assert forall oid, v :: InVersion(databases[..n], oid, v) ==> InVersion(databases, oid, v);
    }
  }

  predicate InVersion(databases: seq<Database>, oid: Oid, version: Option<nat>) {
    exists d <- databases :: !d.temporary && d.oid == oid && d.version == Success(version)
  }

  lemma SnapshotAt(databases: seq<Database>, d: Database)
    requires Readable(databases) && Consistent(databases) && d in databases && !d.temporary
    ensures d.oid in Snapshot(databases) && Snapshot(databases)[d.oid] == d.version.value
  {
    SnapshotIs(databases);
    assert d.oid in Oids(databases);
  }

  class CatalogState {
    var dbToCatalogVersion: Versions

    constructor ()
      ensures dbToCatalogVersion == map[]
    {
      dbToCatalogVersion := map[];
    }
  }

  /** Whether a database is new or its version is not the one in `versions`. */
  predicate Differs(d: Database, versions: Versions) {
    !d.temporary && d.version.Success? && (d.oid !in versions || versions[d.oid] != d.version.value)
  }

  /** The versions left when the databases with these ids stay. */
  function Restricted(versions: Versions, oids: set<Oid>): Versions {
    map oid | oid in versions && oid in oids :: versions[oid]
  }

  /**
   * A poll stores exactly the versions it sees, and reports a change when they are not those stored before. (Databases
   * that share an id and differ in version are reported as a change each time.)
   */
  method WasCatalogUpdated(databases: seq<Database>, lastState: CatalogState) returns (result: Result<bool, string>)
    modifies lastState
    ensures result.Success? <==> Readable(databases)
    ensures result.Success? ==>
              && lastState.dbToCatalogVersion == Snapshot(databases)
              && (result.value <==> old(lastState.dbToCatalogVersion) != Snapshot(databases) || !Consistent(databases))
  {
    hide Snapshot, Readable, Oids, Consistent, SomeDiffers, Restricted;
    ghost var before := lastState.dbToCatalogVersion;
    var hasChange := false;
    var dbOids: set<Oid> := {};
    NothingScanned(before);
    for i := 0 to |databases|
      invariant Readable(databases[..i]) && dbOids == Oids(databases[..i])
      invariant lastState.dbToCatalogVersion == before + Snapshot(databases[..i])
      invariant hasChange <==> SomeDiffers(databases[..i], before)
    {
      var d := databases[i];
      assert databases[..i + 1] == databases[..i] + [d];
      ScanStep(databases[..i], d, before);
      if d.temporary { continue; }
      dbOids := dbOids + {d.oid};
      if d.version.Failure? {
        UnreadableMember(databases, i);
        return Failure(d.version.error);
      }
      var currentVersion := d.version.value;
      if d.oid !in lastState.dbToCatalogVersion || lastState.dbToCatalogVersion[d.oid] != currentVersion {
        hasChange := true;
        lastState.dbToCatalogVersion := lastState.dbToCatalogVersion[d.oid := currentVersion];
      }
    }
    assert databases[..|databases|] == databases;
    var detached := ForgetDetached(dbOids, lastState);
    PollIsExact(databases, before, hasChange || detached);
    result := Success(hasChange || detached);
  }

  /** The second loop of a poll: databases that are no longer attached are erased. */
  method ForgetDetached(dbOids: set<Oid>, lastState: CatalogState) returns (any: bool)
    modifies lastState
    ensures lastState.dbToCatalogVersion == Restricted(old(lastState.dbToCatalogVersion), dbOids)
    ensures any <==> SomeDetached(old(lastState.dbToCatalogVersion), dbOids)
  {
    ghost var before := lastState.dbToCatalogVersion;
    any := false;
    var toVisit := lastState.dbToCatalogVersion.Keys;
    while toVisit != {}
      invariant toVisit <= lastState.dbToCatalogVersion.Keys
      invariant lastState.dbToCatalogVersion == Restricted(before, dbOids + toVisit)
      invariant any <==> exists oid <- before :: oid !in dbOids && oid !in toVisit
    {
      var oid :| oid in toVisit;
      toVisit := toVisit - {oid};
      if oid !in dbOids {
        any := true;
        lastState.dbToCatalogVersion := lastState.dbToCatalogVersion - {oid};
      }
    }
  }

  ghost predicate SomeDetached(versions: Versions, oids: set<Oid>) {
    exists oid <- versions :: oid !in oids
  }

  ghost predicate SomeDiffers(databases: seq<Database>, versions: Versions) {
    exists d <- databases :: Differs(d, versions)
  }

  lemma NothingScanned(before: Versions)
    ensures Readable([]) && Oids([]) == {} && before + Snapshot([]) == before && !SomeDiffers([], before)
  {}

  lemma UnreadableMember(databases: seq<Database>, i: nat)
    requires i < |databases| && !databases[i].temporary && databases[i].version.Failure?
    ensures !Readable(databases)
  {
    assert databases[i] in databases;
  }

  /** One more database scanned: what the ids, the versions and the flag become. */
  lemma ScanStep(seen: seq<Database>, d: Database, before: Versions)
    requires Readable(seen)
    ensures d.temporary ==> Readable(seen + [d]) && Oids(seen + [d]) == Oids(seen) && Snapshot(seen + [d]) == Snapshot(seen)
    ensures d.temporary ==> (SomeDiffers(seen + [d], before) <==> SomeDiffers(seen, before))
    ensures !d.temporary && d.version.Success? ==>
              && Readable(seen + [d]) && Oids(seen + [d]) == Oids(seen) + {d.oid}
              && before + Snapshot(seen + [d]) == (before + Snapshot(seen))[d.oid := d.version.value]
              && (SomeDiffers(seen + [d], before) <==>
                  SomeDiffers(seen, before) || Differs(d, before + Snapshot(seen)))
  {
    assert (seen + [d])[..|seen|] == seen;
    assert forall e <- seen + [d] :: e in seen || e == d;
    assert forall e <- seen :: e in seen + [d];
    assert d in seen + [d];
    assert SomeDiffers(seen + [d], before) <==> SomeDiffers(seen, before) || Differs(d, before);
    if !d.temporary && d.version.Success? { SeenBefore(seen, before, d); }
  }

  /** A database that differs from the versions updated so far differs from those before, or from an earlier one. */
  lemma SeenBefore(seen: seq<Database>, before: Versions, d: Database)
    requires Readable(seen) && !d.temporary && d.version.Success?
    ensures Differs(d, before + Snapshot(seen)) ==> Differs(d, before) || SomeDiffers(seen, before)
    ensures Differs(d, before) && !Differs(d, before + Snapshot(seen)) ==> SomeDiffers(seen, before)
  {
    SnapshotIs(seen);
    if d.oid in Snapshot(seen) {
      var e :| e in seen && !e.temporary && e.oid == d.oid && e.version == Success(Snapshot(seen)[d.oid]);
      assert Differs(d, before + Snapshot(seen)) ==> Differs(d, before) || Differs(e, before);
      assert Differs(d, before) && !Differs(d, before + Snapshot(seen)) ==> Differs(e, before);
    }
  }

  lemma PollIsExact(databases: seq<Database>, before: Versions, hasChange: bool)
    requires Readable(databases)
    requires hasChange <==> SomeDiffers(databases, before)
                            || SomeDetached(before + Snapshot(databases), Oids(databases))
    ensures Restricted(before + Snapshot(databases), Oids(databases)) == Snapshot(databases)
    ensures hasChange <==> before != Snapshot(databases) || !Consistent(databases)
  {
    hide *;
    RestrictedIs(databases, before);
    if hasChange && Consistent(databases) { ChangeIsReal(databases, before); }
    if !hasChange { NoChange(databases, before); }
  }

  lemma RestrictedIs(databases: seq<Database>, before: Versions)
    requires Readable(databases)
    ensures Restricted(before + Snapshot(databases), Oids(databases)) == Snapshot(databases)
  {
    hide Snapshot, Readable;
    SnapshotIs(databases);
  }

  lemma ChangeIsReal(databases: seq<Database>, before: Versions)
    requires Readable(databases) && Consistent(databases)
    requires SomeDiffers(databases, before) || SomeDetached(before + Snapshot(databases), Oids(databases))
    ensures before != Snapshot(databases)
  {
    hide Snapshot, Consistent;
    SnapshotIs(databases);
    if d :| d in databases && Differs(d, before) {
      SnapshotAt(databases, d);
    }
  }

  lemma NoChange(databases: seq<Database>, before: Versions)
    requires Readable(databases) && !SomeDiffers(databases, before)
    requires !SomeDetached(before + Snapshot(databases), Oids(databases))
    ensures before == Snapshot(databases) && Consistent(databases)
  {
    hide Snapshot;
    var now := Snapshot(databases);
    SnapshotIs(databases);
    forall d, e | d in databases && e in databases && !d.temporary && !e.temporary && d.oid == e.oid
      ensures d.version == e.version
    {
      assert !Differs(d, before) && !Differs(e, before);
    }
    forall oid <- now
      ensures oid in before && before[oid] == now[oid]
    {
      var d :| d in databases && !d.temporary && d.oid == oid && d.version == Success(now[oid]);
      assert !Differs(d, before);
    }
  }

  // ----- the polling loop

  type Instance = nat

  /** What a round observes; asking whether MotherDuck is connected, and for its token, may throw. */
  datatype Round = Round(shouldRun: bool, db: Option<Instance>, pollingInterval: nat, databases: seq<Database>,
                         mdConnected: Result<bool, string>, mdToken: Result<string, string>)

  datatype UiEvent = CatalogChanged | Connected(token: string)

  /** Why the loop is over, if it is. */
  datatype Ending = StillRunning | Stopped | DatabaseGone | DatabaseChanged | Disabled | Threw

  function SnapshotBefore(rounds: seq<Round>, i: nat): Versions
    requires i <= |rounds|
  {
    if i == 0 then map[] else Snapshot(rounds[i - 1].databases)
  }

  predicate Changes(rounds: seq<Round>, i: nat)
    requires i < |rounds|
  {
    Snapshot(rounds[i].databases) != SnapshotBefore(rounds, i) || !Consistent(rounds[i].databases)
  }

  predicate ConnectedBefore(rounds: seq<Round>, i: nat)
    requires i <= |rounds|
  {
    i > 0 && (rounds[i - 1].mdConnected == Success(true) || ConnectedBefore(rounds, i - 1))
  }

  /** Round `i` runs to its end: nothing that it reads throws. */
  predicate Completes(rounds: seq<Round>, i: nat)
    requires i < |rounds|
  {
    && Readable(rounds[i].databases)
    && (ConnectedBefore(rounds, i) || rounds[i].mdConnected == Success(false)
        || (rounds[i].mdConnected == Success(true) && rounds[i].mdToken.Success?))
  }

  predicate AllComplete(rounds: seq<Round>, n: nat)
    requires n <= |rounds|
  {
    forall i :: 0 <= i < n ==> Completes(rounds, i)
  }

  function ChangeEvent(rounds: seq<Round>, i: nat): seq<UiEvent>
    requires i < |rounds|
  {
    if Changes(rounds, i) then [CatalogChanged] else []
  }

  function ConnectedEvent(rounds: seq<Round>, i: nat): seq<UiEvent>
    requires i < |rounds|
  {
    var r := rounds[i];
    if !ConnectedBefore(rounds, i) && r.mdConnected == Success(true) && r.mdToken.Success? then [Connected(r.mdToken.value)]
    else []
  }

  /** The events of the first `n` rounds: the changes, and the connection in the first round that sees one. */
  function EventsOf(rounds: seq<Round>, n: nat): seq<UiEvent>
    requires n <= |rounds|
  {
    if n == 0 then []
    else EventsOf(rounds, n - 1) + ChangeEvent(rounds, n - 1) + ConnectedEvent(rounds, n - 1)
  }

  /** A round that polls, of the database that is watched. */
  predicate Polls(round: Round, watched: Option<Instance>) {
    round.shouldRun && round.db.Some? && round.db == watched && round.pollingInterval > 0
  }

  class Watcher {
    var watchedDatabase: Option<Instance>

    constructor ()
      ensures watchedDatabase == None
    {
      watchedDatabase := None;
    }

    /** Rounds are polled until one says to end; `polled` of them are completed. */
    method Watch(rounds: seq<Round>) returns (events: seq<UiEvent>, polled: nat, ending: Ending)
      modifies this
      ensures polled <= |rounds| && AllComplete(rounds, polled)
      ensures old(watchedDatabase).Some? ==> watchedDatabase == old(watchedDatabase)
      ensures forall i :: 0 <= i < polled ==> Polls(rounds[i], watchedDatabase)
      ensures ending == StillRunning <==> polled == |rounds|
      ensures polled < |rounds| ==>
                var r := rounds[polled];
                match ending
                case StillRunning => false
                case Stopped => !r.shouldRun
                case DatabaseGone => r.shouldRun && r.db == None
                case DatabaseChanged => r.shouldRun && r.db.Some? && r.db != watchedDatabase
                case Disabled => r.shouldRun && r.db.Some? && r.db == watchedDatabase && r.pollingInterval == 0
                case Threw => Polls(r, watchedDatabase) && !Completes(rounds, polled)
      ensures events == EventsOf(rounds, polled) + (
                if ending == Threw && Readable(rounds[polled].databases) then ChangeEvent(rounds, polled) else [])
    {
      hide Readable, Snapshot, Consistent, EventsOf, AllComplete, ChangeEvent, ConnectedEvent;
      events, polled := [], 0;
      NoRounds(rounds);
      var lastState := new CatalogState();
      var isMdConnected := false;
      while polled < |rounds| && rounds[polled].shouldRun
        invariant polled <= |rounds| && AllComplete(rounds, polled)
        invariant old(watchedDatabase).Some? ==> watchedDatabase == old(watchedDatabase)
        invariant polled > 0 ==> watchedDatabase.Some?
        invariant forall i :: 0 <= i < polled ==> Polls(rounds[i], watchedDatabase)
        invariant lastState.dbToCatalogVersion == SnapshotBefore(rounds, polled)
        invariant isMdConnected <==> ConnectedBefore(rounds, polled)
        invariant events == EventsOf(rounds, polled)
        invariant fresh(lastState)
        decreases |rounds| - polled
      {
        var round := rounds[polled];
        if round.db == None {
          return events, polled, DatabaseGone;
        }
        if watchedDatabase == None {
          watchedDatabase := round.db;
        } else if watchedDatabase != round.db {
          return events, polled, DatabaseChanged;
        }
        if round.pollingInterval == 0 {
          return events, polled, Disabled;
        }
        RoundSends(rounds, polled);
        var updated := WasCatalogUpdated(round.databases, lastState);
        if updated.Failure? {
          return events, polled, Threw;
        }
        if updated.value { events := events + [CatalogChanged]; }
        if !isMdConnected {
          if round.mdConnected.Failure? {
            return events, polled, Threw;
          }
          if round.mdConnected.value {
            isMdConnected := true;
            if round.mdToken.Failure? {
              return events, polled, Threw;
            }
            events := events + [Connected(round.mdToken.value)];
          }
        }
        polled := polled + 1;
      }
      ending := if polled == |rounds| then StillRunning else Stopped;
    }
  }

  lemma NoRounds(rounds: seq<Round>)
    ensures EventsOf(rounds, 0) == [] && AllComplete(rounds, 0)
  {}

  /** What round `i` adds, when it is completed and when it throws. */
  lemma RoundSends(rounds: seq<Round>, i: nat)
    requires i < |rounds|
    ensures EventsOf(rounds, i) + [] == EventsOf(rounds, i)
    ensures ChangeEvent(rounds, i) == if Changes(rounds, i) then [CatalogChanged] else []
    ensures EventsOf(rounds, i + 1) == EventsOf(rounds, i) + ChangeEvent(rounds, i) + ConnectedEvent(rounds, i)
    ensures EventsOf(rounds, i) + ChangeEvent(rounds, i) + [] == EventsOf(rounds, i) + ChangeEvent(rounds, i)
    ensures ConnectedBefore(rounds, i) || rounds[i].mdConnected != Success(true) ==> ConnectedEvent(rounds, i) == []
    ensures !ConnectedBefore(rounds, i) && rounds[i].mdConnected == Success(true) && rounds[i].mdToken.Success? ==>
              ConnectedEvent(rounds, i) == [Connected(rounds[i].mdToken.value)]
    ensures AllComplete(rounds, i) && Completes(rounds, i) ==> AllComplete(rounds, i + 1)
  {}

  // ----- what a run sends

  function ChangeCount(events: seq<UiEvent>): nat {
    if events == [] then 0
    else ChangeCount(events[..|events| - 1]) + if events[|events| - 1].CatalogChanged? then 1 else 0
  }

  function Connections(events: seq<UiEvent>): seq<string> {
    if events == [] then []
    else
      Connections(events[..|events| - 1])
      + if events[|events| - 1].Connected? then [events[|events| - 1].token] else []
  }

  /** The places where a list of snapshots differs from the one before, the first being compared with `previous`. */
  function Differences(previous: Versions, snapshots: seq<Versions>): nat
    decreases |snapshots|
  {
    if snapshots == [] then 0
    else (if snapshots[0] != previous then 1 else 0) + Differences(snapshots[0], snapshots[1..])
  }

  lemma {:induction false} DifferencesAppend(previous: Versions, snapshots: seq<Versions>, last: Versions)
    ensures Differences(previous, snapshots + [last])
         == Differences(previous, snapshots)
            + if last != (if snapshots == [] then previous else snapshots[|snapshots| - 1]) then 1 else 0
    decreases |snapshots|
  {
    if snapshots == [] {
      assert snapshots + [last] == [last];
      assert Differences(last, []) == 0;
    } else {
      assert (snapshots + [last])[1..] == snapshots[1..] + [last];
      DifferencesAppend(snapshots[0], snapshots[1..], last);
    }
  }

  function Snapshots(rounds: seq<Round>, n: nat): (s: seq<Versions>)
    requires n <= |rounds|
    ensures |s| == n && forall i :: 0 <= i < n ==> s[i] == Snapshot(rounds[i].databases)
  {
    if n == 0 then [] else Snapshots(rounds, n - 1) + [Snapshot(rounds[n - 1].databases)]
  }

  /** Change events are as many as the adjacent snapshots that differ, starting from the empty one. */
  lemma {:induction false} ChangesAreDifferences(rounds: seq<Round>, n: nat)
    requires n <= |rounds| && forall i :: 0 <= i < n ==> Consistent(rounds[i].databases)
    ensures ChangeCount(EventsOf(rounds, n)) == Differences(map[], Snapshots(rounds, n))
  {
    hide EventsOf, ChangeCount, Snapshot, Differences, Consistent;
    if n == 0 {
      NoDifferences(rounds);
    } else {
      ChangesAreDifferences(rounds, n - 1);
      DifferencesAppend(map[], Snapshots(rounds, n - 1), Snapshot(rounds[n - 1].databases));
      LastRound(rounds, n);
    }
  }

  lemma NoDifferences(rounds: seq<Round>)
    ensures ChangeCount(EventsOf(rounds, 0)) == Differences(map[], [])
  {}

  lemma CountAppend(events: seq<UiEvent>, e: UiEvent)
    ensures ChangeCount(events + [e]) == ChangeCount(events) + if e.CatalogChanged? then 1 else 0
    ensures Connections(events + [e]) == Connections(events) + if e.Connected? then [e.token] else []
  {
    assert (events + [e])[..|events|] == events;
  }

  lemma LastRound(rounds: seq<Round>, n: nat)
    requires 0 < n <= |rounds|
    ensures ChangeCount(EventsOf(rounds, n))
         == ChangeCount(EventsOf(rounds, n - 1)) + if Changes(rounds, n - 1) then 1 else 0
    ensures Connections(EventsOf(rounds, n))
         == Connections(EventsOf(rounds, n - 1))
            + if ConnectedEvent(rounds, n - 1) == [] then [] else [ConnectedEvent(rounds, n - 1)[0].token]
  {
    hide ChangeCount, Connections, Changes, ConnectedBefore;
    var before := EventsOf(rounds, n - 1);
    CountAppend(before, CatalogChanged);
    var changed := before + ChangeEvent(rounds, n - 1);
    if ConnectedEvent(rounds, n - 1) != [] { CountAppend(changed, ConnectedEvent(rounds, n - 1)[0]); }
    assert changed + [] == changed && before + [] == before;
  }

  predicate FirstConnected(rounds: seq<Round>, i: nat)
    requires i < |rounds|
  {
    rounds[i].mdConnected == Success(true) && !ConnectedBefore(rounds, i) && rounds[i].mdToken.Success?
  }

  /** The connected events of the first `n` rounds are one, with the token of round `i`. */
  predicate IsConnection(rounds: seq<Round>, n: nat, i: nat)
    requires i < n <= |rounds|
  {
    rounds[i].mdToken.Success? && Connections(EventsOf(rounds, n)) == [rounds[i].mdToken.value]
  }

  /** A run sends one connected event, with the token of the first round that sees a connection, or none if none does. */
  lemma {:induction false} ConnectsOnce(rounds: seq<Round>, n: nat)
    requires n <= |rounds| && AllComplete(rounds, n)
    ensures !ConnectedBefore(rounds, n) ==> Connections(EventsOf(rounds, n)) == []
    ensures ConnectedBefore(rounds, n) ==>
              exists i :: 0 <= i < n && FirstConnected(rounds, i) && IsConnection(rounds, n, i)
  {
    hide EventsOf, Connections, Readable;
    if n == 0 {
      NoConnection(rounds);
    } else {
      assert Completes(rounds, n - 1);
      ConnectsOnce(rounds, n - 1);
      LastRound(rounds, n);
      if ConnectedBefore(rounds, n - 1) {
        var i :| 0 <= i < n - 1 && FirstConnected(rounds, i) && IsConnection(rounds, n - 1, i);
        assert IsConnection(rounds, n, i);
      } else if ConnectedBefore(rounds, n) {
        assert FirstConnected(rounds, n - 1) && IsConnection(rounds, n, n - 1);
      }
    }
  }

  lemma NoConnection(rounds: seq<Round>)
    ensures Connections(EventsOf(rounds, 0)) == []
  {}
}
