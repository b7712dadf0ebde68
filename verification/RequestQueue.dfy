/**
 * The client's queue of requests: one request in flight at a time, in order, with cancellation.
 *
 * The queue's own state is its list of entries. Beside it stands what the queue does to the world: the requests it
 * sends, and the calls that resolve or reject promises, of which the first on a promise settles it.
 */
module RequestQueue {
  import opened Wrappers

  type Id = nat

  datatype Entry<P> = Entry(id: Id, request: P, canceled: bool)

  datatype Settlement<B> = Resolved(buffer: B) | Rejected(reason: string) | Canceled(message: string)

  /** A call on the promise of an entry. */
  datatype Call<B> = Call(id: Id, settlement: Settlement<B>)

  datatype World<B> = World(
    wire: seq<Id>,          // requests sent, in order
    inFlight: set<Id>,      // requests sent whose response has not arrived
    calls: seq<Call<B>>,    // calls that resolve or reject promises, in order
    enqueued: seq<Id>,      // entries ever put in the queue, in order
    dropped: set<Id>,       // entries canceled before they came to the front
    warnings: nat)          // times that a response did not fit the queue

  datatype State<P, B> = State(entries: seq<Entry<P>>, world: World<B>)

  datatype Event<P, B> =
    | Enqueue(id: Id, request: P)
    | Cancel(id: Id, message: Option<string>)
    | Response(id: Id, response: Result<B, string>)

  // ----- what each event does

  function IndexOf<P>(entries: seq<Entry<P>>, id: Id): (k: nat)
    ensures k <= |entries| && (k < |entries| ==> entries[k].id == id)
    ensures forall j :: 0 <= j < k ==> entries[j].id != id
  {
    if entries == [] || entries[0].id == id then 0 else 1 + IndexOf(entries[1..], id)
  }

  function Send<B>(w: World<B>, id: Id): World<B> {
    w.(wire := w.wire + [id], inFlight := w.inFlight + {id})
  }

  function WithCall<B>(w: World<B>, id: Id, s: Settlement<B>): World<B> {
    w.(calls := w.calls + [Call(id, s)])
  }

  function SettlementOf<B>(response: Result<B, string>): Settlement<B> {
    match response
    case Success(buffer) => Resolved(buffer)
    case Failure(reason) => Rejected(reason)
  }

  /** The entries from the first one that is not canceled. */
  function WithoutCanceledFront<P>(entries: seq<Entry<P>>): seq<Entry<P>> {
    if entries != [] && entries[0].canceled then WithoutCanceledFront(entries[1..]) else entries
  }

  function SendNext<P, B>(s: State<P, B>): State<P, B> {
    var left := WithoutCanceledFront(s.entries);
    State(left, if left == [] then s.world else Send(s.world, left[0].id))
  }

  function Step<P, B>(s: State<P, B>, e: Event<P, B>): State<P, B> {
    match e
    case Enqueue(id, request) =>
      var w := s.world.(enqueued := s.world.enqueued + [id]);
      State(s.entries + [Entry(id, request, false)], if s.entries == [] then Send(w, id) else w)
    case Cancel(id, message) =>
      var k := IndexOf(s.entries, id);
      if k == |s.entries| then s
      else
        var w := WithCall(s.world, id, Canceled(if message.Some? then message.value else "query was canceled"));
        State(s.entries[k := s.entries[k].(canceled := true)], if k == 0 then w else w.(dropped := w.dropped + {id}))
    case Response(id, response) =>
      var w := s.world.(inFlight := s.world.inFlight - {id});
      if s.entries == [] || s.entries[0].id != id then State(s.entries, w.(warnings := w.warnings + 1))
      else if s.entries[0].canceled then SendNext(State(s.entries[1..], w))
      else
        SendNext(State(s.entries[1..], WithCall(w, id, SettlementOf(response))))
  }

  /** Ids are fresh, and a response arrives once for each request in flight. */
  predicate Possible<P, B>(s: State<P, B>, e: Event<P, B>) {
    match e
    case Enqueue(id, _) => id !in s.world.enqueued
    case Cancel(_, _) => true
    case Response(id, _) => id in s.world.inFlight
  }

  function Initial<P, B>(): State<P, B> {
    State([], World([], {}, [], [], {}, 0))
  }

  ghost predicate PossibleRun<P, B>(s: State<P, B>, events: seq<Event<P, B>>)
    decreases |events|
  {
    events == [] || (Possible(s, events[0]) && PossibleRun(Step(s, events[0]), events[1..]))
  }

  function Run<P, B>(s: State<P, B>, events: seq<Event<P, B>>): State<P, B>
    decreases |events|
  {
    if events == [] then s else Run(Step(s, events[0]), events[1..])
  }

  // ----- the queue itself

  class RequestQueue<P, B> {
    var entries: seq<Entry<P>>
    ghost var world: World<B>

    ghost function Now(): State<P, B>
      reads this
    {
      State(entries, world)
    }

    constructor ()
      ensures Now() == Initial()
    {
      entries := [];
      world := World([], {}, [], [], {}, 0);
    }

    method InternalEnqueue(id: Id, request: P)
      modifies this
      ensures Now() == Step(old(Now()), Enqueue(id, request))
    {
      entries := entries + [Entry(id, request, false)];
      world := world.(enqueued := world.enqueued + [id]);
      if |entries| == 1 { SendRequest(entries[0]); }
    }

    method Cancel(id: Id, errorMessage: Option<string>)
      modifies this
      ensures Now() == Step(old(Now()), Event.Cancel(id, errorMessage))
    {
      var index := 0;
      while index < |entries| && entries[index].id != id
        invariant 0 <= index <= |entries| && forall j :: 0 <= j < index ==> entries[j].id != id
      {
        index := index + 1;
      }
      IndexIs(entries, id, index);
      if index < |entries| {
        entries := entries[index := entries[index].(canceled := true)];
        world := WithCall(world, id, Canceled(if errorMessage.Some? then errorMessage.value else "query was canceled"));
        if index > 0 { world := world.(dropped := world.dropped + {id}); }
      }
    }

    method HandleResponse(entryId: Id, response: Result<B, string>)
      modifies this
      ensures Now() == Step(old(Now()), Response(entryId, response))
      ensures world.calls == old(world.calls) + (
        if old(entries == [] || entries[0].id != entryId || entries[0].canceled) then []
        else if response.Success? then [Call(entryId, Resolved(response.value))]
        else [Call(entryId, Rejected(response.error))])
    {
      world := world.(inFlight := world.inFlight - {entryId});
      if |entries| == 0 || entries[0].id != entryId {
        world := world.(warnings := world.warnings + 1);
        return;
      }
      var entry := entries[0];
      entries := entries[1..];
      if !entry.canceled {
        match response
        case Success(buffer) => world := WithCall(world, entryId, Resolved(buffer));
        case Failure(reason) => world := WithCall(world, entryId, Rejected(reason));
      }
      SendNextInQueue();
    }

    method SendNextInQueue()
      modifies this
      ensures Now() == SendNext(old(Now()))
    {
      while |entries| > 0 && entries[0].canceled
        invariant WithoutCanceledFront(entries) == WithoutCanceledFront(old(entries)) && world == old(world)
      {
        entries := entries[1..];
      }
      if |entries| > 0 { SendRequest(entries[0]); }
    }

    method SendRequest(entry: Entry<P>)
      modifies this`world
      ensures world == Send(old(world), entry.id)
    {
      world := Send(world, entry.id);
    }

    method IsCurrent(id: Id) returns (current: bool)
      ensures current <==> entries != [] && entries[0].id == id
    {
      current := |entries| > 0 && entries[0].id == id;
    }
  }

  lemma {:induction false} IndexIs<P>(entries: seq<Entry<P>>, id: Id, k: nat)
    requires k <= |entries| && (k < |entries| ==> entries[k].id == id)
    requires forall j :: 0 <= j < k ==> entries[j].id != id
    ensures IndexOf(entries, id) == k
    decreases k
  {}

  // ----- what every reachable state is like

  ghost predicate Queued<P>(entries: seq<Entry<P>>, id: Id) {
    exists e <- entries :: e.id == id
  }

  ghost predicate Called<B>(w: World<B>, id: Id) {
    exists c <- w.calls :: c.id == id
  }

  ghost predicate OnlyCanceled<B>(w: World<B>, id: Id) {
    forall c <- w.calls :: c.id == id ==> c.settlement.Canceled?
  }

  /** One request is in flight, the front entry, exactly when the queue is not empty; nothing behind it has been sent. */
  ghost predicate OneInFlight<P, B>(s: State<P, B>) {
    && s.world.inFlight == (if s.entries == [] then {} else {s.entries[0].id})
    && (s.entries != [] ==> s.entries[0].id in s.world.wire)
    && forall k :: 0 < k < |s.entries| ==> s.entries[k].id !in s.world.wire
  }

  /** A queued entry is rejected when it is canceled, and otherwise still pending. */
  ghost predicate PendingOrCanceled<P, B>(s: State<P, B>) {
    forall e <- s.entries ::
      if e.canceled then Called(s.world, e.id) && OnlyCanceled(s.world, e.id) else !Called(s.world, e.id)
  }

  /** An entry that has left the queue has been settled. */
  ghost predicate LeftSettled<P, B>(s: State<P, B>) {
    forall id <- s.world.enqueued :: Queued(s.entries, id) || Called(s.world, id)
  }

  /** A call that is not a cancellation is the only call on its promise. */
  ghost predicate SettledOnce<B>(w: World<B>) {
    forall i, j :: 0 <= i < j < |w.calls| && w.calls[i].id == w.calls[j].id ==>
                     w.calls[i].settlement.Canceled? && w.calls[j].settlement.Canceled?
  }

  ghost predicate Distinct(ids: seq<Id>) {
    forall i, j :: 0 <= i < j < |ids| ==> ids[i] != ids[j]
  }

  ghost predicate DistinctIds<P>(entries: seq<Entry<P>>) {
    forall i, j :: 0 <= i < j < |entries| ==> entries[i].id != entries[j].id
  }

  ghost predicate Known<P, B>(s: State<P, B>) {
    && DistinctIds(s.entries) && Distinct(s.world.enqueued)
    && (forall e <- s.entries :: e.id in s.world.enqueued)
    && (forall id <- s.world.wire :: id in s.world.enqueued)
    && (forall c <- s.world.calls :: c.id in s.world.enqueued)
    && (forall id <- s.world.dropped :: id in s.world.enqueued)
  }

  function Kept(ids: seq<Id>, dropped: set<Id>): seq<Id> {
    if ids == [] then []
    else Kept(ids[..|ids| - 1], dropped) + (if ids[|ids| - 1] in dropped then [] else [ids[|ids| - 1]])
  }

  function Waiting<P>(entries: seq<Entry<P>>): seq<Id> {
    if entries == [] then []
    else (if entries[0].canceled then [] else [entries[0].id]) + Waiting(entries[1..])
  }

  function Behind<P>(entries: seq<Entry<P>>): seq<Entry<P>> {
    if entries == [] then [] else entries[1..]
  }

  /** What has been sent, followed by what waits to be sent, is what was enqueued without what was dropped. */
  ghost predicate InOrder<P, B>(s: State<P, B>) {
    && Kept(s.world.enqueued, s.world.dropped) == s.world.wire + Waiting(Behind(s.entries))
    && DroppedAreCanceled(Behind(s.entries), s.world.dropped)
  }

  ghost predicate DroppedAreCanceled<P>(unsent: seq<Entry<P>>, dropped: set<Id>) {
    forall e <- unsent :: e.canceled <==> e.id in dropped
  }

  ghost predicate Settling<P, B>(s: State<P, B>) {
    PendingOrCanceled(s) && LeftSettled(s) && SettledOnce(s.world)
  }

  ghost predicate Inv<P, B>(s: State<P, B>) {
    Known(s) && OneInFlight(s) && Settling(s) && InOrder(s) && s.world.warnings == 0
  }

  // ----- lists of ids

  function Remove(ids: seq<Id>, x: Id): seq<Id> {
    if ids == [] then [] else Unless(ids[0], x) + Remove(ids[1..], x)
  }

  function Unless(id: Id, x: Id): seq<Id> {
    if id == x then [] else [id]
  }

  lemma {:induction false} RemoveConcat(a: seq<Id>, b: seq<Id>, x: Id)
    ensures Remove(a + b, x) == Remove(a, x) + Remove(b, x)
  {
    if a == [] {
      assert a + b == b;
    } else {
      RemoveConcat(a[1..], b, x);
      assert (a + b)[1..] == a[1..] + b;
      Joined(Unless(a[0], x), Remove(a[1..], x), Remove(b, x));
    }
  }

  lemma Joined(a: seq<Id>, b: seq<Id>, c: seq<Id>)
    ensures a + (b + c) == (a + b) + c
  {}

  lemma {:induction false} RemoveAbsent(ids: seq<Id>, x: Id)
    requires x !in ids
    ensures Remove(ids, x) == ids
  {
    if ids != [] { RemoveAbsent(ids[1..], x); }
  }

  lemma {:induction false} KeptRemove(ids: seq<Id>, dropped: set<Id>, x: Id)
    ensures Kept(ids, dropped + {x}) == Remove(Kept(ids, dropped), x)
  {
    if ids != [] {
      var n := |ids| - 1;
      KeptRemove(ids[..n], dropped, x);
      RemoveConcat(Kept(ids[..n], dropped), if ids[n] in dropped then [] else [ids[n]], x);
      assert Remove([ids[n]], x) == Unless(ids[n], x);
    }
  }

  lemma {:induction false} KeptFrom(ids: seq<Id>, dropped: set<Id>)
    ensures forall id <- Kept(ids, dropped) :: id in ids && id !in dropped
  {
    if ids != [] { KeptFrom(ids[..|ids| - 1], dropped); }
  }

  lemma {:induction false} WaitingAppend<P>(entries: seq<Entry<P>>, e: Entry<P>)
    ensures Waiting(entries + [e]) == Waiting(entries) + (if e.canceled then [] else [e.id])
  {
    if entries == [] {
      assert entries + [e] == [e];
    } else {
      WaitingAppend(entries[1..], e);
      assert (entries + [e])[1..] == entries[1..] + [e];
    }
  }

  lemma {:induction false} WaitingAreQueued<P>(entries: seq<Entry<P>>)
    ensures forall id <- Waiting(entries) :: Queued(entries, id)
  {
    if entries != [] {
      WaitingAreQueued(entries[1..]);
      forall id <- Waiting(entries)
        ensures Queued(entries, id)
      {
        if id in Waiting(entries[1..]) {
          var e :| e in entries[1..] && e.id == id;
          assert e in entries;
        } else {
          assert entries[0] in entries && entries[0].id == id;
        }
      }
    }
  }

  function CancelAt<P>(entries: seq<Entry<P>>, k: nat): seq<Entry<P>>
    requires k < |entries|
  {
    entries[k := entries[k].(canceled := true)]
  }

  lemma {:induction false} WaitingCancel<P>(entries: seq<Entry<P>>, k: nat)
    requires k < |entries| && DistinctIds(entries)
    ensures Waiting(CancelAt(entries, k)) == Remove(Waiting(entries), entries[k].id)
    decreases k
  {
    var x, rest := entries[k].id, entries[1..];
    RemoveConcat(if entries[0].canceled then [] else [entries[0].id], Waiting(rest), x);
    assert Remove([entries[0].id], x) == Unless(entries[0].id, x);
    if k == 0 {
      assert CancelAt(entries, k)[1..] == rest;
      WaitingAreQueued(rest);
      RemoveAbsent(Waiting(rest), x);
    } else {
      WaitingCancel(rest, k - 1);
      assert CancelAt(entries, k)[1..] == CancelAt(rest, k - 1);
    }
  }

  // ----- every event keeps the invariant

  lemma EnqueueKeeps<P, B>(s: State<P, B>, id: Id, request: P)
    requires Inv(s) && id !in s.world.enqueued
    ensures Inv(Step(s, Enqueue(id, request)))
  {
    var s' := Step(s, Enqueue(id, request));
    hide Kept, Waiting, Settling, InOrder;
    assert Known(s');
    EnqueueSettling(s, s', id, request);
    EnqueueOrder(s, id, request);
  }

  lemma EnqueueSettling<P, B>(s: State<P, B>, s': State<P, B>, id: Id, request: P)
    requires Known(s) && Settling(s) && id !in s.world.enqueued && s'.entries == s.entries + [Entry(id, request, false)]
    requires s'.world.calls == s.world.calls && s'.world.enqueued == s.world.enqueued + [id]
    ensures Settling(s')
  {}

  lemma EnqueueOrder<P, B>(s: State<P, B>, id: Id, request: P)
    requires InOrder(s) && id !in s.world.dropped
    ensures InOrder(Step(s, Enqueue(id, request)))
  {
    hide Kept, Waiting, DroppedAreCanceled;
    var e, behind, dropped := Entry(id, request, false), Behind(s.entries), s.world.dropped;
    KeptAppend(s.world.enqueued, id, dropped);
    if s.entries == [] {
      assert Behind(s.entries + [e]) == behind == [];
      NoneWaiting<P>(s.world.wire, id);
    } else {
      assert Behind(s.entries + [e]) == behind + [e];
      WaitingAppend(behind, e);
      Joined(s.world.wire, Waiting(behind), [id]);
      assert DroppedAreCanceled(behind + [e], dropped) by { StillCanceled(behind, e, dropped); }
    }
  }

  lemma KeptAppend(ids: seq<Id>, id: Id, dropped: set<Id>)
    requires id !in dropped
    ensures Kept(ids + [id], dropped) == Kept(ids, dropped) + [id]
  {
    assert (ids + [id])[..|ids|] == ids;
  }

  lemma NoneWaiting<P>(wire: seq<Id>, id: Id)
    ensures (wire + Waiting<P>([])) + [id] == (wire + [id]) + Waiting<P>([])
  {}

  lemma StillCanceled<P>(unsent: seq<Entry<P>>, e: Entry<P>, dropped: set<Id>)
    requires DroppedAreCanceled(unsent, dropped) && (e.canceled <==> e.id in dropped)
    ensures DroppedAreCanceled(unsent + [e], dropped)
  {}

  lemma CancelKeeps<P, B>(s: State<P, B>, id: Id, message: Option<string>)
    requires Inv(s)
    ensures Inv(Step(s, Event.Cancel(id, message)))
  {
    hide Kept, Waiting, Called, OnlyCanceled;
    var k := IndexOf(s.entries, id);
    if k < |s.entries| {
      var s' := Step(s, Event.Cancel(id, message));
      assert s'.entries == CancelAt(s.entries, k);
      assert s.entries[k] in s.entries;
      assert Known(s') by { CancelKnown(s, s', k); }
      assert OneInFlight(s');
      var call := s'.world.calls[|s.world.calls|];
      CancelSettling(s, s', k, call);
      if k > 0 {
        CancelOrder(s, s', k);
      } else {
        assert Behind(s'.entries) == Behind(s.entries);
      }
    }
  }

  lemma CancelKnown<P, B>(s: State<P, B>, s': State<P, B>, k: nat)
    requires Known(s) && k < |s.entries| && s'.entries == CancelAt(s.entries, k)
    requires s'.world.enqueued == s.world.enqueued && s'.world.wire == s.world.wire
    requires exists c: Call<B> :: s'.world.calls == s.world.calls + [c] && c.id == s.entries[k].id
    requires s'.world.dropped <= s.world.dropped + {s.entries[k].id}
    ensures Known(s')
  {}

  lemma CancelSettling<P, B>(s: State<P, B>, s': State<P, B>, k: nat, call: Call<B>)
    requires Known(s) && Settling(s) && k < |s.entries| && s'.entries == CancelAt(s.entries, k)
    requires call.id == s.entries[k].id && call.settlement.Canceled?
    requires s'.world.calls == s.world.calls + [call] && s'.world.enqueued == s.world.enqueued
    ensures Settling(s')
  {
    hide Kept, Waiting, Distinct;
    var w, w' := s.world, s'.world;
    assert s.entries[k] in s.entries;
    assert OnlyCanceled(w, call.id);
    assert forall c <- w'.calls :: c in w.calls || c == call;
    assert forall x :: Called(w', x) <==> Called(w, x) || x == call.id by {
      assert forall c <- w.calls :: c in w'.calls;
      assert call in w'.calls;
    }
    assert forall x :: OnlyCanceled(w, x) ==> OnlyCanceled(w', x);
    forall e <- s'.entries
      ensures if e.canceled then Called(w', e.id) && OnlyCanceled(w', e.id) else !Called(w', e.id)
    {
      var j :| 0 <= j < |s'.entries| && s'.entries[j] == e;
      assert s.entries[j] in s.entries;
    }
    forall x <- w'.enqueued
      ensures Queued(s'.entries, x) || Called(w', x)
    {
      QueuedStill(s.entries, k, x);
    }
    assert SettledOnce(w') by {
      forall i, j | 0 <= i < j < |w'.calls| && w'.calls[i].id == w'.calls[j].id
        ensures w'.calls[i].settlement.Canceled? && w'.calls[j].settlement.Canceled?
      {
        assert w'.calls[i] == w.calls[i] && w.calls[i] in w.calls;
      }
    }
  }

  lemma QueuedStill<P>(entries: seq<Entry<P>>, k: nat, x: Id)
    requires k < |entries|
    ensures Queued(entries, x) ==> Queued(CancelAt(entries, k), x)
  {
    if Queued(entries, x) {
      var j :| 0 <= j < |entries| && entries[j].id == x;
      assert CancelAt(entries, k)[j] in CancelAt(entries, k);
    }
  }

  lemma CancelOrder<P, B>(s: State<P, B>, s': State<P, B>, k: nat)
    requires InOrder(s) && OneInFlight(s) && DistinctIds(s.entries) && 0 < k < |s.entries|
    requires s'.entries == CancelAt(s.entries, k) && s'.world.enqueued == s.world.enqueued
    requires s'.world.wire == s.world.wire && s'.world.dropped == s.world.dropped + {s.entries[k].id}
    ensures InOrder(s')
  {
    var x, rest := s.entries[k].id, Behind(s.entries);
    assert Behind(s'.entries) == CancelAt(rest, k - 1);
    assert DistinctIds(rest);
    WaitingCancel(rest, k - 1);
    KeptRemove(s.world.enqueued, s.world.dropped, x);
    RemoveConcat(s.world.wire, Waiting(rest), x);
    RemoveAbsent(s.world.wire, x);
    CancelDropped(rest, k - 1, s.world.dropped);
  }

  lemma CancelDropped<P>(unsent: seq<Entry<P>>, k: nat, dropped: set<Id>)
    requires k < |unsent| && DistinctIds(unsent) && DroppedAreCanceled(unsent, dropped)
    ensures DroppedAreCanceled(CancelAt(unsent, k), dropped + {unsent[k].id})
  {}

  /** Between the arrival of a response and the next request: nothing is in flight, and nothing queued has been sent. */
  ghost predicate Ready<P, B>(s: State<P, B>) {
    && Known(s) && Settling(s) && s.world.warnings == 0
    && s.world.inFlight == {} && (forall e <- s.entries :: e.id !in s.world.wire)
    && Kept(s.world.enqueued, s.world.dropped) == s.world.wire + Waiting(s.entries)
    && DroppedAreCanceled(s.entries, s.world.dropped)
  }

  lemma {:induction false} SendNextKeeps<P, B>(s: State<P, B>)
    requires Ready(s)
    ensures Inv(SendNext(s))
    decreases |s.entries|
  {
    hide Kept, Called, OnlyCanceled, Distinct;
    if s.entries != [] {
      if s.entries[0].canceled {
        DropFrontKeeps(s);
        SendNextKeeps(State(s.entries[1..], s.world));
      } else {
        SendFrontKeeps(s);
      }
    }
  }

  lemma SendFrontKeeps<P, B>(s: State<P, B>)
    requires Ready(s) && s.entries != [] && !s.entries[0].canceled
    ensures Inv(State(s.entries, Send(s.world, s.entries[0].id)))
  {
    hide Kept, Called, OnlyCanceled, Distinct;
    var front := s.entries[0];
    var s' := State(s.entries, Send(s.world, front.id));
    assert front in s.entries;
    assert Known(s');
    assert Settling(s') by { SameCalls(s, s'); }
    assert OneInFlight(s');
    assert Waiting(s.entries) == [front.id] + Waiting(Behind(s.entries));
    Joined(s.world.wire, [front.id], Waiting(Behind(s.entries)));
    assert InOrder(s');
  }

  lemma SameCalls<P, B>(s: State<P, B>, s': State<P, B>)
    requires Settling(s) && s'.entries == s.entries && s'.world.calls == s.world.calls
    requires s'.world.enqueued == s.world.enqueued
    ensures Settling(s')
  {
    assert forall x :: Called(s'.world, x) <==> Called(s.world, x);
    assert forall x :: OnlyCanceled(s'.world, x) <==> OnlyCanceled(s.world, x);
  }

  lemma DropFrontKeeps<P, B>(s: State<P, B>)
    requires Ready(s) && s.entries != [] && s.entries[0].canceled
    ensures Ready(State(s.entries[1..], s.world))
  {
    hide Kept, OnlyCanceled, Distinct;
    var s' := State(s.entries[1..], s.world);
    assert s.entries[0] in s.entries;
    assert Known(s');
    forall x <- s.world.enqueued
      ensures Queued(s'.entries, x) || Called(s.world, x)
    {
      if Queued(s.entries, x) { QueuedBehind(s.entries, x); }
    }
  }

  lemma QueuedBehind<P>(entries: seq<Entry<P>>, x: Id)
    requires Queued(entries, x)
    ensures entries[0].id == x || Queued(entries[1..], x)
  {}

  lemma ResponseKeeps<P, B>(s: State<P, B>, id: Id, response: Result<B, string>)
    requires Inv(s) && id in s.world.inFlight
    ensures s.entries != [] && s.entries[0].id == id
    ensures Inv(Step(s, Response(id, response)))
  {
    hide Kept, Waiting, Called, OnlyCanceled, Distinct, Settling;
    var front := s.entries[0];
    var w := s.world.(inFlight := s.world.inFlight - {id});
    var settlement := SettlementOf(response);
    var mid := State(s.entries[1..], if front.canceled then w else WithCall(w, id, settlement));
    ResponseSettling(s, mid, settlement);
    assert Ready(mid) by {
      assert front in s.entries;
      assert Known(mid);
      forall e <- mid.entries
        ensures e.id !in mid.world.wire
      {
        var j :| 0 <= j < |mid.entries| && mid.entries[j] == e;
        assert e == s.entries[j + 1];
      }
      assert Behind(s.entries) == mid.entries;
    }
    SendNextKeeps(mid);
  }

  lemma ResponseSettling<P, B>(s: State<P, B>, mid: State<P, B>, settlement: Settlement<B>)
    requires Inv(s) && s.entries != [] && mid.entries == s.entries[1..] && mid.world.enqueued == s.world.enqueued
    requires mid.world.calls
          == if s.entries[0].canceled then s.world.calls else s.world.calls + [Call(s.entries[0].id, settlement)]
    ensures Settling(mid)
  {
    hide Kept, Waiting, Distinct, Called, OnlyCanceled, SettledOnce, InOrder, OneInFlight;
    var front, w, w' := s.entries[0], s.world, mid.world;
    assert front in s.entries;
    ResponseCalls(w, w', front, settlement);
    forall e <- mid.entries
      ensures if e.canceled then Called(w', e.id) && OnlyCanceled(w', e.id) else !Called(w', e.id)
    {
      var j :| 0 <= j < |mid.entries| && mid.entries[j] == e;
      assert e == s.entries[j + 1] && e.id != front.id;
    }
    forall x <- w'.enqueued
      ensures Queued(mid.entries, x) || Called(w', x)
    {
      if Queued(s.entries, x) { QueuedBehind(s.entries, x); }
    }
  }

  /** The calls after the response to `front`. */
  lemma ResponseCalls<P, B>(w: World<B>, w': World<B>, front: Entry<P>, settlement: Settlement<B>)
    requires SettledOnce(w) && (Called(w, front.id) <==> front.canceled)
    requires w'.calls == if front.canceled then w.calls else w.calls + [Call(front.id, settlement)]
    ensures SettledOnce(w') && Called(w', front.id)
    ensures forall x :: x != front.id ==> (Called(w', x) <==> Called(w, x)) && (OnlyCanceled(w', x) <==> OnlyCanceled(w, x))
  {}

  lemma StepKeeps<P, B>(s: State<P, B>, e: Event<P, B>)
    requires Inv(s) && Possible(s, e)
    ensures Inv(Step(s, e))
  {
    match e
    case Enqueue(id, request) => EnqueueKeeps(s, id, request);
    case Cancel(id, message) => CancelKeeps(s, id, message);
    case Response(id, response) => ResponseKeeps(s, id, response);
  }

  /** The invariant holds after every run, under any interleaving of enqueues, cancellations and responses. */
  lemma {:induction false} RunKeeps<P, B>(s: State<P, B>, events: seq<Event<P, B>>)
    requires Inv(s) && PossibleRun(s, events)
    ensures Inv(Run(s, events))
    decreases |events|
  {
    hide Inv, Step, Possible;
    if events != [] {
      StepKeeps(s, events[0]);
      RunKeeps(Step(s, events[0]), events[1..]);
    }
  }

  /** Requests reach the wire in the order they were enqueued, without exactly those canceled before the front. */
  lemma WireOrder<P, B>(events: seq<Event<P, B>>)
    requires PossibleRun(Initial(), events)
    ensures var s := Run(Initial(), events);
            && Kept(s.world.enqueued, s.world.dropped) == s.world.wire + Waiting(Behind(s.entries))
            && (s.entries == [] ==> s.world.wire == Kept(s.world.enqueued, s.world.dropped))
            && forall id <- s.world.dropped :: id !in s.world.wire
  {
    var start: State<P, B> := Initial();
    assert Inv(start);
    RunKeeps(start, events);
    var s := Run(start, events);
    KeptFrom(s.world.enqueued, s.world.dropped);
    assert forall id <- s.world.wire :: id in Kept(s.world.enqueued, s.world.dropped);
  }

  /** In every reachable state the two branches of a response that would warn cannot be taken by a response to come. */
  lemma ResponsesFit<P, B>(events: seq<Event<P, B>>)
    requires PossibleRun(Initial(), events)
    ensures var s := Run(Initial(), events);
            && s.world.warnings == 0
            && (forall id :: id in s.world.inFlight <==> s.entries != [] && s.entries[0].id == id)
            && |s.world.inFlight| == (if s.entries == [] then 0 else 1)
  {
    var start: State<P, B> := Initial();
    assert Inv(start);
    RunKeeps(start, events);
  }

  /** After every run, an entry with a new id can be enqueued, any id canceled, and the front, if any, can get a response. */
  lemma {:induction false} AlwaysPossible<P, B>(events: seq<Event<P, B>>, id: Id, request: P, message: Option<string>,
                                                response: Result<B, string>)
    requires PossibleRun(Initial(), events)
    ensures var s := Run(Initial(), events);
            && PossibleRun(Initial(), events + [Event.Cancel(id, message)])
            && (id !in s.world.enqueued ==> PossibleRun(Initial(), events + [Event.Enqueue(id, request)]))
            && (s.entries != [] ==> PossibleRun(Initial(), events + [Event.Response(s.entries[0].id, response)]))
  {
    var start: State<P, B> := Initial();
    ResponsesFit(events);
    var s := Run(start, events);
    hide Run, Initial;
    OneMore(start, events, Event.Cancel(id, message));
    OneMore(start, events, Event.Enqueue(id, request));
    if s.entries != [] { OneMore(start, events, Event.Response(s.entries[0].id, response)); }
  }

  lemma {:induction false} OneMore<P, B>(start: State<P, B>, events: seq<Event<P, B>>, e: Event<P, B>)
    requires PossibleRun(start, events)
    ensures Possible(Run(start, events), e) <==> PossibleRun(start, events + [e])
  {
    hide Run, Step, Possible;
    RunConcat(start, events, [e]);
    assert [e][0] == e && [e][1..] == [];
  }

  // ----- what settles a promise

  function CallsOn<B>(calls: seq<Call<B>>, id: Id): seq<Settlement<B>> {
    if calls == [] then []
    else CallsOn(calls[..|calls| - 1], id) + (if calls[|calls| - 1].id == id then [calls[|calls| - 1].settlement] else [])
  }

  /** The call was made by an event of the run: the response that it passes on, or a cancellation with its message. */
  ghost predicate MadeBy<P, B>(events: seq<Event<P, B>>, c: Call<B>) {
    match c.settlement
    case Resolved(buffer) => Response(c.id, Success(buffer)) in events
    case Rejected(reason) => Response(c.id, Failure(reason)) in events
    case Canceled(message) =>
      || Event.Cancel(c.id, Some(message)) in events
      || (message == "query was canceled" && Event.Cancel(c.id, None) in events)
  }

  lemma {:induction false} CallsOnCount<B>(w: World<B>, calls: seq<Call<B>>, id: Id)
    requires SettledOnce(w) && calls <= w.calls
    ensures CallsOn(calls, id) == [] <==> forall c <- calls :: c.id != id
    ensures |CallsOn(calls, id)| > 1 ==> forall x <- CallsOn(calls, id) :: x.Canceled?
    ensures forall x <- CallsOn(calls, id) :: Call(id, x) in calls
  {
    if calls != [] {
      var n := |calls| - 1;
      CallsOnCount(w, calls[..n], id);
      if calls[n].id == id && CallsOn(calls[..n], id) != [] {
        var x := CallsOn(calls[..n], id)[0];
        var j :| 0 <= j < n && calls[j] == Call(id, x);
        assert w.calls[j].id == w.calls[n].id;
        forall y <- CallsOn(calls[..n], id)
          ensures y.Canceled?
        {
          var i :| 0 <= i < n && calls[i] == Call(id, y);
          assert w.calls[i].id == w.calls[n].id;
        }
      }
    }
  }

  lemma {:induction false} CallsAreMade<P, B>(s: State<P, B>, events: seq<Event<P, B>>)
    ensures forall c <- Run(s, events).world.calls :: c in s.world.calls || MadeBy(events, c)
    decreases |events|
  {
    if events != [] {
      var next := Step(s, events[0]);
      CallsAreMade(next, events[1..]);
      forall c <- Run(s, events).world.calls
        ensures c in s.world.calls || MadeBy(events, c)
      {
        if c in next.world.calls {
          CallOfStep(s, events[0], c);
          assert events[0] in events;
        } else {
          MadeLater(events, c);
        }
      }
    }
  }

  lemma MadeLater<P, B>(events: seq<Event<P, B>>, c: Call<B>)
    requires events != [] && MadeBy(events[1..], c)
    ensures MadeBy(events, c)
  {
    assert forall e <- events[1..] :: e in events;
  }

  lemma CallOfStep<P, B>(s: State<P, B>, e: Event<P, B>, c: Call<B>)
    requires c in Step(s, e).world.calls
    ensures c in s.world.calls || MadeBy([e], c)
  {
    assert e in [e];
  }

  /** The calls of one event, whatever the queue holds. */
  lemma {:induction false} CallsOfOneEvent<P, B>(s: State<P, B>, e: Event<P, B>)
    ensures Run(s, [e]).world.calls == s.world.calls + (
      match e
      case Enqueue(_, _) => []
      case Cancel(id, message) =>
        if !(exists x <- s.entries :: x.id == id) then []
        else if message.None? then [Call(id, Canceled("query was canceled"))]
        else [Call(id, Canceled(message.value))]
      case Response(id, response) =>
        if s.entries == [] || s.entries[0].id != id || s.entries[0].canceled then []
        else if response.Success? then [Call(id, Resolved(response.value))]
        else [Call(id, Rejected(response.error))])
  {
    OneEvent(s, e);
  }

  lemma {:induction false} OneEvent<P, B>(s: State<P, B>, e: Event<P, B>)
    ensures Run(s, [e]) == Step(s, e)
  {
    hide Step;
    assert [e][1..] == [];
    assert Run(Step(s, e), []) == Step(s, e);
  }

  lemma {:induction false} RunConcat<P, B>(s: State<P, B>, first: seq<Event<P, B>>, rest: seq<Event<P, B>>)
    ensures Run(s, first + rest) == Run(Run(s, first), rest)
    ensures PossibleRun(s, first + rest) <==> PossibleRun(s, first) && PossibleRun(Run(s, first), rest)
    decreases |first|
  {
    hide Step, Possible;
    if first == [] {
      assert first + rest == rest;
    } else {
      assert (first + rest)[1..] == first[1..] + rest;
      RunConcat(Step(s, first[0]), first[1..], rest);
    }
  }

  lemma {:induction false} CallsStay<P, B>(s: State<P, B>, events: seq<Event<P, B>>)
    ensures s.world.calls <= Run(s, events).world.calls
    decreases |events|
  {
    hide Step;
    if events != [] {
      OneEvent(s, events[0]);
      CallsOfOneEvent(s, events[0]);
      CallsStay(Step(s, events[0]), events[1..]);
    }
  }

  /** In every run, a response to an entry that nothing has canceled before settles its promise with what it brought. */
  lemma {:induction false} ResponsePassedOn<P, B>(before: seq<Event<P, B>>, id: Id, response: Result<B, string>,
                                                  after: seq<Event<P, B>>)
    requires PossibleRun(Initial(), before + ([Event.Response(id, response)] + after))
    requires forall message :: Event.Cancel(id, message) !in before
    ensures Call(id, if response.Success? then Resolved(response.value) else Rejected(response.error))
         in Run(Initial(), before + ([Event.Response(id, response)] + after)).world.calls
  {
    hide Run, Initial, Inv, MadeBy;
    var start: State<P, B>, e: Event<P, B> := Initial(), Event.Response(id, response);
    RunConcat(start, before, [e] + after);
    var s := Run(start, before);
    RunConcat(s, [e], after);
    assert Possible(s, e) by { assert ([e] + after)[0] == e; }
    FrontNotCanceled(before, id);
    CallsOfOneEvent(s, e);
    var calls := Run(s, [e]).world.calls;
    assert calls[|calls| - 1] == Call(id, if response.Success? then Resolved(response.value) else Rejected(response.error));
    CallsStay(Run(s, [e]), after);
  }

  lemma {:induction false} FrontNotCanceled<P, B>(before: seq<Event<P, B>>, id: Id)
    requires PossibleRun(Initial(), before) && forall message :: Event.Cancel(id, message) !in before
    requires id in Run(Initial(), before).world.inFlight
    ensures var s := Run(Initial(), before); s.entries != [] && s.entries[0].id == id && !s.entries[0].canceled
  {
    var start: State<P, B> := Initial();
    assert Inv(start);
    RunKeeps(start, before);
    CallsAreMade(start, before);
    var s := Run(start, before);
    hide Run, PossibleRun, Known, InOrder, LeftSettled, SettledOnce, DistinctIds, Distinct;
    CanceledHasCall(s);
  }

  lemma {:induction false} CanceledHasCall<P, B>(s: State<P, B>)
    requires PendingOrCanceled(s)
    ensures s.entries != [] && s.entries[0].canceled ==>
              exists c <- s.world.calls :: c.id == s.entries[0].id && c.settlement.Canceled?
  {
    if s.entries != [] { assert s.entries[0] in s.entries; }
  }

  /** An entry that has left the queue has its promise settled, by cancellation or else once, by its own response. */
  lemma SettledByItsOwn<P, B>(events: seq<Event<P, B>>, id: Id)
    requires PossibleRun(Initial(), events)
    ensures var s := Run(Initial(), events);
            var on := CallsOn(s.world.calls, id);
            && (forall x <- on :: MadeBy(events, Call(id, x)))
            && ((forall x <- on :: x.Canceled?) || |on| == 1)
            && (id in s.world.enqueued && !Queued(s.entries, id) ==> on != [])
            && (forall e <- s.entries :: e.id == id ==> ((e.canceled <==> on != []) && forall x <- on :: x.Canceled?))
  {
    var start: State<P, B> := Initial();
    assert Inv(start);
    RunKeeps(start, events);
    var s := Run(start, events);
    CallsOnCount(s.world, s.world.calls, id);
    CallsAreMade(start, events);
  }

  // ----- draining

  function Responses<P, B>(events: seq<Event<P, B>>): nat {
    if events == [] then 0 else (if events[0].Response? then 1 else 0) + Responses(events[1..])
  }

  /** Each response of a run counts as one. */
  lemma {:induction false} ResponsesCounted<P, B>(events: seq<Event<P, B>>, e: Event<P, B>)
    ensures Responses(events + [e]) == Responses(events) + (if e.Response? then 1 else 0)
    ensures Responses<P, B>([]) == 0
  {
    if events == [] {
      assert events + [e] == [e] && [e][1..] == [];
    } else {
      assert (events + [e])[1..] == events[1..] + [e];
      ResponsesCounted(events[1..], e);
    }
  }

  lemma {:induction false} WithoutCanceledFrontShrinks<P>(entries: seq<Entry<P>>)
    ensures |WithoutCanceledFront(entries)| <= |entries|
  {
    if entries != [] && entries[0].canceled { WithoutCanceledFrontShrinks(entries[1..]); }
  }

  /** Without new entries, n queued entries are gone after at most n responses, and until then one can arrive. */
  lemma {:induction false} Drains<P, B>(s: State<P, B>, events: seq<Event<P, B>>)
    requires Inv(s) && PossibleRun(s, events)
    requires forall e <- events :: !e.Enqueue?
    ensures |Run(s, events).entries| + Responses(events) <= |s.entries|
    ensures Run(s, events).entries != [] ==> Run(s, events).entries[0].id in Run(s, events).world.inFlight
    decreases |events|
  {
    RunKeeps(s, events);
    if events != [] {
      var e := events[0];
      StepKeeps(s, e);
      Drains(Step(s, e), events[1..]);
      if e.Response? { WithoutCanceledFrontShrinks(s.entries[1..]); }
    }
  }
}
