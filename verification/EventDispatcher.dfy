/**
 * The monitor that hands server-sent events to the waiting streams.
 *
 * A call of WaitEvent holds the lock on both sides of its wait, so it is two atomic steps, Enter and Exit; any step of
 * another thread may happen between them. The wait ends on a notification, on its timeout, or for no reason, so Exit
 * may happen at any time. A run is any interleaving of such steps with those of SendEvent and Close.
 */
module EventDispatcher {
  import opened Wrappers

  type Stream = nat

  const MAX_EVENT_WAIT_COUNT := 3
  const EMPTY_SSE_MESSAGE := ":\r\r"

  /** Text written on a stream: the event with a number, or the empty message. */
  datatype Write = Write(stream: Stream, event: Option<nat>, text: string)

  /** What surrounds the monitor: its waiters with their local `target_id`, and the history. */
  datatype World = World(parked: map<Stream, nat>, ended: set<Stream>, sent: seq<string>, log: seq<Write>)

  datatype State = State(nextId: nat, currentId: int, waitCount: nat, message: string, closed: bool, world: World)

  datatype Step = Enter(stream: Stream) | Exit(stream: Stream) | Send(message: string) | Close

  const INITIAL := State(0, -1, 0, "", false, World(map[], {}, [], []))

  // ----- what each step does

  /** A stream calls WaitEvent again until that returns false; a waiter in the monitor can leave at any time. */
  predicate Possible(s: State, e: Step) {
    match e
    case Enter(stream) => stream !in s.world.parked && stream !in s.world.ended
    case Exit(stream) => stream in s.world.parked
    case Send(_) => true
    case Close => true
  }

  function WriteFor(s: State, stream: Stream): Write
    requires stream in s.world.parked
  {
    if s.currentId == s.world.parked[stream] then Write(stream, Some(s.world.parked[stream]), s.message)
    else Write(stream, None, EMPTY_SSE_MESSAGE)
  }

  function Next(s: State, e: Step): State
    requires Possible(s, e)
    requires e.Exit? ==> s.waitCount > 0
  {
    var w := s.world;
    match e
    case Enter(stream) =>
      if s.closed || s.waitCount >= MAX_EVENT_WAIT_COUNT then s.(world := w.(ended := w.ended + {stream}))
      else s.(waitCount := s.waitCount + 1, world := w.(parked := w.parked[stream := s.nextId]))
    case Exit(stream) =>
      var left := w.(parked := w.parked - {stream});
      if s.closed then s.(waitCount := s.waitCount - 1, world := left.(ended := w.ended + {stream}))
      else s.(waitCount := s.waitCount - 1, world := left.(log := w.log + [WriteFor(s, stream)]))
    case Send(message) =>
      if s.closed then s
      else s.(currentId := s.nextId, nextId := s.nextId + 1, message := message, world := w.(sent := w.sent + [message]))
    case Close =>
      if s.closed then s else s.(currentId := s.nextId, nextId := s.nextId + 1, closed := true)
  }

  // ----- the monitor itself

  class EventDispatcher {
    var nextId: nat
    var currentId: int
    var waitCount: nat
    var message: string
    var closed: bool
    ghost var world: World

    ghost function Now(): State
      reads this
    {
      State(nextId, currentId, waitCount, message, closed, world)
    }

    constructor ()
      ensures Now() == INITIAL
    {
      nextId, currentId, waitCount, message, closed := 0, -1, 0, "", false;
      world := World(map[], {}, [], []);
    }

    /** WaitEvent up to its wait. */
    method WaitEnter(stream: Stream) returns (waits: bool, targetId: nat)
      requires Possible(Now(), Enter(stream))
      modifies this
      ensures Now() == Next(old(Now()), Enter(stream))
      ensures waits <==> stream in world.parked
      ensures waits <==> !old(closed) && old(waitCount) < 3
      ensures waits ==> world.parked[stream] == targetId
    {
      targetId := nextId;
      if closed || waitCount >= MAX_EVENT_WAIT_COUNT {
        world := world.(ended := world.ended + {stream});
        return false, targetId;
      }
      waitCount := waitCount + 1;
      world := world.(parked := world.parked[stream := targetId]);
      return true, targetId;
    }

    /** WaitEvent after its wait; `written` is what it writes to the sink. */
    method WaitExit(stream: Stream, targetId: nat) returns (goesOn: bool, written: Option<string>)
      requires stream in world.parked && world.parked[stream] == targetId && waitCount > 0
      modifies this
      ensures Now() == Next(old(Now()), Exit(stream))
      ensures goesOn <==> !old(closed)
      ensures written == if !goesOn then None else if old(currentId) == targetId then Some(old(message)) else Some(":\r\r")
    {
      ghost var write := WriteFor(Now(), stream);
      waitCount := waitCount - 1;
      world := world.(parked := world.parked - {stream});
      if closed {
        world := world.(ended := world.ended + {stream});
        return false, None;
      }
      if currentId == targetId {
        written := Some(message);
      } else {
        written := Some(EMPTY_SSE_MESSAGE);
      }
      world := world.(log := world.log + [write]);
      goesOn := true;
    }

    method SendEvent(text: string)
      modifies this
      ensures Now() == Next(old(Now()), Send(text))
    {
      if closed { return; }
      currentId, nextId := nextId, nextId + 1;
      message := text;
      world := world.(sent := world.sent + [text]);
    }

    method SendConnectedEvent(token: string)
      modifies this
      ensures Now() == Next(old(Now()), Send("event: ConnectedEvent\ndata: " + token + "\n\n"))
    {
      SendEvent("event: ConnectedEvent\ndata: " + token + "\n\n");
    }

    method SendCatalogChangedEvent()
      modifies this
      ensures Now() == Next(old(Now()), Send("event: CatalogChangeEvent\ndata:\n\n"))
    {
      SendEvent("event: CatalogChangeEvent\ndata:\n\n");
    }

    method Close()
      modifies this
      ensures Now() == Next(old(Now()), Step.Close)
    {
      if closed { return; }
      currentId, nextId := nextId, nextId + 1;
      closed := true;
    }
  }

  // ----- what every reachable state is like

  /** The counter counts the waiters, of whom there are at most three. */
  predicate Counted(s: State) {
    s.waitCount == |s.world.parked| && s.waitCount <= 3
  }

  /** Events are numbered in the order they are sent, and the monitor holds the last. */
  predicate Numbered(s: State) {
    && s.currentId == s.nextId - 1
    && |s.world.sent| == (if s.closed then s.nextId - 1 else s.nextId)
    && (!s.closed && s.currentId >= 0 ==> s.message == s.world.sent[s.currentId])
    && forall stream <- s.world.parked :: s.world.parked[stream] <= s.nextId
  }

  /** Written text is the empty message, or the text of the event of its number. */
  ghost predicate Faithful(s: State) {
    forall w <- s.world.log ::
      match w.event
      case None => w.text == ":\r\r"
      case Some(id) => id < |s.world.sent| && w.text == s.world.sent[id]
  }

  predicate InTurn(earlier: Write, later: Write) {
    earlier.stream == later.stream && earlier.event.Some? && later.event.Some? ==> earlier.event.value < later.event.value
  }

  /** On one stream event numbers strictly increase. */
  ghost predicate Increasing(s: State) {
    forall i, j :: 0 <= i < j < |s.world.log| ==> InTurn(s.world.log[i], s.world.log[j])
  }

  /** A waiter waits for an event later than all that were written on its stream. */
  ghost predicate Ahead(s: State) {
    forall w <- s.world.log :: w.event.Some? && w.stream in s.world.parked ==> w.event.value < s.world.parked[w.stream]
  }

  ghost predicate Inv(s: State) {
    Counted(s) && Numbered(s) && Faithful(s) && Increasing(s) && Ahead(s)
  }

  lemma WaiterCounts(s: State, stream: Stream)
    requires Counted(s) && stream in s.world.parked
    ensures s.waitCount > 0
  {
    assert stream in s.world.parked.Keys;
  }

  lemma StepKeeps(s: State, e: Step)
    requires Inv(s) && Possible(s, e)
    ensures e.Exit? ==> s.waitCount > 0
    ensures Inv(Next(s, e))
  {
    match e
    case Enter(stream) =>
    case Exit(stream) =>
      WaiterCounts(s, stream);
      var s' := Next(s, e);
      assert s'.world.parked.Keys == s.world.parked.Keys - {stream};
      if !s.closed {
        var write := WriteFor(s, stream);
        assert forall w <- s'.world.log :: w in s.world.log || w == write;
        assert forall i :: 0 <= i < |s.world.log| ==> s.world.log[i] in s.world.log;
      }
    case Send(message) =>
    case Close =>
  }

  ghost predicate PossibleRun(s: State, steps: seq<Step>)
    requires Inv(s)
    decreases |steps|
  {
    steps == [] || (Possible(s, steps[0]) && (StepKeeps(s, steps[0]); PossibleRun(Next(s, steps[0]), steps[1..])))
  }

  ghost function Run(s: State, steps: seq<Step>): (r: State)
    requires Inv(s) && PossibleRun(s, steps)
    ensures Inv(r)
    decreases |steps|
  {
    if steps == [] then s else (StepKeeps(s, steps[0]); Run(Next(s, steps[0]), steps[1..]))
  }

  /** In every interleaving from the start, waiters are counted and limited, and each stream gets true events in order. */
  lemma EveryRun(steps: seq<Step>)
    requires PossibleRun(INITIAL, steps)
    ensures var s := Run(INITIAL, steps);
            && Counted(s) && Numbered(s) && Faithful(s) && Increasing(s) && Ahead(s)
            && s.waitCount == |s.world.parked| <= 3
            && forall i, j :: 0 <= i < j < |s.world.log| && s.world.log[i].stream == s.world.log[j].stream
                              && s.world.log[i].event.Some? && s.world.log[j].event.Some? ==>
                                s.world.log[i].event.value < s.world.log[j].event.value
  {
    var s := Run(INITIAL, steps);
    assert Inv(s);
    forall i, j | 0 <= i < j < |s.world.log| && s.world.log[i].stream == s.world.log[j].stream
                  && s.world.log[i].event.Some? && s.world.log[j].event.Some?
      ensures s.world.log[i].event.value < s.world.log[j].event.value
    {
      assert InTurn(s.world.log[i], s.world.log[j]);
    }
  }

  /** Any text can be sent and the monitor closed at any time; a stream that is not waiting can enter until it has ended. */
  lemma {:induction false} AlwaysPossible(s: State, stream: Stream, message: string)
    requires Inv(s)
    ensures PossibleRun(s, [Send(message)]) && PossibleRun(s, [Step.Close])
    ensures if stream in s.world.parked then PossibleRun(s, [Exit(stream)])
            else stream in s.world.ended || PossibleRun(s, [Enter(stream)])
  {
    assert forall e: Step :: [e][1..] == [];
    assert [Send(message)][0] == Send(message) && [Step.Close][0] == Step.Close;
    assert [Exit(stream)][0] == Exit(stream) && [Enter(stream)][0] == Enter(stream);
  }

  // ----- which event a waiter gets

  function Sent(steps: seq<Step>): seq<string> {
    if steps == [] then []
    else (if steps[0].Send? then [steps[0].message] else []) + Sent(steps[1..])
  }

  /** While a waiter stays parked and the monitor stays open, its target stands and the history grows by what is sent. */
  lemma {:induction false} WhileParked(s: State, stream: Stream, steps: seq<Step>)
    requires Inv(s) && !s.closed && stream in s.world.parked
    requires PossibleRun(s, steps) && Exit(stream) !in steps && Close !in steps
    ensures var r := Run(s, steps);
            && !r.closed && stream in r.world.parked && r.world.parked[stream] == s.world.parked[stream]
            && r.world.sent == s.world.sent + Sent(steps)
    decreases |steps|
  {
    hide Inv, WriteFor;
    if steps != [] {
      StepKeeps(s, steps[0]);
      var next := Next(s, steps[0]);
      WhileParked(next, stream, steps[1..]);
      var first := if steps[0].Send? then [steps[0].message] else [];
      assert next.world.sent == s.world.sent + first;
      assert (s.world.sent + first) + Sent(steps[1..]) == s.world.sent + (first + Sent(steps[1..]));
    }
  }

  /**
   * What a waiter writes when it leaves an open monitor: the one event sent while it waited, if there was exactly one,
   * and the empty message if there were none or several.
   */
  lemma DeliveryExact(s: State, stream: Stream, steps: seq<Step>)
    requires Inv(s) && Possible(s, Enter(stream)) && !s.closed && s.waitCount < 3
    requires Inv(Next(s, Enter(stream))) && PossibleRun(Next(s, Enter(stream)), steps)
    requires Exit(stream) !in steps && Close !in steps
    ensures var r := Run(Next(s, Enter(stream)), steps);
            && Possible(r, Exit(stream)) && r.waitCount > 0
            && Next(r, Exit(stream)).world.log == r.world.log + [
              if |Sent(steps)| == 1 then Write(stream, Some(|s.world.sent|), Sent(steps)[0])
              else Write(stream, None, ":\r\r")]
  {
    var entered := Next(s, Enter(stream));
    WhileParked(entered, stream, steps);
    var r := Run(entered, steps);
    WaiterCounts(r, stream);
    assert Numbered(r);
  }

  /** After Close nothing is written or sent any more, and a stream that enters or leaves the monitor ends. */
  lemma {:induction false} SilentAfterClose(s: State, steps: seq<Step>)
    requires Inv(s) && s.closed && PossibleRun(s, steps)
    ensures var r := Run(s, steps);
            && r.closed && r.world.log == s.world.log && r.world.sent == s.world.sent && r.currentId == s.currentId
            && s.world.ended <= r.world.ended && r.world.parked.Keys <= s.world.parked.Keys
            && forall e <- steps :: (e.Enter? || e.Exit?) ==> e.stream in r.world.ended
    decreases |steps|
  {
    if steps != [] {
      StepKeeps(s, steps[0]);
      SilentAfterClose(Next(s, steps[0]), steps[1..]);
      assert forall e <- steps :: e == steps[0] || e in steps[1..];
    }
  }
}
