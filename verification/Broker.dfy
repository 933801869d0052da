/** The SSE broker: a bounded fan-out that may drop, but never reorders, repeats or lets one slow
    subscriber disturb another. */
module Broker {
  import opened Options

  const INPUT_BUFFER := 256
  const SUBSCRIBER_BUFFER := 64

  datatype SseEvent = SseEvent(taskId: string, event: string, timestamp: int)

  /** A subscriber's channel. `received` is what the subscriber has read from it so far; `got`, `from` and
      `end` are history: the positions, among all accepted events, of the events put into the channel,
      how many events had been fanned out at Subscribe, and how many at Unsubscribe. */
  datatype Chan = Chan(buffer: seq<SseEvent>, received: seq<SseEvent>, got: seq<nat>, from: nat, end: Option<nat>)

  /** `taken` is the event that the goroutine has received from the input channel and not fanned out yet.
      `current` is the event that fanOut is delivering while it holds subsMu, and `pending` the subscribers
      its loop has not come to yet. `accepted` and `fanned` are history. */
  datatype State = State(
    input: seq<SseEvent>, taken: Option<SseEvent>, subs: set<nat>, chans: map<nat, Chan>,
    current: Option<SseEvent>, pending: set<nat>,
    accepted: seq<SseEvent>, fanned: nat)

  datatype Move =
    | Emit(event: SseEvent)
    | Subscribe(id: nat)
    | Unsubscribe(id: nat)
    | Receive(id: nat)
    | Take
    | Begin
    | Deliver(id: nat)
    | Finish

  predicate Can(s: State, m: Move) {
    match m
    case Emit(_) => true
    case Subscribe(id) => s.current.None? && id !in s.chans
    case Unsubscribe(id) => s.current.None?
    case Receive(id) => id in s.chans && s.chans[id].buffer != []
    case Take => s.current.None? && s.taken.None? && s.input != []
    case Begin => s.current.None? && s.taken.Some?
    case Deliver(id) => s.current.Some? && id in s.pending && id in s.chans
    case Finish => s.current.Some? && s.pending == {}
  }

  function Offer(c: Chan, event: SseEvent, position: nat): Chan {
    if |c.buffer| < SUBSCRIBER_BUFFER then c.(buffer := c.buffer + [event], got := c.got + [position]) else c
  }

  function Next(s: State, m: Move): State
    requires Can(s, m)
  {
    match m
    case Emit(e) =>
      if |s.input| < INPUT_BUFFER then s.(input := s.input + [e], accepted := s.accepted + [e]) else s
    case Subscribe(id) =>
      s.(subs := s.subs + {id}, chans := s.chans[id := Chan([], [], [], s.fanned, None)])
    case Unsubscribe(id) =>
      s.(subs := s.subs - {id},
         chans := if id in s.subs && id in s.chans then s.chans[id := s.chans[id].(end := Some(s.fanned))] else s.chans)
    case Receive(id) =>
      var c := s.chans[id];
      s.(chans := s.chans[id := c.(buffer := c.buffer[1..], received := c.received + [c.buffer[0]])])
    case Take => s.(input := s.input[1..], taken := Some(s.input[0]))
    case Begin => s.(taken := None, current := s.taken, pending := s.subs, fanned := s.fanned + 1)
    case Deliver(id) =>
      var position := if s.fanned == 0 then 0 else s.fanned - 1;
      s.(chans := s.chans[id := Offer(s.chans[id], s.current.value, position)], pending := s.pending - {id})
    case Finish => s.(current := None)
  }

  datatype Run = Start | Then(prev: Run, move: Move)

  function Empty(): State {
    State([], None, {}, map[], None, {}, [], 0)
  }

  /** The state after a run; a move that is not possible where it stands changes nothing. */
  function At(run: Run): State {
    match run
    case Start => Empty()
    case Then(p, m) => if Can(At(p), m) then Next(At(p), m) else At(p)
  }

  predicate Extends(run: Run, base: Run) {
    run == base || (run.Then? && Extends(run.prev, base))
  }

  // ----- What a channel holds -----

  predicate Increasing(ps: seq<nat>) {
    forall i, j :: 0 <= i < j < |ps| ==> ps[i] < ps[j]
  }

  /** The events fanned out to a channel so far end before this position. */
  function Horizon(s: State, id: nat): int
    requires id in s.chans
  {
    if id in s.pending then s.fanned - 1
    else if s.chans[id].end.Some? then s.chans[id].end.value
    else s.fanned
  }

  ghost predicate ChanOk(s: State, id: nat)
    requires id in s.chans
  {
    var c := s.chans[id];
    && |c.buffer| <= SUBSCRIBER_BUFFER
    && (id in s.subs <==> c.end.None?)
    && Increasing(c.got)
    && (forall i :: 0 <= i < |c.got| ==> c.from <= c.got[i] < Horizon(s, id) && c.got[i] < |s.accepted|)
    && |c.received + c.buffer| == |c.got|
    && (forall i :: 0 <= i < |c.got| && c.got[i] < |s.accepted| ==> (c.received + c.buffer)[i] == s.accepted[c.got[i]])
    && c.from <= Horizon(s, id)
  }

  ghost predicate Flow(s: State) {
    && s.fanned <= |s.accepted|
    && |s.input| <= INPUT_BUFFER
    && s.accepted[s.fanned..] == (if s.taken.Some? then [s.taken.value] else []) + s.input
    && (s.current.Some? ==> s.taken.None?)
    && (s.current.Some? ==> 0 < s.fanned && s.current.value == s.accepted[s.fanned - 1])
    && (s.current.None? ==> s.pending == {})
    && s.pending <= s.subs
    && s.subs <= s.chans.Keys
  }

  ghost predicate Inv(s: State) {
    Flow(s) && forall id :: id in s.chans ==> ChanOk(s, id)
  }

  lemma FlowStep(s: State, m: Move)
    requires Flow(s) && Can(s, m)
    ensures Flow(Next(s, m))
  {
  }

  lemma ReceiveStep(s: State, id: nat)
    requires Flow(s) && Can(s, Receive(id)) && ChanOk(s, id)
    ensures ChanOk(Next(s, Receive(id)), id)
  {
    var c, d := s.chans[id], Next(s, Receive(id)).chans[id];
    assert d.received + d.buffer == c.received + c.buffer;
  }

  lemma DeliverStep(s: State, id: nat)
    requires Flow(s) && Can(s, Deliver(id)) && ChanOk(s, id)
    ensures ChanOk(Next(s, Deliver(id)), id)
  {
    var c, d := s.chans[id], Next(s, Deliver(id)).chans[id];
    if |c.buffer| < SUBSCRIBER_BUFFER {
      assert d.received + d.buffer == (c.received + c.buffer) + [s.current.value];
    }
  }

  /** A step that leaves a channel's stream and horizon alone; events may be accepted after it. */
  lemma ChanFrame(s: State, next: State, id: nat)
    requires id in s.chans && ChanOk(s, id) && id in next.chans
    requires next.chans[id] == s.chans[id].(end := next.chans[id].end)
    requires id in next.subs <==> next.chans[id].end.None?
    requires Horizon(next, id) == Horizon(s, id) && s.accepted <= next.accepted
    ensures ChanOk(next, id)
  {
    hide Horizon, Increasing;
  }

  lemma NewChan(s: State, id: nat)
    requires Flow(s) && Can(s, Subscribe(id))
    ensures ChanOk(Next(s, Subscribe(id)), id)
  {
  }

  /** Every other step leaves the channel's stream alone. */
  lemma OtherStep(s: State, m: Move, id: nat)
    requires Flow(s) && Can(s, m) && id in s.chans && ChanOk(s, id)
    requires m != Receive(id) && m != Deliver(id)
    ensures id in Next(s, m).chans && ChanOk(Next(s, m), id)
  {
    var next := Next(s, m);
    assert s.accepted <= next.accepted && Horizon(next, id) == Horizon(s, id);
    assert next.chans[id] == s.chans[id].(end := next.chans[id].end);
    assert id in next.subs <==> next.chans[id].end.None?;
    hide Next, Can, Flow, ChanOk, Horizon;
    ChanFrame(s, next, id);
  }

  lemma ChanStep(s: State, m: Move, id: nat)
    requires Flow(s) && Can(s, m) && id in Next(s, m).chans
    requires id in s.chans ==> ChanOk(s, id)
    ensures ChanOk(Next(s, m), id)
  {
    hide ChanOk, Flow;
    if m == Receive(id) {
      ReceiveStep(s, id);
    } else if m == Deliver(id) {
      DeliverStep(s, id);
    } else if id !in s.chans {
      NewChan(s, id);
    } else {
      OtherStep(s, m, id);
    }
  }

  lemma {:induction false} InvRun(run: Run)
    ensures Inv(At(run))
  {
    match run
    case Start =>
    case Then(p, m) =>
      InvRun(p);
      if Can(At(p), m) {
        FlowStep(At(p), m);
        forall id | id in At(run).chans ensures ChanOk(At(run), id) {
          ChanStep(At(p), m, id);
        }
      }
  }

  /** What a subscriber has received, and then what waits in its buffer, is an in-order subsequence without
      repetition of the accepted events that were fanned out while it was subscribed. */
  lemma DeliveredInOrder(run: Run, id: nat)
    requires id in At(run).chans
    ensures var s := At(run); var c := s.chans[id];
            && Increasing(c.got) && |c.got| == |c.received + c.buffer|
            && (forall i :: 0 <= i < |c.got| ==>
                  && c.from <= c.got[i] < Horizon(s, id) && c.got[i] < |s.accepted|
                  && (c.received + c.buffer)[i] == s.accepted[c.got[i]])
  {
    InvRun(run);
    assert ChanOk(At(run), id);
  }

  // ----- What is missing -----

  /** At some point of the run the fan-out loop came to this subscriber with the event at this position
      and found its buffer full. */
  ghost predicate FullAt(run: Run, id: nat, position: nat) {
    exists base ::
      && Extends(run, Then(base, Deliver(id)))
      && Can(At(base), Deliver(id))
      && At(base).fanned == position + 1
      && |At(base).chans[id].buffer| == SUBSCRIBER_BUFFER
  }

  lemma FullStays(run: Run, m: Move, id: nat, position: nat)
    requires FullAt(run, id, position)
    ensures FullAt(Then(run, m), id, position)
  {
    var base :| Extends(run, Then(base, Deliver(id))) && Can(At(base), Deliver(id))
      && At(base).fanned == position + 1 && |At(base).chans[id].buffer| == SUBSCRIBER_BUFFER;
    assert Extends(Then(run, m), Then(base, Deliver(id)));
  }

  lemma FullNow(run: Run, id: nat)
    requires Can(At(run), Deliver(id)) && 0 < At(run).fanned
    requires |At(run).chans[id].buffer| == SUBSCRIBER_BUFFER
    ensures FullAt(Then(run, Deliver(id)), id, At(run).fanned - 1)
  {
    assert Extends(Then(run, Deliver(id)), Then(run, Deliver(id)));
  }

  /** A step adds to what a channel got only by delivering to it, and raises its horizon only by one. */
  lemma HorizonStep(s: State, m: Move, id: nat)
    requires Inv(s) && Can(s, m) && id in Next(s, m).chans
    ensures id !in s.chans ==> Horizon(Next(s, m), id) == Next(s, m).chans[id].from
    ensures id in s.chans ==> Next(s, m).chans[id].from == s.chans[id].from
    ensures id in s.chans && m != Deliver(id) ==>
              Horizon(Next(s, m), id) == Horizon(s, id) && Next(s, m).chans[id].got == s.chans[id].got
    ensures id in s.chans && m == Deliver(id) ==> Horizon(Next(s, m), id) == s.fanned && Horizon(s, id) == s.fanned - 1
  {
    if id in s.chans {
      assert ChanOk(s, id);
    }
  }

  /** An accepted event fanned out while a subscriber was subscribed is missing from its stream only if
      that subscriber's buffer was full when the fan-out came to it. */
  lemma {:induction false} MissingMeansFull(run: Run, id: nat, position: nat)
    requires id in At(run).chans
    requires At(run).chans[id].from <= position < Horizon(At(run), id)
    requires position !in At(run).chans[id].got
    ensures FullAt(run, id, position)
  {
    hide FullAt, Inv;
    match run
    case Start =>
    case Then(p, m) =>
      InvRun(p);
      if !Can(At(p), m) {
        MissingMeansFull(p, id, position);
        FullStays(p, m, id, position);
      } else {
        HorizonStep(At(p), m, id);
        if id in At(p).chans && position < Horizon(At(p), id) {
          if m == Deliver(id) {
            assert At(run).chans[id] == Offer(At(p).chans[id], At(p).current.value, At(p).fanned - 1);
          }
          MissingMeansFull(p, id, position);
          FullStays(p, m, id, position);
        } else {
          DeliveredNow(p, id, position);
        }
      }
  }

  lemma OfferTakes(c: Chan, event: SseEvent, position: nat)
    ensures |c.buffer| < SUBSCRIBER_BUFFER ==> position in Offer(c, event, position).got
  {
    if |c.buffer| < SUBSCRIBER_BUFFER {
      assert (c.got + [position])[|c.got|] == position;
    }
  }

  lemma DeliveredNow(p: Run, id: nat, position: nat)
    requires Can(At(p), Deliver(id)) && position == At(p).fanned - 1
    requires position !in At(Then(p, Deliver(id))).chans[id].got
    ensures FullAt(Then(p, Deliver(id)), id, position)
  {
    InvRun(p);
    assert ChanOk(At(p), id);
    OfferTakes(At(p).chans[id], At(p).current.value, position);
    FullNow(p, id);
  }

  // ----- Non-interference -----

  predicate Concerns(m: Move, id: nat) {
    match m
    case Subscribe(d) => d == id
    case Unsubscribe(d) => d == id
    case Receive(d) => d == id
    case Deliver(d) => d == id
    case _ => true
  }

  /** The run with every step of every other subscriber taken out. */
  function Alone(run: Run, id: nat): Run {
    match run
    case Start => Start
    case Then(p, m) => if Can(At(p), m) && Concerns(m, id) then Then(Alone(p, id), m) else Alone(p, id)
  }

  ghost predicate SameFor(s: State, alone: State, id: nat) {
    && s.input == alone.input && s.taken == alone.taken && s.accepted == alone.accepted
    && s.fanned == alone.fanned && s.current == alone.current
    && (id in s.chans <==> id in alone.chans)
    && (id in s.chans ==> s.chans[id] == alone.chans[id])
    && (id in s.subs <==> id in alone.subs)
    && (id in s.pending <==> id in alone.pending)
    && alone.subs <= {id} && alone.pending <= {id}
  }

  lemma SameForStep(s: State, alone: State, m: Move, id: nat)
    requires SameFor(s, alone, id) && Can(s, m)
    ensures if Concerns(m, id) then Can(alone, m) && SameFor(Next(s, m), Next(alone, m), id)
            else SameFor(Next(s, m), alone, id)
  {
    if m.Finish? {
      assert alone.pending == {};
    }
  }

  /** To one subscriber a run looks exactly as if nobody else had subscribed. */
  lemma {:induction false} AloneIsSame(run: Run, id: nat)
    ensures SameFor(At(run), At(Alone(run, id)), id)
  {
    match run
    case Start =>
    case Then(p, m) =>
      AloneIsSame(p, id);
      hide SameFor, Next, Can;
      if Can(At(p), m) {
        SameForStep(At(p), At(Alone(p, id)), m, id);
      }
  }

  /** Two runs that agree on everything but what other subscribers do give this subscriber the same stream
      and the same buffer: a slow, fast, coming or going neighbour makes no difference. */
  lemma NonInterference(run: Run, other: Run, id: nat)
    requires Alone(run, id) == Alone(other, id)
    ensures id in At(run).chans <==> id in At(other).chans
    ensures id in At(run).chans ==> At(run).chans[id] == At(other).chans[id]
  {
    hide At, Alone;
    AloneIsSame(run, id);
    AloneIsSame(other, id);
  }

  // ----- The broker object -----

  class Broker {
    var input: seq<SseEvent>
    var subs: set<nat>
    var buffers: map<nat, seq<SseEvent>>
    ghost var history: Run

    /** The fields are the state of the run of this object's atomic actions so far, between fan-outs. */
    ghost predicate Valid()
      reads this
    {
      Matches(At(history), input, subs, buffers) && At(history).current.None? && At(history).taken.None?
    }

    constructor ()
      ensures Valid() && history == Start
    {
      input, subs, buffers := [], {}, map[];
      history := Start;
    }

    /** Never blocks: a full input buffer drops the event. */
    method Emit(event: SseEvent)
      requires Valid()
      modifies this
      ensures Valid() && history == Then(old(history), Move.Emit(event))
      ensures input == if |old(input)| < 256 then old(input) + [event] else old(input)
      ensures subs == old(subs) && buffers == old(buffers)
    {
      if |input| < INPUT_BUFFER {
        input := input + [event];
      }
      history := Then(history, Move.Emit(event));
    }

    method Subscribe(id: nat)
      requires Valid() && id !in buffers
      modifies this
      ensures Valid() && history == Then(old(history), Move.Subscribe(id))
      ensures id in subs && buffers == old(buffers)[id := []]
    {
      subs := subs + {id};
      buffers := buffers[id := []];
      history := Then(history, Move.Subscribe(id));
    }

    method Unsubscribe(id: nat)
      requires Valid()
      modifies this
      ensures Valid() && history == Then(old(history), Move.Unsubscribe(id))
      ensures subs == old(subs) - {id} && buffers == old(buffers) && input == old(input)
    {
      subs := subs - {id};
      history := Then(history, Move.Unsubscribe(id));
    }

    /** The non-blocking send of fanOut's loop body. */
    method OfferTo(id: nat, event: SseEvent, ghost base: Run, ghost before: map<nat, seq<SseEvent>>,
                   ghost rest: set<nat>)
      requires Serving(history, base, input, subs, before, buffers, rest, event) && id in rest
      modifies this`buffers, this`history
      ensures history == Then(old(history), Deliver(id)) && id in old(buffers)
      ensures buffers == Grown(old(buffers), id, event)
      ensures Serving(history, base, input, subs, before, buffers, rest - {id}, event)
    {
      ServeNext(history, base, input, subs, before, buffers, rest, event, id);
      hide Serving;
      if |buffers[id]| < SUBSCRIBER_BUFFER {
        buffers := buffers[id := buffers[id] + [event]];
      }
      history := Then(history, Deliver(id));
    }

    /** Takes the oldest input event and offers it to every subscriber: each one gets it exactly if its own
        buffer has room, whatever the order of the loop and whatever the other buffers hold. */
    method FanOut()
      requires Valid() && input != []
      modifies this
      ensures Valid() && Extends(history, Then(Then(old(history), Take), Begin))
      ensures input == old(input)[1..] && subs == old(subs)
      ensures Offered(old(buffers), buffers, subs, old(input)[0])
      ensures buffers.Keys == old(buffers).Keys && forall id :: id in buffers ==>
        buffers[id] ==
          if id in subs && |old(buffers)[id]| < 64 then old(buffers)[id] + [old(input)[0]] else old(buffers)[id]
    {
      ServeFirst(history, input, subs, buffers);
      hide Serving, Offered;
      var event := input[0];
      input := input[1..];
      history := Then(Then(history, Take), Begin);
      ghost var base := history;
      var rest := subs;
      while rest != {}
        invariant input == old(input)[1..] && subs == old(subs)
        invariant Serving(history, base, input, subs, old(buffers), buffers, rest, event)
      {
        var id :| id in rest;
        OfferTo(id, event, base, old(buffers), rest);
        rest := rest - {id};
      }
      ServeLast(history, base, input, subs, old(buffers), buffers, event);
      history := Then(history, Finish);
    }
  }

  /** The fan-out that began with the last step of `base` still has the subscribers in `rest` to come to. */
  ghost predicate Serving(run: Run, base: Run, input: seq<SseEvent>, subs: set<nat>, before: map<nat, seq<SseEvent>>,
                          buffers: map<nat, seq<SseEvent>>, rest: set<nat>, event: SseEvent) {
    && rest <= subs
    && Matches(At(run), input, subs, buffers)
    && At(run).current == Some(event) && At(run).pending == rest && At(run).taken.None?
    && Extends(run, base)
    && Offered(before, buffers, subs - rest, event)
  }

  lemma ServeFirst(run: Run, input: seq<SseEvent>, subs: set<nat>, buffers: map<nat, seq<SseEvent>>)
    requires Matches(At(run), input, subs, buffers) && At(run).current.None? && At(run).taken.None? && input != []
    ensures var begun := Then(Then(run, Take), Begin);
            Serving(begun, begun, input[1..], subs, buffers, buffers, subs, input[0])
  {
    BeginMatches(run, input, subs, buffers);
    Goes(run, run, Take);
    Goes(Then(run, Take), run, Begin);
    hide Next, Can, Matches, At;
    assert subs - subs == {};
  }

  lemma ServeNext(run: Run, base: Run, input: seq<SseEvent>, subs: set<nat>, before: map<nat, seq<SseEvent>>,
                  buffers: map<nat, seq<SseEvent>>, rest: set<nat>, event: SseEvent, id: nat)
    requires Serving(run, base, input, subs, before, buffers, rest, event) && id in rest
    ensures id in buffers
    ensures Serving(Then(run, Deliver(id)), base, input, subs, before, Grown(buffers, id, event), rest - {id}, event)
  {
    Knows(run, input, subs, buffers, id);
    DeliverMatches(At(run), input, subs, buffers, id);
    OfferedNext(before, buffers, subs - rest, event, id);
    Goes(run, base, Deliver(id));
    hide Next, Can, Matches, At, Extends, Offered, Grown;
    assert subs - (rest - {id}) == subs - rest + {id};
  }

  lemma ServeLast(run: Run, base: Run, input: seq<SseEvent>, subs: set<nat>, before: map<nat, seq<SseEvent>>,
                  buffers: map<nat, seq<SseEvent>>, event: SseEvent)
    requires Serving(run, base, input, subs, before, buffers, {}, event)
    ensures Matches(At(Then(run, Finish)), input, subs, buffers)
    ensures At(Then(run, Finish)).current.None? && At(Then(run, Finish)).taken.None?
    ensures Extends(Then(run, Finish), base)
    ensures Offered(before, buffers, subs, event)
    ensures buffers.Keys == before.Keys && forall id :: id in buffers ==>
      buffers[id] == if id in subs && |before[id]| < 64 then before[id] + [event] else before[id]
  {
    FinishMatches(At(run), input, subs, buffers);
    Goes(run, base, Finish);
    hide Next, Can, Matches, At, Extends;
    assert subs - {} == subs;
  }

  /** The buffers after one non-blocking send. */
  function Grown(buffers: map<nat, seq<SseEvent>>, id: nat, event: SseEvent): map<nat, seq<SseEvent>> {
    if id in buffers && |buffers[id]| < SUBSCRIBER_BUFFER then buffers[id := buffers[id] + [event]] else buffers
  }

  lemma Goes(run: Run, base: Run, m: Move)
    ensures Can(At(run), m) ==> At(Then(run, m)) == Next(At(run), m)
    ensures Extends(run, run)
    ensures Extends(run, base) ==> Extends(Then(run, m), base)
  {
  }

  /** Exactly the served subscribers with room in their buffer have got the event. */
  ghost predicate Offered(before: map<nat, seq<SseEvent>>, after: map<nat, seq<SseEvent>>, served: set<nat>,
                          event: SseEvent) {
    && after.Keys == before.Keys
    && forall id :: id in before ==>
         after[id] == if id in served && |before[id]| < SUBSCRIBER_BUFFER then before[id] + [event] else before[id]
  }

  lemma OfferedNext(before: map<nat, seq<SseEvent>>, after: map<nat, seq<SseEvent>>, served: set<nat>,
                    event: SseEvent, id: nat)
    requires Offered(before, after, served, event) && id !in served && id in after
    ensures Offered(before, Grown(after, id, event), served + {id}, event)
  {
  }

  lemma Knows(run: Run, input: seq<SseEvent>, subs: set<nat>, buffers: map<nat, seq<SseEvent>>, id: nat)
    requires Matches(At(run), input, subs, buffers) && id in subs
    ensures id in buffers
  {
    InvRun(run);
  }

  lemma BeginMatches(run: Run, input: seq<SseEvent>, subs: set<nat>, buffers: map<nat, seq<SseEvent>>)
    requires Matches(At(run), input, subs, buffers) && At(run).current.None? && At(run).taken.None? && input != []
    ensures Can(At(run), Take) && Can(Next(At(run), Take), Begin)
    ensures var begun := Next(Next(At(run), Take), Begin);
            && Matches(begun, input[1..], subs, buffers)
            && begun.current == Some(input[0]) && begun.pending == subs && begun.taken.None?
  {
    InvRun(run);
  }

  lemma DeliverMatches(s: State, input: seq<SseEvent>, subs: set<nat>, buffers: map<nat, seq<SseEvent>>, id: nat)
    requires Matches(s, input, subs, buffers) && s.current.Some? && id in s.pending && id in buffers
    ensures Can(s, Deliver(id)) && var next := Next(s, Deliver(id));
            && next.current == s.current && next.pending == s.pending - {id} && next.taken == s.taken
            && Matches(next, input, subs, Grown(buffers, id, s.current.value))
  {
  }

  lemma FinishMatches(s: State, input: seq<SseEvent>, subs: set<nat>, buffers: map<nat, seq<SseEvent>>)
    requires Matches(s, input, subs, buffers) && s.current.Some? && s.pending == {} && s.taken.None?
    ensures Can(s, Finish) && Matches(Next(s, Finish), input, subs, buffers)
    ensures Next(s, Finish).current.None? && Next(s, Finish).taken.None?
  {
  }

  ghost predicate Matches(s: State, input: seq<SseEvent>, subs: set<nat>, buffers: map<nat, seq<SseEvent>>) {
    && s.input == input && s.subs == subs && s.chans.Keys == buffers.Keys
    && (forall id :: id in buffers ==> s.chans[id].buffer == buffers[id])
  }
}
