/**
The mesh against what its surroundings see. `MeshGuarantees` relates the state to the observations that the steps
record; here those observations are tied to the world outside: to the sends that clients made, to the calls that were
made on connections and what the connections answered, and to what consumers took. None of the definitions below looks
at an observation.
 */
module MeshAnswers {
  import opened Prelude
  import opened MeshModel
  import opened MeshGuarantees

  // -- What an event makes the reactor do --

  /** Offer a payload to the connection, read from it, notice that all senders are gone, or nothing. */
  datatype Call = OfferOf(payload: Bytes) | ReadOf | NoticeGone | NoCall

  /** A blocked payload shuts the queue out; a connection is read only while there is room for what it has. */
  function CallOf(e: EntryState, event: PollEvent, room: bool): Call {
    if event.token == e.outgoingToken && event.readable && e.cached.None? then
      if e.queue != [] then OfferOf(e.queue[0]) else if e.sendersAlive then NoCall else NoticeGone
    else if event.token == e.connectionToken && event.writable && e.cached.Some? then OfferOf(e.cached.value)
    else if event.token == e.connectionToken && event.readable && room then ReadOf
    else NoCall
  }

  predicate Taken(call: Call, io: Answers) {
    call.OfferOf? && io.send == Sent
  }

  predicate Refused(call: Call, io: Answers) {
    call.OfferOf? && io.send == SendWouldBlock
  }

  predicate Came(call: Call, io: Answers) {
    call.ReadOf? && io.recv.Got?
  }

  /** A change of interest is needed when the connection blocks or stops blocking, and may fail. */
  predicate InterestOk(e: EntryState, io: Answers) {
    io.reregisterOk || ((io.send == Sent) == !e.writeGuard)
  }

  /** The error that an entry fails with, if any. */
  function ErrorOf(e: EntryState, call: Call, io: Answers): Option<TryEventError> {
    match call
    case NoCall => None
    case NoticeGone => Some(OutgoingDisconnected)
    case OfferOf(_) =>
      if io.send == SendDisconnected then Some(ConnectionDisconnected)
      else if io.send == SendProtocolError then Some(ProtocolError)
      else if io.send == SendIoError || !InterestOk(e, io) then Some(IoError)
      else None
    case ReadOf =>
      if io.recv == RecvDisconnected then Some(ConnectionDisconnected)
      else if io.recv == RecvProtocolError then Some(ProtocolError)
      else if io.recv == RecvIoError then Some(IoError)
      else if io.recv.Got? && !io.incomingOpen then Some(IncomingDisconnected)
      else None
  }

  /** All envelopes that consumers were handed, oldest first. */
  function Handed(obs: seq<Obs>): seq<Envelope> {
    if obs == [] then []
    else
      var o := obs[|obs| - 1];
      Handed(obs[..|obs| - 1]) + if o.Delivered? then o.batch else []
  }

  lemma {:induction false} HandedAppend(a: seq<Obs>, b: seq<Obs>)
    ensures Handed(a + b) == Handed(a) + Handed(b)
  {
    if b == [] {
      assert a + b == a;
    } else {
      assert (a + b)[..|a + b| - 1] == a + b[..|b| - 1];
      HandedAppend(a, b[..|b| - 1]);
    }
  }

  lemma HandedByOne(o: Obs)
    ensures Handed([o]) == if o.Delivered? then o.batch else []
  {
    assert [o][..0] == [];
  }

  // -- One send --

  /**
  When a send fails, with which error, and what else becomes of the payload: it is taken iff the connection says so,
  and it is kept, with the wake-up registered, iff the connection would block.
   */
  lemma SendOutcomes(e: EntryState, payload: Bytes, io: Answers)
    requires e.cached.None?
    ensures
      var s := TrySendOrCache(e, payload, io);
      && s.err == ErrorOf(e, OfferOf(payload), io)
      && s.obs == (if io.send == Sent then [Moved(Transmit, e.id, payload)] else [])
      && s.entry.queue == e.queue && s.entry.sendersAlive == e.sendersAlive && SameNumbers(e, s.entry)
      && (s.err.None? ==>
            s.entry.cached.Some? == s.entry.writeGuard == (io.send == SendWouldBlock)
            && (s.entry.cached.Some? ==> s.entry.cached.value == payload))
      && (s.err.None? && e.writeGuard == e.writableInterest ==> s.entry.writableInterest == s.entry.writeGuard)
  {
  }

  /** It succeeds exactly if the payload was taken or blocked, and any change of interest went through. */
  lemma SendSucceedsIff(e: EntryState, payload: Bytes, io: Answers)
    requires e.cached.None?
    ensures
      TrySendOrCache(e, payload, io).err.None?
      <==> || (io.send == Sent && (!e.writeGuard || io.reregisterOk))
           || (io.send == SendWouldBlock && (e.writeGuard || io.reregisterOk))
  {
  }

  // -- One reception --

  /** What came from the connection is queued behind what the consumers have not taken, and nothing is made up. */
  lemma ReadOutcomes(id: nat, incoming: seq<Envelope>, capacity: nat, io: Answers)
    requires |incoming| < capacity
    ensures
      var s := TryReadConnection(id, incoming, capacity, io);
      var came := io.recv.Got?;
      && Handed(s.obs) == (if came then incoming[..Min(io.drained, |incoming|)] else [])
      && Handed(s.obs) + s.incoming
         == incoming + (if came && io.incomingOpen then [Envelope(id, io.recv.payload)] else [])
      && FlowOf(s.obs, id)
         == NoFlow.(received := if came then [io.recv.payload] else [], delivered := PayloadsFor(Handed(s.obs), id))
  {
    var s := TryReadConnection(id, incoming, capacity, io);
    if io.recv.Got? {
      var n := Min(io.drained, |incoming|);
      assert s.obs == [Moved(Receive, id, io.recv.payload), Delivered(incoming[..n])];
      assert s.incoming == incoming[n..] + if io.incomingOpen then [Envelope(id, io.recv.payload)] else [];
      FlowOfReception(id, io.recv.payload, incoming[..n], id);
      ReceptionHands(id, io.recv.payload, incoming[..n]);
      TakenThenLeft(incoming, n, if io.incomingOpen then [Envelope(id, io.recv.payload)] else []);
    } else {
      assert s.obs == [] && [] + incoming == incoming + [];
    }
  }

  lemma TakenThenLeft(incoming: seq<Envelope>, n: nat, more: seq<Envelope>)
    requires n <= |incoming|
    ensures incoming[..n] + (incoming[n..] + more) == incoming + more
  {
  }

  lemma ReceptionHands(id: nat, payload: Bytes, batch: seq<Envelope>)
    ensures Handed([Moved(Receive, id, payload), Delivered(batch)]) == batch
  {
    HandedByOne(Moved(Receive, id, payload));
    HandedByOne(Delivered(batch));
    HandedAppend([Moved(Receive, id, payload)], [Delivered(batch)]);
    assert [Moved(Receive, id, payload)] + [Delivered(batch)] == [Moved(Receive, id, payload), Delivered(batch)];
  }

  lemma ReadError(e: EntryState, incoming: seq<Envelope>, capacity: nat, io: Answers)
    requires |incoming| < capacity
    ensures TryReadConnection(e.id, incoming, capacity, io).err == ErrorOf(e, ReadOf, io)
  {
  }

  // -- One event --

  /** What the event does to the entry, its queue position and the incoming queue, by the call it makes. */
  ghost predicate EventDoes(e: EntryState, incoming: seq<Envelope>, call: Call, io: Answers, s: EventStep) {
    && s.err == ErrorOf(e, call, io)
    && MovedBy(s.obs, Transmit, e.id) == (if Taken(call, io) then [call.payload] else [])
    && MovedBy(s.obs, Receive, e.id) == (if Came(call, io) then [io.recv.payload] else [])
    && Handed(s.obs) == (if Came(call, io) then incoming[..Min(io.drained, |incoming|)] else [])
    && Handed(s.obs) + s.incoming
       == incoming + (if Came(call, io) && io.incomingOpen then [Envelope(e.id, io.recv.payload)] else [])
    && (s.err.None? ==>
          && (if Taken(call, io) then [call.payload] else []) + Unsent(s.entry) == Unsent(e)
          && s.entry.sendersAlive == e.sendersAlive
          && s.entry.cached == (if Refused(call, io) then Some(call.payload)
                                else if call.OfferOf? then None else e.cached))
  }

  lemma OfferDoes(e: EntryState, rest: EntryState, payload: Bytes, incoming: seq<Envelope>, io: Answers)
    requires rest.cached.None? && rest.id == e.id && rest.writeGuard == e.writeGuard
    requires rest.sendersAlive == e.sendersAlive && Unsent(e) == [payload] + rest.queue
    ensures
      var r := TrySendOrCache(rest, payload, io);
      EventDoes(e, incoming, OfferOf(payload), io, EventStep(r.entry, incoming, r.obs, r.err))
  {
    var r := TrySendOrCache(rest, payload, io);
    SendOutcomes(rest, payload, io);
    FlowOfSend(r.obs, e.id, payload, e.id);
    if io.send == Sent {
      FlowOfMove(Transmit, e.id, payload, e.id);
      HandedByOne(Moved(Transmit, e.id, payload));
    }
    assert [] + incoming == incoming + [];
  }

  lemma ReadDoes(e: EntryState, incoming: seq<Envelope>, capacity: nat, io: Answers)
    requires |incoming| < capacity
    ensures
      var r := TryReadConnection(e.id, incoming, capacity, io);
      EventDoes(e, incoming, ReadOf, io, EventStep(e, r.incoming, r.obs, r.err))
  {
    ReadOutcomes(e.id, incoming, capacity, io);
    ReadError(e, incoming, capacity, io);
  }

  lemma IdleDoes(e: EntryState, incoming: seq<Envelope>, call: Call, io: Answers)
    requires call.NoCall? || call.NoticeGone?
    ensures EventDoes(e, incoming, call, io, EventStep(e, incoming, [], ErrorOf(e, call, io)))
  {
    assert [] + incoming == incoming + [];
  }

  /** Every event on an entry does what its call and the answer to it say. */
  lemma EventOutcomes(e: EntryState, event: PollEvent, incoming: seq<Envelope>, capacity: nat, io: Answers)
    requires e.connectionToken != e.outgoingToken
    ensures
      EventDoes(e, incoming, CallOf(e, event, |incoming| < capacity), io, TryEvent(e, event, incoming, capacity, io))
  {
    var call := CallOf(e, event, |incoming| < capacity);
    match call
    case OfferOf(payload) =>
      if e.cached.Some? {
        OfferDoes(e, e.(cached := None), payload, incoming, io);
      } else {
        OfferDoes(e, e.(queue := e.queue[1..]), payload, incoming, io);
      }
    case ReadOf => ReadDoes(e, incoming, capacity, io);
    case NoticeGone => IdleDoes(e, incoming, call, io);
    case NoCall => IdleDoes(e, incoming, call, io);
  }

  // -- Events in the mesh --

  /** The call that an event makes for connection `id`. */
  function CallFor(s: MeshState, event: PollEvent, id: nat): Call {
    if id in s.pool.entries && event.token != s.ctrlToken
    then CallOf(s.pool.entries[id], event, |s.incoming| < s.incomingCapacity)
    else NoCall
  }

  lemma OwnersCall(s: MeshState, event: PollEvent, id: nat)
    requires WellFormed(s) && id in s.pool.entries
    ensures EntryByToken(s.pool, event.token) != Some(id) ==> CallFor(s, event, id) == NoCall
    ensures EntryByToken(s.pool, event.token) == Some(id) ==>
              event.token != s.ctrlToken && s.pool.entries[id].id == id
              && s.pool.entries[id].connectionToken != s.pool.entries[id].outgoingToken
  {
    assert EntryIndexed(s.pool, id);
  }

  /** Exactly when an event evicts a connection. */
  lemma EvictedIff(s: MeshState, event: PollEvent, io: Answers, id: nat)
    requires WellFormed(s) && id in s.pool.entries
    ensures
      id !in Next(s, Event(event, io)).0.pool.entries
      <==> ErrorOf(s.pool.entries[id], CallFor(s, event, id), io).Some?
  {
    OwnersCall(s, event, id);
    if EntryByToken(s.pool, event.token) == Some(id) {
      EventOutcome(s, event, io, id);
      EventOutcomes(s.pool.entries[id], event, s.incoming, s.incomingCapacity, io);
    } else {
      EventTouchesOneEntry(s, event, io, id);
    }
  }

  /** A connection that would block stays, with the payload in hand kept, watched and first in line. */
  lemma BlockedConnectionStays(s: MeshState, event: PollEvent, io: Answers, id: nat)
    requires WellFormed(s) && id in s.pool.entries
    requires Refused(CallFor(s, event, id), io) && (s.pool.entries[id].cached.Some? || io.reregisterOk)
    ensures
      var s' := Next(s, Event(event, io)).0;
      && id in s'.pool.entries
      && s'.pool.entries[id].cached == Some(CallFor(s, event, id).payload)
      && s'.pool.entries[id].writableInterest
      && Unsent(s'.pool.entries[id]) == Unsent(s.pool.entries[id])
  {
    OwnersCall(s, event, id);
    EvictedIff(s, event, io, id);
    EventOutcome(s, event, io, id);
    EventOutcomes(s.pool.entries[id], event, s.incoming, s.incomingCapacity, io);
    EventKeepsWellFormed(s, event, io);
    assert Settled(s.pool.entries[id]);
    assert Settled(Next(s, Event(event, io)).0.pool.entries[id]);
  }

  /** Blocked states are reached: add a connection, send to it, and let it block. */
  lemma BlockedStateIsReached(incomingCapacity: nat, outgoingCapacity: nat, payload: Bytes, io: Answers)
    requires outgoingCapacity > 0 && io.send == SendWouldBlock && io.reregisterOk
    ensures
      var steps := [ControlAdd(true, true), ClientSend(3, payload), Event(PollEvent(2, true, false), io)];
      var s := Run(Init(incomingCapacity, outgoingCapacity), steps).state;
      3 in s.pool.entries && s.pool.entries[3].cached == Some(payload)
  {
    var add, send, event := ControlAdd(true, true), ClientSend(3, payload), Event(PollEvent(2, true, false), io);
    var start := Init(incomingCapacity, outgoingCapacity);
    assert [add, send, event][..2] == [add, send] && [add, send][..1] == [add] && [add][..0] == [];
    var s1, s2 := Next(start, add).0, Next(Next(start, add).0, send).0;
    assert Run(start, []) == History(start, []) && Run(start, [add]) == Extend(History(start, []), add);
    assert Run(start, [add, send]) == Extend(Run(start, [add]), send);
    StepKeepsWellFormed(start, add);
    StepKeepsWellFormed(s1, send);
    assert s2.pool.entries[3].queue == [] + [payload] == [payload];
    BlockedConnectionStays(s2, event.event, io, 3);
  }

  // -- Runs, told by what the surroundings did and saw --

  /** The payloads for `id` that clients handed over while its queue had room. */
  function HandedOver(start: MeshState, steps: seq<Step>, id: nat): seq<Bytes> {
    if steps == [] then []
    else
      var s, step := Run(start, steps[..|steps| - 1]).state, steps[|steps| - 1];
      HandedOver(start, steps[..|steps| - 1], id)
      + if step.ClientSend? && step.id == id && id in s.pool.entries
           && |s.pool.entries[id].queue| < s.outgoingCapacity
        then [step.payload] else []
  }

  /** The payloads that connection `id` was offered and took. */
  function TakenFrom(start: MeshState, steps: seq<Step>, id: nat): seq<Bytes> {
    if steps == [] then []
    else
      var s, step := Run(start, steps[..|steps| - 1]).state, steps[|steps| - 1];
      TakenFrom(start, steps[..|steps| - 1], id)
      + if step.Event? && Taken(CallFor(s, step.event, id), step.io) then [CallFor(s, step.event, id).payload] else []
  }

  /** The payloads that connection `id` gave when it was read. */
  function GivenBy(start: MeshState, steps: seq<Step>, id: nat): seq<Bytes> {
    if steps == [] then []
    else
      var s, step := Run(start, steps[..|steps| - 1]).state, steps[|steps| - 1];
      GivenBy(start, steps[..|steps| - 1], id)
      + if step.Event? && Came(CallFor(s, step.event, id), step.io) then [step.io.recv.payload] else []
  }

  /** Some connection was read in this event and gave something. */
  ghost predicate SomeCame(s: MeshState, event: PollEvent, io: Answers) {
    exists id: nat :: Came(CallFor(s, event, id), io)
  }

  /** The envelopes that consumers took, oldest first. */
  ghost function TakenByConsumers(start: MeshState, steps: seq<Step>): seq<Envelope> {
    if steps == [] then []
    else
      var s, step := Run(start, steps[..|steps| - 1]).state, steps[|steps| - 1];
      TakenByConsumers(start, steps[..|steps| - 1])
      + if step.Consume? then s.incoming[..Min(step.count, |s.incoming|)]
        else if step.Event? && SomeCame(s, step.event, step.io) then s.incoming[..Min(step.io.drained, |s.incoming|)]
        else []
  }

  /** One step records exactly what was seen from outside. */
  ghost predicate StepIsReal(s: MeshState, step: Step, obs: seq<Obs>, id: nat) {
    && MovedBy(obs, Accept, id)
       == (if step.ClientSend? && step.id == id && id in s.pool.entries
              && |s.pool.entries[id].queue| < s.outgoingCapacity
           then [step.payload] else [])
    && MovedBy(obs, Transmit, id)
       == (if step.Event? && Taken(CallFor(s, step.event, id), step.io)
           then [CallFor(s, step.event, id).payload] else [])
    && MovedBy(obs, Receive, id)
       == (if step.Event? && Came(CallFor(s, step.event, id), step.io) then [step.io.recv.payload] else [])
  }

  lemma OwnEventIsReal(s: MeshState, event: PollEvent, io: Answers, id: nat)
    requires WellFormed(s) && EntryByToken(s.pool, event.token) == Some(id)
    ensures StepIsReal(s, Event(event, io), Next(s, Event(event, io)).1, id)
  {
    OwnersCall(s, event, id);
    EventOutcome(s, event, io, id);
    EventOutcomes(s.pool.entries[id], event, s.incoming, s.incomingCapacity, io);
    OwnEvent(s.pool.entries[id], event, s.incoming, s.incomingCapacity, io);
  }

  lemma ForeignEventIsReal(s: MeshState, event: PollEvent, io: Answers, key: nat, id: nat)
    requires WellFormed(s) && EntryByToken(s.pool, event.token) == Some(key) && key != id
    ensures StepIsReal(s, Event(event, io), Next(s, Event(event, io)).1, id)
  {
    OwnersCall(s, event, key);
    EventOutcome(s, event, io, key);
    ForeignEvent(s.pool.entries[key], event, s.incoming, s.incomingCapacity, io, id);
    if id in s.pool.entries {
      OwnersCall(s, event, id);
    }
  }

  lemma EventIsReal(s: MeshState, event: PollEvent, io: Answers, id: nat)
    requires WellFormed(s)
    ensures StepIsReal(s, Event(event, io), Next(s, Event(event, io)).1, id)
  {
    match EntryByToken(s.pool, event.token)
    case None =>
      if id in s.pool.entries {
        OwnersCall(s, event, id);
      }
    case Some(key) =>
      if key == id {
        OwnEventIsReal(s, event, io, id);
      } else {
        ForeignEventIsReal(s, event, io, key, id);
      }
  }

  lemma EveryStepIsReal(s: MeshState, step: Step, id: nat)
    requires WellFormed(s)
    ensures StepIsReal(s, step, Next(s, step).1, id)
  {
    match step
    case ClientSend(target, payload) => FlowOfMove(Accept, target, payload, id);
    case ClientDrop(_) =>
    case Consume(count) => FlowOfDelivery(s.incoming[..Min(count, |s.incoming|)], id);
    case ControlAdd(_, _) =>
    case ControlRemove(_) =>
    case Event(event, io) => EventIsReal(s, event, io, id);
  }

  lemma EventHandsOut(s: MeshState, event: PollEvent, io: Answers)
    requires WellFormed(s)
    ensures
      Handed(Next(s, Event(event, io)).1)
      == if SomeCame(s, event, io) then s.incoming[..Min(io.drained, |s.incoming|)] else []
  {
    match EntryByToken(s.pool, event.token)
    case None =>
      forall id: nat
        ensures !Came(CallFor(s, event, id), io)
      {
        if id in s.pool.entries {
          OwnersCall(s, event, id);
        }
      }
    case Some(key) =>
      OwnersCall(s, event, key);
      EventOutcome(s, event, io, key);
      EventOutcomes(s.pool.entries[key], event, s.incoming, s.incomingCapacity, io);
      forall id: nat | id != key
        ensures !Came(CallFor(s, event, id), io)
      {
        if id in s.pool.entries {
          OwnersCall(s, event, id);
        }
      }
      assert SomeCame(s, event, io) <==> Came(CallFor(s, event, key), io);
  }

  lemma StepHandsOut(s: MeshState, step: Step)
    requires WellFormed(s)
    ensures
      Handed(Next(s, step).1)
      == if step.Consume? then s.incoming[..Min(step.count, |s.incoming|)]
         else if step.Event? && SomeCame(s, step.event, step.io) then s.incoming[..Min(step.io.drained, |s.incoming|)]
         else []
  {
    match step
    case ClientSend(target, payload) => HandedByOne(Moved(Accept, target, payload));
    case ClientDrop(_) =>
    case Consume(count) => HandedByOne(Delivered(s.incoming[..Min(count, |s.incoming|)]));
    case ControlAdd(_, _) =>
    case ControlRemove(_) =>
    case Event(event, io) => EventHandsOut(s, event, io);
  }

  lemma {:induction false} RunStaysWellFormed(start: MeshState, steps: seq<Step>)
    requires WellFormed(start)
    ensures WellFormed(Run(start, steps).state)
  {
    if steps != [] {
      RunStaysWellFormed(start, steps[..|steps| - 1]);
      StepKeepsWellFormed(Run(start, steps[..|steps| - 1]).state, steps[|steps| - 1]);
    }
  }

  /** The trace of every run is what the surroundings did and saw. */
  lemma {:induction false} TraceIsReal(start: MeshState, steps: seq<Step>, id: nat)
    requires WellFormed(start)
    ensures
      var trace := Run(start, steps).trace;
      && MovedBy(trace, Accept, id) == HandedOver(start, steps, id)
      && MovedBy(trace, Transmit, id) == TakenFrom(start, steps, id)
      && MovedBy(trace, Receive, id) == GivenBy(start, steps, id)
  {
    if steps != [] {
      var before, step := steps[..|steps| - 1], steps[|steps| - 1];
      var h := Run(start, before);
      TraceIsReal(start, before, id);
      RunStaysWellFormed(start, before);
      EveryStepIsReal(h.state, step, id);
      MovedByAppend(h.trace, Next(h.state, step).1, Accept, id);
      MovedByAppend(h.trace, Next(h.state, step).1, Transmit, id);
      MovedByAppend(h.trace, Next(h.state, step).1, Receive, id);
    }
  }

  lemma {:induction false} ConsumersAreReal(start: MeshState, steps: seq<Step>)
    requires WellFormed(start)
    ensures Handed(Run(start, steps).trace) == TakenByConsumers(start, steps)
  {
    if steps != [] {
      var before, step := steps[..|steps| - 1], steps[|steps| - 1];
      var h := Run(start, before);
      ConsumersAreReal(start, before);
      RunStaysWellFormed(start, before);
      StepHandsOut(h.state, step);
      HandedAppend(h.trace, Next(h.state, step).1);
    }
  }

  lemma {:induction false} DeliveredIsHanded(obs: seq<Obs>, id: nat)
    ensures DeliveredTo(obs, id) == PayloadsFor(Handed(obs), id)
  {
    if obs != [] {
      DeliveredIsHanded(obs[..|obs| - 1], id);
      var o := obs[|obs| - 1];
      PayloadsForAppend(Handed(obs[..|obs| - 1]), if o.Delivered? then o.batch else [], id);
    }
  }

  /** In every run, what clients handed over for a live connection is what it took, then what is cached and queued. */
  lemma HandedOverIsTakenInOrder(incomingCapacity: nat, outgoingCapacity: nat, steps: seq<Step>, id: nat)
    ensures
      var start := Init(incomingCapacity, outgoingCapacity);
      var s := Run(start, steps).state;
      && TakenFrom(start, steps, id) <= HandedOver(start, steps, id)
      && (id in s.pool.entries ==>
            HandedOver(start, steps, id) == TakenFrom(start, steps, id) + Unsent(s.pool.entries[id]))
  {
    var start := Init(incomingCapacity, outgoingCapacity);
    EveryRunIsSound(incomingCapacity, outgoingCapacity, steps);
    assert Conserves(Run(start, steps).state, Run(start, steps).trace, id);
    TraceIsReal(start, steps, id);
  }

  /** In every run, what a live connection gave is what consumers took of it, then what is queued for them. */
  lemma GivenIsConsumedInOrder(incomingCapacity: nat, outgoingCapacity: nat, steps: seq<Step>, id: nat)
    ensures
      var start := Init(incomingCapacity, outgoingCapacity);
      var s := Run(start, steps).state;
      var consumed := PayloadsFor(TakenByConsumers(start, steps), id) + PayloadsFor(s.incoming, id);
      && consumed <= GivenBy(start, steps, id)
      && (id in s.pool.entries ==> consumed == GivenBy(start, steps, id))
  {
    var start := Init(incomingCapacity, outgoingCapacity);
    EveryRunIsSound(incomingCapacity, outgoingCapacity, steps);
    assert Conserves(Run(start, steps).state, Run(start, steps).trace, id);
    TraceIsReal(start, steps, id);
    ConsumersAreReal(start, steps);
    DeliveredIsHanded(Run(start, steps).trace, id);
  }

  // -- Adding, removing and dropping --

  /** An add succeeds iff both registrations do, under an id never seen before, with an entry that starts idle. */
  lemma AddOutcomes(p: PoolState, ctrlToken: nat, connectionOk: bool, outgoingOk: bool)
    requires Indexed(p, ctrlToken)
    ensures
      var (p', id) := AddEntry(p, connectionOk, outgoingOk);
      && (id.Some? <==> connectionOk && outgoingOk)
      && (id.None? ==> p'.entries == p.entries && p'.tokens == p.tokens)
      && (id.Some? ==>
            && id.value !in p.entries && id.value in p'.entries
            && Unsent(p'.entries[id.value]) == [] && p'.entries[id.value].sendersAlive
            && EntryByToken(p', p'.entries[id.value].connectionToken) == id
            && EntryByToken(p', p'.entries[id.value].outgoingToken) == id
            && (forall other <- p.entries :: other in p'.entries && p'.entries[other] == p.entries[other]))
  {
    assert forall id <- p.entries :: EntryIndexed(p, id);
    assert forall t <- p.tokens :: TokenOwned(p, t);
  }

  /** A removal forgets the connection and both its tokens, and nothing else. */
  lemma RemoveOutcomes(p: PoolState, ctrlToken: nat, id: nat, other: nat)
    requires Indexed(p, ctrlToken) && other in p.entries && other != id
    ensures
      var p' := RemoveEntry(p, id);
      && id !in p'.entries && (forall t <- p'.tokens :: p'.tokens[t] != id)
      && other in p'.entries && p'.entries[other] == p.entries[other]
      && EntryByToken(p', p.entries[other].connectionToken) == Some(other)
      && EntryByToken(p', p.entries[other].outgoingToken) == Some(other)
  {
    assert EntryIndexed(p, other);
    if id in p.entries {
      assert EntryIndexed(p, id);
    }
    forall t | t in RemoveEntry(p, id).tokens
      ensures RemoveEntry(p, id).tokens[t] != id
    {
      assert TokenOwned(p, t);
    }
  }

  /** Once the senders are gone and all is transmitted, the next wake-up of the queue evicts the connection. */
  lemma DroppedSendersAreNoticed(s: MeshState, id: nat, io: Answers)
    requires WellFormed(s) && id in s.pool.entries && Unsent(s.pool.entries[id]) == []
    ensures
      var s1 := Next(s, ClientDrop(id)).0;
      && id in s1.pool.entries
      && id !in Next(s1, Event(PollEvent(s.pool.entries[id].outgoingToken, true, false), io)).0.pool.entries
  {
    var s1 := Next(s, ClientDrop(id)).0;
    StepKeepsWellFormed(s, ClientDrop(id));
    assert EntryIndexed(s.pool, id);
    EvictedIff(s1, PollEvent(s.pool.entries[id].outgoingToken, true, false), io, id);
  }
}
