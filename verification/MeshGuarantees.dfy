/**
What every interleaving of the mesh keeps.

The main results are `EveryRunIsSound` and the lemmas below it: outgoing payloads are neither lost, duplicated
nor reordered, a blocked payload always has a wake-up registered, nothing received is dropped, and the
token index never goes stale.
 */
module MeshGuarantees {
  import opened Prelude
  import opened MeshModel

  // -- Projections of a trace distribute over concatenation --

  lemma {:induction false} PayloadsForAppend(a: seq<Envelope>, b: seq<Envelope>, id: nat)
    ensures PayloadsFor(a + b, id) == PayloadsFor(a, id) + PayloadsFor(b, id)
  {
    if b == [] {
      assert a + b == a;
    } else {
      assert (a + b)[..|a + b| - 1] == a + b[..|b| - 1];
      PayloadsForAppend(a, b[..|b| - 1], id);
    }
  }

  lemma {:induction false} MovedByAppend(a: seq<Obs>, b: seq<Obs>, kind: Kind, id: nat)
    ensures MovedBy(a + b, kind, id) == MovedBy(a, kind, id) + MovedBy(b, kind, id)
  {
    if b == [] {
      assert a + b == a;
    } else {
      assert (a + b)[..|a + b| - 1] == a + b[..|b| - 1];
      MovedByAppend(a, b[..|b| - 1], kind, id);
    }
  }

  lemma {:induction false} DeliveredToAppend(a: seq<Obs>, b: seq<Obs>, id: nat)
    ensures DeliveredTo(a + b, id) == DeliveredTo(a, id) + DeliveredTo(b, id)
  {
    if b == [] {
      assert a + b == a;
    } else {
      assert (a + b)[..|a + b| - 1] == a + b[..|b| - 1];
      DeliveredToAppend(a, b[..|b| - 1], id);
    }
  }

  // -- Invariants --

  /** A payload is blocked iff the write guard is set iff the poll watches for writability. */
  ghost predicate Settled(e: EntryState) {
    e.cached.Some? == e.writeGuard == e.writableInterest
  }

  ghost predicate EntryIndexed(p: PoolState, id: nat)
    requires id in p.entries
  {
    var e := p.entries[id];
    && e.id == id < p.nextId
    && id !in p.tokens
    && e.connectionToken != e.outgoingToken
    && e.connectionToken in p.tokens && p.tokens[e.connectionToken] == id
    && e.outgoingToken in p.tokens && p.tokens[e.outgoingToken] == id
  }

  ghost predicate TokenOwned(p: PoolState, t: nat)
    requires t in p.tokens
  {
    && t < p.nextId
    && p.tokens[t] in p.entries
    && t in {p.entries[p.tokens[t]].connectionToken, p.entries[p.tokens[t]].outgoingToken}
  }

  /** The token index and the entries agree, and nothing has a number that is still to be issued. */
  ghost predicate Indexed(p: PoolState, ctrlToken: nat) {
    && (forall id <- p.entries :: EntryIndexed(p, id))
    && (forall t <- p.tokens :: TokenOwned(p, t))
    && ctrlToken < p.nextId
    && ctrlToken !in p.tokens
    && ctrlToken !in p.entries
  }

  ghost predicate Bounded(s: MeshState) {
    && |s.incoming| <= s.incomingCapacity
    && (forall id <- s.pool.entries :: |s.pool.entries[id].queue| <= s.outgoingCapacity)
  }

  ghost predicate WellFormed(s: MeshState) {
    && Indexed(s.pool, s.ctrlToken)
    && Bounded(s)
    && (forall id <- s.pool.entries :: Settled(s.pool.entries[id]))
  }

  /** What clients handed over for `id` is what the connection took, then the cached payload, then the queue. */
  ghost predicate OutgoingConserved(p: PoolState, trace: seq<Obs>, id: nat) {
    var accepted, transmitted := MovedBy(trace, Accept, id), MovedBy(trace, Transmit, id);
    && transmitted <= accepted
    && (id in p.entries ==> accepted == transmitted + Unsent(p.entries[id]))
    && (id >= p.nextId ==> accepted == [])
  }

  /** What consumers got of `id`, then what is queued for them, is what the connection delivered; nothing is dropped. */
  ghost predicate IncomingConserved(s: MeshState, trace: seq<Obs>, id: nat) {
    var received := MovedBy(trace, Receive, id);
    var handedOver := DeliveredTo(trace, id) + PayloadsFor(s.incoming, id);
    && MovedBy(trace, Drop, id) == []
    && handedOver <= received
    && (id in s.pool.entries ==> received == handedOver)
    && (id >= s.pool.nextId ==> received == [])
  }

  ghost predicate Conserves(s: MeshState, trace: seq<Obs>, id: nat) {
    OutgoingConserved(s.pool, trace, id) && IncomingConserved(s, trace, id)
  }

  ghost predicate Sound(h: History) {
    WellFormed(h.state) && forall id: nat :: Conserves(h.state, h.trace, id)
  }

  // -- One event on one entry --

  /** A payload in hand is transmitted, or is back in front of everything else, or the entry fails. */
  lemma SendOrCacheKeepsOrder(e: EntryState, payload: Bytes, io: Answers)
    requires e.cached.None? && e.writeGuard == e.writableInterest
    ensures
      var s := TrySendOrCache(e, payload, io);
      && s.entry.(cached := e.cached, writeGuard := e.writeGuard, writableInterest := e.writableInterest) == e
      && (s.obs == [] || s.obs == [Moved(Transmit, e.id, payload)])
      && (s.err.None? ==> Settled(s.entry))
      && (s.err.None? ==> MovedBy(s.obs, Transmit, e.id) + Unsent(s.entry) == [payload] + Unsent(e))
  {
    assert MovedBy([Moved(Transmit, e.id, payload)], Transmit, e.id) == [payload] by {
      assert [Moved(Transmit, e.id, payload)][..0] == [];
    }
  }

  /** What the observations of a step add to the traffic of one connection. */
  datatype Flow = Flow(
    accepted: seq<Bytes>, transmitted: seq<Bytes>, received: seq<Bytes>, dropped: seq<Bytes>, delivered: seq<Bytes>)

  const NoFlow := Flow([], [], [], [], [])

  function FlowOf(obs: seq<Obs>, id: nat): Flow {
    Flow(MovedBy(obs, Accept, id), MovedBy(obs, Transmit, id), MovedBy(obs, Receive, id), MovedBy(obs, Drop, id),
         DeliveredTo(obs, id))
  }

  lemma MovedByOne(o: Obs, kind: Kind, id: nat)
    ensures MovedBy([o], kind, id) == if o.Moved? && o.kind == kind && o.id == id then [o.payload] else []
  {
    assert [o][..0] == [];
  }

  lemma FlowOfMove(kind: Kind, id: nat, payload: Bytes, other: nat)
    ensures
      FlowOf([Moved(kind, id, payload)], other)
      == if other != id then NoFlow
         else match kind
              case Accept => NoFlow.(accepted := [payload])
              case Transmit => NoFlow.(transmitted := [payload])
              case Receive => NoFlow.(received := [payload])
              case Drop => NoFlow.(dropped := [payload])
  {
    MovedByOne(Moved(kind, id, payload), Accept, other);
    MovedByOne(Moved(kind, id, payload), Transmit, other);
    MovedByOne(Moved(kind, id, payload), Receive, other);
    MovedByOne(Moved(kind, id, payload), Drop, other);
    assert DeliveredTo([Moved(kind, id, payload)], other) == [] by {
      assert [Moved(kind, id, payload)][..0] == [];
    }
  }

  lemma FlowOfDelivery(batch: seq<Envelope>, other: nat)
    ensures FlowOf([Delivered(batch)], other) == NoFlow.(delivered := PayloadsFor(batch, other))
  {
    MovedByOne(Delivered(batch), Accept, other);
    MovedByOne(Delivered(batch), Transmit, other);
    MovedByOne(Delivered(batch), Receive, other);
    MovedByOne(Delivered(batch), Drop, other);
    assert DeliveredTo([Delivered(batch)], other) == PayloadsFor(batch, other) by {
      assert [Delivered(batch)][..0] == [];
    }
  }

  function Joined(f: Flow, g: Flow): Flow {
    Flow(f.accepted + g.accepted, f.transmitted + g.transmitted, f.received + g.received, f.dropped + g.dropped,
         f.delivered + g.delivered)
  }

  lemma FlowsJoin(a: seq<Obs>, b: seq<Obs>, id: nat)
    ensures FlowOf(a + b, id) == Joined(FlowOf(a, id), FlowOf(b, id))
  {
    MovedByAppend(a, b, Accept, id);
    MovedByAppend(a, b, Transmit, id);
    MovedByAppend(a, b, Receive, id);
    MovedByAppend(a, b, Drop, id);
    DeliveredToAppend(a, b, id);
  }

  lemma FlowOfReception(id: nat, payload: Bytes, batch: seq<Envelope>, other: nat)
    ensures
      FlowOf([Moved(Receive, id, payload), Delivered(batch)], other)
      == Flow([], [], if other == id then [payload] else [], [], PayloadsFor(batch, other))
  {
    FlowOfMove(Receive, id, payload, other);
    FlowOfDelivery(batch, other);
    FlowsJoin([Moved(Receive, id, payload)], [Delivered(batch)], other);
    assert [Moved(Receive, id, payload)] + [Delivered(batch)] == [Moved(Receive, id, payload), Delivered(batch)];
  }

  /** One event on one entry, seen from its own traffic: `f` accounts for exactly what left or came in. */
  ghost predicate EventAccounts(e: EntryState, incoming: seq<Envelope>, capacity: nat, s: EventStep, f: Flow) {
    var delivered, owed := f.delivered + PayloadsFor(s.incoming, e.id), PayloadsFor(incoming, e.id) + f.received;
    && SameNumbers(e, s.entry)
    && |s.incoming| <= capacity
    && |s.entry.queue| <= |e.queue|
    && f.transmitted <= Unsent(e)
    && f.accepted == f.dropped == []
    && delivered <= owed
    && (s.err.None? ==> Settled(s.entry) && f.transmitted + Unsent(s.entry) == Unsent(e) && delivered == owed)
  }

  /** The same event, seen from any other connection. */
  ghost predicate EventSpares(incoming: seq<Envelope>, s: EventStep, other: nat, f: Flow) {
    && f == NoFlow.(delivered := f.delivered)
    && f.delivered + PayloadsFor(s.incoming, other) == PayloadsFor(incoming, other)
  }

  lemma FlowOfSend(obs: seq<Obs>, id: nat, payload: Bytes, other: nat)
    requires obs == [] || obs == [Moved(Transmit, id, payload)]
    ensures FlowOf(obs, other) == NoFlow.(transmitted := MovedBy(obs, Transmit, other))
    ensures MovedBy(obs, Transmit, other) <= [payload]
    ensures other != id ==> MovedBy(obs, Transmit, other) == []
  {
    if obs != [] {
      FlowOfMove(Transmit, id, payload, other);
    }
  }

  /** Sending the payload at the head of what is unsent, wherever it was held. */
  lemma SendEventAccounts(e: EntryState, rest: EntryState, payload: Bytes, incoming: seq<Envelope>, capacity: nat,
                          io: Answers)
    requires Settled(e) && |incoming| <= capacity
    requires Unsent(e) == [payload] + Unsent(rest) && SameNumbers(e, rest) && |rest.queue| <= |e.queue|
    requires rest.cached.None? && rest.writeGuard == rest.writableInterest
    ensures
      var r := TrySendOrCache(rest, payload, io);
      EventAccounts(e, incoming, capacity, EventStep(r.entry, incoming, r.obs, r.err), FlowOf(r.obs, e.id))
  {
    var r := TrySendOrCache(rest, payload, io);
    SendOrCacheKeepsOrder(rest, payload, io);
    FlowOfSend(r.obs, e.id, payload, e.id);
  }

  lemma SendEventSpares(rest: EntryState, payload: Bytes, incoming: seq<Envelope>, io: Answers, other: nat)
    requires rest.cached.None? && rest.writeGuard == rest.writableInterest && other != rest.id
    ensures
      var r := TrySendOrCache(rest, payload, io);
      EventSpares(incoming, EventStep(r.entry, incoming, r.obs, r.err), other, FlowOf(r.obs, other))
  {
    var r := TrySendOrCache(rest, payload, io);
    SendOrCacheKeepsOrder(rest, payload, io);
    FlowOfSend(r.obs, rest.id, payload, other);
  }

  /** A reception with `n` envelopes consumed meanwhile, seen from connection `other`. */
  lemma ReceivedAccounts(id: nat, incoming: seq<Envelope>, n: nat, payload: Bytes, obs: seq<Obs>, other: nat)
    requires n <= |incoming|
    requires obs == [Moved(Receive, id, payload), Delivered(incoming[..n])]
    ensures
      var f := FlowOf(obs, other);
      && f == NoFlow.(received := if other == id then [payload] else [], delivered := f.delivered)
      && f.delivered + PayloadsFor(incoming[n..], other) == PayloadsFor(incoming, other)
  {
    FlowOfReception(id, payload, incoming[..n], other);
    PayloadsSplit(incoming, n, other);
  }

  lemma PayloadsSplit(envelopes: seq<Envelope>, n: nat, id: nat)
    requires n <= |envelopes|
    ensures PayloadsFor(envelopes[..n], id) + PayloadsFor(envelopes[n..], id) == PayloadsFor(envelopes, id)
  {
    assert envelopes[..n] + envelopes[n..] == envelopes;
    PayloadsForAppend(envelopes[..n], envelopes[n..], id);
  }

  lemma EnqueuedAccounts(left: seq<Envelope>, id: nat, payload: Bytes, past: seq<Bytes>, other: nat)
    ensures past + PayloadsFor(left + [Envelope(id, payload)], other)
            == (past + PayloadsFor(left, other)) + if other == id then [payload] else []
  {
    PayloadsForAppend(left, [Envelope(id, payload)], other);
  }

  /** What the read step hands over and still queues for `other`, against what it owes. */
  ghost predicate ReadAccounts(id: nat, incoming: seq<Envelope>, s: ReadStep, other: nat, f: Flow) {
    var delivered := f.delivered + PayloadsFor(s.incoming, other);
    var owed := PayloadsFor(incoming, other) + f.received;
    && delivered <= owed
    && (s.err.None? || other != id ==> delivered == owed)
    && f.accepted == f.transmitted == f.dropped == []
    && (other != id ==> f.received == [])
  }

  /** Between a false fullness check and the enqueue the queue can only shrink: the drop branch is dead. */
  lemma CheckedEnqueueNeverDrops(id: nat, incoming: seq<Envelope>, capacity: nat, io: Answers, other: nat)
    requires |incoming| <= capacity
    ensures
      var s := TryReadConnection(id, incoming, capacity, io);
      |s.incoming| <= capacity && ReadAccounts(id, incoming, s, other, FlowOf(s.obs, other))
  {
    var s := TryReadConnection(id, incoming, capacity, io);
    if |incoming| < capacity && io.recv.Got? {
      var n := Min(io.drained, |incoming|);
      ReceivedAccounts(id, incoming, n, io.recv.payload, s.obs, other);
      EnqueuedAccounts(incoming[n..], id, io.recv.payload, FlowOf(s.obs, other).delivered, other);
    } else {
      assert s.obs == [];
    }
  }

  lemma ReadEventAccounts(e: EntryState, incoming: seq<Envelope>, capacity: nat, io: Answers)
    requires Settled(e) && |incoming| <= capacity
    ensures
      var r := TryReadConnection(e.id, incoming, capacity, io);
      EventAccounts(e, incoming, capacity, EventStep(e, r.incoming, r.obs, r.err), FlowOf(r.obs, e.id))
  {
    CheckedEnqueueNeverDrops(e.id, incoming, capacity, io, e.id);
  }

  lemma ReadEventSpares(e: EntryState, incoming: seq<Envelope>, capacity: nat, io: Answers, other: nat)
    requires |incoming| <= capacity && other != e.id
    ensures
      var r := TryReadConnection(e.id, incoming, capacity, io);
      EventSpares(incoming, EventStep(e, r.incoming, r.obs, r.err), other, FlowOf(r.obs, other))
  {
    CheckedEnqueueNeverDrops(e.id, incoming, capacity, io, other);
  }

  lemma IdleEventAccounts(e: EntryState, incoming: seq<Envelope>, capacity: nat, err: Option<TryEventError>, other: nat)
    requires Settled(e) && |incoming| <= capacity
    ensures EventAccounts(e, incoming, capacity, EventStep(e, incoming, [], err), FlowOf([], e.id))
    ensures EventSpares(incoming, EventStep(e, incoming, [], err), other, FlowOf([], other))
  {
  }

  lemma OwnEvent(e: EntryState, event: PollEvent, incoming: seq<Envelope>, capacity: nat, io: Answers)
    requires Settled(e) && |incoming| <= capacity
    ensures
      var s := TryEvent(e, event, incoming, capacity, io);
      EventAccounts(e, incoming, capacity, s, FlowOf(s.obs, e.id))
  {
    var s := TryEvent(e, event, incoming, capacity, io);
    if e.outgoingToken == event.token && event.readable && e.cached.None? && e.queue != [] {
      SendEventAccounts(e, e.(queue := e.queue[1..]), e.queue[0], incoming, capacity, io);
    } else if e.connectionToken == event.token && event.writable && e.cached.Some? {
      SendEventAccounts(e, e.(cached := None), e.cached.value, incoming, capacity, io);
    } else if s.obs == [] && s.entry == e && s.incoming == incoming {
      IdleEventAccounts(e, incoming, capacity, s.err, e.id);
    } else {
      ReadEventAccounts(e, incoming, capacity, io);
    }
  }

  lemma ForeignEvent(e: EntryState, event: PollEvent, incoming: seq<Envelope>, capacity: nat, io: Answers, other: nat)
    requires Settled(e) && |incoming| <= capacity && other != e.id
    ensures
      var s := TryEvent(e, event, incoming, capacity, io);
      EventSpares(incoming, s, other, FlowOf(s.obs, other))
  {
    var s := TryEvent(e, event, incoming, capacity, io);
    if e.outgoingToken == event.token && event.readable && e.cached.None? && e.queue != [] {
      SendEventSpares(e.(queue := e.queue[1..]), e.queue[0], incoming, io, other);
    } else if e.connectionToken == event.token && event.writable && e.cached.Some? {
      SendEventSpares(e.(cached := None), e.cached.value, incoming, io, other);
    } else if s.obs == [] && s.entry == e && s.incoming == incoming {
      IdleEventAccounts(e, incoming, capacity, s.err, other);
    } else {
      ReadEventSpares(e, incoming, capacity, io, other);
    }
  }

  // -- One step of the mesh --

  lemma AddKeepsIndex(p: PoolState, ctrlToken: nat, connectionOk: bool, outgoingOk: bool)
    requires Indexed(p, ctrlToken)
    ensures Indexed(AddEntry(p, connectionOk, outgoingOk).0, ctrlToken)
  {
    var p' := AddEntry(p, connectionOk, outgoingOk).0;
    forall id | id in p'.entries
      ensures EntryIndexed(p', id)
    {
      assert id in p.entries ==> EntryIndexed(p, id);
    }
    forall t | t in p'.tokens
      ensures TokenOwned(p', t)
    {
      assert t in p.tokens ==> TokenOwned(p, t);
    }
  }

  lemma RemoveKeepsIndex(p: PoolState, ctrlToken: nat, id: nat)
    requires Indexed(p, ctrlToken)
    ensures Indexed(RemoveEntry(p, id), ctrlToken)
  {
    if id in p.entries {
      var p' := RemoveEntry(p, id);
      assert EntryIndexed(p, id);
      forall other | other in p'.entries
        ensures EntryIndexed(p', other)
      {
        assert EntryIndexed(p, other);
      }
      forall t | t in p'.tokens
        ensures TokenOwned(p', t)
      {
        assert TokenOwned(p, t);
      }
    }
  }

  ghost predicate SameNumbers(e: EntryState, e': EntryState) {
    e'.id == e.id && e'.connectionToken == e.connectionToken && e'.outgoingToken == e.outgoingToken
  }

  lemma UpdateKeepsIndex(p: PoolState, ctrlToken: nat, key: nat, e: EntryState)
    requires Indexed(p, ctrlToken) && key in p.entries && SameNumbers(p.entries[key], e)
    ensures Indexed(p.(entries := p.entries[key := e]), ctrlToken)
  {
    var p' := p.(entries := p.entries[key := e]);
    forall id | id in p'.entries
      ensures EntryIndexed(p', id)
    {
      assert EntryIndexed(p, id);
    }
    forall t | t in p'.tokens
      ensures TokenOwned(p', t)
    {
      assert TokenOwned(p, t);
    }
  }

  lemma UpdateKeepsWellFormed(s: MeshState, key: nat, e: EntryState)
    requires WellFormed(s) && key in s.pool.entries
    requires SameNumbers(s.pool.entries[key], e) && Settled(e) && |e.queue| <= s.outgoingCapacity
    ensures WellFormed(s.(pool := s.pool.(entries := s.pool.entries[key := e])))
  {
    UpdateKeepsIndex(s.pool, s.ctrlToken, key, e);
  }

  lemma RemoveKeepsWellFormed(s: MeshState, id: nat)
    requires WellFormed(s)
    ensures WellFormed(s.(pool := RemoveEntry(s.pool, id)))
  {
    RemoveKeepsIndex(s.pool, s.ctrlToken, id);
  }

  lemma RemoveForgetsUpdate(p: PoolState, key: nat, e: EntryState)
    requires key in p.entries && SameNumbers(p.entries[key], e)
    ensures RemoveEntry(p.(entries := p.entries[key := e]), key) == RemoveEntry(p, key)
  {
    assert p.entries[key := e] - {key} == p.entries - {key};
  }

  lemma EventKeepsWellFormed(s: MeshState, event: PollEvent, io: Answers)
    requires WellFormed(s)
    ensures WellFormed(Next(s, Event(event, io)).0)
  {
    match EntryByToken(s.pool, event.token)
    case None =>
    case Some(key) =>
      var e := s.pool.entries[key];
      OwnEvent(e, event, s.incoming, s.incomingCapacity, io);
      var r := TryEvent(e, event, s.incoming, s.incomingCapacity, io);
      var t := s.(incoming := r.incoming);
      assert WellFormed(t);
      if r.err.Some? {
        RemoveForgetsUpdate(s.pool, key, r.entry);
        RemoveKeepsWellFormed(t, key);
      } else {
        UpdateKeepsWellFormed(t, key, r.entry);
      }
  }

  lemma StepKeepsWellFormed(s: MeshState, step: Step)
    requires WellFormed(s)
    ensures WellFormed(Next(s, step).0)
  {
    match step
    case ClientSend(id, payload) =>
      if id in s.pool.entries && |s.pool.entries[id].queue| < s.outgoingCapacity {
        UpdateKeepsWellFormed(s, id, s.pool.entries[id].(queue := s.pool.entries[id].queue + [payload]));
      }
    case ClientDrop(id) =>
      if id in s.pool.entries {
        UpdateKeepsWellFormed(s, id, s.pool.entries[id].(sendersAlive := false));
      }
    case Consume(_) =>
    case ControlAdd(c, o) => AddKeepsIndex(s.pool, s.ctrlToken, c, o);
    case ControlRemove(id) => RemoveKeepsWellFormed(s, id);
    case Event(event, io) => EventKeepsWellFormed(s, event, io);
  }

  /** One step, seen from the outgoing side of one connection id, without looking at the past. */
  ghost predicate OutgoingAccounts(p: PoolState, p': PoolState, f: Flow, id: nat) {
    && p.nextId <= p'.nextId
    && (if id in p.entries then
          && id < p.nextId
          && f.transmitted <= Unsent(p.entries[id])
          && (if id in p'.entries
              then f.transmitted + Unsent(p'.entries[id]) == Unsent(p.entries[id]) + f.accepted
              else f.accepted == [])
        else
          && f.accepted == f.transmitted == []
          && (id in p'.entries ==> p.nextId <= id < p'.nextId && Unsent(p'.entries[id]) == []))
  }

  /** The same for the incoming side. */
  ghost predicate IncomingAccounts(s: MeshState, s': MeshState, f: Flow, id: nat) {
    var delivered := f.delivered + PayloadsFor(s'.incoming, id);
    var owed := PayloadsFor(s.incoming, id) + f.received;
    && f.dropped == []
    && delivered <= owed
    && (delivered == owed || id !in s'.pool.entries)
    && (id !in s.pool.entries ==> f.received == [] && delivered == owed)
    && (id in s'.pool.entries && id !in s.pool.entries ==> s.pool.nextId <= id)
    && s.pool.nextId <= s'.pool.nextId
    && (id in s.pool.entries ==> id < s.pool.nextId)
  }

  ghost predicate StepAccounts(s: MeshState, s': MeshState, f: Flow, id: nat) {
    OutgoingAccounts(s.pool, s'.pool, f, id) && IncomingAccounts(s, s', f, id)
  }

  lemma FlowBalances(past: seq<Bytes>, owed: seq<Bytes>, out: seq<Bytes>, kept: seq<Bytes>, added: seq<Bytes>)
    requires out + kept <= owed + added
    ensures (past + out) + kept <= (past + owed) + added
    ensures out + kept == owed + added ==> (past + out) + kept == (past + owed) + added
  {
    assert (past + out) + kept == past + (out + kept);
    assert (past + owed) + added == past + (owed + added);
  }

  lemma OutgoingStep(p: PoolState, trace: seq<Obs>, p': PoolState, obs: seq<Obs>, id: nat)
    requires OutgoingConserved(p, trace, id) && OutgoingAccounts(p, p', FlowOf(obs, id), id)
    ensures OutgoingConserved(p', trace + obs, id)
  {
    MovedByAppend(trace, obs, Accept, id);
    MovedByAppend(trace, obs, Transmit, id);
    if id in p.entries {
      FlowBalances(MovedBy(trace, Transmit, id), Unsent(p.entries[id]), MovedBy(obs, Transmit, id),
                   if id in p'.entries then Unsent(p'.entries[id]) else [], MovedBy(obs, Accept, id));
    }
  }

  lemma IncomingStep(s: MeshState, trace: seq<Obs>, s': MeshState, obs: seq<Obs>, id: nat)
    requires IncomingConserved(s, trace, id) && IncomingAccounts(s, s', FlowOf(obs, id), id)
    ensures IncomingConserved(s', trace + obs, id)
  {
    MovedByAppend(trace, obs, Drop, id);
    MovedByAppend(trace, obs, Receive, id);
    DeliveredToAppend(trace, obs, id);
    FlowBalances(DeliveredTo(trace, id), PayloadsFor(s.incoming, id),
                 DeliveredTo(obs, id), PayloadsFor(s'.incoming, id), MovedBy(obs, Receive, id));
  }

  /** What an event on the entry `key` leaves of the mesh. */
  lemma EventOutcome(s: MeshState, event: PollEvent, io: Answers, key: nat)
    requires EntryByToken(s.pool, event.token) == Some(key) && s.pool.entries[key].id == key
    requires event.token != s.ctrlToken
    ensures
      var r := TryEvent(s.pool.entries[key], event, s.incoming, s.incomingCapacity, io);
      var (s', obs) := Next(s, Event(event, io));
      && obs == r.obs
      && s'.incoming == r.incoming
      && s'.pool.nextId == s.pool.nextId
      && s'.pool.entries == if r.err.Some? then s.pool.entries - {key} else s.pool.entries[key := r.entry]
  {
    var r := TryEvent(s.pool.entries[key], event, s.incoming, s.incomingCapacity, io);
    assert r.entry.id == key;
    assert s.pool.entries[key := r.entry] - {key} == s.pool.entries - {key};
  }

  /** The entry that owns the event's token accounts for it, whether it stays or is evicted. */
  lemma OwnEventAccounts(s: MeshState, event: PollEvent, io: Answers, id: nat)
    requires WellFormed(s) && EntryByToken(s.pool, event.token) == Some(id)
    ensures
      var (s', obs) := Next(s, Event(event, io));
      StepAccounts(s, s', FlowOf(obs, id), id)
  {
    assert EntryIndexed(s.pool, id);
    EventOutcome(s, event, io, id);
    OwnEvent(s.pool.entries[id], event, s.incoming, s.incomingCapacity, io);
  }

  /** Any other connection has at most some envelopes consumed. */
  lemma ForeignEventAccounts(s: MeshState, event: PollEvent, io: Answers, key: nat, id: nat)
    requires WellFormed(s) && EntryByToken(s.pool, event.token) == Some(key) && key != id
    ensures
      var (s', obs) := Next(s, Event(event, io));
      StepAccounts(s, s', FlowOf(obs, id), id)
  {
    assert EntryIndexed(s.pool, key) && (id in s.pool.entries ==> EntryIndexed(s.pool, id));
    EventOutcome(s, event, io, key);
    ForeignEvent(s.pool.entries[key], event, s.incoming, s.incomingCapacity, io, id);
    SparedIsAccounted(s, Next(s, Event(event, io)).0, FlowOf(Next(s, Event(event, io)).1, id), id);
  }

  lemma SparedIsAccounted(s: MeshState, s': MeshState, f: Flow, id: nat)
    requires f == NoFlow.(delivered := f.delivered)
    requires f.delivered + PayloadsFor(s'.incoming, id) == PayloadsFor(s.incoming, id)
    requires s.pool.nextId == s'.pool.nextId && (id in s.pool.entries ==> id < s.pool.nextId)
    requires id in s.pool.entries <==> id in s'.pool.entries
    requires id in s.pool.entries ==> s'.pool.entries[id] == s.pool.entries[id]
    ensures StepAccounts(s, s', f, id)
  {
  }

  lemma EventAccountsFor(s: MeshState, event: PollEvent, io: Answers, id: nat)
    requires WellFormed(s)
    ensures
      var (s', obs) := Next(s, Event(event, io));
      StepAccounts(s, s', FlowOf(obs, id), id)
  {
    match EntryByToken(s.pool, event.token)
    case None =>
    case Some(key) =>
      if key == id {
        OwnEventAccounts(s, event, io, id);
      } else {
        ForeignEventAccounts(s, event, io, key, id);
      }
  }

  lemma ConsumeAccounts(s: MeshState, count: nat, id: nat)
    requires WellFormed(s)
    ensures
      var (s', obs) := Next(s, Consume(count));
      StepAccounts(s, s', FlowOf(obs, id), id)
  {
    var n := Min(count, |s.incoming|);
    FlowOfDelivery(s.incoming[..n], id);
    PayloadsSplit(s.incoming, n, id);
  }

  lemma ClientSendAccounts(s: MeshState, target: nat, payload: Bytes, id: nat)
    requires WellFormed(s)
    ensures
      var (s', obs) := Next(s, ClientSend(target, payload));
      StepAccounts(s, s', FlowOf(obs, id), id)
  {
    FlowOfMove(Accept, target, payload, id);
    if target in s.pool.entries {
      var e := s.pool.entries[target];
      assert Unsent(e.(queue := e.queue + [payload])) == Unsent(e) + [payload];
    }
  }

  lemma StepAccountsFor(s: MeshState, step: Step, id: nat)
    requires WellFormed(s)
    ensures
      var (s', obs) := Next(s, step);
      StepAccounts(s, s', FlowOf(obs, id), id)
  {
    match step
    case ClientSend(target, payload) => ClientSendAccounts(s, target, payload, id);
    case ClientDrop(_) =>
    case Consume(count) => ConsumeAccounts(s, count, id);
    case ControlAdd(_, _) =>
    case ControlRemove(_) =>
    case Event(event, io) => EventAccountsFor(s, event, io, id);
  }

  // -- Every run --

  lemma StepIsSound(h: History, step: Step)
    requires Sound(h)
    ensures Sound(Extend(h, step))
  {
    var (s, obs) := Next(h.state, step);
    StepKeepsWellFormed(h.state, step);
    forall id: nat
      ensures Conserves(s, h.trace + obs, id)
    {
      assert Conserves(h.state, h.trace, id);
      StepAccountsFor(h.state, step, id);
      OutgoingStep(h.state.pool, h.trace, s.pool, obs, id);
      IncomingStep(h.state, h.trace, s, obs, id);
    }
  }

  lemma {:induction false} EveryRunIsSound(incomingCapacity: nat, outgoingCapacity: nat, steps: seq<Step>)
    ensures Sound(Run(Init(incomingCapacity, outgoingCapacity), steps))
  {
    if steps != [] {
      EveryRunIsSound(incomingCapacity, outgoingCapacity, steps[..|steps| - 1]);
      StepIsSound(Run(Init(incomingCapacity, outgoingCapacity), steps[..|steps| - 1]), steps[|steps| - 1]);
    }
  }

  /**
  No loss, duplication or reordering across would-block retries: at every moment of every run, what clients
  handed over for a live connection is what the connection took, then the blocked payload, then the queue.
   */
  lemma OutgoingIsFifo(incomingCapacity: nat, outgoingCapacity: nat, steps: seq<Step>, id: nat)
    ensures
      var h := Run(Init(incomingCapacity, outgoingCapacity), steps);
      var accepted, transmitted := MovedBy(h.trace, Accept, id), MovedBy(h.trace, Transmit, id);
      && transmitted <= accepted
      && (id in h.state.pool.entries ==>
            var e := h.state.pool.entries[id];
            && accepted == transmitted + (if e.cached.Some? then [e.cached.value] else []) + e.queue
            && |accepted| - |transmitted| <= outgoingCapacity + 1)
  {
    EveryRunIsSound(incomingCapacity, outgoingCapacity, steps);
    var h := Run(Init(incomingCapacity, outgoingCapacity), steps);
    RunKeepsCapacities(Init(incomingCapacity, outgoingCapacity), steps);
    assert Conserves(h.state, h.trace, id);
  }

  /** Until a connection fails, consumers see all it delivered, in order; nothing is ever dropped for a full queue. */
  lemma IncomingIsFifo(incomingCapacity: nat, outgoingCapacity: nat, steps: seq<Step>, id: nat)
    ensures
      var h := Run(Init(incomingCapacity, outgoingCapacity), steps);
      var received := MovedBy(h.trace, Receive, id);
      var handedOver := DeliveredTo(h.trace, id) + PayloadsFor(h.state.incoming, id);
      && MovedBy(h.trace, Drop, id) == []
      && handedOver <= received
      && (id in h.state.pool.entries ==> handedOver == received)
      && |h.state.incoming| <= incomingCapacity
  {
    EveryRunIsSound(incomingCapacity, outgoingCapacity, steps);
    RunKeepsCapacities(Init(incomingCapacity, outgoingCapacity), steps);
    var h := Run(Init(incomingCapacity, outgoingCapacity), steps);
    assert Conserves(h.state, h.trace, id);
  }

  lemma {:induction false} RunKeepsCapacities(start: MeshState, steps: seq<Step>)
    ensures
      var s := Run(start, steps).state;
      && s.incomingCapacity == start.incomingCapacity && s.outgoingCapacity == start.outgoingCapacity
      && s.ctrlToken == start.ctrlToken
      && s.pool.nextId >= start.pool.nextId
  {
    if steps != [] {
      RunKeepsCapacities(start, steps[..|steps| - 1]);
    }
  }

  /** A blocked payload always has a wake-up registered, and an idle connection never has write interest. */
  lemma BlockedIffWatched(incomingCapacity: nat, outgoingCapacity: nat, steps: seq<Step>, id: nat)
    requires id in Run(Init(incomingCapacity, outgoingCapacity), steps).state.pool.entries
    ensures
      var e := Run(Init(incomingCapacity, outgoingCapacity), steps).state.pool.entries[id];
      && (e.cached.Some? <==> e.writeGuard)
      && (e.writeGuard <==> e.writableInterest)
  {
    EveryRunIsSound(incomingCapacity, outgoingCapacity, steps);
  }

  /** A token resolves to an entry exactly when that entry owns it; the control token never does. */
  lemma TokensResolveToOwners(incomingCapacity: nat, outgoingCapacity: nat, steps: seq<Step>, token: nat, id: nat)
    ensures
      var s := Run(Init(incomingCapacity, outgoingCapacity), steps).state;
      && (EntryByToken(s.pool, token) == Some(id) <==>
            id in s.pool.entries && token in {s.pool.entries[id].connectionToken, s.pool.entries[id].outgoingToken})
      && EntryByToken(s.pool, 0) == None
      && (id in s.pool.entries ==> s.pool.entries[id].id == id && EntryByToken(s.pool, id) == None)
  {
    EveryRunIsSound(incomingCapacity, outgoingCapacity, steps);
    RunKeepsCapacities(Init(incomingCapacity, outgoingCapacity), steps);
  }

  /** An id that was issued and is not in the pool never comes back, whatever happens afterwards. */
  lemma {:induction false} IdsAreNeverReissued(start: MeshState, steps: seq<Step>, id: nat)
    requires WellFormed(start) && id < start.pool.nextId && id !in start.pool.entries
    ensures WellFormed(Run(start, steps).state)
    ensures id !in Run(start, steps).state.pool.entries
  {
    if steps != [] {
      var prefix := steps[..|steps| - 1];
      IdsAreNeverReissued(start, prefix, id);
      RunKeepsCapacities(start, prefix);
      var s := Run(start, prefix).state;
      StepKeepsWellFormed(s, steps[|steps| - 1]);
      StepAccountsFor(s, steps[|steps| - 1], id);
    }
  }

  /**
  A token that was issued and resolves to nothing, such as one of an evicted entry, never resolves again; so an
  event on it, later in the same batch or whenever, changes nothing.
   */
  lemma {:induction false} TokensAreNeverReissued(start: MeshState, steps: seq<Step>, event: PollEvent, io: Answers)
    requires WellFormed(start) && event.token < start.pool.nextId && event.token !in start.pool.tokens
    ensures
      var s := Run(start, steps).state;
      && WellFormed(s) && start.pool.nextId <= s.pool.nextId
      && event.token !in s.pool.tokens
      && Next(s, Event(event, io)) == (s, [])
  {
    if steps != [] {
      var prefix := steps[..|steps| - 1];
      TokensAreNeverReissued(start, prefix, event, io);
      StepKeepsWellFormed(Run(start, prefix).state, steps[|steps| - 1]);
      StepIssuesNewTokens(Run(start, prefix).state, steps[|steps| - 1], event.token);
    }
  }

  lemma StepIssuesNewTokens(s: MeshState, step: Step, token: nat)
    requires WellFormed(s) && token < s.pool.nextId && token !in s.pool.tokens
    ensures token !in Next(s, step).0.pool.tokens && s.pool.nextId <= Next(s, step).0.pool.nextId
  {
  }

  /** Dropping the senders loses nothing: the disconnect is noticed only after all that was accepted was transmitted. */
  lemma DisconnectComesLast(incomingCapacity: nat, outgoingCapacity: nat, steps: seq<Step>, id: nat, event: PollEvent,
                            io: Answers)
    requires
      var s := Run(Init(incomingCapacity, outgoingCapacity), steps).state;
      && id in s.pool.entries
      && TryEvent(s.pool.entries[id], event, s.incoming, s.incomingCapacity, io).err == Some(OutgoingDisconnected)
    ensures
      var trace := Run(Init(incomingCapacity, outgoingCapacity), steps).trace;
      MovedBy(trace, Transmit, id) == MovedBy(trace, Accept, id)
  {
    var h := Run(Init(incomingCapacity, outgoingCapacity), steps);
    EveryRunIsSound(incomingCapacity, outgoingCapacity, steps);
    assert Conserves(h.state, h.trace, id);
    DisconnectFindsNothingUnsent(h.state.pool.entries[id], event, h.state.incoming, h.state.incomingCapacity, io);
  }

  lemma DisconnectFindsNothingUnsent(e: EntryState, event: PollEvent, incoming: seq<Envelope>, capacity: nat,
                                     io: Answers)
    requires TryEvent(e, event, incoming, capacity, io).err == Some(OutgoingDisconnected)
    ensures Unsent(e) == []
  {
  }

  /** While a payload is blocked its queue is left alone, and the payload is tried before anything is read. */
  lemma BlockedPayloadGoesFirst(e: EntryState, event: PollEvent, incoming: seq<Envelope>, capacity: nat, io: Answers)
    requires e.cached.Some? && e.connectionToken != e.outgoingToken
    ensures
      var s := TryEvent(e, event, incoming, capacity, io);
      && s.entry.queue == e.queue
      && (event.token == e.outgoingToken ==> s == EventStep(e, incoming, [], None))
      && (event.token == e.connectionToken && event.writable ==>
            && s.incoming == incoming
            && (io.send == Sent ==> s.obs == [Moved(Transmit, e.id, e.cached.value)] && s.entry.cached.None?)
            && (io.send != Sent ==> s.obs == []))
  {
  }

  /** Handling an event changes at most the entry that owns its token. */
  lemma EventTouchesOneEntry(s: MeshState, event: PollEvent, io: Answers, other: nat)
    requires WellFormed(s) && other in s.pool.entries
    requires event.token !in {s.pool.entries[other].connectionToken, s.pool.entries[other].outgoingToken}
    ensures
      var s' := Next(s, Event(event, io)).0;
      other in s'.pool.entries && s'.pool.entries[other] == s.pool.entries[other]
  {
    match EntryByToken(s.pool, event.token)
    case None =>
    case Some(key) => OwnEvent(s.pool.entries[key], event, s.incoming, s.incomingCapacity, io);
  }

  // -- A connection that takes everything --

  const Willing := Answers(Sent, true, true, RecvWouldBlock, 0, true)

  /** The wake-up that is due: for the blocked payload, if there is one, else for the queue. */
  function DueEvent(e: EntryState): Step {
    Event(if e.cached.Some? then PollEvent(e.connectionToken, false, true) else PollEvent(e.outgoingToken, true, false),
          Willing)
  }

  /** `count` due wake-ups, one after the other. */
  function Drain(h: History, id: nat, count: nat): History
    decreases count
  {
    if count == 0 || id !in h.state.pool.entries then h
    else Drain(Extend(h, DueEvent(h.state.pool.entries[id])), id, count - 1)
  }

  /** One due event on a willing connection transmits the oldest unsent payload and nothing else. */
  lemma DueEventMovesOne(e: EntryState, incoming: seq<Envelope>, capacity: nat)
    requires Settled(e) && Unsent(e) != [] && e.connectionToken != e.outgoingToken
    ensures
      var s := TryEvent(e, DueEvent(e).event, incoming, capacity, Willing);
      && s == EventStep(s.entry, incoming, [Moved(Transmit, e.id, Unsent(e)[0])], None)
      && Unsent(s.entry) == Unsent(e)[1..]
  {
  }

  lemma DueEventInPool(s: MeshState, id: nat)
    requires WellFormed(s) && id in s.pool.entries && Unsent(s.pool.entries[id]) != []
    ensures
      var e := s.pool.entries[id];
      var (s', obs) := Next(s, DueEvent(e));
      && WellFormed(s') && id in s'.pool.entries
      && Unsent(s'.pool.entries[id]) == Unsent(e)[1..]
      && obs == [Moved(Transmit, id, Unsent(e)[0])]
  {
    var e := s.pool.entries[id];
    DueEventMovesOne(e, s.incoming, s.incomingCapacity);
    EventKeepsWellFormed(s, DueEvent(e).event, Willing);
    assert EntryByToken(s.pool, DueEvent(e).event.token) == Some(id);
  }

  lemma DueEventExtends(h: History, id: nat, count: nat) returns (next: History)
    requires WellFormed(h.state) && id in h.state.pool.entries && Unsent(h.state.pool.entries[id]) != [] && count > 0
    ensures Drain(h, id, count) == Drain(next, id, count - 1)
    ensures
      var unsent := Unsent(h.state.pool.entries[id]);
      && WellFormed(next.state) && id in next.state.pool.entries
      && Unsent(next.state.pool.entries[id]) == unsent[1..]
      && MovedBy(next.trace, Transmit, id) == MovedBy(h.trace, Transmit, id) + [unsent[0]]
  {
    var unsent := Unsent(h.state.pool.entries[id]);
    next := Extend(h, DueEvent(h.state.pool.entries[id]));
    DueEventInPool(h.state, id);
    MovedByAppend(h.trace, [Moved(Transmit, id, unsent[0])], Transmit, id);
    assert [Moved(Transmit, id, unsent[0])][..0] == [];
  }

  lemma HeadJoinsPrefix(prefix: seq<Bytes>, payloads: seq<Bytes>)
    requires payloads != []
    ensures prefix + [payloads[0]] + payloads[1..] == prefix + payloads
  {
  }

  /**
  A connection that takes everything it is offered empties its entry in as many events as there are payloads, in
  order, wherever a run has left it: every payload has a wake-up that moves it.
   */
  lemma {:induction false} WillingConnectionDrains(h: History, id: nat, unsent: seq<Bytes>) returns (h': History)
    requires WellFormed(h.state) && id in h.state.pool.entries && Unsent(h.state.pool.entries[id]) == unsent
    ensures h' == Drain(h, id, |unsent|)
    ensures id in h'.state.pool.entries && Unsent(h'.state.pool.entries[id]) == []
    ensures MovedBy(h'.trace, Transmit, id) == MovedBy(h.trace, Transmit, id) + unsent
    decreases |unsent|
  {
    if unsent == [] {
      h' := h;
    } else {
      var next := DueEventExtends(h, id, |unsent|);
      h' := WillingConnectionDrains(next, id, unsent[1..]);
      HeadJoinsPrefix(MovedBy(h.trace, Transmit, id), unsent);
    }
  }

  /** Whatever a run has done, a connection that then takes everything takes exactly what was accepted for it. */
  lemma AcceptedIsTransmitted(incomingCapacity: nat, outgoingCapacity: nat, steps: seq<Step>, id: nat)
    requires id in Run(Init(incomingCapacity, outgoingCapacity), steps).state.pool.entries
    ensures
      var h := Run(Init(incomingCapacity, outgoingCapacity), steps);
      var h' := Drain(h, id, |Unsent(h.state.pool.entries[id])|);
      MovedBy(h'.trace, Transmit, id) == MovedBy(h.trace, Accept, id)
  {
    var h := Run(Init(incomingCapacity, outgoingCapacity), steps);
    EveryRunIsSound(incomingCapacity, outgoingCapacity, steps);
    assert Conserves(h.state, h.trace, id);
    var _ := WillingConnectionDrains(h, id, Unsent(h.state.pool.entries[id]));
  }
}
