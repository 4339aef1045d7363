/**
The mesh reactor as a state machine.

One reactor thread owns a pool of connections. Each connection has a bounded outgoing queue, filled by
client threads, and a one-slot cache for a payload the connection refused with "would block". One bounded
incoming queue, drained by consumer threads, collects what the connections receive. `Next` is one atomic step
of one of these threads, and `Run` is an arbitrary interleaving of them.

What the outside world can see of a step is recorded as observations, so the guarantees relate the state to
everything that was ever observed.
 */
module MeshModel {
  import opened Prelude

  datatype Envelope = Envelope(id: nat, payload: Bytes)

  // -- Answers of the connection, the poll and the other threads during one event --

  datatype SendOutcome = Sent | SendWouldBlock | SendDisconnected | SendProtocolError | SendIoError

  datatype RecvOutcome = Got(payload: Bytes) | RecvWouldBlock | RecvDisconnected | RecvProtocolError | RecvIoError

  /** `drained` is how many envelopes the consumers take between the reactor's fullness check and its enqueue. */
  datatype Answers = Answers(
    send: SendOutcome, reregisterOk: bool, deregisterOk: bool, recv: RecvOutcome, drained: nat, incomingOpen: bool)

  datatype TryEventError =
    ConnectionDisconnected | IncomingDisconnected | OutgoingDisconnected | ProtocolError | IoError

  datatype PollEvent = PollEvent(token: nat, readable: bool, writable: bool)

  // -- State --

  /** `writableInterest` is the write half of the interest registered with the poll; read interest is permanent. */
  datatype EntryState = EntryState(
    id: nat, connectionToken: nat, outgoingToken: nat,
    queue: seq<Bytes>, sendersAlive: bool,
    cached: Option<Bytes>, writeGuard: bool, writableInterest: bool)

  datatype PoolState = PoolState(entries: map<nat, EntryState>, tokens: map<nat, nat>, nextId: nat)

  datatype MeshState = MeshState(
    pool: PoolState, ctrlToken: nat,
    incoming: seq<Envelope>, incomingCapacity: nat, outgoingCapacity: nat)

  // -- Observations --

  datatype Kind = Accept | Transmit | Receive | Drop

  /** `Moved`: the payload was accepted from a client, taken by the connection, received from it, or dropped. */
  datatype Obs = Moved(kind: Kind, id: nat, payload: Bytes) | Delivered(batch: seq<Envelope>)

  function PayloadsFor(envelopes: seq<Envelope>, id: nat): seq<Bytes> {
    if envelopes == [] then []
    else
      PayloadsFor(envelopes[..|envelopes| - 1], id)
      + if envelopes[|envelopes| - 1].id == id then [envelopes[|envelopes| - 1].payload] else []
  }

  function MovedBy(trace: seq<Obs>, kind: Kind, id: nat): seq<Bytes> {
    if trace == [] then []
    else
      var o := trace[|trace| - 1];
      MovedBy(trace[..|trace| - 1], kind, id)
      + if o.Moved? && o.kind == kind && o.id == id then [o.payload] else []
  }

  function DeliveredTo(trace: seq<Obs>, id: nat): seq<Bytes> {
    if trace == [] then []
    else
      var o := trace[|trace| - 1];
      DeliveredTo(trace[..|trace| - 1], id) + if o.Delivered? then PayloadsFor(o.batch, id) else []
  }

  // -- Entry --

  /** What the entry still owes the connection, oldest first. */
  function Unsent(e: EntryState): seq<Bytes> {
    (if e.cached.Some? then [e.cached.value] else []) + e.queue
  }

  datatype EntryStep = EntryStep(entry: EntryState, obs: seq<Obs>, err: Option<TryEventError>)

  function TrySendOrCache(e: EntryState, payload: Bytes, io: Answers): EntryStep {
    match io.send
    case Sent =>
      var obs := [Moved(Transmit, e.id, payload)];
      if !e.writeGuard then EntryStep(e, obs, None)
      else if io.reregisterOk then EntryStep(e.(writeGuard := false, writableInterest := false), obs, None)
      else EntryStep(e.(writeGuard := false), obs, Some(IoError))
    case SendWouldBlock =>
      var e' := e.(cached := Some(payload));
      if e.writeGuard then EntryStep(e', [], None)
      else if io.reregisterOk then EntryStep(e'.(writeGuard := true, writableInterest := true), [], None)
      else EntryStep(e', [], Some(IoError))
    case SendDisconnected => EntryStep(e, [], Some(ConnectionDisconnected))
    case SendProtocolError => EntryStep(e, [], Some(ProtocolError))
    case SendIoError => EntryStep(e, [], Some(IoError))
  }

  function TryReadOutgoing(e: EntryState, io: Answers): EntryStep {
    if e.queue != [] then TrySendOrCache(e.(queue := e.queue[1..]), e.queue[0], io)
    else if e.sendersAlive then EntryStep(e, [], None)
    else EntryStep(e, [], Some(OutgoingDisconnected))
  }

  function TrySendFromCached(e: EntryState, io: Answers): EntryStep {
    match e.cached
    case Some(payload) => TrySendOrCache(e.(cached := None), payload, io)
    case None => EntryStep(e, [], None)
  }

  datatype ReadStep = ReadStep(incoming: seq<Envelope>, obs: seq<Obs>, err: Option<TryEventError>)

  function Min(a: nat, b: nat): nat {
    if a < b then a else b
  }

  function TryReadConnection(id: nat, incoming: seq<Envelope>, capacity: nat, io: Answers): ReadStep {
    if |incoming| >= capacity then ReadStep(incoming, [], None)
    else
      match io.recv
      case Got(payload) =>
        var n := Min(io.drained, |incoming|);
        var left := incoming[n..];
        var obs := [Moved(Receive, id, payload), Delivered(incoming[..n])];
        if !io.incomingOpen then ReadStep(left, obs, Some(IncomingDisconnected))
        else if |left| >= capacity then ReadStep(left, obs + [Moved(Drop, id, payload)], None)
        else ReadStep(left + [Envelope(id, payload)], obs, None)
      case RecvWouldBlock => ReadStep(incoming, [], None)
      case RecvDisconnected => ReadStep(incoming, [], Some(ConnectionDisconnected))
      case RecvProtocolError => ReadStep(incoming, [], Some(ProtocolError))
      case RecvIoError => ReadStep(incoming, [], Some(IoError))
  }

  datatype EventStep = EventStep(entry: EntryState, incoming: seq<Envelope>, obs: seq<Obs>, err: Option<TryEventError>)

  /** The outgoing queue is served only while nothing is cached; a cached payload goes out before anything is read. */
  function TryEvent(e: EntryState, event: PollEvent, incoming: seq<Envelope>, capacity: nat, io: Answers): EventStep {
    if e.outgoingToken == event.token && event.readable && e.cached.None? then
      var s := TryReadOutgoing(e, io);
      EventStep(s.entry, incoming, s.obs, s.err)
    else if e.connectionToken == event.token && event.writable && e.cached.Some? then
      var s := TrySendFromCached(e, io);
      EventStep(s.entry, incoming, s.obs, s.err)
    else if e.connectionToken == event.token && event.readable then
      var s := TryReadConnection(e.id, incoming, capacity, io);
      EventStep(e, s.incoming, s.obs, s.err)
    else EventStep(e, incoming, [], None)
  }

  // -- Pool --

  /** Three numbers are consumed even when a registration fails part-way. */
  function AddEntry(p: PoolState, connectionOk: bool, outgoingOk: bool): (PoolState, Option<nat>) {
    var id := p.nextId + 2;
    var p' := p.(nextId := p.nextId + 3);
    if connectionOk && outgoingOk then
      (p'.(tokens := p.tokens[p.nextId := id][p.nextId + 1 := id],
           entries := p.entries[id := EntryState(id, p.nextId, p.nextId + 1, [], true, None, false, false)]),
       Some(id))
    else (p', None)
  }

  function RemoveEntry(p: PoolState, id: nat): PoolState {
    if id in p.entries then
      var e := p.entries[id];
      p.(entries := p.entries - {id}, tokens := p.tokens - {e.connectionToken, e.outgoingToken})
    else p
  }

  function EntryByToken(p: PoolState, token: nat): Option<nat> {
    if token in p.tokens && p.tokens[token] in p.entries then Some(p.tokens[token]) else None
  }

  datatype PoolStep = PoolStep(pool: PoolState, incoming: seq<Envelope>, obs: seq<Obs>)

  function HandleEvent(p: PoolState, event: PollEvent, incoming: seq<Envelope>, capacity: nat, io: Answers): PoolStep {
    match EntryByToken(p, event.token)
    case None => PoolStep(p, incoming, [])
    case Some(key) =>
      var s := TryEvent(p.entries[key], event, incoming, capacity, io);
      var p' := p.(entries := p.entries[key := s.entry]);
      PoolStep(if s.err.Some? then RemoveEntry(p', s.entry.id) else p', s.incoming, s.obs)
  }

  // -- The whole mesh --

  datatype Step =
    | ClientSend(id: nat, payload: Bytes)
    | ClientDrop(id: nat)
    | Consume(count: nat)
    | ControlAdd(connectionOk: bool, outgoingOk: bool)
    | ControlRemove(id: nat)
    | Event(event: PollEvent, io: Answers)

  function Init(incomingCapacity: nat, outgoingCapacity: nat): MeshState {
    MeshState(PoolState(map[], map[], 1), 0, [], incomingCapacity, outgoingCapacity)
  }

  /** A client's try_send on the bounded outgoing queue: refused when full or when the entry is gone. */
  function Offer(p: PoolState, id: nat, payload: Bytes, capacity: nat): (PoolState, seq<Obs>) {
    if id in p.entries && |p.entries[id].queue| < capacity then
      var e := p.entries[id];
      (p.(entries := p.entries[id := e.(queue := e.queue + [payload])]), [Moved(Accept, id, payload)])
    else (p, [])
  }

  function DropSenders(p: PoolState, id: nat): PoolState {
    if id in p.entries then p.(entries := p.entries[id := p.entries[id].(sendersAlive := false)]) else p
  }

  /** The control token is answered by the control channel, whose requests are steps of their own. */
  function Next(s: MeshState, step: Step): (MeshState, seq<Obs>) {
    match step
    case ClientSend(id, payload) =>
      var (p, obs) := Offer(s.pool, id, payload, s.outgoingCapacity);
      (s.(pool := p), obs)
    case ClientDrop(id) => (s.(pool := DropSenders(s.pool, id)), [])
    case Consume(count) =>
      var n := Min(count, |s.incoming|);
      (s.(incoming := s.incoming[n..]), [Delivered(s.incoming[..n])])
    case ControlAdd(c, o) => (s.(pool := AddEntry(s.pool, c, o).0), [])
    case ControlRemove(id) => (s.(pool := RemoveEntry(s.pool, id)), [])
    case Event(event, io) =>
      if event.token == s.ctrlToken then (s, [])
      else
        var r := HandleEvent(s.pool, event, s.incoming, s.incomingCapacity, io);
        (s.(pool := r.pool, incoming := r.incoming), r.obs)
  }

  datatype History = History(state: MeshState, trace: seq<Obs>)

  function Extend(h: History, step: Step): History {
    var (s, obs) := Next(h.state, step);
    History(s, h.trace + obs)
  }

  function Run(start: MeshState, steps: seq<Step>): History {
    if steps == [] then History(start, []) else Extend(Run(start, steps[..|steps| - 1]), steps[|steps| - 1])
  }
}
