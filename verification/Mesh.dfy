/**
The mesh as it is written: entries, pool, reactor and the client's handle, each updating its own fields.
Every method is proved to take the step that `MeshModel` describes.
 */
module Mesh {
  import opened Prelude
  import opened MeshModel

  datatype TrySend = Queued | QueueFull | QueueDisconnected

  /** The bounded queue between the one reactor and the consumers. */
  class IncomingQueue {
    var envelopes: seq<Envelope>
    const capacity: nat

    constructor (capacity: nat)
      ensures envelopes == [] && this.capacity == capacity
    {
      envelopes := [];
      this.capacity := capacity;
    }

    method TryEnqueue(envelope: Envelope, open: bool) returns (r: TrySend)
      modifies this
      ensures r == if !open then QueueDisconnected else if old(|envelopes|) >= capacity then QueueFull else Queued
      ensures envelopes == old(envelopes) + if r == Queued then [envelope] else []
    {
      if !open {
        return QueueDisconnected;
      }
      if |envelopes| >= capacity {
        return QueueFull;
      }
      envelopes := envelopes + [envelope];
      return Queued;
    }

    /** Consumers take up to `count` envelopes, oldest first. */
    method Take(count: nat) returns (batch: seq<Envelope>)
      modifies this
      ensures |batch| == Min(count, old(|envelopes|))
      ensures batch + envelopes == old(envelopes)
    {
      var n := Min(count, |envelopes|);
      batch, envelopes := envelopes[..n], envelopes[n..];
    }
  }

  class Entry {
    const id: nat
    const connectionToken: nat
    const outgoingToken: nat
    var queue: seq<Bytes>
    var sendersAlive: bool
    var cached: Option<Bytes>
    var writeGuard: bool
    var writableInterest: bool

    ghost function State(): EntryState
      reads this
    {
      EntryState(id, connectionToken, outgoingToken, queue, sendersAlive, cached, writeGuard, writableInterest)
    }

    constructor (id: nat, connectionToken: nat, outgoingToken: nat)
      ensures State() == EntryState(id, connectionToken, outgoingToken, [], true, None, false, false)
    {
      this.id, this.connectionToken, this.outgoingToken := id, connectionToken, outgoingToken;
      queue, sendersAlive, cached, writeGuard, writableInterest := [], true, None, false, false;
    }

    method TrySendConnectionOrCache(payload: Bytes, io: Answers)
      returns (err: Option<TryEventError>, ghost obs: seq<Obs>)
      modifies this
      ensures EntryStep(State(), obs, err) == TrySendOrCache(old(State()), payload, io)
    {
      err, obs := None, [];
      match io.send {
        case Sent =>
          obs := [Moved(Transmit, id, payload)];
          var guarded := writeGuard;
          writeGuard := false;
          if guarded {
            if !io.reregisterOk {
              return Some(IoError), obs;
            }
            writableInterest := false;
          }
        case SendWouldBlock =>
          cached := Some(payload);
          if !writeGuard {
            if !io.reregisterOk {
              return Some(IoError), obs;
            }
            writableInterest := true;
            writeGuard := true;
          }
        case SendDisconnected => err := Some(ConnectionDisconnected);
        case SendProtocolError => err := Some(ProtocolError);
        case SendIoError => err := Some(IoError);
      }
    }

    method TryReadOutgoing(io: Answers) returns (err: Option<TryEventError>, ghost obs: seq<Obs>)
      modifies this
      ensures EntryStep(State(), obs, err) == MeshModel.TryReadOutgoing(old(State()), io)
    {
      if queue == [] {
        return if sendersAlive then None else Some(OutgoingDisconnected), [];
      }
      var payload := queue[0];
      queue := queue[1..];
      err, obs := TrySendConnectionOrCache(payload, io);
    }

    method TrySendConnectionFromCached(io: Answers) returns (err: Option<TryEventError>, ghost obs: seq<Obs>)
      modifies this
      ensures EntryStep(State(), obs, err) == TrySendFromCached(old(State()), io)
    {
      var taken := cached;
      cached := None;
      match taken {
        case Some(payload) => err, obs := TrySendConnectionOrCache(payload, io);
        case None => err, obs := None, [];
      }
    }

    /** Consumers run between the fullness check and the enqueue; the full answer is still impossible. */
    method TryReadConnection(incoming: IncomingQueue, io: Answers)
      returns (err: Option<TryEventError>, ghost obs: seq<Obs>)
      modifies incoming
      ensures ReadStep(incoming.envelopes, obs, err)
              == MeshModel.TryReadConnection(id, old(incoming.envelopes), incoming.capacity, io)
    {
      err, obs := None, [];
      if |incoming.envelopes| >= incoming.capacity {
        return;
      }
      match io.recv {
        case Got(payload) =>
          var batch := incoming.Take(io.drained);
          assert batch == old(incoming.envelopes)[..|batch|];
          assert incoming.envelopes == old(incoming.envelopes)[|batch|..];
          obs := [Moved(Receive, id, payload), Delivered(batch)];
          var r := incoming.TryEnqueue(Envelope(id, payload), io.incomingOpen);
          match r {
            case Queued =>
            case QueueFull => assert false;
            case QueueDisconnected => err := Some(IncomingDisconnected);
          }
        case RecvWouldBlock =>
        case RecvDisconnected => err := Some(ConnectionDisconnected);
        case RecvProtocolError => err := Some(ProtocolError);
        case RecvIoError => err := Some(IoError);
      }
    }

    method TryEvent(event: PollEvent, incoming: IncomingQueue, io: Answers)
      returns (err: Option<TryEventError>, ghost obs: seq<Obs>)
      modifies this, incoming
      ensures EventStep(State(), incoming.envelopes, obs, err)
              == MeshModel.TryEvent(old(State()), event, old(incoming.envelopes), incoming.capacity, io)
    {
      if outgoingToken == event.token && event.readable && cached.None? {
        err, obs := TryReadOutgoing(io);
      } else if connectionToken == event.token && event.writable && cached.Some? {
        err, obs := TrySendConnectionFromCached(io);
      } else if connectionToken == event.token && event.readable {
        err, obs := TryReadConnection(incoming, io);
      } else {
        err, obs := None, [];
      }
    }
  }

  /** The response to a control request. */
  datatype Control = Added(id: nat) | Removed | NotFound | Failed

  class Pool {
    var entries: map<nat, Entry>
    var tokens: map<nat, nat>
    var nextId: nat

    ghost predicate Valid()
      reads this, entries.Values
    {
      forall id <- entries :: entries[id].id == id
    }

    ghost function State(): PoolState
      reads this, entries.Values
    {
      PoolState(map id | id in entries :: entries[id].State(), tokens, nextId)
    }

    constructor ()
      ensures Valid() && State() == PoolState(map[], map[], 0)
      ensures entries == map[]
    {
      entries, tokens, nextId := map[], map[], 0;
    }

    method NextId() returns (id: nat)
      modifies `nextId
      ensures id == old(nextId) && nextId == id + 1
    {
      id := nextId;
      nextId := nextId + 1;
    }

    method RegisterExternal() returns (token: nat)
      modifies `nextId
      ensures token == old(nextId) && nextId == token + 1
    {
      token := NextId();
    }

    /** Indexes a new entry under its two tokens. */
    method Insert(id: nat, connectionToken: nat, outgoingToken: nat)
      requires Valid()
      modifies `entries, `tokens
      ensures Valid() && fresh(entries.Values - old(entries.Values))
      ensures State() == old(State()).(
                tokens := old(tokens)[connectionToken := id][outgoingToken := id],
                entries := old(State()).entries[
                  id := EntryState(id, connectionToken, outgoingToken, [], true, None, false, false)])
    {
      tokens := tokens[connectionToken := id];
      tokens := tokens[outgoingToken := id];
      var entry := new Entry(id, connectionToken, outgoingToken);
      entries := entries[id := entry];
      assert State().entries == old(State()).entries[id := entry.State()];
    }

    method Add(connectionOk: bool, outgoingOk: bool) returns (r: Option<nat>)
      requires Valid()
      modifies this
      ensures Valid() && fresh(entries.Values - old(entries.Values))
      ensures (State(), r) == AddEntry(old(State()), connectionOk, outgoingOk)
    {
      var connectionToken := NextId();
      var outgoingToken := NextId();
      var id := NextId();
      assert State() == old(State()).(nextId := nextId);
      if !connectionOk || !outgoingOk {
        return None;
      }
      Insert(id, connectionToken, outgoingToken);
      return Some(id);
    }

    /** The entry is forgotten before its deregistration can fail. */
    method Remove(id: nat, deregisterOk: bool) returns (r: Control)
      requires Valid()
      modifies this
      ensures Valid() && entries.Values <= old(entries.Values)
      ensures r == if id !in old(entries) then NotFound else if deregisterOk then Removed else Failed
      ensures State() == RemoveEntry(old(State()), id)
    {
      if id !in entries {
        return NotFound;
      }
      var entry := entries[id];
      entries := entries - {id};
      tokens := tokens - {entry.connectionToken};
      tokens := tokens - {entry.outgoingToken};
      return if deregisterOk then Removed else Failed;
    }

    method HandleEvent(event: PollEvent, incoming: IncomingQueue, io: Answers) returns (ghost obs: seq<Obs>)
      requires Valid()
      modifies this, entries.Values, incoming
      ensures Valid() && entries.Values <= old(entries.Values)
      ensures PoolStep(State(), incoming.envelopes, obs)
              == MeshModel.HandleEvent(old(State()), event, old(incoming.envelopes), incoming.capacity, io)
    {
      obs := [];
      if event.token in tokens && tokens[event.token] in entries {
        var entry := entries[tokens[event.token]];
        ghost var before := State();
        var err;
        err, obs := entry.TryEvent(event, incoming, io);
        assert State() == before.(entries := before.entries[tokens[event.token] := entry.State()]);
        if err.Some? {
          var _ := Remove(entry.id, io.deregisterOk);
        }
      }
    }
  }

  class Reactor {
    const pool: Pool
    const ctrlToken: nat
    const incoming: IncomingQueue
    const outgoingCapacity: nat

    ghost predicate Valid()
      reads this, pool, pool.entries.Values, incoming
    {
      pool.Valid()
    }

    ghost function State(): MeshState
      reads this, pool, pool.entries.Values, incoming
    {
      MeshState(pool.State(), ctrlToken, incoming.envelopes, incoming.capacity, outgoingCapacity)
    }

    constructor (incomingCapacity: nat, outgoingCapacity: nat)
      ensures Valid() && fresh(pool) && fresh(incoming)
      ensures State() == Init(incomingCapacity, outgoingCapacity)
    {
      var p := new Pool();
      var token := p.RegisterExternal();
      pool, ctrlToken := p, token;
      incoming := new IncomingQueue(incomingCapacity);
      this.outgoingCapacity := outgoingCapacity;
    }

    method AddConnection(connectionOk: bool, outgoingOk: bool) returns (r: Control)
      requires Valid()
      modifies pool
      ensures Valid() && fresh(pool.entries.Values - old(pool.entries.Values))
      ensures State() == Next(old(State()), ControlAdd(connectionOk, outgoingOk)).0
      ensures r == if connectionOk && outgoingOk then Added(old(pool.nextId) + 2) else Failed
    {
      var id := pool.Add(connectionOk, outgoingOk);
      r := match id case Some(n) => Added(n) case None => Failed;
    }

    method RemoveConnection(id: nat, deregisterOk: bool) returns (r: Control)
      requires Valid()
      modifies pool
      ensures Valid() && pool.entries.Values <= old(pool.entries.Values)
      ensures State() == Next(old(State()), ControlRemove(id)).0
      ensures r == if id !in old(pool.entries) then NotFound else if deregisterOk then Removed else Failed
    {
      r := pool.Remove(id, deregisterOk);
    }

    /** Takes the step that the request asks for; a closed control channel shuts the reactor down. */
    method HandleControlReady(request: Request) returns (turn: Turn, ghost step: Option<Step>)
      requires Valid()
      modifies pool
      ensures Valid() && fresh(pool.entries.Values - old(pool.entries.Values))
      ensures turn.Shutdown? <==> request.ControlClosed?
      ensures step == StepOf(request)
      ensures State() == match request
                         case AddRequest(c, o) => Next(old(State()), ControlAdd(c, o)).0
                         case RemoveRequest(id, _) => Next(old(State()), ControlRemove(id)).0
                         case NoRequest => old(State())
                         case ControlClosed => old(State())
    {
      turn, step := Continue, None;
      match request {
        case AddRequest(connectionOk, outgoingOk) =>
          var _ := AddConnection(connectionOk, outgoingOk);
          step := Some(ControlAdd(connectionOk, outgoingOk));
        case RemoveRequest(id, deregisterOk) =>
          var _ := RemoveConnection(id, deregisterOk);
          step := Some(ControlRemove(id));
        case NoRequest =>
        case ControlClosed => turn := Shutdown;
      }
    }

    method HandleEvent(input: Input) returns (turn: Turn, ghost steps: seq<Step>, ghost obs: seq<Obs>)
      requires Valid()
      modifies pool, pool.entries.Values, incoming
      ensures Valid() && fresh(pool.entries.Values - old(pool.entries.Values))
      ensures turn.Shutdown? <==> ShutsDown(ctrlToken, input)
      ensures steps == StepsOf(ctrlToken, input)
      ensures History(State(), obs) == Run(old(State()), steps)
    {
      steps, obs := [], [];
      if input.event.token == ctrlToken {
        ghost var step;
        turn, step := HandleControlReady(input.request);
        steps := if step.Some? then [step.value] else [];
      } else {
        obs := pool.HandleEvent(input.event, incoming, input.io);
        turn, steps := Continue, [Event(input.event, input.io)];
      }
      RunOfOne(old(State()), steps);
    }

    /** One turn of the reactor is a run of the mesh, cut short only by a shutdown; a poll that fails is one, too. */
    method TakeTurn(pollOk: bool, inputs: seq<Input>)
      returns (turn: Turn, ghost steps: seq<Step>, ghost trace: seq<Obs>)
      requires Valid()
      modifies pool, pool.entries.Values, incoming
      ensures Valid()
      ensures (steps, turn) == if pollOk then TurnOf(ctrlToken, inputs) else ([], Shutdown)
      ensures History(State(), trace) == Run(old(State()), steps)
    {
      steps, trace := [], [];
      if !pollOk {
        return Shutdown, [], [];
      }
      var i := 0;
      assert inputs[0..] == inputs && steps + TurnOf(ctrlToken, inputs).0 == TurnOf(ctrlToken, inputs).0;
      while i < |inputs|
        invariant 0 <= i <= |inputs|
        invariant TurnOf(ctrlToken, inputs) == TurnAfter(steps, TurnOf(ctrlToken, inputs[i..]))
        invariant Valid() && fresh(pool.entries.Values - old(pool.entries.Values))
        invariant History(State(), trace) == Run(old(State()), steps)
      {
        ghost var more, obs;
        TurnUnfolds(ctrlToken, inputs, i, steps);
        turn, more, obs := HandleEvent(inputs[i]);
        RunsCompose(old(State()), steps, more);
        steps, trace := steps + more, trace + obs;
        if turn.Shutdown? {
          return;
        }
        i := i + 1;
      }
      assert inputs[i..] == [] && steps + [] == steps;
      turn := Continue;
    }
  }

  datatype Turn = Shutdown | Continue

  datatype Request =
    | AddRequest(connectionOk: bool, outgoingOk: bool)
    | RemoveRequest(id: nat, deregisterOk: bool)
    | NoRequest
    | ControlClosed

  /** A poll event, with what the control channel and the foreign calls answer while it is handled. */
  datatype Input = Input(event: PollEvent, request: Request, io: Answers)

  predicate ShutsDown(ctrlToken: nat, input: Input) {
    input.event.token == ctrlToken && input.request.ControlClosed?
  }

  function StepsOf(ctrlToken: nat, input: Input): seq<Step> {
    if input.event.token != ctrlToken then [Event(input.event, input.io)]
    else match StepOf(input.request) case Some(step) => [step] case None => []
  }

  /** The steps of a turn, up to a shutdown. */
  function TurnOf(ctrlToken: nat, inputs: seq<Input>): (seq<Step>, Turn) {
    if inputs == [] then ([], Continue)
    else if ShutsDown(ctrlToken, inputs[0]) then ([], Shutdown)
    else TurnAfter(StepsOf(ctrlToken, inputs[0]), TurnOf(ctrlToken, inputs[1..]))
  }

  function TurnAfter(steps: seq<Step>, rest: (seq<Step>, Turn)): (seq<Step>, Turn) {
    (steps + rest.0, rest.1)
  }

  /** A turn goes on unless the control channel is found closed, and takes every event until then. */
  lemma {:induction false} TurnTakesEveryEvent(ctrlToken: nat, inputs: seq<Input>)
    ensures
      var (steps, turn) := TurnOf(ctrlToken, inputs);
      && (turn == Shutdown <==> exists i | 0 <= i < |inputs| :: ShutsDown(ctrlToken, inputs[i]))
      && ((forall i | 0 <= i < |inputs| :: inputs[i].event.token != ctrlToken) ==>
            && |steps| == |inputs|
            && (forall i | 0 <= i < |inputs| :: steps[i] == Event(inputs[i].event, inputs[i].io)))
  {
    if inputs != [] {
      TurnTakesEveryEvent(ctrlToken, inputs[1..]);
      assert inputs == [inputs[0]] + inputs[1..];
      var (steps, turn) := TurnOf(ctrlToken, inputs[1..]);
      if i :| 0 <= i < |inputs[1..]| && ShutsDown(ctrlToken, inputs[1..][i]) {
        assert ShutsDown(ctrlToken, inputs[i + 1]);
      }
      if i :| 0 <= i < |inputs| && ShutsDown(ctrlToken, inputs[i]) && i > 0 {
        assert ShutsDown(ctrlToken, inputs[1..][i - 1]);
      }
      if forall i | 0 <= i < |inputs| :: inputs[i].event.token != ctrlToken {
        assert forall i | 0 <= i < |inputs[1..]| :: inputs[1..][i] == inputs[i + 1];
      }
    }
  }

  /** What comes after a shutdown in a turn is not looked at. */
  lemma {:induction false} TurnStopsAtShutdown(ctrlToken: nat, before: seq<Input>, input: Input, after: seq<Input>)
    requires ShutsDown(ctrlToken, input)
    ensures TurnOf(ctrlToken, before + [input] + after) == (TurnOf(ctrlToken, before).0, Shutdown)
  {
    var inputs := before + [input] + after;
    if before == [] {
      assert inputs[0] == input;
    } else {
      TurnStopsAtShutdown(ctrlToken, before[1..], input, after);
      assert inputs[0] == before[0] && inputs[1..] == before[1..] + [input] + after;
    }
  }

  lemma TurnUnfolds(ctrlToken: nat, inputs: seq<Input>, i: nat, steps: seq<Step>)
    requires i < |inputs|
    ensures
      TurnAfter(steps, TurnOf(ctrlToken, inputs[i..]))
      == if ShutsDown(ctrlToken, inputs[i]) then (steps, Shutdown)
         else TurnAfter(steps + StepsOf(ctrlToken, inputs[i]), TurnOf(ctrlToken, inputs[i + 1..]))
    ensures ShutsDown(ctrlToken, inputs[i]) ==> StepsOf(ctrlToken, inputs[i]) == []
  {
    var rest := TurnOf(ctrlToken, inputs[i + 1..]);
    assert inputs[i..][1..] == inputs[i + 1..];
    assert steps + [] == steps;
    assert steps + (StepsOf(ctrlToken, inputs[i]) + rest.0) == (steps + StepsOf(ctrlToken, inputs[i])) + rest.0;
  }

  function StepOf(request: Request): Option<Step> {
    match request
    case AddRequest(c, o) => Some(ControlAdd(c, o))
    case RemoveRequest(id, _) => Some(ControlRemove(id))
    case NoRequest => None
    case ControlClosed => None
  }

  lemma RunOfOne(s: MeshState, steps: seq<Step>)
    requires |steps| <= 1
    ensures
      Run(s, steps) == if steps == [] then History(s, []) else History(Next(s, steps[0]).0, Next(s, steps[0]).1)
  {
    if steps != [] {
      assert steps[..0] == [];
      assert [] + Next(s, steps[0]).1 == Next(s, steps[0]).1;
    }
  }

  /** What was observed before does not change what a step does. */
  lemma ExtendAfter(past: seq<Obs>, h: History, step: Step)
    ensures Extend(History(h.state, past + h.trace), step).state == Extend(h, step).state
    ensures Extend(History(h.state, past + h.trace), step).trace == past + Extend(h, step).trace
  {
    var obs := Next(h.state, step).1;
    assert (past + h.trace) + obs == past + (h.trace + obs);
  }

  lemma {:induction false} RunsCompose(s: MeshState, a: seq<Step>, b: seq<Step>)
    ensures
      var h := Run(s, a);
      var k := Run(h.state, b);
      Run(s, a + b) == History(k.state, h.trace + k.trace)
  {
    var h := Run(s, a);
    if b == [] {
      assert a + b == a && h.trace + [] == h.trace;
    } else {
      var b', step := b[..|b| - 1], b[|b| - 1];
      RunsCompose(s, a, b');
      ExtendAfter(h.trace, Run(h.state, b'), step);
      assert (a + b)[..|a + b| - 1] == a + b' && (a + b)[|a + b| - 1] == step;
    }
  }

  datatype SendError = Unknown | WakeFailed | Full(envelope: Envelope) | Disconnected(envelope: Envelope)

  /** Why a send is refused, given the handles; `WakeFailed` is none of the reasons. */
  function Refusal(s: MeshState, outgoings: set<nat>, envelope: Envelope): Option<SendError> {
    if envelope.id !in outgoings then Some(Unknown)
    else if envelope.id !in s.pool.entries then Some(Disconnected(envelope))
    else if |s.pool.entries[envelope.id].queue| >= s.outgoingCapacity then Some(Full(envelope))
    else None
  }

  /** `wakeOk` says whether the reactor could be woken after the payload was queued. */
  function AnswerTo(s: MeshState, outgoings: set<nat>, envelope: Envelope, wakeOk: bool): Result<(), SendError> {
    match Refusal(s, outgoings, envelope)
    case Some(e) => Err(e)
    case None => if wakeOk then Ok(()) else Err(WakeFailed)
  }

  /** Each answer has one reason. */
  lemma AnswerReasons(s: MeshState, outgoings: set<nat>, envelope: Envelope, wakeOk: bool)
    ensures
      var r, id := AnswerTo(s, outgoings, envelope, wakeOk), envelope.id;
      && (r == Err(Unknown) <==> id !in outgoings)
      && (r == Err(Disconnected(envelope)) <==> id in outgoings && id !in s.pool.entries)
      && (r == Err(Full(envelope)) <==>
            id in outgoings && id in s.pool.entries && |s.pool.entries[id].queue| >= s.outgoingCapacity)
      && (r in {Ok(()), Err(WakeFailed)} <==>
            id in outgoings && id in s.pool.entries && |s.pool.entries[id].queue| < s.outgoingCapacity)
      && (r == Ok(()) ==> wakeOk) && (r == Err(WakeFailed) ==> !wakeOk)
  {
  }

  /** The client's side: one handle per connection that was added and not removed through the mesh. */
  class Client {
    const reactor: Reactor
    var outgoings: set<nat>

    constructor (reactor: Reactor)
      ensures this.reactor == reactor && outgoings == {}
    {
      this.reactor := reactor;
      outgoings := {};
    }

    method Add(connectionOk: bool, outgoingOk: bool) returns (r: Option<nat>)
      requires reactor.Valid()
      modifies this, reactor.pool
      ensures reactor.Valid() && fresh(reactor.pool.entries.Values - old(reactor.pool.entries.Values))
      ensures reactor.State() == Next(old(reactor.State()), ControlAdd(connectionOk, outgoingOk)).0
      ensures r == AddEntry(old(reactor.pool.State()), connectionOk, outgoingOk).1
      ensures outgoings == old(outgoings) + if r.Some? then {r.value} else {}
    {
      var response := reactor.AddConnection(connectionOk, outgoingOk);
      if response.Added? {
        outgoings := outgoings + {response.id};
        return Some(response.id);
      }
      return None;
    }

    /** The handle goes only after the reactor confirms, so a failure leaves it in place. */
    method Remove(id: nat, deregisterOk: bool) returns (removed: bool)
      requires reactor.Valid()
      modifies this, reactor.pool
      ensures reactor.Valid()
      ensures reactor.State() == Next(old(reactor.State()), ControlRemove(id)).0
      ensures removed == (id in old(reactor.pool.entries) && deregisterOk)
      ensures outgoings == old(outgoings) - if removed then {id} else {}
    {
      var response := reactor.RemoveConnection(id, deregisterOk);
      removed := response.Removed?;
      if removed {
        outgoings := outgoings - {id};
      }
    }

    /**
    A refused send changes nothing, and a full or dead queue hands the very envelope back. Otherwise the payload is
    accepted, even if the error for a failed wake-up says otherwise.
     */
    method Send(envelope: Envelope, wakeOk: bool) returns (r: Result<(), SendError>)
      requires reactor.Valid()
      modifies reactor.pool.entries.Values
      ensures reactor.Valid()
      ensures r == AnswerTo(old(reactor.State()), outgoings, envelope, wakeOk)
      ensures r == Err(Unknown) <==> envelope.id !in outgoings
      ensures r == Err(Disconnected(envelope)) <==>
                envelope.id in outgoings && envelope.id !in old(reactor.State()).pool.entries
      ensures r == Err(Full(envelope)) <==>
                && envelope.id in outgoings && envelope.id in old(reactor.State()).pool.entries
                && |old(reactor.State()).pool.entries[envelope.id].queue| >= reactor.outgoingCapacity
      ensures
        if r.Ok? || r == Err(WakeFailed) then
          Next(old(reactor.State()), ClientSend(envelope.id, envelope.payload))
          == (reactor.State(), [Moved(Accept, envelope.id, envelope.payload)])
        else reactor.State() == old(reactor.State())
    {
      if envelope.id !in outgoings {
        return Err(Unknown);
      }
      if envelope.id !in reactor.pool.entries {
        return Err(Disconnected(envelope));
      }
      var entry := reactor.pool.entries[envelope.id];
      if |entry.queue| >= reactor.outgoingCapacity {
        return Err(Full(envelope));
      }
      ghost var before := reactor.pool.State();
      entry.queue := entry.queue + [envelope.payload];
      assert reactor.pool.State() == before.(entries := before.entries[envelope.id := entry.State()]);
      return if wakeOk then Ok(()) else Err(WakeFailed);
    }
  }
}
