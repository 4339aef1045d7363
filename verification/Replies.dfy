/**
Matching replies to requests. A service registers a waiter under a fresh correlation id, then sends its request,
then blocks on the waiter; the router hands a message to the waiter of its correlation id, once, and everything
else to the default channel. The router is modelled first, then the services, the network and the router as
interleaved steps.
 */
module Replies {
  import opened Prelude

  datatype Kind =
    | AdminDirect | CircuitDirect | ServiceConnectResponse | ServiceDisconnectResponse
    | OtherCircuit

  datatype Message = Circuit(kind: Kind, correlation: string, body: Bytes) | Heartbeat | OtherNetwork | Malformed

  datatype Outcome = Reply(message: Message) | Failed

  /**
  `expected` maps a correlation id to a waiter's channel; a channel is closed once its receiver is dropped, and so is
  the default channel, `fallback`.
   */
  datatype RouterState = RouterState(
    expected: map<string, nat>, inboxes: map<nat, seq<Outcome>>, closed: set<nat>,
    nextWaiter: nat, fallback: seq<Outcome>, fallbackOpen: bool)

  const Empty := RouterState(map[], map[], {}, 0, [], true)

  predicate WellFormed(s: RouterState) {
    && (forall c <- s.expected :: s.expected[c] in s.inboxes)
    && (forall w <- s.inboxes :: w < s.nextWaiter)
    && (forall w <- s.closed :: w < s.nextWaiter)
  }

  /** `Fallback(false)` is a default channel whose receiver is gone: the message is lost with an error. */
  datatype Destination = Waiter(w: nat) | Fallback(open: bool) | Nowhere

  function DestinationOf(s: RouterState, correlation: string): Destination {
    if correlation !in s.expected then Fallback(s.fallbackOpen)
    else if s.expected[correlation] in s.closed then Nowhere
    else Waiter(s.expected[correlation])
  }

  /** The waiter is forgotten before the hand-over, so a hand-over that fails loses it too. */
  function RouteReply(s: RouterState, correlation: string, message: Message): RouterState
    requires WellFormed(s)
  {
    match DestinationOf(s, correlation)
    case Fallback(open) => if open then s.(fallback := s.fallback + [Reply(message)]) else s
    case Nowhere => s.(expected := s.expected - {correlation})
    case Waiter(w) =>
      s.(expected := s.expected - {correlation}, inboxes := s.inboxes[w := s.inboxes[w] + [Reply(message)]])
  }

  function Fail(s: RouterState, w: nat): RouterState
    requires w in s.inboxes
  {
    s.(inboxes := s.inboxes[w := s.inboxes[w] + [Failed]])
  }

  /** A receive error is told to the waiters in some order, up to the first whose receiver is gone. */
  function Broadcast(s: RouterState, order: seq<string>): RouterState
    requires WellFormed(s) && forall c <- order :: c in s.expected
    decreases |order|
  {
    if order == [] || s.expected[order[0]] in s.closed then s
    else Broadcast(Fail(s, s.expected[order[0]]), order[1..])
  }

  function Expect(s: RouterState, correlation: string): RouterState {
    s.(expected := s.expected[correlation := s.nextWaiter],
       inboxes := s.inboxes[s.nextWaiter := []],
       nextWaiter := s.nextWaiter + 1)
  }

  /** Only these messages reach the router; everything else is logged and forgotten. */
  predicate Routed(m: Message) {
    m.Circuit? && !m.kind.OtherCircuit?
  }

  /** What the router makes of one message from the network. */
  function Processed(s: RouterState, m: Message): RouterState
    requires WellFormed(s)
  {
    if Routed(m) then RouteReply(s, m.correlation, m) else s
  }

  /**
  A direct message of either kind and a response to a service's connect or disconnect go to whoever waits under their
  correlation id; no other message concerns the router.
   */
  lemma FourKindsAreRouted(s: RouterState, kind: Kind, c: string, body: Bytes)
    requires WellFormed(s)
    ensures
      var m := Circuit(kind, c, body);
      var s' := Processed(s, m);
      if kind in {AdminDirect, CircuitDirect, ServiceConnectResponse, ServiceDisconnectResponse} then
        if c !in s.expected then s' == s.(fallback := s.fallback + if s.fallbackOpen then [Reply(m)] else [])
        else
          var w := s.expected[c];
          && c !in s'.expected && s'.fallback == s.fallback
          && s'.inboxes == if w in s.closed then s.inboxes else s.inboxes[w := s.inboxes[w] + [Reply(m)]]
      else s' == s
    ensures Processed(s, Heartbeat) == Processed(s, OtherNetwork) == Processed(s, Malformed) == s
  {
  }

  class InboundRouter {
    var expected: map<string, nat>
    var inboxes: map<nat, seq<Outcome>>
    var closed: set<nat>
    var nextWaiter: nat
    var fallback: seq<Outcome>
    var fallbackOpen: bool

    ghost function State(): RouterState
      reads this
    {
      RouterState(expected, inboxes, closed, nextWaiter, fallback, fallbackOpen)
    }

    constructor ()
      ensures State() == Empty
    {
      expected, inboxes, closed, nextWaiter, fallback, fallbackOpen := map[], map[], {}, 0, [], true;
    }

    method Route(correlation: string, message: Message) returns (ok: bool)
      requires WellFormed(State())
      modifies this
      ensures WellFormed(State())
      ensures State() == RouteReply(old(State()), correlation, message)
      ensures ok <==> if correlation in old(expected) then old(expected)[correlation] !in closed else fallbackOpen
    {
      if correlation in expected {
        var waiter := expected[correlation];
        expected := expected - {correlation};
        if waiter in closed {
          return false;
        }
        inboxes := inboxes[waiter := inboxes[waiter] + [Reply(message)]];
      } else {
        if !fallbackOpen {
          return false;
        }
        fallback := fallback + [Reply(message)];
      }
      return true;
    }

    method RouteError(order: seq<string>) returns (ok: bool)
      requires WellFormed(State())
      requires forall c <- order :: c in expected
      modifies this
      ensures WellFormed(State())
      ensures State() == Broadcast(old(State()), order)
      ensures ok <==> forall c <- order :: old(expected)[c] !in closed
    {
      var i := 0;
      while i < |order|
        invariant 0 <= i <= |order|
        invariant WellFormed(State()) && expected == old(expected) && closed == old(closed)
        invariant forall c <- order[i..] :: c in expected
        invariant forall c <- order[..i] :: expected[c] !in closed
        invariant Broadcast(State(), order[i..]) == Broadcast(old(State()), order)
      {
        assert order[i..][0] == order[i] && order[i..][1..] == order[i + 1..];
        var waiter := expected[order[i]];
        if waiter in closed {
          return false;
        }
        inboxes := inboxes[waiter := inboxes[waiter] + [Failed]];
        i := i + 1;
      }
      return true;
    }

    /** The waiters, in whatever order the map gives them. */
    method WaitersInSomeOrder() returns (order: seq<string>)
      ensures forall c :: c in order <==> c in expected
    {
      order := [];
      var todo := expected.Keys;
      while todo != {}
        invariant todo <= expected.Keys
        invariant forall c :: c in order <==> c in expected && c !in todo
        decreases |todo|
      {
        var c :| c in todo;
        order := order + [c];
        todo := todo - {c};
      }
    }

    method ExpectReply(correlation: string) returns (waiter: nat)
      requires WellFormed(State())
      modifies this
      ensures WellFormed(State())
      ensures State() == Expect(old(State()), correlation)
      ensures waiter == old(nextWaiter)
    {
      waiter := nextWaiter;
      nextWaiter := nextWaiter + 1;
      expected := expected[correlation := waiter];
      inboxes := inboxes[waiter := []];
    }

    method ProcessIncoming(m: Message) returns (ok: bool)
      requires WellFormed(State())
      modifies this
      ensures WellFormed(State())
      ensures State() == Processed(old(State()), m)
      ensures ok <==>
                && !m.Malformed?
                && (m.Circuit? && !m.kind.OtherCircuit? ==>
                      if m.correlation in old(expected) then old(expected)[m.correlation] !in closed else fallbackOpen)
    {
      match m {
        case Circuit(kind, correlation, _) =>
          if kind.OtherCircuit? {
            return true;
          }
          ok := Route(correlation, m);
        case Heartbeat => return true;
        case OtherNetwork => return true;
        case Malformed => return false;
      }
    }
  }

  datatype FutureError = UnableToParse | UnableToReceive

  /** A future keeps the first result it is given: later calls see the same one. */
  class MessageFuture {
    var result: Option<Outcome>

    constructor ()
      ensures result == None
    {
      result := None;
    }

    /**
    Blocks until there is something in the inbox or its sender is gone; the latter is an error that is not kept.
    `parses` says whether the bytes are of the type that is asked for.
     */
    method Get(inbox: seq<Outcome>, senderGone: bool, parses: bool) returns (r: Result<Message, FutureError>)
      requires result.Some? || inbox != [] || senderGone
      modifies this
      ensures result == if old(result).Some? then old(result) else if inbox != [] then Some(inbox[0]) else None
      ensures r == if result.None? || result.value.Failed? then Err(UnableToReceive)
                   else if parses then Ok(result.value.message) else Err(UnableToParse)
    {
      if result.None? {
        if inbox == [] {
          return Err(UnableToReceive);
        }
        result := Some(inbox[0]);
      }
      r := match result.value
        case Reply(m) => if parses then Ok(m) else Err(UnableToParse)
        case Failed => Err(UnableToReceive);
    }
  }

  // -- One call --

  /** What reaches the router while a call is waiting. */
  datatype Arrival = Arrived(message: Message) | ReceiveFailed

  /** A call that has had nothing yet is still blocked. */
  datatype CallResult = NotSent | Answered(message: Message) | Unparsable | CallFailed | Blocked

  predicate Hit(a: Arrival, c: string) {
    a.Arrived? && Routed(a.message) && a.message.correlation == c
  }

  /** The first of the arrivals that is routed under `c`. */
  function FirstRouted(arrivals: seq<Arrival>, c: string): CallResult {
    if arrivals == [] then Blocked
    else
      var before := FirstRouted(arrivals[..|arrivals| - 1], c);
      var a := arrivals[|arrivals| - 1];
      if before.Blocked? && Hit(a, c) then Answered(a.message) else before
  }

  /** What the arrivals come to if every receive error reaches every waiter. */
  function FirstDecides(arrivals: seq<Arrival>, c: string): CallResult {
    if arrivals == [] then Blocked
    else
      var before := FirstDecides(arrivals[..|arrivals| - 1], c);
      var a := arrivals[|arrivals| - 1];
      if !before.Blocked? then before
      else if a.ReceiveFailed? then CallFailed
      else if Hit(a, c) then Answered(a.message)
      else Blocked
  }

  function ResultOf(inbox: seq<Outcome>): CallResult {
    if inbox == [] then Blocked
    else match inbox[0] case Reply(m) => Answered(m) case Failed => CallFailed
  }

  predicate AllOpen(s: RouterState) {
    forall c <- s.expected :: s.expected[c] !in s.closed
  }

  /** The call under `c` with waiter `w`, after these arrivals; `open` if no receiver was gone when it began. */
  ghost predicate Underway(s: RouterState, w: nat, c: string, arrivals: seq<Arrival>, open: bool) {
    && WellFormed(s) && w in s.inboxes && w !in s.closed
    && (forall d <- s.expected :: s.expected[d] == w ==> d == c)
    && (c in s.expected ==> s.expected[c] == w)
    && (c in s.expected <==> FirstRouted(arrivals, c).Blocked?)
    && var r := ResultOf(s.inboxes[w]);
       && (if r.CallFailed? then FirstDecides(arrivals, c).CallFailed? else r == FirstRouted(arrivals, c))
       && (open ==> AllOpen(s) && r == FirstDecides(arrivals, c))
  }

  /** A message of one of the four kinds under this id. */
  predicate IsReply(a: Arrival, c: string) {
    && a.Arrived? && a.message.Circuit? && a.message.correlation == c
    && a.message.kind in {AdminDirect, CircuitDirect, ServiceConnectResponse, ServiceDisconnectResponse}
  }

  /** The call is answered by the first message of any of the four kinds under its id, and by nothing else. */
  lemma {:induction false} AnyReplyEndsTheCall(arrivals: seq<Arrival>, c: string)
    ensures FirstRouted(arrivals, c).Blocked? <==> forall a <- arrivals :: !IsReply(a, c)
    ensures FirstRouted(arrivals, c).Answered? ==>
              exists i | 0 <= i < |arrivals| ::
                && IsReply(arrivals[i], c) && FirstRouted(arrivals, c) == Answered(arrivals[i].message)
                && forall j | 0 <= j < i :: !IsReply(arrivals[j], c)
    ensures FirstRouted(arrivals, c).Blocked? || FirstRouted(arrivals, c).Answered?
  {
    if arrivals != [] {
      var before, a := arrivals[..|arrivals| - 1], arrivals[|arrivals| - 1];
      AnyReplyEndsTheCall(before, c);
      assert arrivals == before + [a];
      if FirstRouted(before, c).Blocked? && IsReply(a, c) {
        assert forall j | 0 <= j < |before| :: before[j] in before;
        assert IsReply(arrivals[|arrivals| - 1], c);
      } else if FirstRouted(before, c).Answered? {
        var i :| 0 <= i < |before| && IsReply(before[i], c) && FirstRouted(before, c) == Answered(before[i].message)
                 && forall j | 0 <= j < i :: !IsReply(before[j], c);
        assert arrivals[i] == before[i] && arrivals[i] in arrivals;
        assert forall j | 0 <= j < i :: arrivals[j] == before[j];
      }
    }
  }

  lemma CallBegins(s: RouterState, c: string)
    requires WellFormed(s)
    ensures Underway(Expect(s, c), s.nextWaiter, c, [], AllOpen(s))
  {
  }

  lemma {:induction false} DecidedFirst(arrivals: seq<Arrival>, c: string)
    ensures FirstDecides(arrivals, c).CallFailed? || FirstDecides(arrivals, c) == FirstRouted(arrivals, c)
  {
    if arrivals != [] {
      DecidedFirst(arrivals[..|arrivals| - 1], c);
    }
  }

  lemma MessageComes(s: RouterState, w: nat, c: string, arrivals: seq<Arrival>, open: bool, m: Message)
    requires Underway(s, w, c, arrivals, open)
    ensures
      var s' := Processed(s, m);
      Underway(s', w, c, arrivals + [Arrived(m)], open)
  {
    assert (arrivals + [Arrived(m)])[..|arrivals|] == arrivals;
    DecidedFirst(arrivals, c);
  }

  /** A broadcast adds failures to an inbox, and at least one to each waiter it gets to. */
  lemma {:induction false} BroadcastReaches(s: RouterState, order: seq<string>, w: nat)
    requires WellFormed(s) && (forall c <- order :: c in s.expected) && w in s.inboxes
    ensures
      var s' := Broadcast(s, order);
      && s' == s.(inboxes := s'.inboxes) && WellFormed(s')
      && w in s'.inboxes && s.inboxes[w] <= s'.inboxes[w]
      && (forall i | |s.inboxes[w]| <= i < |s'.inboxes[w]| :: s'.inboxes[w][i] == Failed)
      && ((forall c <- order :: s.expected[c] != w) ==> s'.inboxes[w] == s.inboxes[w])
      && (AllOpen(s) && (exists c <- order :: s.expected[c] == w) ==> |s.inboxes[w]| < |s'.inboxes[w]|)
    decreases |order|
  {
    if order != [] && s.expected[order[0]] !in s.closed {
      BroadcastReaches(Fail(s, s.expected[order[0]]), order[1..], w);
      assert order == [order[0]] + order[1..];
    }
  }

  lemma FailureComes(s: RouterState, w: nat, c: string, arrivals: seq<Arrival>, open: bool, order: seq<string>)
    requires Underway(s, w, c, arrivals, open) && forall d :: d in order <==> d in s.expected
    ensures Underway(Broadcast(s, order), w, c, arrivals + [ReceiveFailed], open)
  {
    assert (arrivals + [ReceiveFailed])[..|arrivals|] == arrivals;
    DecidedFirst(arrivals, c);
    BroadcastReaches(s, order, w);
    if c in s.expected {
      assert c in order;
    }
  }

  class Outgoing {
    var messages: seq<Message>

    constructor ()
      ensures messages == []
    {
      messages := [];
    }
  }

  /** Everything that arrives goes through the router, one after the other. */
  method Feed(router: InboundRouter, arrivals: seq<Arrival>, ghost waiter: nat, ghost c: string, ghost open: bool)
    requires Underway(router.State(), waiter, c, [], open)
    modifies router
    ensures Underway(router.State(), waiter, c, arrivals, open)
  {
    var i := 0;
    while i < |arrivals|
      invariant 0 <= i <= |arrivals|
      invariant Underway(router.State(), waiter, c, arrivals[..i], open)
    {
      assert arrivals[..i + 1] == arrivals[..i] + [arrivals[i]];
      match arrivals[i] {
        case Arrived(m) =>
          MessageComes(router.State(), waiter, c, arrivals[..i], open, m);
          var _ := router.ProcessIncoming(m);
        case ReceiveFailed =>
          var order := router.WaitersInSomeOrder();
          FailureComes(router.State(), waiter, c, arrivals[..i], open, order);
          var _ := router.RouteError(order);
      }
      i := i + 1;
    }
    assert arrivals[..i] == arrivals;
  }

  /** An answer of another type than the caller asked for is an error. */
  function AsAskedFor(r: CallResult, parses: bool): CallResult {
    if r.Answered? && !parses then Unparsable else r
  }

  /**
  Registers, sends, and then blocks while the router is fed `arrivals`. The caller gets the first arrival that
  carries its correlation id and nothing else, or the error that it is of another type, unless a receive error came
  first; with no dead receivers about, a receive error always ends the call. The receiver is dropped when the call ends.
   */
  method SendAndAwait(router: InboundRouter, outgoing: Outgoing, request: Message, sendOk: bool, arrivals: seq<Arrival>,
                      parses: bool)
    returns (r: CallResult)
    requires WellFormed(router.State()) && request.Circuit?
    modifies router, outgoing
    ensures WellFormed(router.State())
    ensures outgoing.messages == old(outgoing.messages) + if sendOk then [request] else []
    ensures !sendOk <==> r == NotSent
    ensures sendOk ==>
              if r.CallFailed? then FirstDecides(arrivals, request.correlation).CallFailed?
              else r == AsAskedFor(FirstRouted(arrivals, request.correlation), parses)
    ensures sendOk && AllOpen(old(router.State())) ==>
              r == AsAskedFor(FirstDecides(arrivals, request.correlation), parses)
    ensures r.Blocked? <==> old(router.nextWaiter) !in router.closed
    ensures sendOk && (exists a <- arrivals :: IsReply(a, request.correlation)) ==> !r.Blocked?
  {
    var c := request.correlation;
    AnyReplyEndsTheCall(arrivals, c);
    ghost var open := AllOpen(router.State());
    CallBegins(router.State(), c);
    var waiter := router.ExpectReply(c);
    if !sendOk {
      router.closed := router.closed + {waiter};
      return NotSent;
    }
    outgoing.messages := outgoing.messages + [request];
    Feed(router, arrivals, waiter, c, open);
    if router.inboxes[waiter] == [] {
      return Blocked;
    }
    var future := new MessageFuture();
    var message := future.Get(router.inboxes[waiter], false, parses);
    router.closed := router.closed + {waiter};
    r := match message
      case Ok(m) => Answered(m)
      case Err(UnableToParse) => Unparsable
      case Err(UnableToReceive) => CallFailed;
  }

  // -- Services, network and router, interleaved --

  datatype Event = Event(message: Message, destination: Destination)

  /** `waiters` and `sent` are the calls made so far; `wire` is what the network may still bring, in any order. */
  datatype System = System(
    router: RouterState, waiters: map<string, nat>, sent: set<string>, wire: seq<Message>, trace: seq<Event>)

  datatype Step =
    | Register(correlation: string)
    | SendRequest(correlation: string, ok: bool)
    | Answer(message: Message)
    | Unsolicited(message: Message)
    | Deliver(index: nat)
    | ReceiveError(order: seq<string>)
    | Finish(correlation: string)
    | CloseFallback

  predicate Carries(m: Message, correlation: string) {
    m.Circuit? && m.correlation == correlation
  }

  predicate Seen(s: System, correlation: string) {
    || correlation in s.waiters
    || (exists m <- s.wire :: Carries(m, correlation))
    || (exists e <- s.trace :: Carries(e.message, correlation))
  }

  /**
  A call registers before it sends, under an id never seen before; the network answers only requests that were
  sent, as often as it likes; what others send carries ids of their own; a call ends once its waiter got something.
   */
  predicate Enabled(s: System, step: Step) {
    match step
    case Register(c) => !Seen(s, c)
    case SendRequest(c, _) => c in s.waiters && c !in s.sent && s.waiters[c] !in s.router.closed
    case Answer(m) => m.Circuit? && m.correlation in s.sent
    case Unsolicited(m) => m.Circuit? ==> m.correlation !in s.waiters
    case Deliver(i) => i < |s.wire|
    case ReceiveError(order) => forall c <- order :: c in s.router.expected
    case Finish(c) =>
      c in s.sent && c in s.waiters && s.waiters[c] in s.router.inboxes && s.router.inboxes[s.waiters[c]] != []
    case CloseFallback => true
  }

  function Next(s: System, step: Step): System
    requires WellFormed(s.router) && Enabled(s, step)
  {
    match step
    case Register(c) => s.(router := Expect(s.router, c), waiters := s.waiters[c := s.router.nextWaiter])
    case SendRequest(c, ok) =>
      if ok then s.(sent := s.sent + {c})
      else s.(router := s.router.(closed := s.router.closed + {s.waiters[c]}))
    case Answer(m) => s.(wire := s.wire + [m])
    case Unsolicited(m) => s.(wire := s.wire + [m])
    case Deliver(i) =>
      var m := s.wire[i];
      var rest := s.(wire := s.wire[..i] + s.wire[i + 1..]);
      rest.(router := Processed(s.router, m),
            trace := if Routed(m) then s.trace + [Event(m, DestinationOf(s.router, m.correlation))] else s.trace)
    case ReceiveError(order) => s.(router := Broadcast(s.router, order))
    case Finish(c) => s.(router := s.router.(closed := s.router.closed + {s.waiters[c]}))
    case CloseFallback => s.(router := s.router.(fallbackOpen := false))
  }

  const Start := System(Empty, map[], {}, [], [])

  ghost predicate Reaches(s: System, steps: seq<Step>, t: System)
    decreases |steps|
  {
    if steps == [] then s == t
    else WellFormed(s.router) && Enabled(s, steps[0]) && Reaches(Next(s, steps[0]), steps[1..], t)
  }

  /** The routed messages with correlation id `c`, oldest first. */
  function Hits(trace: seq<Event>, c: string): seq<Event> {
    if trace == [] then []
    else
      var e := trace[|trace| - 1];
      Hits(trace[..|trace| - 1], c) + if Carries(e.message, c) then [e] else []
  }

  /** The messages, as opposed to failures, that a waiter was given. */
  function Messages(inbox: seq<Outcome>): seq<Message> {
    if inbox == [] then []
    else
      Messages(inbox[..|inbox| - 1])
      + if inbox[|inbox| - 1].Reply? then [inbox[|inbox| - 1].message] else []
  }

  // -- Invariant --

  ghost predicate Consistent(s: System) {
    && WellFormed(s.router)
    && s.sent <= s.waiters.Keys
    && (forall c <- s.router.expected :: c in s.waiters && s.waiters[c] == s.router.expected[c])
    && (forall c <- s.waiters :: s.waiters[c] in s.router.inboxes)
    && (forall c, d | c in s.waiters && d in s.waiters && s.waiters[c] == s.waiters[d] :: c == d)
    && (forall m <- s.wire :: m.Circuit? && m.correlation in s.waiters ==> m.correlation in s.sent)
  }

  /** What was ever routed under an id, against what its waiter was given and how the call stands. */
  ghost predicate Fits(hits: seq<Event>, w: nat, inbox: seq<Outcome>, expected: bool, sent: bool, closed: bool) {
    var got := Messages(inbox);
    && (hits != [] ==> sent)
    && (expected <==> hits == [])
    && (hits == [] ==> got == [])
    && (hits != [] ==> hits[0].destination in {Waiter(w), Nowhere})
    && (hits != [] && hits[0].destination == Waiter(w) ==> got == [hits[0].message])
    && (hits != [] && hits[0].destination == Nowhere ==> got == [] && inbox != [] && closed)
    && (forall i | 0 < i < |hits| :: hits[i].destination.Fallback?)
    && (sent && closed ==> inbox != [])
  }

  ghost predicate Matched(s: System, c: string) {
    var hits := Hits(s.trace, c);
    if c !in s.waiters then forall e <- hits :: e.destination.Fallback?
    else
      var w := s.waiters[c];
      && w in s.router.inboxes
      && Fits(hits, w, s.router.inboxes[w], c in s.router.expected, c in s.sent, w in s.router.closed)
  }

  ghost predicate Sound(s: System) {
    Consistent(s) && forall c: string :: Matched(s, c)
  }

  // -- Steps of the router --

  lemma MessagesAppend(inbox: seq<Outcome>, o: Outcome)
    ensures Messages(inbox + [o]) == Messages(inbox) + if o.Reply? then [o.message] else []
  {
    assert (inbox + [o])[..|inbox|] == inbox;
  }

  lemma HitsAppend(trace: seq<Event>, e: Event, c: string)
    ensures Hits(trace + [e], c) == Hits(trace, c) + if Carries(e.message, c) then [e] else []
  {
    assert (trace + [e])[..|trace|] == trace;
  }

  /** Nothing but failures was added, and only to inboxes. */
  ghost predicate OnlyFailuresAdded(s: RouterState, s': RouterState) {
    && s' == s.(inboxes := s'.inboxes)
    && s'.inboxes.Keys == s.inboxes.Keys
    && (forall w <- s.inboxes ::
          |s.inboxes[w]| <= |s'.inboxes[w]| && Messages(s'.inboxes[w]) == Messages(s.inboxes[w]))
  }

  lemma {:induction false} BroadcastAddsFailures(s: RouterState, order: seq<string>)
    requires WellFormed(s) && forall c <- order :: c in s.expected
    ensures OnlyFailuresAdded(s, Broadcast(s, order))
    decreases |order|
  {
    if order != [] && s.expected[order[0]] !in s.closed {
      var w := s.expected[order[0]];
      MessagesAppend(s.inboxes[w], Failed);
      var s1 := Fail(s, w);
      assert OnlyFailuresAdded(s, s1);
      BroadcastAddsFailures(s1, order[1..]);
    }
  }

  /** A routed reply lands in exactly one place, or is reported as an error and lands nowhere. */
  lemma ReplyLandsOnce(s: RouterState, correlation: string, message: Message)
    requires WellFormed(s)
    ensures
      var s' := RouteReply(s, correlation, message);
      && WellFormed(s')
      && correlation !in s'.expected
      && match DestinationOf(s, correlation)
         case Fallback(open) =>
           s'.fallback == s.fallback + (if open then [Reply(message)] else []) && s'.inboxes == s.inboxes
         case Nowhere => s'.fallback == s.fallback && s'.inboxes == s.inboxes
         case Waiter(w) =>
           && s'.fallback == s.fallback
           && s'.inboxes.Keys == s.inboxes.Keys
           && s'.inboxes[w] == s.inboxes[w] + [Reply(message)]
           && (forall v <- s.inboxes | v != w :: s'.inboxes[v] == s.inboxes[v])
  {
  }

  // -- Every run --

  lemma DeliverConsistent(s: System, i: nat)
    requires Consistent(s) && i < |s.wire|
    ensures Consistent(Next(s, Deliver(i)))
  {
    if Routed(s.wire[i]) {
      ReplyLandsOnce(s.router, s.wire[i].correlation, s.wire[i]);
    }
  }

  lemma StepConsistent(s: System, step: Step)
    requires Consistent(s) && Enabled(s, step)
    ensures Consistent(Next(s, step))
  {
    match step
    case Register(c) =>
    case SendRequest(c, ok) =>
    case Answer(m) =>
    case Unsolicited(m) =>
    case Deliver(i) => DeliverConsistent(s, i);
    case ReceiveError(order) => BroadcastAddsFailures(s.router, order);
    case Finish(c) =>
    case CloseFallback =>
  }

  /** A message under one id does not concern the call under another. */
  lemma DeliverSparesOthers(s: System, i: nat, c: string)
    requires Consistent(s) && Matched(s, c) && i < |s.wire| && Routed(s.wire[i]) && c != s.wire[i].correlation
    ensures Matched(Next(s, Deliver(i)), c)
  {
    var m := s.wire[i];
    var s' := Next(s, Deliver(i));
    ReplyLandsOnce(s.router, m.correlation, m);
    HitsAppend(s.trace, Event(m, DestinationOf(s.router, m.correlation)), c);
    assert Hits(s'.trace, c) == Hits(s.trace, c);
    if c in s.waiters {
      assert s'.router.inboxes[s.waiters[c]] == s.router.inboxes[s.waiters[c]];
      assert c in s'.router.expected <==> c in s.router.expected;
    }
  }

  lemma FirstHitFits(w: nat, inbox: seq<Outcome>, m: Message, closed: bool)
    requires Fits([], w, inbox, true, true, closed)
    ensures if closed then Fits([Event(m, Nowhere)], w, inbox, false, true, true)
            else Fits([Event(m, Waiter(w))], w, inbox + [Reply(m)], false, true, false)
  {
    MessagesAppend(inbox, Reply(m));
  }

  lemma LaterHitFits(hits: seq<Event>, w: nat, inbox: seq<Outcome>, sent: bool, closed: bool, e: Event)
    requires Fits(hits, w, inbox, false, sent, closed) && e.destination.Fallback?
    ensures Fits(hits + [e], w, inbox, false, sent, closed)
  {
    assert (hits + [e])[0] == hits[0];
  }

  lemma FirstDeliveryMatches(s: System, i: nat, c: string)
    requires Consistent(s) && Matched(s, c) && i < |s.wire| && Routed(s.wire[i]) && c == s.wire[i].correlation
    requires c in s.router.expected
    ensures Matched(Next(s, Deliver(i)), c)
  {
    var m, w := s.wire[i], s.waiters[c];
    var e := Event(m, DestinationOf(s.router, c));
    assert m in s.wire;
    ReplyLandsOnce(s.router, c, m);
    HitsAppend(s.trace, e, c);
    FirstHitFits(w, s.router.inboxes[w], m, w in s.router.closed);
    assert [] + [e] == [e];
  }

  lemma LaterDeliveryMatches(s: System, i: nat, c: string)
    requires WellFormed(s.router) && Matched(s, c) && i < |s.wire| && Routed(s.wire[i]) && c == s.wire[i].correlation
    requires c !in s.router.expected
    ensures Matched(Next(s, Deliver(i)), c)
  {
    var hits, e := Hits(s.trace, c), Event(s.wire[i], Fallback(s.router.fallbackOpen));
    var s' := Next(s, Deliver(i));
    HitsAppend(s.trace, e, c);
    assert s'.trace == s.trace + [e] && s'.waiters == s.waiters && s'.sent == s.sent;
    assert s'.router == s.router.(fallback := s'.router.fallback);
    if c in s.waiters {
      var w := s.waiters[c];
      LaterHitFits(hits, w, s.router.inboxes[w], c in s.sent, w in s.router.closed, e);
    } else {
      assert forall h <- hits + [e] :: h in hits || h == e;
    }
  }

  lemma StepMatches(s: System, step: Step, c: string)
    requires Sound(s) && Enabled(s, step)
    ensures Matched(Next(s, step), c)
  {
    assert Matched(s, c);
    match step
    case Register(d) =>
      if c == d {
        UnseenHasNoHits(s.trace, c);
      }
    case SendRequest(d, ok) =>
    case Answer(m) =>
    case Unsolicited(m) =>
    case Deliver(i) =>
      if Routed(s.wire[i]) {
        if c != s.wire[i].correlation {
          DeliverSparesOthers(s, i, c);
        } else if c in s.router.expected {
          FirstDeliveryMatches(s, i, c);
        } else {
          LaterDeliveryMatches(s, i, c);
        }
      }
    case ReceiveError(order) => BroadcastAddsFailures(s.router, order);
    case Finish(d) =>
    case CloseFallback =>
  }

  lemma {:induction false} UnseenHasNoHits(trace: seq<Event>, c: string)
    requires forall e <- trace :: !Carries(e.message, c)
    ensures Hits(trace, c) == []
  {
    if trace != [] {
      UnseenHasNoHits(trace[..|trace| - 1], c);
    }
  }

  lemma {:induction false} EveryRunIsSound(s: System, steps: seq<Step>, t: System)
    requires Sound(s) && Reaches(s, steps, t)
    ensures Sound(t)
    decreases |steps|
  {
    if steps != [] {
      StepConsistent(s, steps[0]);
      forall c: string
        ensures Matched(Next(s, steps[0]), c)
      {
        StepMatches(s, steps[0], c);
      }
      EveryRunIsSound(Next(s, steps[0]), steps[1..], t);
    }
  }

  /**
  In every interleaving the first reply to a request goes to its own waiter, which gets that message and no other;
  the only exception is a call that a receive error had already ended. Later replies go to the default channel.
   */
  lemma FirstReplyReachesItsWaiter(steps: seq<Step>, s: System, c: string)
    requires Reaches(Start, steps, s) && c in s.waiters && Hits(s.trace, c) != []
    ensures
      var hits, w := Hits(s.trace, c), s.waiters[c];
      && w in s.router.inboxes
      && (forall i | 0 < i < |hits| :: hits[i].destination.Fallback?)
      && (if hits[0].destination == Waiter(w) then Messages(s.router.inboxes[w]) == [hits[0].message]
          else hits[0].destination == Nowhere && Failed in s.router.inboxes[w])
  {
    StartIsSound();
    EveryRunIsSound(Start, steps, s);
    assert Matched(s, c);
    if Hits(s.trace, c)[0].destination == Nowhere {
      OnlyFailures(s.router.inboxes[s.waiters[c]]);
    }
  }

  lemma {:induction false} OnlyFailures(inbox: seq<Outcome>)
    requires inbox != [] && Messages(inbox) == []
    ensures Failed in inbox
  {
  }

  lemma StartIsSound()
    ensures Sound(Start)
  {
    forall c: string
      ensures Matched(Start, c)
    {
      assert Hits([], c) == [];
    }
  }

  /** In every run, a reply of any of the four kinds that arrives while its call waits is what the waiter gets. */
  lemma DeliveredReplyIsGot(steps: seq<Step>, s: System, i: nat)
    requires Reaches(Start, steps, s) && i < |s.wire| && WellFormed(s.router)
    requires
      var m := s.wire[i];
      && m.Circuit? && IsReply(Arrived(m), m.correlation)
      && m.correlation in s.waiters && m.correlation in s.router.expected
      && s.waiters[m.correlation] !in s.router.closed
    ensures
      var m := s.wire[i];
      var s' := Next(s, Deliver(i));
      && s.waiters[m.correlation] in s'.router.inboxes
      && Messages(s'.router.inboxes[s.waiters[m.correlation]]) == [m]
      && |s'.wire| == |s.wire| - 1
  {
    StartIsSound();
    EveryRunIsSound(Start, steps, s);
    var m := s.wire[i];
    assert Matched(s, m.correlation);
    MessagesAppend(s.router.inboxes[s.waiters[m.correlation]], Reply(m));
  }

  /** A call drops its receiver exactly when it ends: its request could not be sent, or its waiter got something. */
  lemma CallsEndClosed(s: System, step: Step, c: string)
    requires WellFormed(s.router) && Enabled(s, step) && c in s.waiters
    requires forall d <- s.waiters :: s.waiters[d] == s.waiters[c] ==> d == c
    requires step.Register? ==> step.correlation != c && s.waiters[c] < s.router.nextWaiter
    ensures
      s.waiters[c] in Next(s, step).router.closed
      <==> s.waiters[c] in s.router.closed || step == SendRequest(c, false) || step == Finish(c)
  {
    match step
    case Register(_) =>
    case SendRequest(_, _) =>
    case Answer(_) =>
    case Unsolicited(_) =>
    case Deliver(i) => ReplyLeavesClosed(s.router, s.wire[i]);
    case ReceiveError(order) => BroadcastAddsFailures(s.router, order);
    case Finish(_) =>
    case CloseFallback =>
  }

  lemma ReplyLeavesClosed(s: RouterState, m: Message)
    requires WellFormed(s)
    ensures Processed(s, m).closed == s.closed
  {
  }

  /** No waiter ever gets two messages, or a message before its request was sent. */
  lemma WaitersGetAtMostOneMessage(steps: seq<Step>, s: System, c: string)
    requires Reaches(Start, steps, s) && c in s.waiters
    ensures s.waiters[c] in s.router.inboxes
    ensures |Messages(s.router.inboxes[s.waiters[c]])| <= 1
    ensures c !in s.sent ==> Messages(s.router.inboxes[s.waiters[c]]) == []
  {
    StartIsSound();
    EveryRunIsSound(Start, steps, s);
    assert Matched(s, c);
  }

  /** Why registration comes first: a reply that is routed before it never reaches the waiter. */
  lemma RegisteringTooLateMisses(s: RouterState, c: string, m: Message)
    requires WellFormed(s) && c !in s.expected
    ensures
      var early := RouteReply(Expect(s, c), c, m);
      early.inboxes[s.nextWaiter] == [Reply(m)] && early.fallback == s.fallback
    ensures
      var late := Expect(RouteReply(s, c, m), c);
      late.inboxes[s.nextWaiter] == [] && late.fallback == s.fallback + if s.fallbackOpen then [Reply(m)] else []
  {
  }
}
