/**
An in-process connection: two queues, each the outbox of one end and the inbox of the other, and a readiness flag
per end. A queue takes messages at its front and hands them out at its back.
 */
module InprocPairs {
  import opened Prelude

  datatype Ready = Ready(readable: bool, writable: bool)

  datatype End = Left | Right

  function Other(end: End): End {
    if end == Left then Right else Left
  }

  /** `inboxes(e)` is what end `e` has not taken yet, newest first. */
  datatype PairState = PairState(inLeft: seq<Bytes>, inRight: seq<Bytes>, readyLeft: Ready, readyRight: Ready)

  const Fresh := PairState([], [], Ready(false, false), Ready(false, false))

  function Inbox(s: PairState, end: End): seq<Bytes> {
    if end == Left then s.inLeft else s.inRight
  }

  function ReadyOf(s: PairState, end: End): Ready {
    if end == Left then s.readyLeft else s.readyRight
  }

  function With(s: PairState, end: End, inbox: seq<Bytes>, ready: Ready): PairState {
    if end == Left then s.(inLeft := inbox, readyLeft := ready) else s.(inRight := inbox, readyRight := ready)
  }

  function Send(s: PairState, end: End, message: Bytes): PairState {
    var s' := With(s, Other(end), [message] + Inbox(s, Other(end)), ReadyOf(s, Other(end)).(readable := true));
    With(s', end, Inbox(s', end), ReadyOf(s', end).(writable := true))
  }

  function Recv(s: PairState, end: End): (PairState, Option<Bytes>) {
    var inbox := Inbox(s, end);
    if inbox == [] then (With(s, end, [], ReadyOf(s, end).(readable := false)), None)
    else
      (With(s, end, inbox[..|inbox| - 1], ReadyOf(s, end).(readable := true)), Some(inbox[|inbox| - 1]))
  }

  /**
  A message goes to the other end's inbox, which is signalled, and this end may write on; nothing else changes. A
  reception takes the oldest message, and the readable flag tells afterwards whether there was one.
   */
  lemma SendAndRecvSignal(s: PairState, end: End, message: Bytes)
    ensures
      var s' := Send(s, end, message);
      && Inbox(s', Other(end)) == [message] + Inbox(s, Other(end)) && Inbox(s', end) == Inbox(s, end)
      && ReadyOf(s', Other(end)) == Ready(true, ReadyOf(s, Other(end)).writable)
      && ReadyOf(s', end) == Ready(ReadyOf(s, end).readable, true)
    ensures
      var (s', r) := Recv(s, end);
      && (r.None? <==> Inbox(s, end) == [])
      && Inbox(s', end) + (if r.Some? then [r.value] else []) == Inbox(s, end)
      && Inbox(s', Other(end)) == Inbox(s, Other(end)) && ReadyOf(s', Other(end)) == ReadyOf(s, Other(end))
      && ReadyOf(s', end) == Ready(r.Some?, ReadyOf(s, end).writable)
  {
  }

  // -- The pair as it is written --

  class Queue {
    var items: seq<Bytes>

    constructor ()
      ensures items == []
    {
      items := [];
    }
  }

  class SetReadiness {
    var ready: Ready

    constructor ()
      ensures ready == Ready(false, false)
    {
      ready := Ready(false, false);
    }
  }

  class Pair {
    const outgoing: Queue
    const incoming: Queue
    const readiness: SetReadiness
    const otherReadiness: SetReadiness

    constructor (outgoing: Queue, incoming: Queue, readiness: SetReadiness, otherReadiness: SetReadiness)
      ensures this.outgoing == outgoing && this.incoming == incoming
      ensures this.readiness == readiness && this.otherReadiness == otherReadiness
    {
      this.outgoing, this.incoming := outgoing, incoming;
      this.readiness, this.otherReadiness := readiness, otherReadiness;
    }

    method Send(message: Bytes)
      modifies outgoing, readiness, otherReadiness
      ensures outgoing.items == [message] + old(outgoing.items)
      ensures readiness != otherReadiness ==>
                && otherReadiness.ready == old(otherReadiness.ready).(readable := true)
                && readiness.ready == old(readiness.ready).(writable := true)
    {
      outgoing.items := [message] + outgoing.items;
      otherReadiness.ready := otherReadiness.ready.(readable := true);
      readiness.ready := readiness.ready.(writable := true);
    }

    method Recv() returns (r: Option<Bytes>)
      modifies incoming, readiness
      ensures readiness.ready == old(readiness.ready).(readable := old(incoming.items) != [])
      ensures if old(incoming.items) == [] then r == None && incoming.items == []
              else r.Some? && incoming.items + [r.value] == old(incoming.items)
    {
      if |incoming.items| < 1 {
        readiness.ready := readiness.ready.(readable := false);
        return None;
      }
      readiness.ready := readiness.ready.(readable := true);
      var last := |incoming.items| - 1;
      r := Some(incoming.items[last]);
      incoming.items := incoming.items[..last];
    }
  }

  /** The two ends of one connection. */
  class Connection {
    const left: Pair
    const right: Pair

    ghost predicate Valid() {
      && left.outgoing == right.incoming && left.incoming == right.outgoing && left.outgoing != left.incoming
      && left.readiness == right.otherReadiness && left.otherReadiness == right.readiness
      && left.readiness != left.otherReadiness
    }

    ghost function State(): PairState
      reads left.incoming, right.incoming, left.readiness, right.readiness
    {
      PairState(left.incoming.items, right.incoming.items, left.readiness.ready, right.readiness.ready)
    }

    constructor ()
      ensures Valid() && State() == Fresh
    {
      var queue1 := new Queue();
      var queue2 := new Queue();
      var set1 := new SetReadiness();
      var set2 := new SetReadiness();
      left := new Pair(queue1, queue2, set1, set2);
      right := new Pair(queue2, queue1, set2, set1);
    }

    method SendFrom(end: End, message: Bytes)
      requires Valid()
      modifies left.outgoing, left.incoming, left.readiness, right.readiness
      ensures State() == Send(old(State()), end, message)
    {
      if end == Left {
        left.Send(message);
      } else {
        right.Send(message);
      }
    }

    method RecvAt(end: End) returns (r: Option<Bytes>)
      requires Valid()
      modifies left.incoming, right.incoming, left.readiness, right.readiness
      ensures (State(), r) == Recv(old(State()), end)
    {
      if end == Left {
        r := left.Recv();
      } else {
        r := right.Recv();
      }
      assert r.Some? ==> Inbox(State(), end) == Inbox(old(State()), end)[..|Inbox(State(), end)|];
    }
  }

  // -- Every interleaving of both ends --

  datatype Step = SendStep(end: End, message: Bytes) | RecvStep(end: End)

  datatype History = History(
    state: PairState, sentLeft: seq<Bytes>, sentRight: seq<Bytes>, gotLeft: seq<Bytes>, gotRight: seq<Bytes>)

  function Sent(h: History, end: End): seq<Bytes> {
    if end == Left then h.sentLeft else h.sentRight
  }

  function Got(h: History, end: End): seq<Bytes> {
    if end == Left then h.gotLeft else h.gotRight
  }

  function NextHistory(h: History, step: Step): History {
    match step
    case SendStep(end, m) =>
      var s := Send(h.state, end, m);
      if end == Left then h.(state := s, sentLeft := h.sentLeft + [m])
      else h.(state := s, sentRight := h.sentRight + [m])
    case RecvStep(end) =>
      var (s, r) := Recv(h.state, end);
      var got := if r.Some? then [r.value] else [];
      if end == Left then h.(state := s, gotLeft := h.gotLeft + got) else h.(state := s, gotRight := h.gotRight + got)
  }

  function Run(steps: seq<Step>): History {
    if steps == [] then History(Fresh, [], [], [], [])
    else NextHistory(Run(steps[..|steps| - 1]), steps[|steps| - 1])
  }

  function Reversed(s: seq<Bytes>): seq<Bytes> {
    if s == [] then [] else Reversed(s[1..]) + [s[0]]
  }

  lemma {:induction false} ReversedSnoc(s: seq<Bytes>, m: Bytes)
    ensures Reversed(s + [m]) == [m] + Reversed(s)
  {
    if s == [] {
      assert ([] + [m])[1..] == [];
    } else {
      assert (s + [m])[1..] == s[1..] + [m];
      ReversedSnoc(s[1..], m);
    }
  }

  /** What one end sent is what the other got, then what waits for it, oldest first; and waiting mail is signalled. */
  ghost predicate Flows(h: History, end: End) {
    var inbox := Inbox(h.state, Other(end));
    && Sent(h, end) == Got(h, Other(end)) + Reversed(inbox)
    && (inbox != [] ==> ReadyOf(h.state, Other(end)).readable)
  }

  lemma SendFlows(h: History, end: End, m: Bytes)
    requires Flows(h, end)
    ensures Flows(NextHistory(h, SendStep(end, m)), end)
  {
    var inbox := Inbox(h.state, Other(end));
    assert ([m] + inbox)[1..] == inbox;
  }

  lemma RecvFlows(h: History, end: End)
    requires Flows(h, end)
    ensures Flows(NextHistory(h, RecvStep(Other(end))), end)
  {
    var inbox := Inbox(h.state, Other(end));
    if inbox != [] {
      var rest, m := inbox[..|inbox| - 1], inbox[|inbox| - 1];
      assert inbox == rest + [m];
      ReversedSnoc(rest, m);
      assert Got(h, Other(end)) + ([m] + Reversed(rest)) == (Got(h, Other(end)) + [m]) + Reversed(rest);
    }
  }

  /** For every interleaving, each direction is first in, first out, and no wake-up is lost. */
  lemma {:induction false} EveryRunFlows(steps: seq<Step>, end: End)
    ensures Flows(Run(steps), end)
    ensures Got(Run(steps), Other(end)) <= Sent(Run(steps), end)
  {
    if steps != [] {
      var h, step := Run(steps[..|steps| - 1]), steps[|steps| - 1];
      EveryRunFlows(steps[..|steps| - 1], end);
      match step
      case SendStep(e, m) =>
        if e == end {
          SendFlows(h, end, m);
        }
      case RecvStep(e) =>
        if e != end {
          RecvFlows(h, end);
        }
    }
  }
}
