/**
Two nodes joined by a connection. Over an in-process connection the two meshes and the wire are one state machine,
in which every thread of either node moves on its own. Over a framed byte stream the nodes are joined by what one
wrote and the other could read of it.
 */
module EndToEnd {
  import opened Prelude
  import opened MeshModel
  import opened MeshGuarantees
  import Wire = InprocPairs
  import F = Framing

  // -- Two nodes and a wire --

  /** `leftId` and `rightId` are the ids under which the two meshes hold their end of the wire. */
  datatype Joint = Joint(left: History, right: History, wire: Wire.History, leftId: nat, rightId: nat)

  function NodeAt(j: Joint, end: Wire.End): History {
    if end == Wire.Left then j.left else j.right
  }

  function IdAt(j: Joint, end: Wire.End): nat {
    if end == Wire.Left then j.leftId else j.rightId
  }

  function FeedAll(h: Wire.History, end: Wire.End, messages: seq<Bytes>): Wire.History
    decreases |messages|
  {
    if messages == [] then h else FeedAll(Wire.NextHistory(h, Wire.SendStep(end, messages[0])), end, messages[1..])
  }

  /** The wire would hand out exactly these messages next. */
  predicate CanTake(h: Wire.History, end: Wire.End, messages: seq<Bytes>)
    decreases |messages|
  {
    messages == [] ||
    (Wire.Recv(h.state, end).1 == Some(messages[0])
     && CanTake(Wire.NextHistory(h, Wire.RecvStep(end)), end, messages[1..]))
  }

  function TakeAll(h: Wire.History, end: Wire.End, messages: seq<Bytes>): Wire.History
    decreases |messages|
  {
    if messages == [] then h else TakeAll(Wire.NextHistory(h, Wire.RecvStep(end)), end, messages[1..])
  }

  /** A node can receive on its end of the wire only what the wire holds for it. */
  predicate Enabled(j: Joint, end: Wire.End, step: Step) {
    CanTake(j.wire, end, MovedBy(Next(NodeAt(j, end).state, step).1, Receive, IdAt(j, end)))
  }

  function NextJoint(j: Joint, end: Wire.End, step: Step): Joint {
    var h := NodeAt(j, end);
    var h', obs := Extend(h, step), Next(h.state, step).1;
    var taken := TakeAll(j.wire, end, MovedBy(obs, Receive, IdAt(j, end)));
    var wire := FeedAll(taken, end, MovedBy(obs, Transmit, IdAt(j, end)));
    if end == Wire.Left then j.(left := h', wire := wire) else j.(right := h', wire := wire)
  }

  ghost predicate Reaches(j: Joint, steps: seq<(Wire.End, Step)>, k: Joint)
    decreases |steps|
  {
    if steps == [] then j == k
    else Enabled(j, steps[0].0, steps[0].1) && Reaches(NextJoint(j, steps[0].0, steps[0].1), steps[1..], k)
  }

  /** The capacities of both nodes, and the ids that will turn out to be the ends of the wire. */
  datatype Setup = Setup(leftIn: nat, leftOut: nat, rightIn: nat, rightOut: nat, leftId: nat, rightId: nat)

  /** Both nodes start empty. */
  function Start(c: Setup): Joint {
    Joint(Run(Init(c.leftIn, c.leftOut), []), Run(Init(c.rightIn, c.rightOut), []), Wire.Run([]), c.leftId, c.rightId)
  }

  ghost predicate Joined(j: Joint, end: Wire.End) {
    && Sound(NodeAt(j, end))
    && MovedBy(NodeAt(j, end).trace, Transmit, IdAt(j, end)) == Wire.Sent(j.wire, end)
    && MovedBy(NodeAt(j, end).trace, Receive, IdAt(j, end)) == Wire.Got(j.wire, end)
    && Wire.Flows(j.wire, end)
  }

  /** Only the traffic sent from `end` grew, by `messages`. */
  ghost predicate SentMore(h: Wire.History, end: Wire.End, messages: seq<Bytes>, h': Wire.History) {
    && Wire.Sent(h', end) == Wire.Sent(h, end) + messages
    && Wire.Sent(h', Wire.Other(end)) == Wire.Sent(h, Wire.Other(end))
    && h'.gotLeft == h.gotLeft && h'.gotRight == h.gotRight
  }

  /** Only the traffic taken at `end` grew, by `messages`. */
  ghost predicate GotMore(h: Wire.History, end: Wire.End, messages: seq<Bytes>, h': Wire.History) {
    && Wire.Got(h', end) == Wire.Got(h, end) + messages
    && Wire.Got(h', Wire.Other(end)) == Wire.Got(h, Wire.Other(end))
    && h'.sentLeft == h.sentLeft && h'.sentRight == h.sentRight
  }

  ghost predicate FlowsBothWays(h: Wire.History) {
    Wire.Flows(h, Wire.Left) && Wire.Flows(h, Wire.Right)
  }

  lemma FeedOne(h: Wire.History, end: Wire.End, m: Bytes)
    requires FlowsBothWays(h)
    ensures
      var h' := Wire.NextHistory(h, Wire.SendStep(end, m));
      FlowsBothWays(h') && SentMore(h, end, [m], h')
  {
    Wire.SendFlows(h, end, m);
  }

  lemma SentMoreTwice(h: Wire.History, end: Wire.End, m: Bytes, h1: Wire.History, rest: seq<Bytes>, h2: Wire.History)
    requires SentMore(h, end, [m], h1) && SentMore(h1, end, rest, h2)
    ensures SentMore(h, end, [m] + rest, h2)
  {
    assert (Wire.Sent(h, end) + [m]) + rest == Wire.Sent(h, end) + ([m] + rest);
  }

  lemma {:induction false} FeedAllSends(h: Wire.History, end: Wire.End, messages: seq<Bytes>)
    requires FlowsBothWays(h)
    ensures
      var h' := FeedAll(h, end, messages);
      FlowsBothWays(h') && SentMore(h, end, messages, h')
    decreases |messages|
  {
    if messages != [] {
      var m, rest := messages[0], messages[1..];
      var h1 := Wire.NextHistory(h, Wire.SendStep(end, m));
      FeedOne(h, end, m);
      FeedAllSends(h1, end, rest);
      SentMoreTwice(h, end, m, h1, rest, FeedAll(h1, end, rest));
      assert messages == [m] + rest;
    }
  }

  lemma TakeOne(h: Wire.History, end: Wire.End, m: Bytes)
    requires FlowsBothWays(h) && Wire.Recv(h.state, end).1 == Some(m)
    ensures
      var h' := Wire.NextHistory(h, Wire.RecvStep(end));
      FlowsBothWays(h') && GotMore(h, end, [m], h')
  {
    Wire.RecvFlows(h, Wire.Other(end));
  }

  lemma GotMoreTwice(h: Wire.History, end: Wire.End, m: Bytes, h1: Wire.History, rest: seq<Bytes>, h2: Wire.History)
    requires GotMore(h, end, [m], h1) && GotMore(h1, end, rest, h2)
    ensures GotMore(h, end, [m] + rest, h2)
  {
    assert (Wire.Got(h, end) + [m]) + rest == Wire.Got(h, end) + ([m] + rest);
  }

  lemma {:induction false} TakeAllTakes(h: Wire.History, end: Wire.End, messages: seq<Bytes>)
    requires FlowsBothWays(h) && CanTake(h, end, messages)
    ensures
      var h' := TakeAll(h, end, messages);
      FlowsBothWays(h') && GotMore(h, end, messages, h')
    decreases |messages|
  {
    if messages != [] {
      var m, rest := messages[0], messages[1..];
      var h1 := Wire.NextHistory(h, Wire.RecvStep(end));
      TakeOne(h, end, m);
      TakeAllTakes(h1, end, rest);
      GotMoreTwice(h, end, m, h1, rest, TakeAll(h1, end, rest));
      assert messages == [m] + rest;
    }
  }

  lemma JointStepKeepsJoined(j: Joint, end: Wire.End, step: Step)
    requires Joined(j, Wire.Left) && Joined(j, Wire.Right) && Enabled(j, end, step)
    ensures Joined(NextJoint(j, end, step), Wire.Left) && Joined(NextJoint(j, end, step), Wire.Right)
  {
    var h, id := NodeAt(j, end), IdAt(j, end);
    var obs := Next(h.state, step).1;
    StepIsSound(h, step);
    MovedByAppend(h.trace, obs, Transmit, id);
    MovedByAppend(h.trace, obs, Receive, id);
    TakeAllTakes(j.wire, end, MovedBy(obs, Receive, id));
    FeedAllSends(TakeAll(j.wire, end, MovedBy(obs, Receive, id)), end, MovedBy(obs, Transmit, id));
  }

  lemma {:induction false} EveryJointRunIsJoined(j: Joint, steps: seq<(Wire.End, Step)>, k: Joint)
    requires Joined(j, Wire.Left) && Joined(j, Wire.Right) && Reaches(j, steps, k)
    ensures Joined(k, Wire.Left) && Joined(k, Wire.Right)
    ensures k.leftId == j.leftId && k.rightId == j.rightId
    decreases |steps|
  {
    if steps != [] {
      JointStepKeepsJoined(j, steps[0].0, steps[0].1);
      EveryJointRunIsJoined(NextJoint(j, steps[0].0, steps[0].1), steps[1..], k);
    }
  }

  lemma StartIsJoined(c: Setup)
    ensures Joined(Start(c), Wire.Left) && Joined(Start(c), Wire.Right)
  {
    EveryRunIsSound(c.leftIn, c.leftOut, []);
    EveryRunIsSound(c.rightIn, c.rightOut, []);
    Wire.EveryRunFlows([], Wire.Left);
    Wire.EveryRunFlows([], Wire.Right);
  }

  function Accepted(h: History, id: nat): seq<Bytes> {
    MovedBy(h.trace, Accept, id)
  }

  function Consumed(h: History, id: nat): seq<Bytes> {
    DeliveredTo(h.trace, id)
  }

  lemma PrefixTrans(a: seq<Bytes>, b: seq<Bytes>, c: seq<Bytes>)
    requires a <= b <= c
    ensures a <= c
  {
  }

  /** A node consumes a prefix of what it received, and transmits a prefix of what it accepted. */
  lemma NodeKeepsOrder(h: History, id: nat)
    requires Sound(h)
    ensures Consumed(h, id) <= MovedBy(h.trace, Receive, id) && MovedBy(h.trace, Transmit, id) <= Accepted(h, id)
  {
    assert Conserves(h.state, h.trace, id);
    var queued := PayloadsFor(h.state.incoming, id);
    PrefixTrans(Consumed(h, id), Consumed(h, id) + queued, MovedBy(h.trace, Receive, id));
  }

  /** In every joint run the consumers at one end see a prefix of what the clients at the other end handed over. */
  lemma DeliveredInOrder(c: Setup, steps: seq<(Wire.End, Step)>, j: Joint, from: Wire.End)
    requires Reaches(Start(c), steps, j)
    ensures
      var to := Wire.Other(from);
      Consumed(NodeAt(j, to), IdAt(j, to)) <= Accepted(NodeAt(j, from), IdAt(j, from))
  {
    StartIsJoined(c);
    EveryJointRunIsJoined(Start(c), steps, j);
    var to := Wire.Other(from);
    assert Joined(j, from) && Joined(j, to);
    NodeKeepsOrder(NodeAt(j, from), IdAt(j, from));
    NodeKeepsOrder(NodeAt(j, to), IdAt(j, to));
    var consumed, got, sent := Consumed(NodeAt(j, to), IdAt(j, to)), Wire.Got(j.wire, to), Wire.Sent(j.wire, from);
    PrefixTrans(consumed, got, sent);
    PrefixTrans(consumed, sent, Accepted(NodeAt(j, from), IdAt(j, from)));
  }

  /**
  While both ends live nothing is lost anywhere: what the clients handed over is, in order, what was consumed,
  then what waits in the receiver's queue, on the wire, in the sender's cache and in the sender's queue.
   */
  lemma NothingIsLost(c: Setup, steps: seq<(Wire.End, Step)>, j: Joint, from: Wire.End)
    requires Reaches(Start(c), steps, j)
    requires IdAt(j, from) in NodeAt(j, from).state.pool.entries
    requires IdAt(j, Wire.Other(from)) in NodeAt(j, Wire.Other(from)).state.pool.entries
    ensures
      var to := Wire.Other(from);
      Accepted(NodeAt(j, from), IdAt(j, from))
      == Consumed(NodeAt(j, to), IdAt(j, to)) + PayloadsFor(NodeAt(j, to).state.incoming, IdAt(j, to))
         + Wire.Reversed(Wire.Inbox(j.wire.state, to))
         + Unsent(NodeAt(j, from).state.pool.entries[IdAt(j, from)])
  {
    StartIsJoined(c);
    EveryJointRunIsJoined(Start(c), steps, j);
    var to := Wire.Other(from);
    assert Joined(j, from) && Joined(j, to);
    assert Conserves(NodeAt(j, from).state, NodeAt(j, from).trace, IdAt(j, from));
    assert Conserves(NodeAt(j, to).state, NodeAt(j, to).trace, IdAt(j, to));
  }

  // -- Two nodes and a byte stream --

  /** A stream cut after `n` bytes, or read to its end, gives a prefix of the messages. */
  lemma PartOfStreamReads(messages: seq<Bytes>, n: nat, script: seq<F.Answer>)
    requires (forall m <- messages :: |m| < F.LENGTH_LIMIT) && F.Spares(script, messages) && F.Broken !in script
    requires n <= |F.Stream(messages)|
    ensures F.ReadFrames(F.Wire(F.Stream(messages)[..n], script), |messages|).1 <= messages
  {
    if n < |F.Stream(messages)| {
      F.CutStream(messages, n, script);
    } else {
      F.StreamReads(messages, [], script);
      assert F.Stream(messages)[..n] == F.Stream(messages) + [];
    }
  }

  /**
  What the receiver makes of the first `n` bytes of a stream that holds the frames of `written` and at most a part
  of the next one.
   */
  ghost predicate Receives(to: History, toId: nat, stream: Bytes, n: nat, script: seq<F.Answer>, written: seq<Bytes>) {
    && n <= |stream|
    && F.Survives(written, script) && F.Broken !in script
    && MovedBy(to.trace, Receive, toId) == F.ReadFrames(F.Wire(stream[..n], script), |written|).1
  }

  lemma ReceivesPrefix(to: History, toId: nat, stream: Bytes, n: nat, script: seq<F.Answer>, written: seq<Bytes>)
    requires Sound(to) && Receives(to, toId, stream, n, script, written) && stream <= F.Stream(written)
    ensures Consumed(to, toId) <= written
  {
    NodeKeepsOrder(to, toId);
    assert stream[..n] == F.Stream(written)[..n];
    PartOfStreamReads(written, n, script);
    PrefixTrans(Consumed(to, toId), MovedBy(to.trace, Receive, toId), written);
  }

  /**
  Over a framed stream, of which the receiver has seen any `n` bytes in any chunks, consumers see the messages in
  order, each as often as its flush was tried; so without a would-block from a flush they see a prefix of what the
  clients handed over.
   */
  lemma FramedInOrder(from: History, fromId: nat, attempts: seq<seq<seq<F.WriteAnswer>>>, n: nat, script: seq<F.Answer>,
                      to: History, toId: nat)
    requires Sound(from) && Sound(to)
    requires
      var sent := MovedBy(from.trace, Transmit, fromId);
      && |attempts| == |sent| && F.AllGoOut(sent, attempts)
      && Receives(to, toId, F.WriteMessages(sent, [], attempts).0, n, script, F.Repeated(sent, attempts))
    ensures Consumed(to, toId) <= F.Repeated(MovedBy(from.trace, Transmit, fromId), attempts)
    ensures F.OneAttemptEach(attempts) ==> Consumed(to, toId) <= Accepted(from, fromId)
  {
    var sent := MovedBy(from.trace, Transmit, fromId);
    var written := F.Repeated(sent, attempts);
    F.MessagesGoOutIff(sent, [], attempts);
    F.MessagesAreWrittenInOrder(sent, [], attempts);
    assert [] + F.Stream(written) == F.Stream(written);
    ReceivesPrefix(to, toId, F.WriteMessages(sent, [], attempts).0, n, script, written);
    F.RepeatedIffRetried(sent, attempts);
    if F.OneAttemptEach(attempts) {
      NodeKeepsOrder(from, fromId);
      PrefixTrans(Consumed(to, toId), sent, Accepted(from, fromId));
    }
  }

  /** The frame that follows on the stream may be there in part, in full without the sender knowing, or not at all. */
  lemma LastFrameIsPartial(sent: seq<Bytes>, m: Bytes, last: seq<F.WriteAnswer>, flush: F.Flush)
    ensures F.Write(m, F.Stream(sent), last, flush).0 <= F.Stream(sent + [m])
  {
    F.WriteAddsTheFrame(m, F.Stream(sent), last, flush);
    F.StreamJoins(sent, [m]);
    assert F.Stream([m]) == F.Pack(m) + [] == F.Pack(m);
  }

  lemma WrittenOnce(sent: seq<Bytes>, attempts: seq<seq<seq<F.WriteAnswer>>>)
    requires |attempts| == |sent| && F.OneAttemptEach(attempts) && F.AllGoOut(sent, attempts)
    ensures F.WriteMessages(sent, [], attempts).0 == F.Stream(sent)
  {
    F.MessagesGoOutIff(sent, [], attempts);
    F.MessagesAreWrittenInOrder(sent, [], attempts);
    F.RepeatedIffRetried(sent, attempts);
    assert [] + F.Stream(sent) == F.Stream(sent);
  }

  lemma NextWasAccepted(h: History, id: nat)
    requires Sound(h) && id in h.state.pool.entries && Unsent(h.state.pool.entries[id]) != []
    ensures MovedBy(h.trace, Transmit, id) + [Unsent(h.state.pool.entries[id])[0]] <= Accepted(h, id)
  {
    assert Conserves(h.state, h.trace, id);
  }

  /**
  Order also survives a last write that ends in any way, part-way or in its flush: the payload it was for is the
  next one that the clients handed over.
   */
  lemma FramedFailureInOrder(from: History, fromId: nat, attempts: seq<seq<seq<F.WriteAnswer>>>,
                             last: seq<F.WriteAnswer>, flush: F.Flush, n: nat, script: seq<F.Answer>,
                             to: History, toId: nat)
    requires Sound(from) && Sound(to)
    requires fromId in from.state.pool.entries && Unsent(from.state.pool.entries[fromId]) != []
    requires
      var sent, next := MovedBy(from.trace, Transmit, fromId), Unsent(from.state.pool.entries[fromId])[0];
      && |attempts| == |sent| && F.OneAttemptEach(attempts) && F.AllGoOut(sent, attempts)
      && var stream := F.Write(next, F.WriteMessages(sent, [], attempts).0, last, flush).0;
         Receives(to, toId, stream, n, script, sent + [next])
    ensures Consumed(to, toId) <= Accepted(from, fromId)
  {
    var sent, next := MovedBy(from.trace, Transmit, fromId), Unsent(from.state.pool.entries[fromId])[0];
    WrittenOnce(sent, attempts);
    LastFrameIsPartial(sent, next, last, flush);
    ReceivesPrefix(to, toId, F.Write(next, F.Stream(sent), last, flush).0, n, script, sent + [next]);
    NextWasAccepted(from, fromId);
    PrefixTrans(Consumed(to, toId), sent + [next], Accepted(from, fromId));
  }
}
