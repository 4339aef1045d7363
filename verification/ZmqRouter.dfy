/**
The rendezvous router behind a zmq listener. Clients connect to the front and workers to the back; each waits in
an unmatched list until one of the other side turns up, and the two become partners. Messages wait in a mailbox
per recipient until it asks. Mailboxes are stacks, so what is conserved is the multiset of messages; their order is
kept exactly by the runs in which no two different messages wait together when one of them is handed out.
 */
module ZmqRouters {
  import opened Prelude

  type SocketId = Bytes

  datatype Side = Front | Back

  datatype Request = Connect | RequestData | SendMessage(message: Bytes) | Unhandled

  datatype Payload = Payload(socket: SocketId, partner: SocketId, request: Request)

  datatype Reply = Accepted | DataAvailable(message: Bytes) | NoData | MessageReceived

  datatype Response = Response(side: Side, to: SocketId, partner: SocketId, reply: Reply)

  datatype RouterState = RouterState(
    clients: seq<SocketId>, workers: seq<SocketId>, mailboxes: map<SocketId, seq<Bytes>>)

  const Empty := RouterState([], [], map[])

  function Other(side: Side): Side {
    if side == Front then Back else Front
  }

  function Unmatched(s: RouterState, side: Side): seq<SocketId> {
    if side == Front then s.clients else s.workers
  }

  function WithUnmatched(s: RouterState, side: Side, ids: seq<SocketId>): RouterState {
    if side == Front then s.(clients := ids) else s.(workers := ids)
  }

  /** The pop that is unwrapped finds an empty list: the socket asks again while it is still unmatched. */
  predicate Panics(s: RouterState, side: Side, p: Payload) {
    p.request == Connect && Unmatched(s, Other(side)) == [] && p.socket in Unmatched(s, side)
  }

  function Mailbox(s: RouterState, id: SocketId): seq<Bytes> {
    if id in s.mailboxes then s.mailboxes[id] else []
  }

  /** The front is told first, whichever side completed the pair. */
  function PairUp(side: Side, id: SocketId, mate: SocketId): seq<Response> {
    var (client, worker) := if side == Front then (id, mate) else (mate, id);
    [Response(Front, client, worker, Accepted), Response(Back, worker, client, Accepted)]
  }

  function Handle(s: RouterState, side: Side, p: Payload): (RouterState, seq<Response>)
    requires !Panics(s, side, p)
  {
    match p.request
    case Connect =>
      var others := Unmatched(s, Other(side));
      if others == [] then (WithUnmatched(s, side, Unmatched(s, side) + [p.socket]), [])
      else
        (WithUnmatched(s, Other(side), others[..|others| - 1]), PairUp(side, p.socket, others[|others| - 1]))
    case RequestData =>
      var box := Mailbox(s, p.socket);
      if box == [] then (s, [Response(side, p.socket, p.partner, NoData)])
      else
        (s.(mailboxes := s.mailboxes[p.socket := box[..|box| - 1]]),
         [Response(side, p.socket, p.partner, DataAvailable(box[|box| - 1]))])
    case SendMessage(message) =>
      (s.(mailboxes := s.mailboxes[p.partner := Mailbox(s, p.partner) + [message]]),
       [Response(side, p.socket, p.partner, MessageReceived)])
    case Unhandled => (s, [])
  }

  /**
  Every request for data and every message gets exactly one response, to its sender on its own side: the latest message
  or that there is none, or that the message was received. A request to connect gets none while the socket has to wait,
  and else one for each of the two, the front's first. Anything else gets none.
   */
  lemma RequestsAreAnswered(s: RouterState, side: Side, p: Payload)
    requires !Panics(s, side, p)
    ensures
      var (s', responses) := Handle(s, side, p);
      match p.request
      case RequestData =>
        && |responses| == 1 && responses[0].side == side && responses[0].to == p.socket
        && responses[0].partner == p.partner
        && (responses[0].reply == NoData <==> Mailbox(s, p.socket) == [])
        && (Mailbox(s, p.socket) != [] ==>
              && responses[0].reply.DataAvailable?
              && Mailbox(s', p.socket) + [responses[0].reply.message] == Mailbox(s, p.socket))
        && (forall id: SocketId | id != p.socket || Mailbox(s, id) == [] :: Mailbox(s', id) == Mailbox(s, id))
      case SendMessage(message) =>
        && responses == [Response(side, p.socket, p.partner, MessageReceived)]
        && Mailbox(s', p.partner) == Mailbox(s, p.partner) + [message]
        && (forall id: SocketId | id != p.partner :: Mailbox(s', id) == Mailbox(s, id))
      case Connect =>
        && s'.mailboxes == s.mailboxes
        && (if Unmatched(s, Other(side)) == [] then
              responses == [] && p.socket in Unmatched(s', side) && Unmatched(s', Other(side)) == []
            else
              && |responses| == 2 && responses[0].side == Front && responses[1].side == Back
              && responses[0].to == responses[1].partner && responses[1].to == responses[0].partner
              && responses[if side == Front then 0 else 1].to == p.socket
              && Unmatched(s', Other(side)) + [responses[if side == Front then 1 else 0].to]
                 == Unmatched(s, Other(side))
              && Unmatched(s', side) == Unmatched(s, side))
      case Unhandled => s' == s && responses == []
  {
  }

  class ZmqRouter {
    var clients: seq<SocketId>
    var workers: seq<SocketId>
    var mailboxes: map<SocketId, seq<Bytes>>

    ghost function State(): RouterState
      reads this
    {
      RouterState(clients, workers, mailboxes)
    }

    constructor ()
      ensures State() == Empty
    {
      clients, workers, mailboxes := [], [], map[];
    }

    method HandleFront(p: Payload) returns (responses: seq<Response>)
      requires !Panics(State(), Front, p)
      modifies this
      ensures (State(), responses) == Handle(old(State()), Front, p)
    {
      match p.request {
        case Connect =>
          if workers == [] && p.socket !in clients {
            clients := clients + [p.socket];
            responses := [];
          } else {
            var worker := workers[|workers| - 1];
            workers := workers[..|workers| - 1];
            responses := [Response(Front, p.socket, worker, Accepted), Response(Back, worker, p.socket, Accepted)];
          }
        case _ => responses := HandleMail(Front, p);
      }
    }

    method HandleBack(p: Payload) returns (responses: seq<Response>)
      requires !Panics(State(), Back, p)
      modifies this
      ensures (State(), responses) == Handle(old(State()), Back, p)
    {
      match p.request {
        case Connect =>
          if clients == [] && p.socket !in workers {
            workers := workers + [p.socket];
            responses := [];
          } else {
            var client := clients[|clients| - 1];
            clients := clients[..|clients| - 1];
            responses := [Response(Front, client, p.socket, Accepted), Response(Back, p.socket, client, Accepted)];
          }
        case _ => responses := HandleMail(Back, p);
      }
    }

    /** Data requests and messages are served alike on both sides. */
    method HandleMail(side: Side, p: Payload) returns (responses: seq<Response>)
      requires !p.request.Connect?
      modifies `mailboxes
      ensures (State(), responses) == Handle(old(State()), side, p)
    {
      match p.request {
        case RequestData =>
          if p.socket in mailboxes && mailboxes[p.socket] != [] {
            var queue := mailboxes[p.socket];
            mailboxes := mailboxes[p.socket := queue[..|queue| - 1]];
            return [Response(side, p.socket, p.partner, DataAvailable(queue[|queue| - 1]))];
          }
          return [Response(side, p.socket, p.partner, NoData)];
        case SendMessage(message) =>
          if p.partner in mailboxes {
            mailboxes := mailboxes[p.partner := mailboxes[p.partner] + [message]];
          } else {
            mailboxes := mailboxes[p.partner := [message]];
            assert [] + [message] == [message];
          }
          return [Response(side, p.socket, p.partner, MessageReceived)];
        case Unhandled => return [];
      }
    }
  }

  // -- The router and its connections --

  /**
  `sides` holds every socket that asked to connect, `partners` what each was told; `acknowledged` lists what each
  socket sent, and `delivered` what each was given.
   */
  datatype System = System(
    router: RouterState, sides: map<SocketId, Side>, partners: map<SocketId, SocketId>,
    acknowledged: map<SocketId, seq<Bytes>>, delivered: map<SocketId, seq<Bytes>>)

  datatype Step =
    | Dial(side: Side, id: SocketId)
    | Send(id: SocketId, message: Bytes)
    | Receive(id: SocketId)

  /** Sockets have ids of their own, ask once, and talk only after they were told their partner. */
  predicate Enabled(s: System, step: Step) {
    match step
    case Dial(_, id) => id !in s.sides
    case Send(id, _) => id in s.partners && id in s.sides
    case Receive(id) => id in s.partners && id in s.sides
  }

  function PayloadOf(s: System, step: Step): (Side, Payload)
    requires Enabled(s, step)
  {
    match step
    case Dial(side, id) => (side, Payload(id, [], Connect))
    case Send(id, message) => (s.sides[id], Payload(id, s.partners[id], SendMessage(message)))
    case Receive(id) => (s.sides[id], Payload(id, s.partners[id], RequestData))
  }

  function Listed(m: map<SocketId, seq<Bytes>>, id: SocketId): seq<Bytes> {
    if id in m then m[id] else []
  }

  function Append(m: map<SocketId, seq<Bytes>>, id: SocketId, message: Bytes): map<SocketId, seq<Bytes>> {
    m[id := Listed(m, id) + [message]]
  }

  /** What a socket makes of the reply it gets; a reply on the wrong side reaches nobody. */
  function Absorb(s: System, r: Response, sent: Bytes): System {
    if r.to !in s.sides || s.sides[r.to] != r.side then s
    else
      match r.reply
      case Accepted => s.(partners := s.partners[r.to := r.partner])
      case DataAvailable(message) => s.(delivered := Append(s.delivered, r.to, message))
      case NoData => s
      case MessageReceived => s.(acknowledged := Append(s.acknowledged, r.to, sent))
  }

  function AbsorbAll(s: System, responses: seq<Response>, sent: Bytes): System
    decreases |responses|
  {
    if responses == [] then s else AbsorbAll(Absorb(s, responses[0], sent), responses[1..], sent)
  }

  predicate Safe(s: System, step: Step)
    requires Enabled(s, step)
  {
    !Panics(s.router, PayloadOf(s, step).0, PayloadOf(s, step).1)
  }

  function Next(s: System, step: Step): System
    requires Enabled(s, step) && Safe(s, step)
  {
    var (side, payload) := PayloadOf(s, step);
    var (router, responses) := Handle(s.router, side, payload);
    AbsorbAll(s.(router := router, sides := if step.Dial? then s.sides[step.id := step.side] else s.sides),
              responses, if step.Send? then step.message else [])
  }

  const Start := System(Empty, map[], map[], map[], map[])

  /** A run never takes an unsafe step; `NoEnabledStepPanics` shows that none is ever on offer. */
  ghost predicate Reaches(s: System, steps: seq<Step>, t: System)
    decreases |steps|
  {
    if steps == [] then s == t
    else Enabled(s, steps[0]) && Safe(s, steps[0]) && Reaches(Next(s, steps[0]), steps[1..], t)
  }

  ghost predicate Distinct(ids: seq<SocketId>) {
    forall i, j | 0 <= i < j < |ids| :: ids[i] != ids[j]
  }

  ghost predicate Waiting(s: System, side: Side) {
    var ids := Unmatched(s.router, side);
    && Distinct(ids)
    && (forall id <- ids :: id in s.sides && s.sides[id] == side && id !in s.partners)
  }

  /** Nobody waits while someone on the other side waits too. */
  ghost predicate Rendezvous(s: System) {
    && (s.router.clients == [] || s.router.workers == [])
    && Waiting(s, Front) && Waiting(s, Back)
  }

  /** Partnership is symmetric, joins the two sides, and settles every socket that is not waiting. */
  ghost predicate Paired(s: System) {
    s.partners.Keys <= s.sides.Keys && Symmetric(s) && AllSettled(s)
  }

  ghost predicate Symmetric(s: System)
    requires s.partners.Keys <= s.sides.Keys
  {
    forall id <- s.partners ::
      var mate := s.partners[id];
      mate in s.partners && s.partners[mate] == id && s.sides[mate] == Other(s.sides[id])
  }

  ghost predicate AllSettled(s: System) {
    forall id <- s.sides :: id in s.partners || id in Unmatched(s.router, s.sides[id])
  }

  /** What `id` was given and what still waits for it is, as a multiset, what its partner sent. */
  ghost predicate MailConserved(s: System, id: SocketId) {
    var waiting := multiset(Listed(s.delivered, id)) + multiset(Mailbox(s.router, id));
    if id in s.partners then waiting == multiset(Listed(s.acknowledged, s.partners[id]))
    else waiting == multiset{} && Listed(s.acknowledged, id) == []
  }

  ghost predicate Sound(s: System) {
    Rendezvous(s) && Paired(s) && forall id: SocketId :: MailConserved(s, id)
  }

  // -- Every run --

  lemma AbsorbPair(s: System, side: Side, id: SocketId, mate: SocketId)
    requires id != mate && id in s.sides && s.sides[id] == side && mate in s.sides && s.sides[mate] == Other(side)
    ensures AbsorbAll(s, PairUp(side, id, mate), []) == s.(partners := s.partners[id := mate][mate := id])
  {
    var responses := PairUp(side, id, mate);
    assert responses[1..] == [responses[1]] && responses[1..][1..] == [];
    var one := Absorb(s, responses[0], []);
    assert AbsorbAll(one, responses[1..], []) == Absorb(one, responses[1], []);
    UpdatesCommute(s.partners, id, mate);
  }

  lemma UpdatesCommute(m: map<SocketId, SocketId>, a: SocketId, b: SocketId)
    requires a != b
    ensures m[a := b][b := a] == m[b := a][a := b]
  {
  }

  lemma DialNext(s: System, side: Side, id: SocketId)
    requires Rendezvous(s) && id !in s.sides
    ensures Safe(s, Dial(side, id))
    ensures
      var others, s' := Unmatched(s.router, Other(side)), Next(s, Dial(side, id));
      var joined := s.(sides := s.sides[id := side]);
      if others == [] then s' == joined.(router := WithUnmatched(s.router, side, Unmatched(s.router, side) + [id]))
      else s' == PairedUp(s, side, id)
  {
    var others := Unmatched(s.router, Other(side));
    if others != [] {
      var mate := others[|others| - 1];
      var joined := s.(router := WithUnmatched(s.router, Other(side), others[..|others| - 1]),
                       sides := s.sides[id := side]);
      assert Waiting(s, Other(side)) && mate in others;
      AbsorbPair(joined, side, id, mate);
    }
  }

  lemma DialSound(s: System, side: Side, id: SocketId)
    requires Rendezvous(s) && Paired(s) && id !in s.sides
    ensures Safe(s, Dial(side, id))
    ensures Rendezvous(Next(s, Dial(side, id))) && Paired(Next(s, Dial(side, id)))
  {
    DialNext(s, side, id);
    var others := Unmatched(s.router, Other(side));
    assert Waiting(s, side) && Waiting(s, Other(side));
    if others == [] {
      DialWaits(s, side, id);
    } else {
      DialPairs(s, side, id);
    }
  }

  lemma DialWaits(s: System, side: Side, id: SocketId)
    requires Rendezvous(s) && Paired(s) && id !in s.sides && Unmatched(s.router, Other(side)) == []
    ensures
      var s' := s.(sides := s.sides[id := side],
                   router := WithUnmatched(s.router, side, Unmatched(s.router, side) + [id]));
      Rendezvous(s') && Paired(s')
  {
    assert id !in s.partners;
  }

  /** The state in which the newcomer and the one who waited last are partners. */
  function PairedUp(s: System, side: Side, id: SocketId): System
    requires Unmatched(s.router, Other(side)) != []
  {
    var others := Unmatched(s.router, Other(side));
    var mate := others[|others| - 1];
    s.(sides := s.sides[id := side],
       router := WithUnmatched(s.router, Other(side), others[..|others| - 1]),
       partners := s.partners[id := mate][mate := id])
  }

  lemma DialPairs(s: System, side: Side, id: SocketId)
    requires Rendezvous(s) && Paired(s) && id !in s.sides && Unmatched(s.router, Other(side)) != []
    ensures Rendezvous(PairedUp(s, side, id)) && Paired(PairedUp(s, side, id))
  {
    var others := Unmatched(s.router, Other(side));
    LastLeaves(others);
    assert id !in s.partners && Waiting(s, Other(side)) && others[|others| - 1] in others;
    DialKeepsRendezvous(s, side, id);
    DialKeepsPairs(s, side, id);
    DialSettles(s, side, id);
  }

  lemma DialKeepsPairs(s: System, side: Side, id: SocketId)
    requires Unmatched(s.router, Other(side)) != [] && id !in s.sides && s.partners.Keys <= s.sides.Keys && Symmetric(s)
    requires
      var others := Unmatched(s.router, Other(side));
      var mate := others[|others| - 1];
      mate !in s.partners && mate in s.sides && s.sides[mate] == Other(side)
    ensures PairedUp(s, side, id).partners.Keys <= PairedUp(s, side, id).sides.Keys && Symmetric(PairedUp(s, side, id))
  {
  }

  lemma DialSettles(s: System, side: Side, id: SocketId)
    requires Unmatched(s.router, Other(side)) != [] && Distinct(Unmatched(s.router, Other(side))) && AllSettled(s)
    ensures AllSettled(PairedUp(s, side, id))
  {
    LastLeaves(Unmatched(s.router, Other(side)));
  }

  lemma DialKeepsRendezvous(s: System, side: Side, id: SocketId)
    requires Rendezvous(s) && s.partners.Keys <= s.sides.Keys && id !in s.sides
    requires Unmatched(s.router, Other(side)) != []
    ensures Rendezvous(PairedUp(s, side, id))
  {
    LastLeaves(Unmatched(s.router, Other(side)));
  }

  lemma LastLeaves(ids: seq<SocketId>)
    requires Distinct(ids) && ids != []
    ensures
      var rest, last := ids[..|ids| - 1], ids[|ids| - 1];
      Distinct(rest) && last !in rest && forall id :: id in ids <==> id in rest || id == last
  {
    var rest, last := ids[..|ids| - 1], ids[|ids| - 1];
    assert ids == rest + [last];
  }

  lemma AbsorbOne(s: System, r: Response, sent: Bytes)
    ensures AbsorbAll(s, [r], sent) == Absorb(s, r, sent)
  {
    assert [r][1..] == [];
  }

  lemma SendNext(s: System, id: SocketId, message: Bytes)
    requires Enabled(s, Send(id, message))
    ensures Safe(s, Send(id, message))
    ensures
      var mate := s.partners[id];
      Next(s, Send(id, message))
      == s.(router := s.router.(mailboxes := s.router.mailboxes[mate := Mailbox(s.router, mate) + [message]]),
            acknowledged := Append(s.acknowledged, id, message))
  {
    var (side, payload) := PayloadOf(s, Send(id, message));
    var (router, responses) := Handle(s.router, side, payload);
    AbsorbOne(s.(router := router), responses[0], message);
  }

  lemma ReceiveNext(s: System, id: SocketId)
    requires Enabled(s, Receive(id))
    ensures Safe(s, Receive(id))
    ensures
      var box := Mailbox(s.router, id);
      Next(s, Receive(id))
      == if box == [] then s
         else s.(router := s.router.(mailboxes := s.router.mailboxes[id := box[..|box| - 1]]),
                 delivered := Append(s.delivered, id, box[|box| - 1]))
  {
    var (side, payload) := PayloadOf(s, Receive(id));
    var (router, responses) := Handle(s.router, side, payload);
    AbsorbOne(s.(router := router), responses[0], []);
  }

  /** Nothing was sent by or to this socket yet. */
  ghost predicate Untouched(s: System, id: SocketId) {
    id !in s.partners
    && Listed(s.delivered, id) == Mailbox(s.router, id) == Listed(s.acknowledged, id) == []
  }

  lemma UnpairedIsUntouched(s: System, id: SocketId)
    requires MailConserved(s, id) && id !in s.partners
    ensures Untouched(s, id)
  {
    var delivered, box := Listed(s.delivered, id), Mailbox(s.router, id);
    assert |multiset(delivered) + multiset(box)| == |delivered| + |box|;
  }

  /** The newcomer, and the one it is paired with if there is one, start from nothing. */
  lemma DialMeetsUntouched(s: System, side: Side, id: SocketId)
    requires Sound(s) && id !in s.sides
    ensures Untouched(s, id)
    ensures
      var others := Unmatched(s.router, Other(side));
      others != [] ==> Untouched(s, others[|others| - 1])
  {
    assert MailConserved(s, id) && id !in s.partners;
    UnpairedIsUntouched(s, id);
    var others := Unmatched(s.router, Other(side));
    if others != [] {
      var mate := others[|others| - 1];
      assert Waiting(s, Other(side)) && mate in others;
      assert MailConserved(s, mate);
      UnpairedIsUntouched(s, mate);
    }
  }

  lemma DialConservesMail(s: System, side: Side, id: SocketId, x: SocketId)
    requires Sound(s) && id !in s.sides
    ensures Safe(s, Dial(side, id))
    ensures MailConserved(Next(s, Dial(side, id)), x)
  {
    DialNext(s, side, id);
    DialMeetsUntouched(s, side, id);
    assert MailConserved(s, x);
    if Unmatched(s.router, Other(side)) != [] {
      PairedUpConserves(s, side, id, x);
    }
  }

  lemma PairedUpConserves(s: System, side: Side, id: SocketId, x: SocketId)
    requires Unmatched(s.router, Other(side)) != [] && MailConserved(s, x)
    requires
      var others := Unmatched(s.router, Other(side));
      Untouched(s, id) && Untouched(s, others[|others| - 1])
    ensures MailConserved(PairedUp(s, side, id), x)
  {
  }

  lemma SendConservesMail(s: System, id: SocketId, message: Bytes, x: SocketId)
    requires Sound(s) && Enabled(s, Send(id, message))
    ensures Safe(s, Send(id, message))
    ensures MailConserved(Next(s, Send(id, message)), x)
  {
    SendNext(s, id, message);
    assert MailConserved(s, x);
    assert x in s.partners && s.partners[x] == id <==> x == s.partners[id];
  }

  lemma LastMoves(delivered: seq<Bytes>, box: seq<Bytes>)
    requires box != []
    ensures multiset(delivered + [box[|box| - 1]]) + multiset(box[..|box| - 1]) == multiset(delivered) + multiset(box)
  {
    assert box == box[..|box| - 1] + [box[|box| - 1]];
  }

  lemma ReceiveConservesMail(s: System, id: SocketId, x: SocketId)
    requires Sound(s) && Enabled(s, Receive(id))
    ensures Safe(s, Receive(id))
    ensures MailConserved(Next(s, Receive(id)), x)
  {
    ReceiveNext(s, id);
    assert MailConserved(s, x);
    var box := Mailbox(s.router, id);
    if box != [] && x == id {
      LastMoves(Listed(s.delivered, id), box);
    }
  }

  lemma StepSound(s: System, step: Step)
    requires Sound(s) && Enabled(s, step)
    ensures Safe(s, step) && Sound(Next(s, step))
  {
    if step.Dial? {
      DialSound(s, step.side, step.id);
      forall x: SocketId
        ensures MailConserved(Next(s, step), x)
      {
        DialConservesMail(s, step.side, step.id, x);
      }
    } else if step.Send? {
      SendNext(s, step.id, step.message);
      forall x: SocketId
        ensures MailConserved(Next(s, step), x)
      {
        SendConservesMail(s, step.id, step.message, x);
      }
    } else {
      ReceiveNext(s, step.id);
      forall x: SocketId
        ensures MailConserved(Next(s, step), x)
      {
        ReceiveConservesMail(s, step.id, x);
      }
    }
  }

  lemma {:induction false} RunSound(s: System, steps: seq<Step>, t: System)
    requires Sound(s) && Reaches(s, steps, t)
    ensures Sound(t)
    decreases |steps|
  {
    if steps != [] {
      StepSound(s, steps[0]);
      RunSound(Next(s, steps[0]), steps[1..], t);
    }
  }

  /** No interleaving of sockets that each ask once can make the router panic. */
  lemma NoEnabledStepPanics(steps: seq<Step>, s: System, step: Step)
    requires Reaches(Start, steps, s) && Enabled(s, step)
    ensures Safe(s, step)
  {
    RunSound(Start, steps, s);
    StepSound(s, step);
  }

  /** Exactly what would panic: a socket asking again on its side while it is still waiting there. */
  lemma AskingAgainPanicsIffWaiting(steps: seq<Step>, s: System, side: Side, id: SocketId)
    requires Reaches(Start, steps, s)
    ensures Panics(s.router, side, Payload(id, [], Connect)) <==> id in Unmatched(s.router, side)
  {
    RunSound(Start, steps, s);
  }

  /** Such a request exists: the first socket that dials waits, and asking again panics. */
  lemma AskingTwicePanics(side: Side, id: SocketId)
    ensures Enabled(Start, Dial(side, id)) && Safe(Start, Dial(side, id))
    ensures Panics(Next(Start, Dial(side, id)).router, side, Payload(id, [], Connect))
  {
    DialNext(Start, side, id);
  }

  /** In every reachable state: one waiting list is empty, and partners know each other across the two sides. */
  lemma PairingIsSymmetric(steps: seq<Step>, s: System, id: SocketId, other: SocketId)
    requires Reaches(Start, steps, s) && id in s.partners && other in s.partners
    ensures s.router.clients == [] || s.router.workers == []
    ensures
      var mate := s.partners[id];
      && mate in s.partners && s.partners[mate] == id
      && id in s.sides && mate in s.sides && s.sides[mate] == Other(s.sides[id])
      && (s.partners[other] == mate ==> other == id)
  {
    RunSound(Start, steps, s);
  }

  /** Every acknowledged message was delivered or waits, exactly once, at the sender's partner and nowhere else. */
  lemma MessagesReachThePartner(steps: seq<Step>, s: System, id: SocketId)
    requires Reaches(Start, steps, s) && id in s.partners
    ensures multiset(Listed(s.acknowledged, id))
            == multiset(Listed(s.delivered, s.partners[id])) + multiset(Mailbox(s.router, s.partners[id]))
  {
    RunSound(Start, steps, s);
    var mate := s.partners[id];
    assert mate in s.partners && s.partners[mate] == id;
    assert MailConserved(s, mate);
  }

  // -- Order --

  /** What `id` was given, and then what waits for it, is in order what its partner sent. */
  ghost predicate InOrder(s: System, id: SocketId) {
    id in s.partners ==>
      Listed(s.delivered, id) + Mailbox(s.router, id) == Listed(s.acknowledged, s.partners[id])
  }

  ghost predicate AllInOrder(s: System) {
    forall id: SocketId :: InOrder(s, id)
  }

  /** All the messages are the same one; so are none, and so is one. */
  predicate Uniform(box: seq<Bytes>) {
    forall i | 0 <= i < |box| :: box[i] == box[0]
  }

  /** Moving the last message to the front changes nothing exactly if all are the same. */
  lemma RotatesToItselfIff(box: seq<Bytes>)
    requires box != []
    ensures [box[|box| - 1]] + box[..|box| - 1] == box <==> Uniform(box)
  {
    var rotated := [box[|box| - 1]] + box[..|box| - 1];
    if rotated == box {
      var i := 1;
      while i < |box|
        invariant 1 <= i <= |box|
        invariant forall j | 0 <= j < i :: box[j] == box[0]
      {
        assert rotated[i] == box[i - 1];
        i := i + 1;
      }
    }
  }

  lemma SamePrefix(past: seq<Bytes>, a: seq<Bytes>, b: seq<Bytes>)
    ensures past + a == past + b <==> a == b
  {
    assert (past + a)[|past|..] == a && (past + b)[|past|..] == b;
  }

  /**
  Exactly when one more message handed out keeps the order. What the socket was given stays a prefix of what was
  sent iff the mailbox is empty or its last message equals its first; what it was given and what waits stay in
  order iff all that waits is the same.
   */
  lemma ReceiveKeepsOrderIff(s: System, id: SocketId)
    requires Enabled(s, Receive(id)) && InOrder(s, id)
    ensures Safe(s, Receive(id))
    ensures
      var box, sent := Mailbox(s.router, id), Listed(s.acknowledged, s.partners[id]);
      var s' := Next(s, Receive(id));
      && (Listed(s'.delivered, id) <= sent <==> box == [] || box[|box| - 1] == box[0])
      && (InOrder(s', id) <==> Uniform(box))
  {
    ReceiveNext(s, id);
    if Mailbox(s.router, id) != [] {
      LastFirstInOrderIff(Listed(s.delivered, id), Mailbox(s.router, id));
    }
  }

  lemma LastFirstInOrderIff(past: seq<Bytes>, box: seq<Bytes>)
    requires box != []
    ensures
      var last, rest := box[|box| - 1], box[..|box| - 1];
      && (past + [last] <= past + box <==> last == box[0])
      && ((past + [last]) + rest == past + box <==> Uniform(box))
  {
    var last, rest := box[|box| - 1], box[..|box| - 1];
    RotatesToItselfIff(box);
    assert (past + [last]) + rest == past + ([last] + rest);
    SamePrefix(past, [last] + rest, box);
    assert (past + box)[..|past| + 1] == past + [box[0]];
    SamePrefix(past, [last], [box[0]]);
  }

  /** No step but a reception can disturb the order, and a reception disturbs only its own mailbox. */
  lemma StepKeepsOrder(s: System, step: Step, x: SocketId)
    requires Sound(s) && Enabled(s, step) && InOrder(s, x)
    requires step.Receive? ==> x != step.id
    ensures Safe(s, step) && InOrder(Next(s, step), x)
  {
    match step
    case Dial(side, id) => DialKeepsOrder(s, side, id, x);
    case Send(id, message) => SendKeepsOrder(s, id, message, x);
    case Receive(id) => ReceiveNext(s, id);
  }

  lemma SendKeepsOrder(s: System, id: SocketId, message: Bytes, x: SocketId)
    requires Paired(s) && Enabled(s, Send(id, message)) && InOrder(s, x)
    ensures Safe(s, Send(id, message)) && InOrder(Next(s, Send(id, message)), x)
  {
    SendNext(s, id, message);
    assert x in s.partners && s.partners[x] == id <==> x == s.partners[id];
    if x == s.partners[id] {
      var past, box := Listed(s.delivered, x), Mailbox(s.router, x);
      assert past + (box + [message]) == (past + box) + [message];
    }
  }

  lemma DialKeepsOrder(s: System, side: Side, id: SocketId, x: SocketId)
    requires Sound(s) && id !in s.sides && InOrder(s, x)
    ensures Safe(s, Dial(side, id)) && InOrder(Next(s, Dial(side, id)), x)
  {
    DialNext(s, side, id);
    DialMeetsUntouched(s, side, id);
    if Unmatched(s.router, Other(side)) != [] {
      PairedUpInOrder(s, side, id, x);
    }
  }

  lemma PairedUpInOrder(s: System, side: Side, id: SocketId, x: SocketId)
    requires Unmatched(s.router, Other(side)) != [] && InOrder(s, x)
    requires
      var others := Unmatched(s.router, Other(side));
      Untouched(s, id) && Untouched(s, others[|others| - 1])
    ensures InOrder(PairedUp(s, side, id), x)
  {
  }

  /** Every message that is handed out in the run is the same as all others that wait with it. */
  ghost predicate Prompt(s: System, steps: seq<Step>)
    decreases |steps|
  {
    steps == [] ||
    (Enabled(s, steps[0]) && Safe(s, steps[0])
     && (steps[0].Receive? ==> Uniform(Mailbox(s.router, steps[0].id)))
     && Prompt(Next(s, steps[0]), steps[1..]))
  }

  /** Every state of the run is in order. */
  ghost predicate StaysInOrder(s: System, steps: seq<Step>)
    decreases |steps|
  {
    AllInOrder(s) &&
    (steps == [] || (Enabled(s, steps[0]) && Safe(s, steps[0]) && StaysInOrder(Next(s, steps[0]), steps[1..])))
  }

  lemma StepStaysInOrderIff(s: System, step: Step)
    requires Sound(s) && AllInOrder(s) && Enabled(s, step)
    ensures Safe(s, step)
    ensures AllInOrder(Next(s, step)) <==> (step.Receive? ==> Uniform(Mailbox(s.router, step.id)))
  {
    StepSound(s, step);
    if step.Receive? {
      assert InOrder(s, step.id);
      ReceiveKeepsOrderIff(s, step.id);
    }
    forall x: SocketId | !step.Receive? || x != step.id
      ensures InOrder(Next(s, step), x)
    {
      assert InOrder(s, x);
      StepKeepsOrder(s, step, x);
    }
  }

  lemma {:induction false} RunStaysInOrderIff(s: System, steps: seq<Step>, t: System)
    requires Sound(s) && AllInOrder(s) && Reaches(s, steps, t)
    ensures StaysInOrder(s, steps) <==> Prompt(s, steps)
    ensures Prompt(s, steps) ==> AllInOrder(t)
    decreases |steps|
  {
    if steps != [] {
      StepStaysInOrderIff(s, steps[0]);
      StepSound(s, steps[0]);
      if AllInOrder(Next(s, steps[0])) {
        RunStaysInOrderIff(Next(s, steps[0]), steps[1..], t);
      }
    }
  }

  lemma StartIsSound()
    ensures Sound(Start) && AllInOrder(Start)
  {
  }

  /** Exactly which runs keep the order: those that never hand out one of several different waiting messages. */
  lemma OrderIsKeptIff(steps: seq<Step>, s: System)
    requires Reaches(Start, steps, s)
    ensures StaysInOrder(Start, steps) <==> Prompt(Start, steps)
  {
    StartIsSound();
    RunStaysInOrderIff(Start, steps, s);
  }

  /** In such a run every socket is given, in order, a prefix of what its partner sent, and the rest waits for it. */
  lemma PromptSocketsGetInOrder(steps: seq<Step>, s: System, id: SocketId)
    requires Reaches(Start, steps, s) && Prompt(Start, steps) && id in s.partners
    ensures Listed(s.delivered, id) <= Listed(s.acknowledged, s.partners[id])
    ensures Listed(s.delivered, id) + Mailbox(s.router, id) == Listed(s.acknowledged, s.partners[id])
  {
    StartIsSound();
    RunStaysInOrderIff(Start, steps, s);
    assert InOrder(s, id);
  }

  /** The first socket waits. */
  lemma FirstDialWaits(a: SocketId)
    ensures Enabled(Start, Dial(Front, a)) && Safe(Start, Dial(Front, a))
    ensures Next(Start, Dial(Front, a)) == System(RouterState([a], [], map[]), map[a := Front], map[], map[], map[])
  {
    DialNext(Start, Front, a);
    assert [] + [a] == [a];
  }

  lemma SecondDialPairs(s: System, a: SocketId, b: SocketId) returns (t: System)
    requires a != b && s == System(RouterState([a], [], map[]), map[a := Front], map[], map[], map[])
    ensures Enabled(s, Dial(Back, b)) && Safe(s, Dial(Back, b)) && Next(s, Dial(Back, b)) == t
    ensures a in t.partners && t.partners[a] == b && b in t.partners && t.partners[b] == a
    ensures Mailbox(t.router, b) == Listed(t.acknowledged, a) == []
  {
    DialNext(s, Back, b);
    t := Next(s, Dial(Back, b));
  }

  // -- What each socket was given, whatever the order of what waits --

  /** The next message that is due to a socket. */
  function Due(s: System, id: SocketId): Option<Bytes> {
    if id in s.partners && |Listed(s.delivered, id)| < |Listed(s.acknowledged, s.partners[id])|
    then Some(Listed(s.acknowledged, s.partners[id])[|Listed(s.delivered, id)|])
    else None
  }

  ghost predicate GivenInOrder(s: System, id: SocketId) {
    id in s.partners ==> Listed(s.delivered, id) <= Listed(s.acknowledged, s.partners[id])
  }

  ghost predicate AllGivenInOrder(s: System) {
    forall id: SocketId :: GivenInOrder(s, id)
  }

  /** The message that would be handed out is the one that is due. */
  predicate HandsOutDue(s: System, id: SocketId) {
    var box := Mailbox(s.router, id);
    box == [] || Due(s, id) == Some(box[|box| - 1])
  }

  lemma ReceiveGivesInOrderIff(s: System, id: SocketId)
    requires Sound(s) && Enabled(s, Receive(id)) && GivenInOrder(s, id)
    ensures Safe(s, Receive(id))
    ensures GivenInOrder(Next(s, Receive(id)), id) <==> HandsOutDue(s, id)
  {
    ReceiveNext(s, id);
    assert MailConserved(s, id);
    var past, box, sent := Listed(s.delivered, id), Mailbox(s.router, id), Listed(s.acknowledged, s.partners[id]);
    if box != [] {
      MoreWasSent(past, box, sent);
      OneMoreIsPrefixIff(past, box[|box| - 1], sent);
    }
  }

  lemma MoreWasSent(past: seq<Bytes>, box: seq<Bytes>, sent: seq<Bytes>)
    requires multiset(past) + multiset(box) == multiset(sent) && box != []
    ensures |past| < |sent|
  {
    assert |multiset(past) + multiset(box)| == |past| + |box| && |multiset(sent)| == |sent|;
  }

  lemma OneMoreIsPrefixIff(past: seq<Bytes>, message: Bytes, sent: seq<Bytes>)
    requires past <= sent && |past| < |sent|
    ensures past + [message] <= sent <==> sent[|past|] == message
  {
    assert sent[..|past| + 1] == past + [sent[|past|]];
  }

  lemma StepGivesInOrder(s: System, step: Step, x: SocketId)
    requires Sound(s) && Enabled(s, step) && GivenInOrder(s, x)
    requires step.Receive? ==> x != step.id
    ensures Safe(s, step) && GivenInOrder(Next(s, step), x)
  {
    match step
    case Dial(side, id) =>
      DialNext(s, side, id);
      DialMeetsUntouched(s, side, id);
    case Send(id, message) =>
      SendNext(s, id, message);
    case Receive(id) => ReceiveNext(s, id);
  }

  lemma StepGivesAllInOrderIff(s: System, step: Step)
    requires Sound(s) && AllGivenInOrder(s) && Enabled(s, step)
    ensures Safe(s, step)
    ensures AllGivenInOrder(Next(s, step)) <==> (step.Receive? ==> HandsOutDue(s, step.id))
  {
    StepSound(s, step);
    if step.Receive? {
      assert GivenInOrder(s, step.id);
      ReceiveGivesInOrderIff(s, step.id);
    }
    forall x: SocketId | !step.Receive? || x != step.id
      ensures GivenInOrder(Next(s, step), x)
    {
      assert GivenInOrder(s, x);
      StepGivesInOrder(s, step, x);
    }
  }

  /** Every message that is handed out in the run is the one that is due. */
  ghost predicate Timely(s: System, steps: seq<Step>)
    decreases |steps|
  {
    steps == [] ||
    (Enabled(s, steps[0]) && Safe(s, steps[0])
     && (steps[0].Receive? ==> HandsOutDue(s, steps[0].id))
     && Timely(Next(s, steps[0]), steps[1..]))
  }

  /** In every state of the run every socket was given a prefix of what its partner sent. */
  ghost predicate StaysGivenInOrder(s: System, steps: seq<Step>)
    decreases |steps|
  {
    AllGivenInOrder(s) &&
    (steps == [] || (Enabled(s, steps[0]) && Safe(s, steps[0]) && StaysGivenInOrder(Next(s, steps[0]), steps[1..])))
  }

  lemma {:induction false} RunGivesInOrderIff(s: System, steps: seq<Step>, t: System)
    requires Sound(s) && AllGivenInOrder(s) && Reaches(s, steps, t)
    ensures StaysGivenInOrder(s, steps) <==> Timely(s, steps)
    decreases |steps|
  {
    if steps != [] {
      StepGivesAllInOrderIff(s, steps[0]);
      StepSound(s, steps[0]);
      if AllGivenInOrder(Next(s, steps[0])) {
        RunGivesInOrderIff(Next(s, steps[0]), steps[1..], t);
      }
    }
  }

  /**
  Exactly which runs give every socket, throughout, a prefix of what its partner sent. A mailbox of three messages of
  which the last equals the first can be emptied in order, so these are more runs than those of `OrderIsKeptIff`.
   */
  lemma DeliveryIsOrderedIff(steps: seq<Step>, s: System)
    requires Reaches(Start, steps, s)
    ensures StaysGivenInOrder(Start, steps) <==> Timely(Start, steps)
    ensures Prompt(Start, steps) ==> Timely(Start, steps)
  {
    StartIsSound();
    RunGivesInOrderIff(Start, steps, s);
    PromptIsTimely(Start, steps, s);
  }

  lemma {:induction false} PromptIsTimely(s: System, steps: seq<Step>, t: System)
    requires Sound(s) && AllInOrder(s) && Reaches(s, steps, t)
    ensures Prompt(s, steps) ==> Timely(s, steps)
    decreases |steps|
  {
    if steps != [] && Prompt(s, steps) {
      StepStaysInOrderIff(s, steps[0]);
      StepSound(s, steps[0]);
      if steps[0].Receive? {
        assert InOrder(s, steps[0].id);
        UniformHandsOutDue(s, steps[0].id);
      }
      PromptIsTimely(Next(s, steps[0]), steps[1..], t);
    }
  }

  lemma UniformHandsOutDue(s: System, id: SocketId)
    requires id in s.partners && InOrder(s, id) && Uniform(Mailbox(s.router, id))
    ensures HandsOutDue(s, id)
  {
    var past, box := Listed(s.delivered, id), Mailbox(s.router, id);
    if box != [] {
      assert (past + box)[|past|] == box[0] == box[|box| - 1];
    }
  }

  /** Two sockets meet. */
  lemma TwoDialsPair(a: SocketId, b: SocketId) returns (s: System)
    requires a != b
    ensures Reaches(Start, [Dial(Front, a), Dial(Back, b)], s) && Sound(s) && AllInOrder(s)
    ensures a in s.partners && s.partners[a] == b && b in s.partners && s.partners[b] == a
    ensures Mailbox(s.router, b) == Listed(s.acknowledged, a) == []
  {
    FirstDialWaits(a);
    var s1 := Next(Start, Dial(Front, a));
    s := SecondDialPairs(s1, a, b);
    var steps := [Dial(Front, a), Dial(Back, b)];
    TwoSteps(Start, steps, s1, s);
    StartIsSound();
    StepStaysInOrderIff(Start, steps[0]);
    StepSound(Start, steps[0]);
    StepStaysInOrderIff(s1, steps[1]);
    StepSound(s1, steps[1]);
  }

  lemma TwoSteps(s0: System, steps: seq<Step>, s1: System, s2: System)
    requires |steps| == 2
    requires Enabled(s0, steps[0]) && Safe(s0, steps[0]) && Next(s0, steps[0]) == s1
    requires Enabled(s1, steps[1]) && Safe(s1, steps[1]) && Next(s1, steps[1]) == s2
    ensures Reaches(s0, steps, s2)
  {
    assert steps[2..] == [] && Reaches(s2, steps[2..], s2);
    assert steps[1..][1..] == steps[2..] && Reaches(s1, steps[1..], s2);
  }

  /**
  Other runs exist. Of two different messages that wait, the later one is handed out first, from every sound state
  in which the order was kept so far; `TwoDialsPair` reaches one.
   */
  lemma LaterMessageOvertakes(s: System, a: SocketId, first: Bytes, second: Bytes) returns (t: System)
    requires Sound(s) && AllInOrder(s) && a in s.partners && first != second
    requires Mailbox(s.router, s.partners[a]) == []
    ensures Reaches(s, [Send(a, first), Send(a, second), Receive(s.partners[a])], t)
    ensures Listed(t.delivered, s.partners[a]) == Listed(s.acknowledged, a) + [second]
    ensures Listed(t.acknowledged, a) == Listed(s.acknowledged, a) + [first, second]
    ensures !StaysInOrder(s, [Send(a, first), Send(a, second), Receive(s.partners[a])])
  {
    var b := s.partners[a];
    var steps := [Send(a, first), Send(a, second), Receive(b)];
    assert InOrder(s, b);
    var s1, s2 := TwoSendsWait(s, a, first, second);
    ReceiveNext(s2, b);
    t := Next(s2, steps[2]);
    ThreeSteps(s, steps, s1, s2, t);
    ThirdStepDisturbs(s, steps, s1, s2, t);
  }

  lemma TwoSendsWait(s: System, a: SocketId, first: Bytes, second: Bytes) returns (s1: System, s2: System)
    requires Paired(s) && a in s.partners && Mailbox(s.router, s.partners[a]) == []
    ensures Enabled(s, Send(a, first)) && Safe(s, Send(a, first)) && Next(s, Send(a, first)) == s1
    ensures Enabled(s1, Send(a, second)) && Safe(s1, Send(a, second)) && Next(s1, Send(a, second)) == s2
    ensures s2.partners == s.partners && s2.sides == s.sides && s2.delivered == s.delivered
    ensures Mailbox(s2.router, s.partners[a]) == [first, second]
    ensures Listed(s2.acknowledged, a) == Listed(s.acknowledged, a) + [first, second]
  {
    SendNext(s, a, first);
    s1 := Next(s, Send(a, first));
    SendNext(s1, a, second);
    s2 := Next(s1, Send(a, second));
  }

  lemma ThirdStepDisturbs(s: System, steps: seq<Step>, s1: System, s2: System, t: System)
    requires |steps| == 3 && Sound(s) && AllInOrder(s) && Reaches(s, steps, t)
    requires Enabled(s, steps[0]) && Safe(s, steps[0]) && Next(s, steps[0]) == s1
    requires Enabled(s1, steps[1]) && Safe(s1, steps[1]) && Next(s1, steps[1]) == s2
    requires steps[2].Receive? && |Mailbox(s2.router, steps[2].id)| == 2
    requires Mailbox(s2.router, steps[2].id)[1] != Mailbox(s2.router, steps[2].id)[0]
    ensures !StaysInOrder(s, steps)
  {
    RunStaysInOrderIff(s, steps, t);
    assert steps[1..][0] == steps[1] && steps[1..][1..][0] == steps[2];
    assert !Prompt(s1, steps[1..]) by {
      assert !Prompt(s2, steps[1..][1..]);
    }
  }

  lemma ThreeSteps(s0: System, steps: seq<Step>, s1: System, s2: System, s3: System)
    requires |steps| == 3
    requires Enabled(s0, steps[0]) && Safe(s0, steps[0]) && Next(s0, steps[0]) == s1
    requires Enabled(s1, steps[1]) && Safe(s1, steps[1]) && Next(s1, steps[1]) == s2
    requires Enabled(s2, steps[2]) && Safe(s2, steps[2]) && Next(s2, steps[2]) == s3
    ensures Reaches(s0, steps, s3)
  {
    assert steps[3..] == [] && Reaches(s3, steps[3..], s3);
    assert steps[2..][1..] == steps[3..] && Reaches(s2, steps[2..], s3);
    assert steps[1..][1..] == steps[2..] && Reaches(s1, steps[1..], s3);
  }
}
