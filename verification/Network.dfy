/**
The network: peer names over a mesh. The mesh never reissues an id, which is what keeps the peer map sound
however names collide; and the peer map is locked from adding a connection to naming it, which is what keeps
every envelope attributable.
 */
module Networks {
  import opened Prelude
  import opened MeshModel
  import opened BiHashMaps
  import opened PeerMaps
  import Mesh

  datatype SendError = NoSuchPeer | MeshError(error: Mesh.SendError)

  /** The answer to a send, and the peer map it leaves: a dead connection removes by the name that was used. */
  function SendTo(peers: PeerState, mesh: MeshState, outgoings: set<nat>, peerId: string, message: Bytes, wakeOk: bool)
    : (Result<(), SendError>, PeerState)
  {
    match MeshId(peers, peerId)
    case None => (Err(NoSuchPeer), peers)
    case Some(id) =>
      match Mesh.AnswerTo(mesh, outgoings, Envelope(id, message), wakeOk)
      case Ok(_) => (Ok(()), peers)
      case Err(e) => (Err(MeshError(e)), if e.Disconnected? then RemovePeer(peers, peerId).0 else peers)
  }

  /** The mesh after that send: the payload is queued unless it was refused, whatever became of the wake-up. */
  function MeshAfter(peers: PeerState, mesh: MeshState, outgoings: set<nat>, peerId: string, message: Bytes)
    : MeshState
  {
    match MeshId(peers, peerId)
    case None => mesh
    case Some(id) =>
      if Mesh.Refusal(mesh, outgoings, Envelope(id, message)).Some? then mesh
      else Next(mesh, ClientSend(id, message)).0
  }

  datatype RecvError = NoPeer | NothingQueued

  class Network {
    const peers: PeerMap
    const mesh: Mesh.Client

    ghost predicate Separate() {
      && peers.Valid()
      && {peers, peers.peers, peers.endpoints}
         !! {mesh, mesh.reactor, mesh.reactor.pool, mesh.reactor.incoming as object}
    }

    /** Whatever the names: live names are recoverable, redirects lead somewhere, and only issued ids are used. */
    ghost predicate Valid()
      reads this, peers, peers.peers, peers.endpoints
      reads mesh, mesh.reactor, mesh.reactor.pool, mesh.reactor.pool.entries.Values, mesh.reactor.incoming
    {
      && Separate()
      && mesh.reactor.Valid()
      && HalfInverse(peers.State().peers)
      && TargetsLive(peers.State())
      && (forall id <- peers.peers.vk :: id < mesh.reactor.pool.nextId)
    }

    constructor (mesh: Mesh.Client)
      requires mesh.reactor.Valid()
      ensures Valid() && this.mesh == mesh && peers.State() == Empty
    {
      this.mesh := mesh;
      peers := new PeerMap();
    }

    /** A new connection is named under the id that the mesh gave it, which no peer ever had. */
    method AddPeer(peerId: string, endpoint: string, connectionOk: bool, outgoingOk: bool) returns (r: Option<nat>)
      requires Valid()
      modifies mesh, mesh.reactor.pool, peers.peers, peers.endpoints
      ensures Valid() && fresh(mesh.reactor.pool.entries.Values - old(mesh.reactor.pool.entries.Values))
      ensures r == AddEntry(old(mesh.reactor.pool.State()), connectionOk, outgoingOk).1
      ensures mesh.reactor.State() == Next(old(mesh.reactor.State()), ControlAdd(connectionOk, outgoingOk)).0
      ensures r.None? ==> peers.State() == old(peers.State())
      ensures r.Some? ==>
                && r.value !in old(peers.peers.vk)
                && r.value in mesh.outgoings
                && peers.State() == InsertPeer(old(peers.State()), peerId, r.value, endpoint)
                && PeerId(peers.State(), r.value) == Some(peerId)
    {
      r := mesh.Add(connectionOk, outgoingOk);
      assert mesh.reactor.State().pool.nextId == old(mesh.reactor.pool.nextId) + 3;
      if r.Some? {
        PutKeepsHalfInverse(peers.State().peers, peerId, r.value);
        peers.Insert(peerId, r.value, endpoint);
      }
    }

    /** Drops the name from the peer map and leaves the mesh alone. */
    method Forget(peerId: string) returns (removed: Option<nat>)
      requires Valid()
      modifies peers, peers.peers, peers.endpoints
      ensures Valid() && mesh.reactor.State() == old(mesh.reactor.State())
      ensures (peers.State(), removed) == RemovePeer(old(peers.State()), peerId)
      ensures removed == Get(old(peers.peers.kv), peerId)
    {
      RemoveKeepsHalfInverse(peers.State(), peerId);
      removed := peers.Remove(peerId);
    }

    /** Disconnection removes by the name that was used, which forgets the peer only if that name is current. */
    method Send(peerId: string, message: Bytes, wakeOk: bool) returns (r: Result<(), SendError>)
      requires Valid()
      modifies peers, peers.peers, peers.endpoints, mesh.reactor.pool.entries.Values
      ensures Valid()
      ensures (r, peers.State())
              == SendTo(old(peers.State()), old(mesh.reactor.State()), mesh.outgoings, peerId, message, wakeOk)
      ensures mesh.reactor.State()
              == MeshAfter(old(peers.State()), old(mesh.reactor.State()), mesh.outgoings, peerId, message)
    {
      var meshId := peers.GetMeshId(peerId);
      if meshId.None? {
        return Err(NoSuchPeer);
      }
      var sent := mesh.Send(Envelope(meshId.value, message), wakeOk);
      match sent {
        case Ok(_) => r := Ok(());
        case Err(e) =>
          if e.Disconnected? {
            var _ := Forget(peerId);
          }
          r := Err(MeshError(e));
      }
    }

    /** The oldest envelope, under the name its connection has now. */
    method Recv() returns (r: Result<(string, Bytes), RecvError>)
      requires Valid()
      modifies mesh.reactor.incoming
      ensures Valid()
      ensures r == Err(NothingQueued) <==> old(mesh.reactor.incoming.envelopes) == []
      ensures r != Err(NothingQueued) ==>
                var envelope := old(mesh.reactor.incoming.envelopes)[0];
                && mesh.reactor.incoming.envelopes == old(mesh.reactor.incoming.envelopes)[1..]
                && r == match PeerId(peers.State(), envelope.id)
                        case Some(name) => Ok((name, envelope.payload))
                        case None => Err(NoPeer)
    {
      if mesh.reactor.incoming.envelopes == [] {
        return Err(NothingQueued);
      }
      var batch := mesh.reactor.incoming.Take(1);
      var envelope := batch[0];
      var name := Get(peers.peers.vk, envelope.id);
      r := match name case Some(n) => Ok((n, envelope.payload)) case None => Err(NoPeer);
    }

    method UpdatePeerId(oldId: string, newId: string) returns (ok: bool)
      requires Valid()
      modifies peers, peers.peers, peers.endpoints
      ensures Valid()
      ensures (peers.State(), ok) == RenamePeer(old(peers.State()), oldId, newId)
      ensures ok == (oldId in old(peers.peers.kv))
    {
      ghost var before := peers.State();
      RenameKeepsHalfInverse(before, oldId, newId);
      ok := peers.Update(oldId, newId);
    }

    /** Removing by a name that is not current, such as an alias, leaves the peer and the mesh alone. */
    method RemoveConnection(peerId: string, deregisterOk: bool) returns (removed: Option<nat>)
      requires Valid()
      modifies peers, peers.peers, peers.endpoints, mesh, mesh.reactor.pool
      ensures Valid()
      ensures (peers.State(), removed) == RemovePeer(old(peers.State()), peerId)
      ensures removed == Get(old(peers.peers.kv), peerId)
      ensures mesh.reactor.State()
              == if removed.None? then old(mesh.reactor.State())
                 else Next(old(mesh.reactor.State()), ControlRemove(removed.value)).0
    {
      removed := Forget(peerId);
      if removed.Some? {
        var _ := mesh.Remove(removed.value, deregisterOk);
      }
    }
  }

  datatype ConnectResult = AlreadyKnown | ConnectedTo(id: nat) | ConnectionFailed | AddPeerFailed

  /** What the foreign calls answer: dialling, the two registrations, and waking the reactor. */
  datatype DialAnswers = DialAnswers(dialOk: bool, connectionOk: bool, outgoingOk: bool, wakeOk: bool)

  class PeerConnector {
    const network: Network

    constructor (network: Network)
      ensures this.network == network
    {
      this.network := network;
    }

    /**
    Dials only an endpoint that no peer has, and names the new connection after the node. A peer whose connect
    request could not be sent stays, unless the request went by a redirect to a connection that is gone.
     */
    method ConnectPeer(nodeId: string, endpoint: string, io: DialAnswers, hello: Bytes) returns (r: ConnectResult)
      requires network.Valid()
      modifies network.peers, network.peers.peers, network.peers.endpoints
      modifies network.mesh, network.mesh.reactor.pool, network.mesh.reactor.pool.entries.Values
      ensures network.Valid()
      ensures r.AlreadyKnown? <==> PeerByEndpoint(old(network.peers.State()), endpoint).Some?
      ensures r.AlreadyKnown? || !io.dialOk ==>
                && r in {AlreadyKnown, ConnectionFailed}
                && network.peers.State() == old(network.peers.State())
                && network.mesh.reactor.State() == old(network.mesh.reactor.State())
      ensures
        !r.AlreadyKnown? && io.dialOk ==>
          var (pool, id) := AddEntry(old(network.mesh.reactor.pool.State()), io.connectionOk, io.outgoingOk);
          var mesh := old(network.mesh.reactor.State()).(pool := pool);
          if id.None? then
            && r == AddPeerFailed
            && network.peers.State() == old(network.peers.State())
            && network.mesh.reactor.State() == mesh
          else
            var peers := InsertPeer(old(network.peers.State()), nodeId, id.value, endpoint);
            && id.value !in old(network.peers.peers.vk)
            && (if SendTo(peers, mesh, network.mesh.outgoings, nodeId, hello, io.wakeOk).0.Ok?
                then r == ConnectedTo(id.value) else r == ConnectionFailed)
            && network.peers.State() == SendTo(peers, mesh, network.mesh.outgoings, nodeId, hello, io.wakeOk).1
            && network.mesh.reactor.State() == MeshAfter(peers, mesh, network.mesh.outgoings, nodeId, hello)
    {
      if endpoint in network.peers.endpoints.vk {
        return AlreadyKnown;
      }
      if !io.dialOk {
        return ConnectionFailed;
      }
      var id := network.AddPeer(nodeId, endpoint, io.connectionOk, io.outgoingOk);
      if id.None? {
        return AddPeerFailed;
      }
      var sent := network.Send(nodeId, hello, io.wakeOk);
      return if sent.Ok? then ConnectedTo(id.value) else ConnectionFailed;
    }
  }

  /**
  A send to a dead connection removes whoever has the name that was used as its current name. That is the peer of the
  dead connection exactly if the name stands for it; an alias removes nobody, or a peer that took the alias as a name.
   */
  lemma DeadPeerIsForgottenIff(log: seq<Op>, mesh: MeshState, outgoings: set<nat>, name: string, message: Bytes,
                               wakeOk: bool)
    requires FreshIds(log) && MeshId(Replay(log), name).Some?
    requires
      var id := MeshId(Replay(log), name).value;
      id in outgoings && id !in mesh.pool.entries
    ensures
      var id := MeshId(Replay(log), name).value;
      var (r, peers) := SendTo(Replay(log), mesh, outgoings, name, message, wakeOk);
      && r == Err(MeshError(Mesh.Disconnected(Envelope(id, message))))
      && ((forall n: string :: Get(peers.peers.kv, n) != Some(id)) <==> Owner(log, name) == Some(id))
      && (forall n: string | n != name :: Get(peers.peers.kv, n) == Owner(log, n))
      && (peers == Replay(log) <==> Owner(log, name).None?)
  {
    var s := Replay(log);
    RemovingAnAliasChangesNothing(log, name);
    EveryRunTracksOwners(log);
    assert Get(s.peers.kv, name) == Owner(log, name);
    DropKeyKeepsInverses(s.peers, name);
    var id, peers := MeshId(s, name).value, RemovePeer(s, name).0;
    forall n: string | n != name
      ensures Get(peers.peers.kv, n) == Owner(log, n)
    {
      assert Get(s.peers.kv, n) == Owner(log, n);
    }
    if Owner(log, name) != Some(id) {
      assert Get(peers.peers.kv, s.redirects[name]) == Some(id);
    }
  }

  /** Such a run exists: a peer that was renamed, and is sent to by its former name after its connection failed. */
  lemma AliasKeepsDeadPeer(a: string, b: string, x: string, mesh: MeshState, outgoings: set<nat>, message: Bytes,
                           wakeOk: bool)
    requires a != b && 0 in outgoings && 0 !in mesh.pool.entries
    ensures
      var s := Replay([Joined(a, 0, x), Renamed(a, b)]);
      && MeshId(s, a) == Some(0)
      && SendTo(s, mesh, outgoings, a, message, wakeOk) == (Err(MeshError(Mesh.Disconnected(Envelope(0, message)))), s)
  {
    var one, two := [Joined(a, 0, x)], [Joined(a, 0, x), Renamed(a, b)];
    assert PeerMaps.Init(two) == one && PeerMaps.Init(one) == [];
    assert Replay(one) == InsertPeer(Empty, a, 0, x);
    assert Replay(two) == RenamePeer(Replay(one), a, b).0;
    assert Owner([], a) == None && Owner(one, a) == Some(0) && Owner(two, a) == None;
    assert Issued(one) == Issued([]) + {0} && FreshIds(one) && FreshIds(two);
    DeadPeerIsForgottenIff(two, mesh, outgoings, a, message, wakeOk);
  }

  /** The other kind: a newcomer under the former name is forgotten in place of the dead peer. */
  lemma NewcomerIsForgottenInstead(a: string, b: string, x: string, y: string, mesh: MeshState, outgoings: set<nat>,
                                   message: Bytes, wakeOk: bool)
    requires a != b && 0 in outgoings && 0 !in mesh.pool.entries
    ensures
      var s := Replay([Joined(a, 0, x), Renamed(a, b), Joined(a, 1, y)]);
      var (r, peers) := SendTo(s, mesh, outgoings, a, message, wakeOk);
      && r == Err(MeshError(Mesh.Disconnected(Envelope(0, message))))
      && PeerId(s, 1) == Some(a)
      && MeshId(peers, b) == MeshId(s, b) == Some(0)
      && PeerId(peers, 0) == Some(b) && PeerId(peers, 1) == None
  {
    NewcomerUnderAlias(a, b, x, y);
    var s := Replay([Joined(a, 0, x), Renamed(a, b), Joined(a, 1, y)]);
    assert SendTo(s, mesh, outgoings, a, message, wakeOk).1 == RemovePeer(s, a).0;
  }

  lemma NewcomerUnderAlias(a: string, b: string, x: string, y: string)
    requires a != b
    ensures
      var s := Replay([Joined(a, 0, x), Renamed(a, b), Joined(a, 1, y)]);
      && s.redirects == map[a := b]
      && s.peers.kv == map[b := 0, a := 1] && s.peers.vk == map[0 := b, 1 := a]
  {
    var two, log := [Joined(a, 0, x), Renamed(a, b)], [Joined(a, 0, x), Renamed(a, b), Joined(a, 1, y)];
    assert PeerMaps.Init(log) == two && PeerMaps.Init(two) == [Joined(a, 0, x)];
    assert PeerMaps.Init([Joined(a, 0, x)]) == [];
    assert Replay([Joined(a, 0, x)]) == InsertPeer(Empty, a, 0, x);
    assert Replay(two) == RenamePeer(InsertPeer(Empty, a, 0, x), a, b).0;
    assert Replay(log) == InsertPeer(Replay(two), a, 1, y);
  }

  /**
  The mesh accepts exactly what is for a live connection with room in its queue. The peer map changes only if the
  connection that was looked up is gone: a full queue never costs a peer its name.
   */
  lemma SendOutcomes(peers: PeerState, mesh: MeshState, outgoings: set<nat>, name: string, message: Bytes, wakeOk: bool)
    ensures
      var (r, peers') := SendTo(peers, mesh, outgoings, name, message, wakeOk);
      var mesh' := MeshAfter(peers, mesh, outgoings, name, message);
      match MeshId(peers, name)
      case None => r == Err(NoSuchPeer) && peers' == peers && mesh' == mesh
      case Some(id) =>
        var there, known := id in mesh.pool.entries, id in outgoings;
        && (peers' != peers ==> known && !there)
        && (known && !there ==> peers' == RemovePeer(peers, name).0)
        && (r == Err(MeshError(Mesh.Disconnected(Envelope(id, message)))) <==> known && !there)
        && (if known && there && |mesh.pool.entries[id].queue| < mesh.outgoingCapacity then
              && r == (if wakeOk then Ok(()) else Err(MeshError(Mesh.WakeFailed)))
              && id in mesh'.pool.entries
              && mesh'.pool.entries[id].queue == mesh.pool.entries[id].queue + [message]
            else r.Err? && mesh' == mesh)
  {
  }

  lemma RemoveKeepsHalfInverse(s: PeerState, name: string)
    requires HalfInverse(s.peers) && TargetsLive(s)
    ensures
      var (s', removed) := RemovePeer(s, name);
      && HalfInverse(s'.peers) && TargetsLive(s')
      && s'.peers.vk.Keys <= s.peers.vk.Keys
      && removed == Get(s.peers.kv, name)
  {
    DropKeyKeepsInverses(s.peers, name);
  }

  lemma RenameKeepsHalfInverse(s: PeerState, from: string, to: string)
    requires HalfInverse(s.peers) && TargetsLive(s)
    ensures
      var (s', ok) := RenamePeer(s, from, to);
      && HalfInverse(s'.peers) && TargetsLive(s')
      && s'.peers.vk.Keys <= s.peers.vk.Keys
      && ok == (from in s.peers.kv)
  {
    DropKeyKeepsInverses(s.peers, from);
    if from in s.peers.kv {
      PutKeepsHalfInverse(DropKey(s.peers, from).0, to, s.peers.kv[from]);
    }
  }
}
