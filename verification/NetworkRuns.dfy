/**
Interleavings of the threads that add, rename, remove and receive.

`Attribution` follows envelopes: an envelope may arrive as soon as the mesh knows a connection, which is before
the connection has a name. `Dialling` follows endpoints: the connector checks for an endpoint and adds the peer
later, holding only the transport lock in between.
 */
module NetworkRuns {
  import opened Prelude
  import opened BiHashMaps
  import opened PeerMaps
  import MM = MeshModel

  // -- Attribution --

  /** A connection that the mesh has accepted but the peer map, locked for writing, does not name yet. */
  datatype Naming = Naming(name: string, mesh: nat, endpoint: string)

  datatype NetState = NetState(log: seq<Op>, nextMesh: nat, naming: Option<Naming>, inFlight: seq<MM.Envelope>)

  datatype NetStep =
    | MeshAdd(name: string, endpoint: string, meshOk: bool)
    | NameAndUnlock
    | UpdatePeerId(from: string, to: string)
    | RemovePeer(name: string)
    | Arrive(mesh: nat, payload: Bytes)

  function Added(s: NetState): set<nat> {
    Issued(s.log) + if s.naming.Some? then {s.naming.value.mesh} else {}
  }

  /** Steps on the peer map wait for its lock; the reactor does not. */
  predicate Enabled(s: NetState, step: NetStep) {
    match step
    case MeshAdd(_, _, _) => s.naming.None?
    case NameAndUnlock => s.naming.Some?
    case UpdatePeerId(_, _) => s.naming.None?
    case RemovePeer(_) => s.naming.None?
    case Arrive(mesh, _) => mesh in Added(s)
  }

  function NextNet(s: NetState, step: NetStep): NetState
    requires Enabled(s, step)
  {
    match step
    case MeshAdd(name, endpoint, meshOk) =>
      s.(nextMesh := s.nextMesh + 1, naming := if meshOk then Some(Naming(name, s.nextMesh, endpoint)) else None)
    case NameAndUnlock =>
      var n := s.naming.value;
      s.(log := s.log + [Joined(n.name, n.mesh, n.endpoint)], naming := None)
    case UpdatePeerId(from, to) => s.(log := s.log + [Renamed(from, to)])
    case RemovePeer(name) => s.(log := s.log + [Removed(name)])
    case Arrive(mesh, payload) => s.(inFlight := s.inFlight + [MM.Envelope(mesh, payload)])
  }

  const NetInit := NetState([], 0, None, [])

  ghost predicate NetReaches(s: NetState, steps: seq<NetStep>, t: NetState)
    decreases |steps|
  {
    if steps == [] then s == t
    else Enabled(s, steps[0]) && NetReaches(NextNet(s, steps[0]), steps[1..], t)
  }

  ghost predicate NetSound(s: NetState) {
    && FreshIds(s.log)
    && (forall m <- Added(s) :: m < s.nextMesh)
    && (s.naming.Some? ==> s.naming.value.mesh !in Issued(s.log))
    && (forall e <- s.inFlight :: e.id in Added(s))
  }

  lemma LogStep(log: seq<Op>, op: Op)
    ensures Issued(log + [op]) == Issued(log) + if op.Joined? then {op.mesh} else {}
    ensures FreshIds(log + [op]) <==> FreshIds(log) && (op.Joined? ==> op.mesh !in Issued(log))
  {
    assert Init(log + [op]) == log && Last(log + [op]) == op;
  }

  lemma NetStepSound(s: NetState, step: NetStep)
    requires NetSound(s) && Enabled(s, step)
    ensures NetSound(NextNet(s, step))
  {
    match step
    case MeshAdd(_, _, _) =>
      assert Added(s) == Issued(s.log) <= Added(NextNet(s, step));
    case NameAndUnlock =>
      LogStep(s.log, Joined(s.naming.value.name, s.naming.value.mesh, s.naming.value.endpoint));
      assert Added(NextNet(s, step)) == Added(s);
    case UpdatePeerId(from, to) =>
      LogStep(s.log, Renamed(from, to));
      assert Added(NextNet(s, step)) == Added(s);
    case RemovePeer(name) =>
      LogStep(s.log, Removed(name));
      assert Added(NextNet(s, step)) == Added(s);
    case Arrive(_, _) =>
  }

  lemma {:induction false} NetRunSound(s: NetState, steps: seq<NetStep>, t: NetState)
    requires NetSound(s) && NetReaches(s, steps, t)
    ensures NetSound(t)
    decreases |steps|
  {
    if steps != [] {
      NetStepSound(s, steps[0]);
      NetRunSound(NextNet(s, steps[0]), steps[1..], t);
    }
  }

  /** What each step leaves: the log grows by what was done to the peer map, and an arrival by its envelope. */
  lemma StepsAreLogged(s: NetState, step: NetStep)
    requires Enabled(s, step)
    ensures
      var s' := NextNet(s, step);
      match step
      case MeshAdd(name, endpoint, meshOk) =>
        && s'.log == s.log && s'.inFlight == s.inFlight && s.nextMesh < s'.nextMesh
        && s'.naming == if meshOk then Some(Naming(name, s.nextMesh, endpoint)) else None
      case NameAndUnlock =>
        && s'.naming.None? && s'.inFlight == s.inFlight
        && s'.log == s.log + [Joined(s.naming.value.name, s.naming.value.mesh, s.naming.value.endpoint)]
      case UpdatePeerId(from, to) => s'.log == s.log + [Renamed(from, to)] && s'.inFlight == s.inFlight
      case RemovePeer(name) => s'.log == s.log + [Removed(name)] && s'.inFlight == s.inFlight
      case Arrive(mesh, payload) => s'.log == s.log && s'.inFlight == s.inFlight + [MM.Envelope(mesh, payload)]
  {
  }

  /** The log removed the peer that `mesh` was. */
  predicate WasRemoved(log: seq<Op>, mesh: nat) {
    log != [] &&
    (WasRemoved(Init(log), mesh)
     || (Last(log).Removed? && NameOf(Init(log), mesh) == Some(Last(log).name)))
  }

  lemma {:induction false} NamedUnlessRemoved(log: seq<Op>, mesh: nat)
    requires FreshIds(log) && mesh in Issued(log)
    ensures NameOf(log, mesh).None? <==> WasRemoved(log, mesh)
  {
    if mesh in Issued(Init(log)) {
      NamedUnlessRemoved(Init(log), mesh);
    } else {
      UnknownUntilIssued(Init(log), mesh);
    }
  }

  lemma {:induction false} UnknownUntilIssued(log: seq<Op>, mesh: nat)
    requires mesh !in Issued(log)
    ensures NameOf(log, mesh).None? && !WasRemoved(log, mesh)
  {
    if log != [] {
      UnknownUntilIssued(Init(log), mesh);
    }
  }

  /**
  In every interleaving in which no name that two connections share is renamed or removed, a receiver that gets the
  read lock attributes an envelope to the name its connection has by then, and fails to find a peer only if the peer
  was removed.
   */
  lemma EveryEnvelopeIsAttributed(steps: seq<NetStep>, s: NetState, envelope: MM.Envelope)
    requires NetReaches(NetInit, steps, s) && NeverSplits(s.log)
    requires envelope in s.inFlight && s.naming.None?
    ensures PeerId(Replay(s.log), envelope.id) == NameOf(s.log, envelope.id)
    ensures PeerId(Replay(s.log), envelope.id).None? <==> WasRemoved(s.log, envelope.id)
  {
    NetRunSound(NetInit, steps, s);
    EveryRunAttributes(s.log);
    NamedUnlessRemoved(s.log, envelope.id);
  }

  /** The lock matters: without it a receiver could look between the mesh's add and the naming, and find nobody. */
  lemma UnlockedReceiverWouldMiss()
    ensures
      exists steps: seq<NetStep>, s: NetState, envelope: MM.Envelope ::
        && NetReaches(NetInit, steps, s) && NeverSplits(s.log)
        && envelope in s.inFlight
        && PeerId(Replay(s.log), envelope.id).None? && !WasRemoved(s.log, envelope.id)
  {
    var add, arrive := MeshAdd("peer", "endpoint", true), Arrive(0, []);
    var s1 := NextNet(NetInit, add);
    var s2 := NextNet(s1, arrive);
    var steps := [add, arrive];
    assert steps[1..] == [arrive] && steps[1..][1..] == [];
    assert NetReaches(s2, [], s2);
    assert NetReaches(s1, [arrive], s2);
    assert NetReaches(NetInit, steps, s2);
    assert MM.Envelope(0, []) in s2.inFlight;
    assert Replay([]) == Empty;
  }

  // -- Dialling --

  /**
  While `dialling`, the transport lock is held by a connector that found no peer at the endpoint. `dialled` is the
  endpoint that each connection was opened to, or was accepted from.
   */
  datatype DialState = DialState(
    peers: PeerState, nextMesh: nat, dialling: Option<(string, string)>, dialled: map<nat, string>)

  datatype DialStep =
    | CheckEndpoint(name: string, endpoint: string)
    | Connected(meshOk: bool)
    | Accept(name: string, endpoint: string, meshOk: bool)
    | Rename(from: string, to: string)
    | Disconnect(name: string)

  /** Adds a connection to the mesh and names it; nothing is checked here. */
  function Admit(s: DialState, name: string, endpoint: string, meshOk: bool): DialState {
    if !meshOk then s.(nextMesh := s.nextMesh + 1)
    else
      s.(peers := InsertPeer(s.peers, name, s.nextMesh, endpoint),
         nextMesh := s.nextMesh + 1,
         dialled := s.dialled[s.nextMesh := endpoint])
  }

  /**
  A step that the lock or the check turns away changes nothing. Accepting needs no transport lock, so it may come
  between a connector's check and its connection.
   */
  function NextDial(s: DialState, step: DialStep): DialState {
    match step
    case CheckEndpoint(name, endpoint) =>
      if s.dialling.None? && PeerByEndpoint(s.peers, endpoint).None? then s.(dialling := Some((name, endpoint))) else s
    case Connected(meshOk) =>
      if s.dialling.None? then s
      else Admit(s.(dialling := None), s.dialling.value.0, s.dialling.value.1, meshOk)
    case Accept(name, endpoint, meshOk) => Admit(s, name, endpoint, meshOk)
    case Rename(from, to) => s.(peers := RenamePeer(s.peers, from, to).0)
    case Disconnect(name) => s.(peers := PeerMaps.RemovePeer(s.peers, name).0)
  }

  const DialInit := DialState(Empty, 0, None, map[])

  function DialRun(steps: seq<DialStep>): DialState {
    if steps == [] then DialInit else NextDial(DialRun(steps[..|steps| - 1]), steps[|steps| - 1])
  }

  ghost predicate DialSound(s: DialState) {
    && HalfInverse(s.peers.peers)
    && HalfInverse(s.peers.endpoints)
    && s.peers.endpoints.kv.Keys == s.peers.peers.kv.Keys
    && (forall m <- s.peers.peers.vk :: m < s.nextMesh)
    && (forall name <- s.peers.peers.kv :: Get(s.dialled, s.peers.peers.kv[name]) == Get(s.peers.endpoints.kv, name))
  }

  lemma RenameSound(s: DialState, from: string, to: string)
    requires DialSound(s)
    ensures DialSound(NextDial(s, Rename(from, to)))
  {
    DropKeyKeepsInverses(s.peers.peers, from);
    DropKeyKeepsInverses(s.peers.endpoints, from);
    if from in s.peers.peers.kv {
      PutKeepsHalfInverse(DropKey(s.peers.peers, from).0, to, s.peers.peers.kv[from]);
      PutKeepsHalfInverse(DropKey(s.peers.endpoints, from).0, to, s.peers.endpoints.kv[from]);
    }
  }

  /** Some other live peer has the endpoint. */
  predicate Taken(s: PeerState, name: string, endpoint: string) {
    exists other <- s.endpoints.kv :: other != name && s.endpoints.kv[other] == endpoint
  }

  /** The step admits a connection whose endpoint another live peer has. */
  predicate Duplicates(s: DialState, step: DialStep) {
    match step
    case CheckEndpoint(_, _) => false
    case Connected(meshOk) =>
      meshOk && s.dialling.Some? && Taken(s.peers, s.dialling.value.0, s.dialling.value.1)
    case Accept(name, endpoint, meshOk) => meshOk && Taken(s.peers, name, endpoint)
    case Rename(_, _) => false
    case Disconnect(_) => false
  }

  predicate NeverDuplicates(steps: seq<DialStep>) {
    steps == [] ||
    (NeverDuplicates(steps[..|steps| - 1]) && !Duplicates(DialRun(steps[..|steps| - 1]), steps[|steps| - 1]))
  }

  ghost predicate UniqueEndpoints(s: PeerState) {
    forall a, b | a in s.endpoints.kv && b in s.endpoints.kv && s.endpoints.kv[a] == s.endpoints.kv[b] :: a == b
  }

  lemma HalfInverseIsUnique(s: PeerState)
    requires HalfInverse(s.endpoints)
    ensures UniqueEndpoints(s)
  {
  }

  lemma AdmitSound(s: DialState, name: string, endpoint: string, meshOk: bool)
    requires DialSound(s) && (meshOk ==> !Taken(s.peers, name, endpoint))
    ensures DialSound(Admit(s, name, endpoint, meshOk))
  {
    if meshOk {
      PutKeepsHalfInverse(s.peers.peers, name, s.nextMesh);
      PutKeepsHalfInverse(s.peers.endpoints, name, endpoint);
    }
  }

  lemma AdmitDuplicates(s: DialState, name: string, endpoint: string)
    requires Taken(s.peers, name, endpoint)
    ensures !UniqueEndpoints(Admit(s, name, endpoint, true).peers)
  {
    var after := Admit(s, name, endpoint, true).peers.endpoints.kv;
    var other :| other in s.peers.endpoints.kv && other != name && s.peers.endpoints.kv[other] == endpoint;
    assert after[other] == after[name];
  }

  lemma DialStepSound(s: DialState, step: DialStep)
    requires DialSound(s) && !Duplicates(s, step)
    ensures DialSound(NextDial(s, step))
  {
    match step
    case CheckEndpoint(_, _) =>
    case Connected(meshOk) =>
      if s.dialling.Some? {
        AdmitSound(s.(dialling := None), s.dialling.value.0, s.dialling.value.1, meshOk);
      }
    case Accept(name, endpoint, meshOk) => AdmitSound(s, name, endpoint, meshOk);
    case Rename(from, to) => RenameSound(s, from, to);
    case Disconnect(name) =>
      DropKeyKeepsInverses(s.peers.peers, name);
      DropKeyKeepsInverses(s.peers.endpoints, name);
  }

  lemma {:induction false} DialRunSound(steps: seq<DialStep>)
    requires NeverDuplicates(steps)
    ensures DialSound(DialRun(steps))
  {
    if steps != [] {
      DialRunSound(steps[..|steps| - 1]);
      DialStepSound(DialRun(steps[..|steps| - 1]), steps[|steps| - 1]);
    }
  }

  /** Exactly when a step keeps endpoints unique: what it admits has an endpoint that no other live peer has. */
  lemma StepKeepsEndpointsUniqueIff(steps: seq<DialStep>, step: DialStep)
    requires NeverDuplicates(steps)
    ensures UniqueEndpoints(NextDial(DialRun(steps), step).peers) <==> !Duplicates(DialRun(steps), step)
  {
    var s := DialRun(steps);
    DialRunSound(steps);
    if !Duplicates(s, step) {
      DialStepSound(s, step);
      HalfInverseIsUnique(NextDial(s, step).peers);
    } else if step.Connected? {
      AdmitDuplicates(s.(dialling := None), s.dialling.value.0, s.dialling.value.1);
    } else {
      AdmitDuplicates(s, step.name, step.endpoint);
    }
  }

  /** Every state of the run has unique endpoints. */
  ghost predicate UniqueThroughout(steps: seq<DialStep>) {
    UniqueEndpoints(DialRun(steps).peers) && (steps == [] || UniqueThroughout(steps[..|steps| - 1]))
  }

  /** Exactly which runs keep endpoints unique, with connections accepted at any moment. */
  lemma {:induction false} RunKeepsEndpointsUniqueIff(steps: seq<DialStep>)
    ensures UniqueThroughout(steps) <==> NeverDuplicates(steps)
  {
    if steps != [] {
      var before := steps[..|steps| - 1];
      RunKeepsEndpointsUniqueIff(before);
      if NeverDuplicates(before) {
        StepKeepsEndpointsUniqueIff(before, steps[|steps| - 1]);
      }
    }
  }

  /** The check need not be atomic with the add: without accepted connections nothing is ever admitted twice. */
  lemma {:induction false} DialsNeverDuplicate(steps: seq<DialStep>)
    requires forall step <- steps :: !step.Accept?
    ensures NeverDuplicates(steps)
    ensures
      var s := DialRun(steps);
      s.dialling.Some? ==> s.dialling.value.1 !in s.peers.endpoints.vk
  {
    if steps != [] {
      var before, step := steps[..|steps| - 1], steps[|steps| - 1];
      assert step in steps;
      DialsNeverDuplicate(before);
      DialRunSound(before);
      var s := DialRun(before);
      if step.Rename? {
        DropKeyKeepsInverses(s.peers.peers, step.from);
        DropKeyKeepsInverses(s.peers.endpoints, step.from);
      } else if step.Disconnect? {
        DropKeyKeepsInverses(s.peers.endpoints, step.name);
      }
    }
  }

  /** An accepted connection can slip in between: it passes no check, and the connector has made its own already. */
  lemma AcceptedBetweenCheckAndDial(a: string, b: string, endpoint: string)
    requires a != b
    ensures
      var steps := [CheckEndpoint(a, endpoint), Accept(b, endpoint, true)];
      NeverDuplicates(steps) && Duplicates(DialRun(steps), Connected(true))
  {
    var check, accept := CheckEndpoint(a, endpoint), Accept(b, endpoint, true);
    var one, two := [check], [check, accept];
    assert one[..0] == [] && two[..1] == one;
    assert DialRun(one) == DialInit.(dialling := Some((a, endpoint)));
    assert NeverDuplicates([]) && NeverDuplicates(one) && NeverDuplicates(two);
    assert DialRun(two) == Admit(DialRun(one), b, endpoint, true);
    assert b in DialRun(two).peers.endpoints.kv;
  }

  // -- Looking an endpoint up --

  /** A peer is found at an endpoint exactly if it is live and has it. */
  ghost predicate FindsPeers(s: PeerState) {
    forall endpoint: string, name: string ::
      PeerByEndpoint(s, endpoint) == Some(name) <==> Get(s.endpoints.kv, name) == Some(endpoint)
  }

  lemma FindsPeersIffInverse(s: PeerState)
    ensures FindsPeers(s) <==> Inverse(s.endpoints)
  {
    var b := s.endpoints;
    if FindsPeers(s) {
      forall k | k in b.kv
        ensures b.kv[k] in b.vk && b.vk[b.kv[k]] == k
      {
        assert PeerByEndpoint(s, b.kv[k]) == Some(k);
      }
      forall v | v in b.vk
        ensures b.vk[v] in b.kv && b.kv[b.vk[v]] == v
      {
        assert PeerByEndpoint(s, v) == Some(b.vk[v]);
      }
    }
  }

  /** The step gives a live peer's name to another connection, and so leaves an endpoint behind that nobody has. */
  predicate Strands(s: DialState, step: DialStep) {
    var endpoints := s.peers.endpoints.kv;
    match step
    case CheckEndpoint(_, _) => false
    case Connected(meshOk) =>
      meshOk && s.dialling.Some? && Get(endpoints, s.dialling.value.0) !in {None, Some(s.dialling.value.1)}
    case Accept(name, endpoint, meshOk) => meshOk && Get(endpoints, name) !in {None, Some(endpoint)}
    case Rename(from, to) => from in s.peers.peers.kv && to != from && to in endpoints
    case Disconnect(_) => false
  }

  predicate NeverDisturbs(steps: seq<DialStep>) {
    steps == [] ||
    var before, step := steps[..|steps| - 1], steps[|steps| - 1];
    NeverDisturbs(before) && !Duplicates(DialRun(before), step) && !Strands(DialRun(before), step)
  }

  lemma AdmitKeepsInverseIff(s: DialState, name: string, endpoint: string)
    requires Inverse(s.peers.endpoints)
    ensures
      Inverse(Admit(s, name, endpoint, true).peers.endpoints)
      <==> !Taken(s.peers, name, endpoint) && Get(s.peers.endpoints.kv, name) in {None, Some(endpoint)}
  {
    PutKeepsInverse(s.peers.endpoints, name, endpoint);
    var b := s.peers.endpoints;
    if endpoint in b.vk && b.vk[endpoint] != name {
      assert b.vk[endpoint] in b.kv && b.kv[b.vk[endpoint]] == endpoint;
    }
  }

  lemma StepKeepsInverseEndpointsIff(s: DialState, step: DialStep)
    requires DialSound(s) && Inverse(s.peers.endpoints)
    ensures Inverse(NextDial(s, step).peers.endpoints) <==> !Duplicates(s, step) && !Strands(s, step)
  {
    match step
    case CheckEndpoint(_, _) =>
    case Connected(meshOk) =>
      if s.dialling.Some? && meshOk {
        AdmitKeepsInverseIff(s.(dialling := None), s.dialling.value.0, s.dialling.value.1);
      }
    case Accept(name, endpoint, meshOk) =>
      if meshOk {
        AdmitKeepsInverseIff(s, name, endpoint);
      }
    case Rename(from, to) =>
      DropKeyKeepsInverses(s.peers.peers, from);
      DropKeyKeepsInverses(s.peers.endpoints, from);
      if from in s.peers.peers.kv {
        PutKeepsInverse(DropKey(s.peers.endpoints, from).0, to, s.peers.endpoints.kv[from]);
      }
    case Disconnect(name) => DropKeyKeepsInverses(s.peers.endpoints, name);
  }

  lemma {:induction false} UndisturbedIsInverse(steps: seq<DialStep>)
    requires NeverDisturbs(steps)
    ensures NeverDuplicates(steps) && DialSound(DialRun(steps)) && Inverse(DialRun(steps).peers.endpoints)
  {
    if steps != [] {
      var before, step := steps[..|steps| - 1], steps[|steps| - 1];
      UndisturbedIsInverse(before);
      DialStepSound(DialRun(before), step);
      StepKeepsInverseEndpointsIff(DialRun(before), step);
    }
  }

  ghost predicate FindsPeersThroughout(steps: seq<DialStep>) {
    FindsPeers(DialRun(steps).peers) && (steps == [] || FindsPeersThroughout(steps[..|steps| - 1]))
  }

  /** Exactly which runs find peers by their endpoints throughout: those that never share one or leave one behind. */
  lemma {:induction false} RunFindsPeersIff(steps: seq<DialStep>)
    ensures FindsPeersThroughout(steps) <==> NeverDisturbs(steps)
  {
    FindsPeersIffInverse(DialRun(steps).peers);
    if steps != [] {
      var before, step := steps[..|steps| - 1], steps[|steps| - 1];
      RunFindsPeersIff(before);
      if NeverDisturbs(before) {
        UndisturbedIsInverse(before);
        StepKeepsInverseEndpointsIff(DialRun(before), step);
      }
    }
  }

  /** In such a run an endpoint is dialled exactly if no live peer has it. */
  lemma UnknownEndpointIsDialledIff(steps: seq<DialStep>, name: string, endpoint: string)
    requires NeverDisturbs(steps) && DialRun(steps).dialling.None?
    ensures
      var s := DialRun(steps);
      NextDial(s, CheckEndpoint(name, endpoint)).dialling == Some((name, endpoint))
      <==> forall peer <- s.peers.peers.kv :: Get(s.peers.endpoints.kv, peer) != Some(endpoint)
  {
    UndisturbedIsInverse(steps);
    var b := DialRun(steps).peers.endpoints;
    if endpoint in b.vk {
      assert b.vk[endpoint] in b.kv && b.kv[b.vk[endpoint]] == endpoint;
    }
  }

  /** Once a peer is disconnected, its endpoint can be dialled again. */
  lemma DisconnectedEndpointIsDialledAgain(steps: seq<DialStep>, peer: string, name: string)
    requires NeverDisturbs(steps) && DialRun(steps).dialling.None? && peer in DialRun(steps).peers.endpoints.kv
    ensures
      var s, endpoint := NextDial(DialRun(steps), Disconnect(peer)), DialRun(steps).peers.endpoints.kv[peer];
      NextDial(s, CheckEndpoint(name, endpoint)).dialling == Some((name, endpoint))
  {
    UndisturbedIsInverse(steps);
    DropKeyKeepsInverses(DialRun(steps).peers.endpoints, peer);
  }

  /** Other runs exist: a node that is connected to twice, at two endpoints, makes the first one unreachable. */
  lemma StrandedEndpointIsNotDialled(a: string, first: string, second: string)
    requires first != second
    ensures
      var s := DialRun([CheckEndpoint(a, first), Connected(true), CheckEndpoint(a, second), Connected(true)]);
      && (forall peer <- s.peers.peers.kv :: Get(s.peers.endpoints.kv, peer) != Some(first))
      && s.dialling.None? && NextDial(s, CheckEndpoint(a, first)) == s
  {
    var c1, c2, ok := CheckEndpoint(a, first), CheckEndpoint(a, second), Connected(true);
    assert [c1, ok, c2, ok][..3] == [c1, ok, c2] && [c1, ok, c2][..2] == [c1, ok] && [c1, ok][..1] == [c1];
    assert [c1][..0] == [];
    assert DialRun([c1]) == DialInit.(dialling := Some((a, first)));
    assert DialRun([c1, ok]) == Admit(DialInit, a, first, true);
    assert DialRun([c1, ok, c2]) == Admit(DialInit, a, first, true).(dialling := Some((a, second)));
    assert DialRun([c1, ok, c2, ok]) == Admit(Admit(DialInit, a, first, true), a, second, true);
  }

  /** A live peer's endpoint is the one its connection was opened to, through every rename and collision. */
  lemma EndpointsFollowConnections(steps: seq<DialStep>, name: string)
    requires NeverDuplicates(steps) && name in DialRun(steps).peers.peers.kv
    ensures
      var s := DialRun(steps);
      name in s.peers.endpoints.kv && Get(s.dialled, s.peers.peers.kv[name]) == Some(s.peers.endpoints.kv[name])
  {
    DialRunSound(steps);
  }

  /** Whatever name is asked for, an alias included, the endpoint is the one that the connection found dialled. */
  lemma EndpointLookupFollowsConnection(steps: seq<DialStep>, name: string)
    requires NeverDuplicates(steps)
    ensures
      var s := DialRun(steps);
      EndpointOf(s.peers, name) == match MeshId(s.peers, name) case Some(mesh) => Get(s.dialled, mesh) case None => None
  {
    DialRunSound(steps);
  }

  /** No two live peers share an endpoint, even though names may collide and the check is not atomic with the add. */
  lemma EndpointsStayUnique(steps: seq<DialStep>, a: string, b: string)
    requires forall step <- steps :: !step.Accept?
    requires a in DialRun(steps).peers.peers.kv && b in DialRun(steps).peers.peers.kv
    ensures
      var endpoints := DialRun(steps).peers.endpoints.kv;
      a in endpoints && b in endpoints && (endpoints[a] == endpoints[b] ==> a == b)
  {
    DialsNeverDuplicate(steps);
    DialRunSound(steps);
  }

  /** Connecting to the endpoint of a live peer, under any name and from any state of any run, opens nothing. */
  lemma ReconnectingIsIdle(steps: seq<DialStep>, peer: string, name: string)
    requires NeverDuplicates(steps) && peer in DialRun(steps).peers.peers.kv
    ensures
      var s := DialRun(steps);
      peer in s.peers.endpoints.kv && NextDial(s, CheckEndpoint(name, s.peers.endpoints.kv[peer])) == s
  {
    DialRunSound(steps);
  }
}
