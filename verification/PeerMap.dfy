/**
Peer names. A peer is known by its current name and, through a one-hop redirect table, by every name it was
ever renamed from. The reference is the log of what happened: `CurrentName` follows a name through every
rename, and `Owner` says which connection a current name stands for. Nothing in the reference knows of tables.
 */
module PeerMaps {
  import opened Prelude
  import opened BiHashMaps

  datatype PeerState = PeerState(
    peers: BiMap<string, nat>, redirects: map<string, string>, endpoints: BiMap<string, string>)

  const Empty := PeerState(BiMap(map[], map[]), map[], BiMap(map[], map[]))

  function InsertPeer(s: PeerState, name: string, mesh: nat, endpoint: string): PeerState {
    s.(peers := Put(s.peers, name, mesh), endpoints := Put(s.endpoints, name, endpoint))
  }

  function RemovePeer(s: PeerState, name: string): (PeerState, Option<nat>) {
    var (peers, removed) := DropKey(s.peers, name);
    var redirects := map a | a in s.redirects && s.redirects[a] != name :: s.redirects[a];
    (PeerState(peers, redirects, DropKey(s.endpoints, name).0),
     match removed case Some((_, mesh)) => Some(mesh) case None => None)
  }

  function Retarget(redirects: map<string, string>, from: string, to: string): map<string, string> {
    map a | a in redirects :: if redirects[a] == from then to else redirects[a]
  }

  /** The flag is false for the update error. */
  function RenamePeer(s: PeerState, from: string, to: string): (PeerState, bool) {
    match DropKey(s.peers, from)
    case (peers, Some((_, mesh))) =>
      var endpoints :=
        match DropKey(s.endpoints, from)
        case (rest, Some((_, endpoint))) => Put(rest, to, endpoint)
        case (rest, None) => rest;
      (PeerState(Put(peers, to, mesh), Retarget(s.redirects, from, to)[from := to], endpoints), true)
    case (peers, None) => (s.(peers := peers), false)
  }

  function OrElse<T>(a: Option<T>, b: Option<T>): Option<T> {
    if a.Some? then a else b
  }

  function ThroughRedirect<T>(s: PeerState, table: map<string, T>, name: string): Option<T> {
    OrElse(if name in s.redirects then Get(table, s.redirects[name]) else None, Get(table, name))
  }

  function MeshId(s: PeerState, name: string): Option<nat> {
    ThroughRedirect(s, s.peers.kv, name)
  }

  function PeerId(s: PeerState, mesh: nat): Option<string> {
    Get(s.peers.vk, mesh)
  }

  function EndpointOf(s: PeerState, name: string): Option<string> {
    ThroughRedirect(s, s.endpoints.kv, name)
  }

  function PeerByEndpoint(s: PeerState, endpoint: string): Option<string> {
    Get(s.endpoints.vk, endpoint)
  }

  // -- Runs --

  datatype Op =
    | Joined(name: string, mesh: nat, endpoint: string)
    | Renamed(from: string, to: string)
    | Removed(name: string)

  function Apply(s: PeerState, op: Op): PeerState {
    match op
    case Joined(name, mesh, endpoint) => InsertPeer(s, name, mesh, endpoint)
    case Renamed(from, to) => RenamePeer(s, from, to).0
    case Removed(name) => RemovePeer(s, name).0
  }

  function Replay(log: seq<Op>): PeerState {
    if log == [] then Empty else Apply(Replay(Init(log)), Last(log))
  }

  function Init(log: seq<Op>): seq<Op>
    requires log != []
  {
    log[..|log| - 1]
  }

  function Last(log: seq<Op>): Op
    requires log != []
  {
    log[|log| - 1]
  }

  // -- The reference: what the log says, without tables --

  /** The connection that `name` stands for as a current name. */
  function Owner(log: seq<Op>, name: string): Option<nat> {
    if log == [] then None
    else
      var before := Owner(Init(log), name);
      match Last(log)
      case Joined(n, mesh, _) => if name == n then Some(mesh) else before
      case Renamed(from, to) =>
        var moving := Owner(Init(log), from);
        if moving.None? then before else if name == to then moving else if name == from then None else before
      case Removed(n) => if name == n then None else before
  }

  /** Where following every rename of `name` leads. */
  function CurrentName(log: seq<Op>, name: string): Option<string> {
    if log == [] then None
    else
      var before := CurrentName(Init(log), name);
      match Last(log)
      case Joined(n, _, _) => if name == n then Some(n) else before
      case Renamed(from, to) =>
        if Owner(Init(log), from).None? then before
        else if name == to || before == Some(from) then Some(to) else before
      case Removed(n) => if before == Some(n) then None else before
  }

  function Issued(log: seq<Op>): set<nat> {
    if log == [] then {} else Issued(Init(log)) + if Last(log).Joined? then {Last(log).mesh} else {}
  }

  /** Connections never share an id, because the mesh never reissues one. */
  predicate FreshIds(log: seq<Op>) {
    log == [] || (FreshIds(Init(log)) && (Last(log).Joined? ==> Last(log).mesh !in Issued(Init(log))))
  }

  /** The step gives a peer a name that other names are still redirected away from. */
  predicate ReusesAlias(log: seq<Op>, op: Op) {
    match op
    case Joined(n, _, _) => CurrentName(log, n) !in {None, Some(n)}
    case Renamed(from, to) => Owner(log, from).Some? && CurrentName(log, to) !in {None, Some(from), Some(to)}
    case Removed(_) => false
  }

  predicate NeverReusesAlias(log: seq<Op>) {
    log == [] || (NeverReusesAlias(Init(log)) && !ReusesAlias(Init(log), Last(log)))
  }

  /** The step gives a peer the current name of another peer; an alias of another peer is not one. */
  predicate TakesLiveName(log: seq<Op>, op: Op) {
    match op
    case Joined(n, _, _) => Owner(log, n).Some?
    case Renamed(from, to) => Owner(log, from).Some? && to != from && Owner(log, to).Some?
    case Removed(_) => false
  }

  predicate NeverTakesLiveName(log: seq<Op>) {
    log == [] || (NeverTakesLiveName(Init(log)) && !TakesLiveName(Init(log), Last(log)))
  }

  // -- Invariants over every run, with any names --

  ghost predicate TargetsLive(s: PeerState) {
    forall a <- s.redirects :: s.redirects[a] in s.peers.kv
  }

  /** The live names and their connections are those of the log. */
  ghost predicate TracksOwners(s: PeerState, log: seq<Op>) {
    && HalfInverse(s.peers)
    && TargetsLive(s)
    && s.peers.vk.Keys <= Issued(log)
    && s.endpoints.kv.Keys <= s.peers.kv.Keys
    && forall name: string :: Get(s.peers.kv, name) == Owner(log, name)
  }

  lemma StepTracksOwners(s: PeerState, log: seq<Op>, op: Op)
    requires TracksOwners(s, log)
    requires op.Joined? ==> op.mesh !in Issued(log)
    ensures TracksOwners(Apply(s, op), log + [op])
  {
    var log' := log + [op];
    assert Init(log') == log && Last(log') == op;
    match op
    case Joined(name, mesh, endpoint) => PutKeepsHalfInverse(s.peers, name, mesh);
    case Renamed(from, to) =>
      DropKeyKeepsInverses(s.peers, from);
      if from in s.peers.kv {
        PutKeepsHalfInverse(DropKey(s.peers, from).0, to, s.peers.kv[from]);
      }
    case Removed(name) => DropKeyKeepsInverses(s.peers, name);
  }

  /** However names collide, every live name can be found again from its connection and every redirect leads to one. */
  lemma {:induction false} EveryRunTracksOwners(log: seq<Op>)
    requires FreshIds(log)
    ensures TracksOwners(Replay(log), log)
  {
    if log != [] {
      EveryRunTracksOwners(Init(log));
      StepTracksOwners(Replay(Init(log)), Init(log), Last(log));
      assert Init(log) + [Last(log)] == log;
    }
  }

  // -- Looking a name up --

  /** The peer that the tables say `name` means. */
  function Meaning(s: PeerState, name: string): Option<string> {
    if name in s.redirects && s.redirects[name] in s.peers.kv then Some(s.redirects[name])
    else if name in s.peers.kv then Some(name)
    else None
  }

  /** The connection that the log says `name` means. */
  function Lookup(log: seq<Op>, name: string): Option<nat> {
    match CurrentName(log, name)
    case Some(current) => Owner(log, current)
    case None => None
  }

  lemma {:induction false} LiveNamesAreCurrent(log: seq<Op>, name: string)
    ensures Owner(log, name).Some? ==> CurrentName(log, name) == Some(name)
    ensures CurrentName(log, name).Some? ==> Owner(log, CurrentName(log, name).value).Some?
  {
    if log != [] {
      LiveNamesAreCurrent(Init(log), name);
    }
  }

  ghost predicate Agrees(s: PeerState, log: seq<Op>) {
    TracksOwners(s, log) && forall name: string :: Meaning(s, name) == CurrentName(log, name)
  }

  /** Live names mean themselves: a name is never both current and redirected elsewhere. */
  ghost predicate SelfMeaning(s: PeerState, name: string) {
    name in s.peers.kv ==> Meaning(s, name) == Some(name)
  }

  lemma MeaningAfterInsert(s: PeerState, n: string, mesh: nat, endpoint: string, name: string)
    requires TargetsLive(s) && Meaning(s, n) in {None, Some(n)}
    ensures Meaning(InsertPeer(s, n, mesh, endpoint), name) == if name == n then Some(n) else Meaning(s, name)
  {
  }

  lemma MeaningAfterRename(s: PeerState, from: string, to: string, name: string)
    requires HalfInverse(s.peers) && TargetsLive(s) && from in s.peers.kv
    requires SelfMeaning(s, from) && Meaning(s, to) in {None, Some(from), Some(to)}
    ensures Meaning(RenamePeer(s, from, to).0, name)
            == if name == to || Meaning(s, name) == Some(from) then Some(to) else Meaning(s, name)
  {
    DropKeyKeepsInverses(s.peers, from);
  }

  lemma MeaningAfterRemove(s: PeerState, n: string, name: string)
    requires HalfInverse(s.peers) && TargetsLive(s) && SelfMeaning(s, name)
    ensures Meaning(RemovePeer(s, n).0, name) == if Meaning(s, name) == Some(n) then None else Meaning(s, name)
  {
    DropKeyKeepsInverses(s.peers, n);
  }

  lemma StepAgrees(s: PeerState, log: seq<Op>, op: Op, name: string)
    requires Agrees(s, log) && !ReusesAlias(log, op)
    ensures Meaning(Apply(s, op), name) == CurrentName(log + [op], name)
  {
    var log' := log + [op];
    assert Init(log') == log && Last(log') == op;
    LiveNamesAreCurrent(log, name);
    assert Get(s.peers.kv, name) == Owner(log, name);
    match op
    case Joined(n, mesh, endpoint) => MeaningAfterInsert(s, n, mesh, endpoint, name);
    case Renamed(from, to) =>
      LiveNamesAreCurrent(log, from);
      assert Get(s.peers.kv, from) == Owner(log, from);
      if from in s.peers.kv {
        MeaningAfterRename(s, from, to, name);
      }
    case Removed(n) => MeaningAfterRemove(s, n, name);
  }

  lemma {:induction false} EveryRunAgrees(log: seq<Op>)
    requires FreshIds(log) && NeverReusesAlias(log)
    ensures Agrees(Replay(log), log)
  {
    if log != [] {
      var before := Init(log);
      EveryRunAgrees(before);
      assert before + [Last(log)] == log;
      StepTracksOwners(Replay(before), before, Last(log));
      forall name: string
        ensures Meaning(Replay(log), name) == CurrentName(log, name)
      {
        StepAgrees(Replay(before), before, Last(log), name);
      }
    }
  }

  lemma MeaningLooksUp(s: PeerState, log: seq<Op>, name: string)
    requires Agrees(s, log)
    ensures MeshId(s, name) == Lookup(log, name)
  {
    assert Meaning(s, name) == CurrentName(log, name);
    if Meaning(s, name).Some? {
      assert Get(s.peers.kv, Meaning(s, name).value) == Owner(log, Meaning(s, name).value);
    }
  }

  /** One redirect hop gives what following every rename in the log gives. */
  lemma LookupFollowsRenames(log: seq<Op>, name: string)
    requires FreshIds(log) && NeverReusesAlias(log)
    ensures MeshId(Replay(log), name) == Lookup(log, name)
  {
    EveryRunAgrees(log);
    MeaningLooksUp(Replay(log), log, name);
  }

  /** A step that gives away another peer's alias makes that very name lead to the wrong connection. */
  lemma ReusedAliasMisleads(s: PeerState, log: seq<Op>, op: Op)
    requires Agrees(s, log) && ReusesAlias(log, op)
    requires op.Joined? ==> op.mesh !in Issued(log)
    ensures
      var name := if op.Joined? then op.name else op.to;
      MeshId(Apply(s, op), name) != Lookup(log + [op], name)
  {
    var log' := log + [op];
    assert Init(log') == log && Last(log') == op;
    var name := if op.Joined? then op.name else op.to;
    StepTracksOwners(s, log, op);
    var s' := Apply(s, op);
    assert Meaning(s, name) == CurrentName(log, name);
    LiveNamesAreCurrent(log, name);
    assert Get(s.peers.kv, name) == Owner(log, name);
    var target := s.redirects[name];
    assert CurrentName(log, name) == Some(target);
    assert Get(s'.peers.kv, name) == Owner(log', name);
    if op.Joined? {
      assert s.peers.kv[target] in s.peers.vk;
    } else {
      assert Get(s.peers.kv, op.from) == Owner(log, op.from);
      DropKeyKeepsInverses(s.peers, op.from);
      assert s.peers.kv[target] != s.peers.kv[op.from];
    }
  }

  /** Exactly when a step keeps every lookup right: it must not hand out a name that is another peer's alias. */
  lemma LookupsStayRightIff(log: seq<Op>, op: Op)
    requires FreshIds(log + [op]) && NeverReusesAlias(log)
    ensures (forall name: string :: MeshId(Replay(log + [op]), name) == Lookup(log + [op], name))
            <==> !ReusesAlias(log, op)
  {
    var log' := log + [op];
    assert Init(log') == log && Last(log') == op;
    EveryRunAgrees(log);
    if ReusesAlias(log, op) {
      ReusedAliasMisleads(Replay(log), log, op);
    } else {
      forall name: string
        ensures MeshId(Replay(log'), name) == Lookup(log', name)
      {
        LookupFollowsRenames(log', name);
      }
    }
  }

  /** Every state of the run looks every name up rightly. */
  ghost predicate LooksUpThroughout(log: seq<Op>) {
    && (forall name: string :: MeshId(Replay(log), name) == Lookup(log, name))
    && (log == [] || LooksUpThroughout(Init(log)))
  }

  /** Exactly which runs do: those that never hand out a name that is another peer's alias. */
  lemma {:induction false} RunLooksUpIff(log: seq<Op>)
    requires FreshIds(log)
    ensures LooksUpThroughout(log) <==> NeverReusesAlias(log)
  {
    if log != [] {
      RunLooksUpIff(Init(log));
      assert Init(log) + [Last(log)] == log;
      if NeverReusesAlias(Init(log)) {
        LookupsStayRightIff(Init(log), Last(log));
      }
    }
  }

  /** Such a step exists: a peer that joins under another peer's former name is shadowed by it. */
  lemma JoiningUnderAnAliasMisleads(a: string, b: string, x: string, y: string)
    requires a != b
    ensures
      var log := [Joined(a, 0, x), Renamed(a, b), Joined(a, 1, y)];
      && FreshIds(log) && NeverReusesAlias(Init(log)) && ReusesAlias(Init(log), Last(log))
      && MeshId(Replay(log), a) == Some(0) && Lookup(log, a) == Some(1)
  {
    var one, two := [Joined(a, 0, x)], [Joined(a, 0, x), Renamed(a, b)];
    var log := [Joined(a, 0, x), Renamed(a, b), Joined(a, 1, y)];
    assert Init(log) == two && Init(two) == one && Init(one) == [];
    assert Owner([], a) == None && CurrentName([], a) == CurrentName([], b) == None;
    assert Owner(one, a) == Some(0) && CurrentName(one, a) == Some(a) && CurrentName(one, b) == None;
    assert FreshIds(two) && Issued(two) == Issued(one) == {0};
    assert NeverReusesAlias(two) && CurrentName(two, a) == Some(b);
    assert Replay(one) == InsertPeer(Empty, a, 0, x);
    assert Replay(two) == RenamePeer(Replay(one), a, b).0;
    assert b in Replay(log).peers.kv && a in Replay(log).redirects;
  }

  /** Removing a current name removes it and all its aliases; removing any other name changes no lookup. */
  lemma RemovalForgetsExactlyThePeer(log: seq<Op>, removed: string, name: string)
    requires FreshIds(log) && NeverReusesAlias(log)
    ensures
      MeshId(RemovePeer(Replay(log), removed).0, name)
      == if CurrentName(log, name) == Some(removed) then None else MeshId(Replay(log), name)
  {
    var op := Removed(removed);
    var log' := log + [op];
    assert Init(log') == log && Last(log') == op;
    LookupFollowsRenames(log, name);
    LookupFollowsRenames(log', name);
  }

  /** A failed send through an alias removes by the alias: the tables change exactly if that name is current. */
  lemma RemovingAnAliasChangesNothing(log: seq<Op>, name: string)
    requires FreshIds(log)
    ensures RemovePeer(Replay(log), name) == (Replay(log), None) <==> Owner(log, name).None?
  {
    EveryRunTracksOwners(log);
    var s := Replay(log);
    assert Get(s.peers.kv, name) == Owner(log, name);
    DropKeyKeepsInverses(s.peers, name);
    if name !in s.peers.kv {
      assert (map a | a in s.redirects && s.redirects[a] != name :: s.redirects[a]) == s.redirects;
    }
  }

  // -- Attributing a connection to a name --

  /** The name that the log gives to connection `mesh`. */
  function NameOf(log: seq<Op>, mesh: nat): Option<string> {
    if log == [] then None
    else
      var before := NameOf(Init(log), mesh);
      match Last(log)
      case Joined(n, m, _) => if m == mesh then Some(n) else before
      case Renamed(from, to) => if before == Some(from) then Some(to) else before
      case Removed(n) => if before == Some(n) then None else before
  }

  /** Some connection still carries `name` although it stands for another one. */
  predicate Shared(log: seq<Op>, name: string) {
    exists m <- Issued(log) :: NameOf(log, m) == Some(name) && Owner(log, name) != Some(m)
  }

  /** The step renames or removes a name that a second connection carries, and so reaches only one of the two. */
  predicate Splits(log: seq<Op>, op: Op) {
    match op
    case Joined(_, _, _) => false
    case Renamed(from, to) => from != to && Owner(log, from).Some? && Shared(log, from)
    case Removed(n) => Shared(log, n)
  }

  predicate NeverSplits(log: seq<Op>) {
    log == [] || (NeverSplits(Init(log)) && !Splits(Init(log), Last(log)))
  }

  /** Every connection is attributed to the name the log gives it. */
  ghost predicate Attributes(s: PeerState, log: seq<Op>) {
    forall mesh: nat :: PeerId(s, mesh) == NameOf(log, mesh)
  }

  /** Every connection that has a name has one that is current. */
  ghost predicate NamesLive(s: PeerState) {
    forall mesh <- s.peers.vk :: s.peers.vk[mesh] in s.peers.kv
  }

  lemma {:induction false} NamedWasIssued(log: seq<Op>, mesh: nat)
    ensures NameOf(log, mesh).Some? ==> mesh in Issued(log)
  {
    if log != [] {
      NamedWasIssued(Init(log), mesh);
    }
  }

  /** Exactly when the reverse table survives a step: the name taken must not be another live peer's. */
  lemma StepKeepsInverseIff(s: PeerState, op: Op)
    requires Inverse(s.peers)
    requires op.Joined? ==> op.mesh !in s.peers.vk
    ensures Inverse(Apply(s, op).peers) <==>
              match op
              case Joined(n, _, _) => n !in s.peers.kv
              case Renamed(from, to) => from in s.peers.kv ==> to == from || to !in s.peers.kv
              case Removed(_) => true
  {
    match op
    case Joined(n, mesh, _) => PutKeepsInverse(s.peers, n, mesh);
    case Renamed(from, to) =>
      DropKeyKeepsInverses(s.peers, from);
      if from in s.peers.kv {
        PutKeepsInverse(DropKey(s.peers, from).0, to, s.peers.kv[from]);
      }
    case Removed(n) => DropKeyKeepsInverses(s.peers, n);
  }

  lemma JoinAttributes(s: PeerState, log: seq<Op>, op: Op)
    requires op.Joined? && NamesLive(s) && Attributes(s, log)
    ensures NamesLive(Apply(s, op)) && Attributes(Apply(s, op), log + [op])
  {
    assert Init(log + [op]) == log && Last(log + [op]) == op;
    forall mesh: nat
      ensures PeerId(Apply(s, op), mesh) == NameOf(log + [op], mesh)
    {
      assert PeerId(s, mesh) == NameOf(log, mesh);
    }
  }

  /** The connection that the tables find for a name is the only one that carries it, unless it is shared. */
  lemma OnlyOwnerCarries(s: PeerState, log: seq<Op>, name: string, mesh: nat)
    requires TracksOwners(s, log) && Attributes(s, log) && !Shared(log, name) && PeerId(s, mesh) == Some(name)
    ensures Get(s.peers.kv, name) == Some(mesh)
  {
    assert NameOf(log, mesh) == Some(name);
    NamedWasIssued(log, mesh);
    assert Get(s.peers.kv, name) == Owner(log, name);
  }

  lemma RenameAttributes(s: PeerState, log: seq<Op>, op: Op)
    requires op.Renamed? && TracksOwners(s, log) && NamesLive(s) && Attributes(s, log) && !Splits(log, op)
    ensures NamesLive(Apply(s, op)) && Attributes(Apply(s, op), log + [op])
  {
    assert Init(log + [op]) == log && Last(log + [op]) == op;
    var s', from := Apply(s, op), op.from;
    assert Get(s.peers.kv, from) == Owner(log, from);
    DropKeyKeepsInverses(s.peers, from);
    forall mesh: nat
      ensures PeerId(s', mesh) == NameOf(log + [op], mesh)
      ensures mesh in s'.peers.vk ==> s'.peers.vk[mesh] in s'.peers.kv
    {
      assert PeerId(s, mesh) == NameOf(log, mesh);
      if PeerId(s, mesh) == Some(from) && from != op.to {
        OnlyOwnerCarries(s, log, from, mesh);
      }
    }
  }

  lemma RemoveAttributes(s: PeerState, log: seq<Op>, op: Op)
    requires op.Removed? && TracksOwners(s, log) && NamesLive(s) && Attributes(s, log) && !Splits(log, op)
    ensures NamesLive(Apply(s, op)) && Attributes(Apply(s, op), log + [op])
  {
    assert Init(log + [op]) == log && Last(log + [op]) == op;
    var s' := Apply(s, op);
    DropKeyKeepsInverses(s.peers, op.name);
    forall mesh: nat
      ensures PeerId(s', mesh) == NameOf(log + [op], mesh)
      ensures mesh in s'.peers.vk ==> s'.peers.vk[mesh] in s'.peers.kv
    {
      assert PeerId(s, mesh) == NameOf(log, mesh);
      if PeerId(s, mesh) == Some(op.name) {
        OnlyOwnerCarries(s, log, op.name, mesh);
      }
    }
  }

  /** The second connection keeps the old name in the table, and not in the log. */
  lemma SplitMisattributes(s: PeerState, log: seq<Op>, op: Op)
    requires TracksOwners(s, log) && Attributes(s, log) && Splits(log, op)
    ensures !Attributes(Apply(s, op), log + [op])
  {
    assert Init(log + [op]) == log && Last(log + [op]) == op;
    var name := if op.Renamed? then op.from else op.name;
    var mesh :| mesh in Issued(log) && NameOf(log, mesh) == Some(name) && Owner(log, name) != Some(mesh);
    assert PeerId(s, mesh) == Some(name) && Get(s.peers.kv, name) == Owner(log, name);
    DropKeyKeepsInverses(s.peers, name);
    assert PeerId(Apply(s, op), mesh) == Some(name) != NameOf(log + [op], mesh);
  }

  lemma StepAttributes(s: PeerState, log: seq<Op>, op: Op)
    requires TracksOwners(s, log) && NamesLive(s) && Attributes(s, log) && !Splits(log, op)
    ensures NamesLive(Apply(s, op)) && Attributes(Apply(s, op), log + [op])
  {
    match op
    case Joined(_, _, _) => JoinAttributes(s, log, op);
    case Renamed(_, _) => RenameAttributes(s, log, op);
    case Removed(_) => RemoveAttributes(s, log, op);
  }

  /** While no shared name is renamed or removed, each connection is attributed to the name the log gives it. */
  lemma {:induction false} EveryRunAttributes(log: seq<Op>)
    requires FreshIds(log) && NeverSplits(log)
    ensures NamesLive(Replay(log)) && Attributes(Replay(log), log)
  {
    if log != [] {
      EveryRunAttributes(Init(log));
      EveryRunTracksOwners(Init(log));
      StepAttributes(Replay(Init(log)), Init(log), Last(log));
      assert Init(log) + [Last(log)] == log;
    }
  }

  /** Exactly when a step keeps every attribution right: it must not rename or remove a shared name. */
  lemma AttributionStaysRightIff(log: seq<Op>, op: Op)
    requires FreshIds(log + [op]) && NeverSplits(log)
    ensures Attributes(Replay(log + [op]), log + [op]) <==> !Splits(log, op)
  {
    assert Init(log + [op]) == log && Last(log + [op]) == op;
    assert Replay(log + [op]) == Apply(Replay(log), op);
    EveryRunTracksOwners(log);
    EveryRunAttributes(log);
    if Splits(log, op) {
      SplitMisattributes(Replay(log), log, op);
    } else {
      StepAttributes(Replay(log), log, op);
    }
  }

  /** Every state of the run attributes every connection rightly. */
  ghost predicate AttributesThroughout(log: seq<Op>) {
    Attributes(Replay(log), log) && (log == [] || AttributesThroughout(Init(log)))
  }

  /** Exactly which runs do: those that never rename or remove a shared name. */
  lemma {:induction false} RunAttributesIff(log: seq<Op>)
    requires FreshIds(log)
    ensures AttributesThroughout(log) <==> NeverSplits(log)
  {
    if log != [] {
      RunAttributesIff(Init(log));
      assert Init(log) + [Last(log)] == log;
      if NeverSplits(Init(log)) {
        AttributionStaysRightIff(Init(log), Last(log));
      }
    }
  }

  /** If nobody is ever given the name of another live peer, no two connections share a name. */
  lemma {:induction false} FreshNamesAreUnshared(log: seq<Op>, mesh: nat, name: string)
    requires FreshIds(log) && NeverTakesLiveName(log) && NameOf(log, mesh) == Some(name)
    ensures Owner(log, name) == Some(mesh)
  {
    var before := Init(log);
    NamedWasIssued(before, mesh);
    if NameOf(before, mesh).Some? {
      FreshNamesAreUnshared(before, mesh, NameOf(before, mesh).value);
    }
  }

  /** So such a run never splits a name; it is one way, not the only way, to be attributed rightly. */
  lemma {:induction false} FreshNamesNeverSplit(log: seq<Op>)
    requires FreshIds(log) && NeverTakesLiveName(log)
    ensures NeverSplits(log)
  {
    if log != [] {
      FreshNamesNeverSplit(Init(log));
      if Splits(Init(log), Last(log)) {
        var name := if Last(log).Renamed? then Last(log).from else Last(log).name;
        var m :| m in Issued(Init(log)) && NameOf(Init(log), m) == Some(name) && Owner(Init(log), name) != Some(m);
        FreshNamesAreUnshared(Init(log), m, name);
      }
    }
  }

  /** Sharing a name does no harm by itself, but a rename then moves only the later of the two connections. */
  lemma SharingALiveNameMisattributes(a: string, b: string, x: string, y: string)
    requires a != b
    ensures
      var log := [Joined(a, 0, x), Joined(a, 1, y), Renamed(a, b)];
      && FreshIds(log) && TakesLiveName(Init(Init(log)), Last(Init(log)))
      && NeverSplits(Init(log)) && Splits(Init(log), Last(log))
      && PeerId(Replay(log), 0) == Some(a) && NameOf(log, 0) == Some(b)
  {
    var one, two := [Joined(a, 0, x)], [Joined(a, 0, x), Joined(a, 1, y)];
    var log := [Joined(a, 0, x), Joined(a, 1, y), Renamed(a, b)];
    assert Init(log) == two && Init(two) == one && Init(one) == [];
    assert Owner(one, a) == Some(0) && NameOf(one, 0) == Some(a) && NameOf(two, 0) == Some(a);
    assert Issued(one) == Issued([]) + {0} == {0} && FreshIds(two);
    assert Last(one).Joined? && Last(two).Joined?;
    assert NeverSplits(Init(one)) && NeverSplits(one) && NeverSplits(two);
    assert 0 in Issued(two) && Owner(two, a) == Some(1);
    assert Replay(one) == InsertPeer(Empty, a, 0, x);
    assert Replay(two) == InsertPeer(Replay(one), a, 1, y);
  }

  // -- The map as it is written --

  class PeerMap {
    const peers: BiHashMap<string, nat>
    const endpoints: BiHashMap<string, string>
    var redirects: map<string, string>

    ghost predicate Valid() {
      peers as object != endpoints
    }

    ghost function State(): PeerState
      reads this, peers, endpoints
    {
      PeerState(peers.Value(), redirects, endpoints.Value())
    }

    constructor ()
      ensures Valid() && fresh(peers) && fresh(endpoints)
      ensures State() == Empty
    {
      peers := new BiHashMap();
      endpoints := new BiHashMap();
      redirects := map[];
    }

    method Insert(peerId: string, meshId: nat, endpoint: string)
      requires Valid()
      modifies peers, endpoints
      ensures State() == InsertPeer(old(State()), peerId, meshId, endpoint)
    {
      var _, _ := peers.Insert(peerId, meshId);
      var _, _ := endpoints.Insert(peerId, endpoint);
    }

    /** Through the redirect if that leads to a peer, else by the name itself. */
    method GetMeshId(peerId: string) returns (r: Option<nat>)
      ensures r == MeshId(State(), peerId)
    {
      var redirect := Get(redirects, peerId);
      r := OrElse(if redirect.Some? then Get(peers.kv, redirect.value) else None, Get(peers.kv, peerId));
    }

    method Remove(peerId: string) returns (meshId: Option<nat>)
      requires Valid()
      modifies this, peers, endpoints
      ensures (State(), meshId) == RemovePeer(old(State()), peerId)
    {
      redirects := map a | a in redirects && redirects[a] != peerId :: redirects[a];
      var _ := endpoints.RemoveByKey(peerId);
      var removed := peers.RemoveByKey(peerId);
      meshId := match removed case Some(pair) => Some(pair.1) case None => None;
    }

    /** Points every redirect to `from` at `to` instead, one table cell at a time. */
    method UpdateOldForwards(from: string, to: string)
      modifies `redirects
      ensures redirects == Retarget(old(redirects), from, to)
    {
      ghost var before := redirects;
      var todo := redirects.Keys;
      while todo != {}
        invariant todo <= redirects.Keys == before.Keys
        invariant forall a <- before :: redirects[a] == if a !in todo && before[a] == from then to else before[a]
        decreases |todo|
      {
        var a :| a in todo;
        if redirects[a] == from {
          redirects := redirects[a := to];
        }
        todo := todo - {a};
      }
    }

    method Update(oldPeerId: string, newPeerId: string) returns (ok: bool)
      requires Valid()
      modifies this, peers, endpoints
      ensures (State(), ok) == RenamePeer(old(State()), oldPeerId, newPeerId)
    {
      var removed := peers.RemoveByKey(oldPeerId);
      if removed.None? {
        return false;
      }
      var _, _ := peers.Insert(newPeerId, removed.value.1);
      var endpoint := endpoints.RemoveByKey(oldPeerId);
      if endpoint.Some? {
        var _, _ := endpoints.Insert(newPeerId, endpoint.value.1);
      }
      UpdateOldForwards(oldPeerId, newPeerId);
      redirects := redirects[oldPeerId := newPeerId];
      return true;
    }
  }
}
