/** Local playback sessions: connections own local nodes through a table of owners, while each
    connection remembers the node it started. */
module LocalSessions {
  import opened Wrappers

  type NodeId = string
  type ConnectionId = string

  datatype NodeType = Remote | Local

  datatype Node = Node(id: NodeId, name: string, nodeType: NodeType, deviceId: Option<string>, connected: bool)

  /** `sessions` holds the live connections, each with its local node, if it has one. */
  datatype State = State(
    nodes: seq<Node>,
    owners: map<NodeId, ConnectionId>,
    sessions: map<ConnectionId, Option<NodeId>>)

  const EMPTY := State([], map[], map[])

  // The node list.

  ghost predicate UniqueIds(nodes: seq<Node>) {
    forall i, j :: 0 <= i < j < |nodes| ==> nodes[i].id != nodes[j].id
  }

  ghost predicate HasNode(nodes: seq<Node>, id: NodeId) {
    exists n <- nodes :: n.id == id
  }

  predicate IsDevice(n: Node, device: string) {
    n.nodeType == Local && n.deviceId == Some(device)
  }

  function MatchingIds(nodes: seq<Node>, device: string): (ids: seq<NodeId>)
    ensures forall n <- nodes :: IsDevice(n, device) ==> n.id in ids
    ensures forall id <- ids :: exists n <- nodes :: n.id == id && IsDevice(n, device)
  {
    if nodes == [] then []
    else
      var last := nodes[|nodes| - 1];
      MatchingIds(nodes[..|nodes| - 1], device) + (if IsDevice(last, device) then [last.id] else [])
  }

  function Keep(nodes: seq<Node>, dropped: set<NodeId>): (kept: seq<Node>)
    ensures forall n :: n in kept <==> n in nodes && n.id !in dropped
    ensures UniqueIds(nodes) ==> UniqueIds(kept)
  {
    if nodes == [] then []
    else
      var rest := Keep(nodes[1..], dropped);
      assert nodes == [nodes[0]] + nodes[1..];
      if nodes[0].id in dropped then rest else [nodes[0]] + rest
  }

  lemma {:induction false} KeepTwice(nodes: seq<Node>, first: set<NodeId>, second: set<NodeId>)
    ensures Keep(Keep(nodes, first), second) == Keep(nodes, first + second)
  {
    if nodes != [] {
      KeepTwice(nodes[1..], first, second);
      if nodes[0].id !in first {
        assert Keep(nodes, first)[1..] == Keep(nodes[1..], first);
      }
    }
  }

  lemma {:induction false} KeepAll(nodes: seq<Node>)
    ensures Keep(nodes, {}) == nodes
  {
    if nodes != [] {
      KeepAll(nodes[1..]);
    }
  }

  function IndexOf(nodes: seq<Node>, id: NodeId): (index: Option<nat>)
    ensures index.Some? ==> index.value < |nodes| && nodes[index.value].id == id
    ensures index.Some? ==> forall k :: 0 <= k < index.value ==> nodes[k].id != id
    ensures index.None? ==> !HasNode(nodes, id)
  {
    if nodes == [] then None
    else if nodes[0].id == id then Some(0)
    else
      var rest := IndexOf(nodes[1..], id);
      if rest.Some? then Some(rest.value + 1) else None
  }

  /** The first connected node of the list, or else its first one. */
  function Canonical(nodes: seq<Node>, ids: seq<NodeId>): (id: NodeId)
    requires ids != []
    ensures id in ids
  {
    var connected := FirstConnected(nodes, ids);
    if connected.Some? then connected.value else ids[0]
  }

  function FirstConnected(nodes: seq<Node>, ids: seq<NodeId>): (id: Option<NodeId>)
    ensures id.Some? ==> id.value in ids
  {
    if ids == [] then None
    else
      var index := IndexOf(nodes, ids[0]);
      if index.Some? && nodes[index.value].connected then Some(ids[0]) else FirstConnected(nodes, ids[1..])
  }

  function Others(ids: seq<NodeId>, id: NodeId): set<NodeId> {
    (set i | i in ids) - {id}
  }

  lemma OthersAppend(ids: seq<NodeId>, last: NodeId, id: NodeId)
    ensures Others(ids + [last], id) == if last == id then Others(ids, id) else Others(ids, id) + {last}
  {
  }

  // Starting a session on the node list alone.

  function MintedId(device: Option<string>, uuid: string): NodeId {
    "local-" + (if device.Some? then device.value else uuid)
  }

  function StartedId(nodes: seq<Node>, device: Option<string>, uuid: string): NodeId {
    if device.Some? && MatchingIds(nodes, device.value) != []
    then Canonical(nodes, MatchingIds(nodes, device.value))
    else MintedId(device, uuid)
  }

  function Revive(nodes: seq<Node>, id: NodeId, name: string, device: string): seq<Node> {
    var index := IndexOf(nodes, id);
    if index.None? then nodes
    else nodes[index.value := nodes[index.value].(connected := true, name := name, deviceId := Some(device))]
  }

  function StartedNodes(nodes: seq<Node>, name: string, device: Option<string>, uuid: string): seq<Node> {
    var id := StartedId(nodes, device, uuid);
    if device.Some? && MatchingIds(nodes, device.value) != []
    then Revive(Keep(nodes, Others(MatchingIds(nodes, device.value), id)), id, name, device.value)
    else nodes + [Node(id, name, Local, device, true)]
  }

  // The owner table.

  function Claim(owners: map<NodeId, ConnectionId>, id: NodeId, connection: ConnectionId): map<NodeId, ConnectionId> {
    owners[id := connection]
  }

  function Release(owners: map<NodeId, ConnectionId>, id: NodeId, connection: ConnectionId): map<NodeId, ConnectionId> {
    if id in owners && owners[id] == connection then owners - {id} else owners
  }

  predicate Owns(s: State, id: NodeId, connection: ConnectionId) {
    id in s.owners && s.owners[id] == connection
  }

  ghost predicate DeviceTaken(s: State, device: string, connection: ConnectionId) {
    exists n <- s.nodes :: IsDevice(n, device) && n.id in s.owners && s.owners[n.id] != connection
  }

  // What each command does.

  /** The connection's previous node is let go before it claims the new one. */
  function HandOver(s: State, connection: ConnectionId, id: NodeId): map<NodeId, ConnectionId>
    requires connection in s.sessions
  {
    var previous := s.sessions[connection];
    Claim(if previous.Some? && previous.value != id then Release(s.owners, previous.value, connection) else s.owners,
      id, connection)
  }

  ghost function Start(s: State, connection: ConnectionId, name: string, device: Option<string>, uuid: string): State
    requires connection in s.sessions
  {
    if device.Some? && DeviceTaken(s, device.value, connection) then s
    else
      var id := StartedId(s.nodes, device, uuid);
      State(StartedNodes(s.nodes, name, device, uuid), HandOver(s, connection, id), s.sessions[connection := Some(id)])
  }

  function Stop(s: State, connection: ConnectionId): State
    requires connection in s.sessions
  {
    if s.sessions[connection].None? then s
    else
      var id := s.sessions[connection].value;
      var forgotten := s.sessions[connection := None];
      if !Owns(s, id, connection) then s.(sessions := forgotten)
      else
        var index := IndexOf(s.nodes, id);
        var nodes := if index.Some? && s.nodes[index.value].nodeType == Local then Keep(s.nodes, {id}) else s.nodes;
        State(nodes, Release(s.owners, id, connection), forgotten)
  }

  function Update(s: State, connection: ConnectionId): State
    requires connection in s.sessions
  {
    if s.sessions[connection].None? then s
    else
      var id := s.sessions[connection].value;
      var forgotten := s.sessions[connection := None];
      var index := IndexOf(s.nodes, id);
      if !Owns(s, id, connection) then s.(sessions := forgotten)
      else if index.None? || s.nodes[index.value].nodeType != Local
      then s.(owners := Release(s.owners, id, connection), sessions := forgotten)
      else s.(nodes := s.nodes[index.value := s.nodes[index.value].(connected := true)])
  }

  function MarkDisconnected(nodes: seq<Node>, id: NodeId): seq<Node> {
    var index := IndexOf(nodes, id);
    if index.Some? && nodes[index.value].nodeType == Local
    then nodes[index.value := nodes[index.value].(connected := false)]
    else nodes
  }

  function Drop(s: State, connection: ConnectionId): State
    requires connection in s.sessions
  {
    var gone := s.sessions - {connection};
    if s.sessions[connection].None? then s.(sessions := gone)
    else
      var id := s.sessions[connection].value;
      State(MarkDisconnected(s.nodes, id), Release(s.owners, id, connection), gone)
  }

  /** The periodic cleanup removes disconnected local nodes that are old enough. */
  function Cleanup(s: State, expired: set<NodeId>): State {
    var removed := set n | n in s.nodes && n.nodeType == Local && !n.connected && n.id in expired :: n.id;
    s.(nodes := Keep(s.nodes, removed))
  }

  /** An output node registers: known ids are marked connected, new ones appended. */
  function AddRemote(s: State, id: NodeId, name: string): State {
    var index := IndexOf(s.nodes, id);
    if index.Some? then s.(nodes := s.nodes[index.value := s.nodes[index.value].(connected := true, name := name)])
    else s.(nodes := s.nodes + [Node(id, name, Remote, None, true)])
  }

  // Runs.

  datatype Action =
    | OpenConnection(connection: ConnectionId)
    | LocalSessionStart(connection: ConnectionId, name: string, device: Option<string>, uuid: string)
    | LocalSessionUpdate(connection: ConnectionId)
    | LocalSessionStop(connection: ConnectionId)
    | DropConnection(connection: ConnectionId)
    | CleanupDisconnected(expired: set<NodeId>)
    | RegisterOutput(id: NodeId, name: string)

  ghost predicate Enabled(s: State, a: Action) {
    match a
    case OpenConnection(connection) => connection !in s.sessions
    case CleanupDisconnected(_) => true
    case RegisterOutput(_, _) => true
    case _ => a.connection in s.sessions
  }

  /** The start mints an id that another connection owns. */
  predicate Collides(s: State, connection: ConnectionId, device: Option<string>, uuid: string) {
    var id := MintedId(device, uuid);
    (device.Some? ==> MatchingIds(s.nodes, device.value) == []) && id in s.owners && s.owners[id] != connection
  }

  ghost predicate Careful(s: State, a: Action) {
    a.LocalSessionStart? && a.connection in s.sessions ==> !Collides(s, a.connection, a.device, a.uuid)
  }

  /** A start revives a node of its device, or mints an id that no node has. */
  ghost predicate Finds(nodes: seq<Node>, device: Option<string>, uuid: string) {
    (device.Some? && MatchingIds(nodes, device.value) != []) || !HasNode(nodes, MintedId(device, uuid))
  }

  ghost predicate Fresh(s: State, a: Action) {
    a.LocalSessionStart? ==> Finds(s.nodes, a.device, a.uuid)
  }

  ghost function Step(s: State, a: Action): State
    requires Enabled(s, a)
  {
    match a
    case OpenConnection(connection) => s.(sessions := s.sessions[connection := None])
    case LocalSessionStart(connection, name, device, uuid) => Start(s, connection, name, device, uuid)
    case LocalSessionUpdate(connection) => Update(s, connection)
    case LocalSessionStop(connection) => Stop(s, connection)
    case DropConnection(connection) => Drop(s, connection)
    case CleanupDisconnected(expired) => Cleanup(s, expired)
    case RegisterOutput(id, name) => AddRemote(s, id, name)
  }

  /** The two tables agree: a live connection's node is the one the owner table gives it. */
  ghost predicate Agree(s: State) {
    && (forall id <- s.owners :: s.owners[id] in s.sessions && s.sessions[s.owners[id]] == Some(id))
    && (forall c <- s.sessions :: s.sessions[c].Some? ==>
          s.sessions[c].value in s.owners && s.owners[s.sessions[c].value] == c)
  }

  ghost predicate IsLiveLocal(nodes: seq<Node>, id: NodeId) {
    exists n <- nodes :: n.id == id && n.nodeType == Local && n.connected
  }

  ghost predicate Inv(s: State) {
    && Agree(s)
    && UniqueIds(s.nodes)
    && (forall id <- s.owners :: IsLiveLocal(s.nodes, id))
  }

  lemma UpdateAtKeepsIds(nodes: seq<Node>, i: nat, n: Node)
    requires i < |nodes| && UniqueIds(nodes) && n.id == nodes[i].id
    ensures UniqueIds(nodes[i := n])
    ensures forall id ::
      IsLiveLocal(nodes, id) && (id != n.id || (n.nodeType == Local && n.connected)) ==> IsLiveLocal(nodes[i := n], id)
  {
    forall id | IsLiveLocal(nodes, id) && (id != n.id || (n.nodeType == Local && n.connected))
      ensures IsLiveLocal(nodes[i := n], id)
    {
      var k :| 0 <= k < |nodes| && nodes[k].id == id && nodes[k].nodeType == Local && nodes[k].connected;
      assert nodes[i := n][if id == n.id then i else k].id == id;
      assert nodes[i := n][if id == n.id then i else k] in nodes[i := n];
    }
  }

  lemma LiveAfterKeep(nodes: seq<Node>, dropped: set<NodeId>, id: NodeId)
    requires IsLiveLocal(nodes, id) && id !in dropped
    ensures IsLiveLocal(Keep(nodes, dropped), id)
  {
    var n :| n in nodes && n.id == id && n.nodeType == Local && n.connected;
    assert n in Keep(nodes, dropped);
  }

  /** What a start leaves: the started node live, every other live node still there unless it was a
      duplicate of the device, and ids unique exactly if the start found a node or a free id. */
  lemma StartOnNodes(nodes: seq<Node>, name: string, device: Option<string>, uuid: string)
    requires UniqueIds(nodes)
    ensures var id := StartedId(nodes, device, uuid); var started := StartedNodes(nodes, name, device, uuid);
      && (UniqueIds(started) <==> Finds(nodes, device, uuid)) && IsLiveLocal(started, id)
      && (forall other :: IsLiveLocal(nodes, other) && (device.Some? ==> other !in MatchingIds(nodes, device.value))
            ==> IsLiveLocal(started, other))
      && (device.Some? ==>
            && (forall n <- started :: IsDevice(n, device.value) ==> n.id == id)
            && (exists n <- started :: IsDevice(n, device.value) && n.id == id && n.connected && n.name == name))
  {
    hide Keep, MatchingIds, IndexOf, Canonical, MintedId;
    var id := StartedId(nodes, device, uuid);
    var started := StartedNodes(nodes, name, device, uuid);
    if device.Some? && MatchingIds(nodes, device.value) != [] {
      var ids := MatchingIds(nodes, device.value);
      var kept := Keep(nodes, Others(ids, id));
      var n :| n in nodes && n.id == id && IsDevice(n, device.value);
      assert n in kept;
      var index := IndexOf(kept, id).value;
      assert kept[index] in kept;
      assert kept[index] == n by { OneNodePerId(nodes, kept[index], n); }
      var revived := n.(connected := true, name := name);
      UpdateAtKeepsIds(kept, index, revived);
      assert started == kept[index := revived] && started[index] in started;
      forall other | IsLiveLocal(nodes, other) && other !in ids
        ensures IsLiveLocal(started, other)
      {
        LiveAfterKeep(nodes, Others(ids, id), other);
      }
    } else {
      assert started[|nodes|] in started;
      if HasNode(nodes, id) {
        var n :| n in nodes && n.id == id;
        var k :| 0 <= k < |nodes| && nodes[k] == n;
        assert started[k].id == started[|nodes|].id;
      }
      forall other | IsLiveLocal(nodes, other)
        ensures IsLiveLocal(started, other)
      {
        var n :| n in nodes && n.id == other && n.nodeType == Local && n.connected;
        assert n in started;
      }
    }
  }

  lemma OneNodePerId(nodes: seq<Node>, a: Node, b: Node)
    requires UniqueIds(nodes) && a in nodes && b in nodes && a.id == b.id
    ensures a == b
  {
  }

  /** No claim ever displaces a live owner. */
  ghost predicate OthersKeepOwnership(s: State, after: State, connection: ConnectionId) {
    forall id <- s.owners :: s.owners[id] != connection ==> id in after.owners && after.owners[id] == s.owners[id]
  }

  lemma HandOverKeepsAgreement(s: State, connection: ConnectionId, id: NodeId, nodes: seq<Node>)
    requires Agree(s) && connection in s.sessions && (id in s.owners ==> s.owners[id] == connection)
    ensures var after := State(nodes, HandOver(s, connection, id), s.sessions[connection := Some(id)]);
      && Agree(after) && OthersKeepOwnership(s, after, connection)
      && (forall other <- after.owners :: other != id ==> other in s.owners && s.owners[other] != connection)
  {
  }

  lemma StartKeepsInvExactly(s: State, connection: ConnectionId, name: string, device: Option<string>, uuid: string)
    requires Inv(s) && connection in s.sessions
    ensures Inv(Start(s, connection, name, device, uuid)) <==> Finds(s.nodes, device, uuid)
  {
    hide MatchingIds, Finds, StartedNodes, StartedId, Canonical;
    if device.Some? && DeviceTaken(s, device.value, connection) {
      TakenIsFound(s, connection, device.value, uuid);
    } else {
      StartOnNodes(s.nodes, name, device, uuid);
      if Finds(s.nodes, device, uuid) {
        StartKeepsInv(s, connection, name, device, uuid);
      }
    }
  }

  lemma TakenIsFound(s: State, connection: ConnectionId, device: string, uuid: string)
    requires DeviceTaken(s, device, connection)
    ensures Finds(s.nodes, Some(device), uuid) && MatchingIds(s.nodes, device) != []
  {
  }

  lemma StartKeepsInv(s: State, connection: ConnectionId, name: string, device: Option<string>, uuid: string)
    requires Inv(s) && connection in s.sessions && Finds(s.nodes, device, uuid)
    ensures Inv(Start(s, connection, name, device, uuid))
  {
    if !(device.Some? && DeviceTaken(s, device.value, connection)) {
      var id := StartedId(s.nodes, device, uuid);
      var after := Start(s, connection, name, device, uuid);
      StartOnNodes(s.nodes, name, device, uuid);
      FoundIsNoCollision(s, connection, device, uuid);
      StartedIdIsUnowned(s, connection, device, uuid);
      HandOverKeepsAgreement(s, connection, id, after.nodes);
      forall other | other in after.owners
        ensures IsLiveLocal(after.nodes, other)
      {
        if other != id && device.Some? {
          OthersAreNotOfTheDevice(s, connection, device.value, other);
        }
      }
    }
  }

  lemma LiveIsListed(nodes: seq<Node>, id: NodeId)
    requires IsLiveLocal(nodes, id)
    ensures HasNode(nodes, id)
  {
  }

  lemma FoundIsNoCollision(s: State, connection: ConnectionId, device: Option<string>, uuid: string)
    requires Inv(s) && Finds(s.nodes, device, uuid)
    ensures !Collides(s, connection, device, uuid)
  {
    var id := MintedId(device, uuid);
    if id in s.owners {
      LiveIsListed(s.nodes, id);
    }
  }

  lemma OthersAreNotOfTheDevice(s: State, connection: ConnectionId, device: string, id: NodeId)
    requires !DeviceTaken(s, device, connection) && id in s.owners && s.owners[id] != connection
    ensures id !in MatchingIds(s.nodes, device)
  {
  }

  lemma StartedIdIsUnowned(s: State, connection: ConnectionId, device: Option<string>, uuid: string)
    requires !Collides(s, connection, device, uuid)
    requires !(device.Some? && DeviceTaken(s, device.value, connection))
    ensures var id := StartedId(s.nodes, device, uuid); id in s.owners ==> s.owners[id] == connection
  {
  }

  /** Every step leaves agreement, unique ids and live owned nodes, except exactly a start that mints an
      id which some node already has. */
  lemma StepKeepsInv(s: State, a: Action)
    requires Inv(s) && Enabled(s, a)
    ensures Inv(Step(s, a)) <==> Fresh(s, a)
  {
    hide Inv, Finds, Start, Update, Stop, Drop, Cleanup, AddRemote;
    match a
    case OpenConnection(connection) => OpenKeepsInv(s, connection);
    case LocalSessionStart(connection, name, device, uuid) => StartKeepsInvExactly(s, connection, name, device, uuid);
    case LocalSessionUpdate(connection) => UpdateKeepsInv(s, connection);
    case LocalSessionStop(connection) => StopKeepsInv(s, connection);
    case DropConnection(connection) => DropKeepsInv(s, connection);
    case CleanupDisconnected(expired) => CleanupKeepsInv(s, expired);
    case RegisterOutput(id, name) => RegisterKeepsInv(s, id, name);
  }

  lemma OpenKeepsInv(s: State, connection: ConnectionId)
    requires Inv(s) && connection !in s.sessions
    ensures Inv(Step(s, OpenConnection(connection)))
  {
  }

  lemma UpdateKeepsInv(s: State, connection: ConnectionId)
    requires Inv(s) && connection in s.sessions
    ensures Inv(Update(s, connection))
  {
    if s.sessions[connection].Some? {
      var id := s.sessions[connection].value;
      var index := IndexOf(s.nodes, id).value;
      TheOwnedNodeIsLocal(s, id);
      UpdateAtKeepsIds(s.nodes, index, s.nodes[index].(connected := true));
    }
  }

  lemma TheOwnedNodeIsLocal(s: State, id: NodeId)
    requires Inv(s) && id in s.owners
    ensures IndexOf(s.nodes, id).Some?
    ensures var n := s.nodes[IndexOf(s.nodes, id).value]; n.nodeType == Local && n.connected
  {
    var n :| n in s.nodes && n.id == id && n.nodeType == Local && n.connected;
    OneNodePerId(s.nodes, n, s.nodes[IndexOf(s.nodes, id).value]);
  }

  lemma StopKeepsInv(s: State, connection: ConnectionId)
    requires Inv(s) && connection in s.sessions
    ensures Inv(Stop(s, connection))
  {
    if s.sessions[connection].Some? {
      var id := s.sessions[connection].value;
      TheOwnedNodeIsLocal(s, id);
      forall other | other in s.owners && other != id
        ensures IsLiveLocal(Keep(s.nodes, {id}), other)
      {
        LiveAfterKeep(s.nodes, {id}, other);
      }
    }
  }

  lemma DropKeepsInv(s: State, connection: ConnectionId)
    requires Inv(s) && connection in s.sessions
    ensures Inv(Drop(s, connection))
  {
    if s.sessions[connection].Some? {
      var id := s.sessions[connection].value;
      TheOwnedNodeIsLocal(s, id);
      var index := IndexOf(s.nodes, id).value;
      UpdateAtKeepsIds(s.nodes, index, s.nodes[index].(connected := false));
    }
  }

  lemma CleanupKeepsInv(s: State, expired: set<NodeId>)
    requires Inv(s)
    ensures Inv(Cleanup(s, expired))
  {
    var removed := set n | n in s.nodes && n.nodeType == Local && !n.connected && n.id in expired :: n.id;
    forall id | id in s.owners
      ensures IsLiveLocal(Cleanup(s, expired).nodes, id)
    {
      TheOwnedNodeIsLocal(s, id);
      assert id !in removed;
      LiveAfterKeep(s.nodes, removed, id);
    }
  }

  lemma RegisterKeepsInv(s: State, id: NodeId, name: string)
    requires Inv(s)
    ensures Inv(AddRemote(s, id, name))
  {
    var index := IndexOf(s.nodes, id);
    if index.Some? {
      var n := s.nodes[index.value].(connected := true, name := name);
      UpdateAtKeepsIds(s.nodes, index.value, n);
      if id in s.owners {
        TheOwnedNodeIsLocal(s, id);
      }
    } else {
      forall other | IsLiveLocal(s.nodes, other)
        ensures IsLiveLocal(AddRemote(s, id, name).nodes, other)
      {
        var n :| n in s.nodes && n.id == other && n.nodeType == Local && n.connected;
        assert n in AddRemote(s, id, name).nodes;
      }
    }
  }

  // Agreement alone.

  /** The owner table and what the connections remember stay in agreement exactly if no start collides. */
  lemma StepKeepsAgreementExactly(s: State, a: Action)
    requires Agree(s) && Enabled(s, a)
    ensures Agree(Step(s, a)) <==> Careful(s, a)
  {
    hide Keep, IndexOf, StartedNodes, Canonical, MintedId;
    match a {
      case LocalSessionStart(connection, name, device, uuid) =>
        StartDisplacesExactlyOnCollision(s, connection, name, device, uuid);
      case OpenConnection(_) =>
      case LocalSessionUpdate(_) =>
      case LocalSessionStop(_) =>
      case DropConnection(_) =>
      case CleanupDisconnected(_) =>
      case RegisterOutput(_, _) =>
    }
  }

  lemma StartDisplacesExactlyOnCollision(s: State, connection: ConnectionId, name: string, device: Option<string>, uuid: string)
    requires Agree(s) && connection in s.sessions
    ensures var after := Start(s, connection, name, device, uuid);
      && (Agree(after) <==> !Collides(s, connection, device, uuid))
      && (OthersKeepOwnership(s, after, connection) <==> !Collides(s, connection, device, uuid))
  {
    hide Keep, IndexOf, StartedNodes, Canonical, MintedId;
    var after := Start(s, connection, name, device, uuid);
    if device.Some? && DeviceTaken(s, device.value, connection) {
      TakenIsFound(s, connection, device.value, uuid);
    } else if Collides(s, connection, device, uuid) {
      var id := MintedId(device, uuid);
      assert after.owners[id] == connection && after.sessions[s.owners[id]] == Some(id);
    } else {
      StartedIdIsUnowned(s, connection, device, uuid);
      HandOverKeepsAgreement(s, connection, StartedId(s.nodes, device, uuid), after.nodes);
    }
  }

  /** A run in which no start collides. */
  ghost predicate Run(s: State, actions: seq<Action>)
    decreases |actions|
  {
    actions == [] || (Enabled(s, actions[0]) && Careful(s, actions[0]) && Run(Step(s, actions[0]), actions[1..]))
  }

  ghost function Execute(s: State, actions: seq<Action>): State
    requires Run(s, actions)
    decreases |actions|
  {
    if actions == [] then s else Execute(Step(s, actions[0]), actions[1..])
  }

  lemma {:induction false} RunsKeepAgreement(s: State, actions: seq<Action>)
    requires Agree(s) && Run(s, actions)
    ensures Agree(Execute(s, actions))
    decreases |actions|
  {
    hide Agree, Step, Enabled, Careful;
    if actions != [] {
      StepKeepsAgreementExactly(s, actions[0]);
      RunsKeepAgreement(Step(s, actions[0]), actions[1..]);
    }
  }

  /** In every interleaving of any number of connections in which no start collides, a connection
      remembers a node if and only if it owns it. */
  lemma OwnershipIsConsistent(actions: seq<Action>, connection: ConnectionId, id: NodeId)
    requires Run(EMPTY, actions)
    ensures var s := Execute(EMPTY, actions);
      (connection in s.sessions && s.sessions[connection] == Some(id)) <==> Owns(s, id, connection)
  {
    RunsKeepAgreement(EMPTY, actions);
  }

  /** Every start finds a node or a free id. */
  ghost predicate FreshRun(s: State, actions: seq<Action>)
    decreases |actions|
  {
    actions == [] || (Enabled(s, actions[0]) && Fresh(s, actions[0]) && FreshRun(Step(s, actions[0]), actions[1..]))
  }

  /** Such a run has no collisions, and leaves every owned node there, local, connected and listed once. */
  lemma {:induction false} RunsKeepInv(s: State, actions: seq<Action>)
    requires Inv(s) && FreshRun(s, actions)
    ensures Run(s, actions)
    ensures var t := Execute(s, actions);
      Agree(t) && UniqueIds(t.nodes) && forall id <- t.owners :: IsLiveLocal(t.nodes, id)
    decreases |actions|
  {
    hide Step, Enabled, Careful, Fresh, Agree, UniqueIds, IsLiveLocal;
    if actions != [] {
      StepKeepsInv(s, actions[0]);
      FreshIsCareful(s, actions[0]);
      RunsKeepInv(Step(s, actions[0]), actions[1..]);
    }
  }

  lemma FreshIsCareful(s: State, a: Action)
    requires Inv(s) && Fresh(s, a)
    ensures Careful(s, a)
  {
    if a.LocalSessionStart? {
      FoundIsNoCollision(s, a.connection, a.device, a.uuid);
    }
  }

  /** A start is refused exactly when one of the device's nodes has another owner. Otherwise the
      connection owns the only node of its device, and no one else loses a node, except exactly if the
      start collides. */
  lemma StartOwnsTheDevice(s: State, connection: ConnectionId, name: string, device: string, uuid: string)
    requires Inv(s) && connection in s.sessions
    ensures var after := Start(s, connection, name, Some(device), uuid);
      && (DeviceTaken(s, device, connection) ==> after == s)
      && (!DeviceTaken(s, device, connection) ==>
            && after.sessions[connection].Some?
            && Owns(after, after.sessions[connection].value, connection)
            && (forall n <- after.nodes :: IsDevice(n, device) ==> n.id == after.sessions[connection].value)
            && (exists n <- after.nodes :: IsDevice(n, device) && n.connected && n.name == name))
      && (OthersKeepOwnership(s, after, connection) <==> !Collides(s, connection, Some(device), uuid))
  {
    hide Keep, IndexOf, StartedNodes, StartedId, MatchingIds, Canonical, MintedId, Collides;
    StartDisplacesExactlyOnCollision(s, connection, name, Some(device), uuid);
    StartOnNodes(s.nodes, name, Some(device), uuid);
  }

  /** A session without a device whose random id is a device's name: the device's own session then
      takes its node away, and the first connection still believes it has it. */
  lemma CollisionIsReached(a: ConnectionId, b: ConnectionId, name: string, device: string, uuid: string)
    requires a != b
    ensures var opening := [OpenConnection(a), OpenConnection(b), LocalSessionStart(a, name, None, device)];
      var id := MintedId(None, device);
      && Run(EMPTY, opening) && Enabled(Execute(EMPTY, opening), LocalSessionStart(b, name, Some(device), uuid))
      && !Careful(Execute(EMPTY, opening), LocalSessionStart(b, name, Some(device), uuid))
      && var s := Step(Execute(EMPTY, opening), LocalSessionStart(b, name, Some(device), uuid));
        a in s.sessions && s.sessions[a] == Some(id) && Owns(s, id, b)
  {
    var opening := [OpenConnection(a), OpenConnection(b), LocalSessionStart(a, name, None, device)];
    var s1 := Step(EMPTY, opening[0]);
    var s2 := Step(s1, opening[1]);
    var s3 := Step(s2, opening[2]);
    assert opening[1..] == [opening[1], opening[2]] && opening[1..][1..] == [opening[2]] && [opening[2]][1..] == [];
    assert Run(s3, []) && Run(s2, [opening[2]]) && Run(s1, opening[1..]);
    assert Execute(s3, []) == s3 && Execute(s2, [opening[2]]) == s3 && Execute(s1, opening[1..]) == s3;
    var node := Node(MintedId(None, device), name, Local, None, true);
    assert s3.nodes == [node] && s3.nodes[..0] == [];
    assert MatchingIds(s3.nodes, device) == [];
  }

  // The server: the same, step by step.

  class SessionServer {
    var nodes: seq<Node>
    var owners: map<NodeId, ConnectionId>
    var sessions: map<ConnectionId, Option<NodeId>>

    ghost function View(): State
      reads this
    {
      State(nodes, owners, sessions)
    }

    constructor ()
      ensures View() == EMPTY
    {
      nodes, owners, sessions := [], map[], map[];
    }

    method ClaimOwner(id: NodeId, connection: ConnectionId)
      modifies this`owners
      ensures owners == Claim(old(owners), id, connection)
    {
      owners := owners[id := connection];
    }

    method ReleaseOwner(id: NodeId, connection: ConnectionId)
      modifies this`owners
      ensures owners == Release(old(owners), id, connection)
    {
      if id in owners && owners[id] == connection {
        owners := owners - {id};
      }
    }

    /** The search for an owner of one of the device's nodes that is not the caller. */
    method ConflictingOwner(device: string, connection: ConnectionId) returns (taken: bool)
      ensures taken <==> DeviceTaken(View(), device, connection)
    {
      for i := 0 to |nodes|
        invariant forall n <- nodes[..i] :: !(IsDevice(n, device) && n.id in owners && owners[n.id] != connection)
      {
        var n := nodes[i];
        if IsDevice(n, device) && n.id in owners && owners[n.id] != connection {
          return true;
        }
      }
      assert nodes[..|nodes|] == nodes;
      return false;
    }

    method CanonicalId(ids: seq<NodeId>) returns (id: NodeId)
      requires ids != []
      ensures id == Canonical(nodes, ids)
    {
      for i := 0 to |ids|
        invariant FirstConnected(nodes, ids) == FirstConnected(nodes, ids[i..])
      {
        var index := IndexOf(nodes, ids[i]);
        if index.Some? && nodes[index.value].connected {
          return ids[i];
        }
      }
      return ids[0];
    }

    method CoreSessionStart(name: string, device: Option<string>, uuid: string) returns (id: NodeId)
      modifies this`nodes
      ensures id == StartedId(old(nodes), device, uuid)
      ensures nodes == StartedNodes(old(nodes), name, device, uuid)
    {
      if device.Some? {
        var ids: seq<NodeId> := [];
        for i := 0 to |nodes|
          invariant ids == MatchingIds(nodes[..i], device.value)
        {
          assert nodes[..i + 1][..i] == nodes[..i];
          if IsDevice(nodes[i], device.value) {
            ids := ids + [nodes[i].id];
          }
        }
        assert nodes[..|nodes|] == nodes;
        if ids != [] {
          id := CanonicalId(ids);
          RemoveDuplicates(ids, id);
          nodes := Revive(nodes, id, name, device.value);
          return;
        }
      }
      id := MintedId(device, uuid);
      nodes := nodes + [Node(id, name, Local, device, true)];
    }

    method RemoveDuplicates(ids: seq<NodeId>, canonical: NodeId)
      modifies this`nodes
      ensures nodes == Keep(old(nodes), Others(ids, canonical))
    {
      hide Keep;
      KeepAll(nodes);
      assert Others([], canonical) == {};
      for i := 0 to |ids|
        invariant nodes == Keep(old(nodes), Others(ids[..i], canonical))
      {
        assert ids[..i + 1] == ids[..i] + [ids[i]];
        OthersAppend(ids[..i], ids[i], canonical);
        if ids[i] != canonical {
          KeepTwice(old(nodes), Others(ids[..i], canonical), {ids[i]});
          nodes := Keep(nodes, {ids[i]});
        }
      }
      assert ids[..|ids|] == ids;
    }

    /** The local_session_start command. A refused start reports the conflict. */
    method DispatchStart(connection: ConnectionId, name: string, device: Option<string>, uuid: string)
      returns (accepted: bool)
      requires connection in sessions
      modifies this
      ensures View() == Start(old(View()), connection, name, device, uuid)
      ensures accepted <==> !(device.Some? && old(DeviceTaken(View(), device.value, connection)))
    {
      if device.Some? {
        var taken := ConflictingOwner(device.value, connection);
        if taken { return false; }
      }
      var id := CoreSessionStart(name, device, uuid);
      var previous := sessions[connection];
      sessions := sessions[connection := Some(id)];
      if previous.Some? && previous.value != id {
        ReleaseOwner(previous.value, connection);
      }
      ClaimOwner(id, connection);
      return true;
    }

    method DispatchStop(connection: ConnectionId)
      requires connection in sessions
      modifies this
      ensures View() == Stop(old(View()), connection)
    {
      if sessions[connection].Some? {
        var id := sessions[connection].value;
        if id in owners && owners[id] == connection {
          var index := IndexOf(nodes, id);
          if index.Some? && nodes[index.value].nodeType == Local {
            nodes := Keep(nodes, {id});
          }
          ReleaseOwner(id, connection);
        }
        sessions := sessions[connection := None];
      }
    }

    method DispatchUpdate(connection: ConnectionId)
      requires connection in sessions
      modifies this
      ensures View() == Update(old(View()), connection)
    {
      if sessions[connection].Some? {
        var id := sessions[connection].value;
        if id in owners && owners[id] == connection {
          var index := IndexOf(nodes, id);
          if index.None? || nodes[index.value].nodeType != Local {
            ReleaseOwner(id, connection);
            sessions := sessions[connection := None];
          } else {
            nodes := nodes[index.value := nodes[index.value].(connected := true)];
          }
        } else {
          sessions := sessions[connection := None];
        }
      }
    }

    /** The end of a connection. */
    method Disconnect(connection: ConnectionId)
      requires connection in sessions
      modifies this
      ensures View() == Drop(old(View()), connection)
    {
      var local := sessions[connection];
      sessions := sessions - {connection};
      if local.Some? {
        ReleaseOwner(local.value, connection);
        var index := IndexOf(nodes, local.value);
        if index.Some? && nodes[index.value].nodeType == Local {
          nodes := nodes[index.value := nodes[index.value].(connected := false)];
        }
      }
    }
  }
}
