/** What each session command comes to, node by node and entry by entry. */
module SessionCommands {
  import opened Wrappers
  import opened LocalSessions

  // Single nodes.

  /** Only the k-th node differs, and it is now n. */
  ghost predicate OnlyAt(before: seq<Node>, after: seq<Node>, k: nat, n: Node) {
    && k < |before| == |after| && after[k] == n
    && forall i :: 0 <= i < |before| && i != k ==> after[i] == before[i]
  }

  lemma FoundAt(nodes: seq<Node>, id: NodeId) returns (k: nat)
    requires HasNode(nodes, id) && UniqueIds(nodes)
    ensures k < |nodes| && nodes[k].id == id && IndexOf(nodes, id) == Some(k)
    ensures forall n <- nodes :: n.id == id ==> n == nodes[k]
  {
    k := IndexOf(nodes, id).value;
    forall n | n in nodes && n.id == id
      ensures n == nodes[k]
    {
      var j: nat :| j < |nodes| && nodes[j] == n;
      SamePlace(nodes, j, k);
    }
  }

  lemma SamePlace(nodes: seq<Node>, i: nat, k: nat)
    requires UniqueIds(nodes) && i < |nodes| && k < |nodes| && nodes[i].id == nodes[k].id
    ensures i == k
  {
  }

  lemma OwnedNode(s: State, id: NodeId) returns (k: nat)
    requires Inv(s) && id in s.owners
    ensures k < |s.nodes| && s.nodes[k].id == id && s.nodes[k].nodeType == Local && s.nodes[k].connected
    ensures IndexOf(s.nodes, id) == Some(k)
  {
    assert IsLiveLocal(s.nodes, id);
    var n :| n in s.nodes && n.id == id && n.nodeType == Local && n.connected;
    k := FoundAt(s.nodes, id);
  }

  // Leaving.

  /** A connection that drops loses its node, which stays listed as it was, but disconnected; nothing else
      changes. */
  lemma DropMeans(s: State, connection: ConnectionId)
    requires Inv(s) && connection in s.sessions
    ensures var after := Drop(s, connection);
      && after.sessions == s.sessions - {connection}
      && (s.sessions[connection].None? ==> after.nodes == s.nodes && after.owners == s.owners)
      && (s.sessions[connection].Some? ==>
            && after.owners == s.owners - {s.sessions[connection].value}
            && exists k: nat :: k < |s.nodes| && s.nodes[k].id == s.sessions[connection].value
                 && s.nodes[k].nodeType == Local && OnlyAt(s.nodes, after.nodes, k, s.nodes[k].(connected := false)))
  {
    if s.sessions[connection].Some? {
      var id := s.sessions[connection].value;
      var k := OwnedNode(s, id);
      assert OnlyAt(s.nodes, Drop(s, connection).nodes, k, s.nodes[k].(connected := false));
    }
  }

  /** Once it has been gone long enough, the cleanup removes it. */
  lemma DroppedIsCleanedUp(s: State, connection: ConnectionId, expired: set<NodeId>)
    requires Inv(s) && connection in s.sessions && s.sessions[connection].Some?
    requires s.sessions[connection].value in expired
    ensures HasNode(Drop(s, connection).nodes, s.sessions[connection].value)
    ensures !HasNode(Cleanup(Drop(s, connection), expired).nodes, s.sessions[connection].value)
  {
    hide Drop, Keep, Inv;
    var id := s.sessions[connection].value;
    var after := Drop(s, connection);
    DropMeans(s, connection);
    var k: nat :| k < |s.nodes| && s.nodes[k].id == id
      && s.nodes[k].nodeType == Local && OnlyAt(s.nodes, after.nodes, k, s.nodes[k].(connected := false));
    assert after.nodes[k] in after.nodes;
  }

  /** The cleanup removes the local nodes that are disconnected and long gone, and no other. */
  lemma CleanupMeans(s: State, expired: set<NodeId>)
    requires UniqueIds(s.nodes)
    ensures var after := Cleanup(s, expired);
      && after.owners == s.owners && after.sessions == s.sessions
      && forall n :: n in after.nodes <==> n in s.nodes && !(n.nodeType == Local && !n.connected && n.id in expired)
  {
    hide Keep;
    forall n | n in s.nodes && exists m <- s.nodes :: m.id == n.id && m.nodeType == Local && !m.connected
      ensures n.nodeType == Local && !n.connected
    {
      var m :| m in s.nodes && m.id == n.id && m.nodeType == Local && !m.connected;
      var k := FoundAt(s.nodes, n.id);
    }
  }

  /** A connection that stops its session takes its node off the list, and no other. */
  lemma StopMeans(s: State, connection: ConnectionId)
    requires Inv(s) && connection in s.sessions
    ensures s.sessions[connection].None? ==> Stop(s, connection) == s
    ensures s.sessions[connection].Some? ==>
      var id, after := s.sessions[connection].value, Stop(s, connection);
      && after.sessions == s.sessions[connection := None] && after.owners == s.owners - {id}
      && HasNode(s.nodes, id) && forall n :: n in after.nodes <==> n in s.nodes && n.id != id
  {
    hide Keep;
    if s.sessions[connection].Some? {
      var k := OwnedNode(s, s.sessions[connection].value);
      assert s.nodes[k] in s.nodes;
    }
  }

  /** A connection that has lost its node to another only forgets it. */
  lemma LostNodeIsForgotten(s: State, connection: ConnectionId)
    requires connection in s.sessions && s.sessions[connection].Some?
    requires var id := s.sessions[connection].value; id !in s.owners || s.owners[id] != connection
    ensures var after := s.(sessions := s.sessions[connection := None]);
      Stop(s, connection) == after && Update(s, connection) == after
  {
  }

  // Updating.

  /** An update marks the owner's node connected, and changes nothing else. */
  lemma UpdateMeans(s: State, connection: ConnectionId, k: nat)
    requires connection in s.sessions && UniqueIds(s.nodes) && k < |s.nodes| && s.nodes[k].nodeType == Local
    requires s.sessions[connection] == Some(s.nodes[k].id)
    requires s.nodes[k].id in s.owners && s.owners[s.nodes[k].id] == connection
    ensures var after := Update(s, connection);
      && after.owners == s.owners && after.sessions == s.sessions
      && OnlyAt(s.nodes, after.nodes, k, s.nodes[k].(connected := true))
  {
    assert s.nodes[k] in s.nodes;
    var i := FoundAt(s.nodes, s.nodes[k].id);
    SamePlace(s.nodes, i, k);
  }

  /** An owner whose node is gone, or is no longer local, gives it up. */
  lemma GoneNodeIsGivenUp(s: State, connection: ConnectionId, id: NodeId)
    requires connection in s.sessions && s.sessions[connection] == Some(id) && Owns(s, id, connection)
    requires forall n <- s.nodes :: n.id == id ==> n.nodeType != Local
    ensures var after := Update(s, connection);
      && after.nodes == s.nodes && after.owners == s.owners - {id} && after.sessions == s.sessions[connection := None]
  {
  }

  // Starting.

  /** The k-th node is the first of the device's nodes that is connected. */
  ghost predicate IsFirstConnected(nodes: seq<Node>, device: string, k: nat) {
    && k < |nodes| && IsDevice(nodes[k], device) && nodes[k].connected
    && forall j :: 0 <= j < k && IsDevice(nodes[j], device) ==> !nodes[j].connected
  }

  ghost predicate IsFirstOf(nodes: seq<Node>, device: string, k: nat) {
    k < |nodes| && IsDevice(nodes[k], device) && forall j :: 0 <= j < k ==> !IsDevice(nodes[j], device)
  }

  /** The k-th node is the first of the device's nodes, none of which is connected. */
  ghost predicate IsFirstOfNone(nodes: seq<Node>, device: string, k: nat) {
    && IsFirstOf(nodes, device, k)
    && (forall n <- nodes :: IsDevice(n, device) ==> !n.connected)
  }

  lemma FirstConnectedOfSum(nodes: seq<Node>, a: seq<NodeId>, b: seq<NodeId>)
    ensures FirstConnected(nodes, a + b) ==
      if FirstConnected(nodes, a).Some? then FirstConnected(nodes, a) else FirstConnected(nodes, b)
  {
    if a == [] {
      assert a + b == b;
    } else {
      assert (a + b)[1..] == a[1..] + b;
      FirstConnectedOfSum(nodes, a[1..], b);
    }
  }

  lemma OneNode(nodes: seq<Node>, device: string, k: nat)
    requires UniqueIds(nodes) && k < |nodes|
    ensures MatchingIds(nodes[..k + 1], device)
      == MatchingIds(nodes[..k], device) + if IsDevice(nodes[k], device) then [nodes[k].id] else []
    ensures FirstConnected(nodes, [nodes[k].id]) == if nodes[k].connected then Some(nodes[k].id) else None
  {
    assert nodes[..k + 1][..k] == nodes[..k];
    assert nodes[k] in nodes;
    var i := FoundAt(nodes, nodes[k].id);
    assert [nodes[k].id][1..] == [];
  }

  lemma {:induction false} FirstConnectedBefore(nodes: seq<Node>, device: string, n: nat)
    requires UniqueIds(nodes) && n <= |nodes|
    ensures var found := FirstConnected(nodes, MatchingIds(nodes[..n], device));
      if found.Some? then exists k: nat :: k < n && IsFirstConnected(nodes, device, k) && found == Some(nodes[k].id)
      else forall j :: 0 <= j < n && IsDevice(nodes[j], device) ==> !nodes[j].connected
    decreases n
  {
    hide MatchingIds, FirstConnected;
    if n > 0 {
      FirstConnectedBefore(nodes, device, n - 1);
      OneNode(nodes, device, n - 1);
      FirstConnectedOfSum(nodes, MatchingIds(nodes[..n - 1], device), [nodes[n - 1].id]);
      FirstConnectedOfSum(nodes, MatchingIds(nodes[..n - 1], device), []);
      NoneOfNothing(nodes);
      if FirstConnected(nodes, MatchingIds(nodes[..n - 1], device)).None? && IsDevice(nodes[n - 1], device)
        && nodes[n - 1].connected {
        assert IsFirstConnected(nodes, device, n - 1);
      }
    } else {
      assert nodes[..0] == [];
      NoneOfNothing(nodes);
      assert MatchingIds([], device) == [] by { NothingMatches(device); }
    }
  }

  lemma NoneOfNothing(nodes: seq<Node>)
    ensures FirstConnected(nodes, []) == None
  {
  }

  lemma NothingMatches(device: string)
    ensures MatchingIds([], device) == []
  {
  }

  lemma {:induction false} FirstMatch(nodes: seq<Node>, device: string, n: nat)
    requires n <= |nodes| && MatchingIds(nodes[..n], device) != []
    ensures exists k: nat :: k < n && IsFirstOf(nodes, device, k) && MatchingIds(nodes[..n], device)[0] == nodes[k].id
    decreases n
  {
    assert nodes[..n][..n - 1] == nodes[..n - 1];
    if MatchingIds(nodes[..n - 1], device) != [] {
      FirstMatch(nodes, device, n - 1);
    } else {
      assert IsDevice(nodes[n - 1], device);
      forall j | 0 <= j < n - 1
        ensures !IsDevice(nodes[j], device)
      {
        assert nodes[..n - 1][j] == nodes[j];
      }
      assert IsFirstOf(nodes, device, n - 1);
    }
  }

  /** A device with nodes is given back the first connected one of them, or else the first. */
  lemma CanonicalMeans(nodes: seq<Node>, device: string)
    requires UniqueIds(nodes) && MatchingIds(nodes, device) != []
    ensures exists k: nat :: (IsFirstConnected(nodes, device, k) || IsFirstOfNone(nodes, device, k))
                  && Canonical(nodes, MatchingIds(nodes, device)) == nodes[k].id
  {
    hide MatchingIds, FirstConnected;
    assert nodes[..|nodes|] == nodes;
    FirstConnectedBefore(nodes, device, |nodes|);
    FirstMatch(nodes, device, |nodes|);
    if FirstConnected(nodes, MatchingIds(nodes, device)).None? {
      var k: nat :| k < |nodes| && IsFirstOf(nodes, device, k) && MatchingIds(nodes, device)[0] == nodes[k].id;
      assert IsFirstOfNone(nodes, device, k);
    }
  }

  /** The device has no node yet, or there is no device. */
  ghost predicate StartsAnew(nodes: seq<Node>, device: Option<string>) {
    device.Some? ==> forall n <- nodes :: !(n.nodeType == Local && n.deviceId == device)
  }

  lemma {:induction false} NoneMatches(nodes: seq<Node>, device: string)
    requires forall n <- nodes :: !IsDevice(n, device)
    ensures MatchingIds(nodes, device) == []
    decreases |nodes|
  {
    if nodes != [] {
      assert nodes[|nodes| - 1] in nodes;
      NoneMatches(nodes[..|nodes| - 1], device);
    }
  }

  /** Then a start puts a new local node at the end, named after the device or else at random, and gives it to
      the connection. */
  lemma StartsAnewMeans(s: State, connection: ConnectionId, name: string, device: Option<string>, uuid: string)
    requires connection in s.sessions && StartsAnew(s.nodes, device)
    ensures var after := Start(s, connection, name, device, uuid);
      var id := if device.Some? then "local-" + device.value else "local-" + uuid;
      && after.nodes == s.nodes + [Node(id, name, Local, device, true)]
      && after.sessions == s.sessions[connection := Some(id)] && Owns(after, id, connection)
  {
    hide MatchingIds;
    if device.Some? {
      assert !DeviceTaken(s, device.value, connection);
      NoneMatches(s.nodes, device.value);
    }
  }

  /** Otherwise the device's node that is given back is connected under the new name, at its place among the nodes
      that are kept, and the device's other nodes go. */
  lemma StartsAgainMeans(s: State, connection: ConnectionId, name: string, device: string, uuid: string)
    requires connection in s.sessions && UniqueIds(s.nodes) && MatchingIds(s.nodes, device) != []
    requires !DeviceTaken(s, device, connection)
    ensures var after := Start(s, connection, name, Some(device), uuid);
      exists k: nat :: (IsFirstConnected(s.nodes, device, k) || IsFirstOfNone(s.nodes, device, k))
        && after.sessions == s.sessions[connection := Some(s.nodes[k].id)] && Owns(after, s.nodes[k].id, connection)
        && forall n :: n in after.nodes <==>
             || n == s.nodes[k].(connected := true, name := name)
             || (n in s.nodes && !(n.nodeType == Local && n.deviceId == Some(device)))
  {
    hide MatchingIds, Keep, FirstConnected, Canonical;
    var ids := MatchingIds(s.nodes, device);
    CanonicalMeans(s.nodes, device);
    var k: nat :| (IsFirstConnected(s.nodes, device, k) || IsFirstOfNone(s.nodes, device, k))
      && Canonical(s.nodes, ids) == s.nodes[k].id;
    RevivedAmongKept(s.nodes, ids, k, name, device);
  }

  lemma RevivedAmongKept(nodes: seq<Node>, ids: seq<NodeId>, k: nat, name: string, device: string)
    requires UniqueIds(nodes) && k < |nodes| && IsDevice(nodes[k], device) && ids == MatchingIds(nodes, device)
    ensures forall n :: n in Revive(Keep(nodes, Others(ids, nodes[k].id)), nodes[k].id, name, device) <==>
             || n == nodes[k].(connected := true, name := name)
             || (n in nodes && !(n.nodeType == Local && n.deviceId == Some(device)))
  {
    hide MatchingIds, Keep;
    var id := nodes[k].id;
    var kept := Keep(nodes, Others(ids, id));
    assert nodes[k] in nodes && nodes[k] in kept;
    var i := FoundAt(kept, id);
    var j := FoundAt(nodes, id);
    var revived := Revive(kept, id, name, device);
    var renewed := nodes[k].(connected := true, name := name);
    assert nodes[k].deviceId == Some(device);
    assert kept[i] == nodes[k] && revived == kept[i := renewed];
    forall n
      ensures n in revived <==> n == renewed || (n in kept && n != nodes[k])
    {
      if n in kept && n != nodes[k] {
        var p :| 0 <= p < |kept| && kept[p] == n;
        assert revived[p] == n;
      }
      if n in revived && n != renewed {
        var p :| 0 <= p < |revived| && revived[p] == n;
        assert p != i && kept[p] == n;
        assert kept[p].id != kept[i].id;
      }
      assert revived[i] == renewed;
    }
    forall n | n in nodes
      ensures n.id in ids <==> IsDevice(n, device)
    {
      var p := FoundAt(nodes, n.id);
    }
    forall n
      ensures n in kept && n != nodes[k] <==> n in nodes && !IsDevice(n, device)
    {
    }
  }

  /** What a start does to the other entries of the owner table: the connection's previous node loses its owner, and
      every other node but the started one keeps its own. */
  lemma HandOverMeans(s: State, connection: ConnectionId, id: NodeId)
    requires Agree(s) && connection in s.sessions
    ensures var owners := HandOver(s, connection, id);
      && id in owners && owners[id] == connection
      && forall other | other != id :: (other in owners <==> other in s.owners && s.sessions[connection] != Some(other))
           && (other in owners ==> owners[other] == s.owners[other])
  {
  }

  // Output nodes.

  /** An output that registers is connected under its name where it is known, and else put at the end. */
  lemma RegisteringMeans(s: State, id: NodeId, name: string)
    requires UniqueIds(s.nodes)
    ensures var after := AddRemote(s, id, name);
      && after.owners == s.owners && after.sessions == s.sessions
      && (forall k: nat :: k < |s.nodes| && s.nodes[k].id == id ==>
            OnlyAt(s.nodes, after.nodes, k, s.nodes[k].(connected := true, name := name)))
      && ((forall n <- s.nodes :: n.id != id) ==> after.nodes == s.nodes + [Node(id, name, Remote, None, true)])
  {
    forall k: nat | k < |s.nodes| && s.nodes[k].id == id
      ensures OnlyAt(s.nodes, AddRemote(s, id, name).nodes, k, s.nodes[k].(connected := true, name := name))
    {
      assert s.nodes[k] in s.nodes;
      var i := FoundAt(s.nodes, id);
      SamePlace(s.nodes, i, k);
    }
  }
}
