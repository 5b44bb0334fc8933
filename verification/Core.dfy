/** The server's per-node queues: what each command does to one node's queue, to the
    projection of it that the node holds, and to the channel to that node. */
module NodeQueue {
  import opened Wrappers
  import opened PlayerProtocol

  datatype Track = Track(id: string, filePath: string)

  datatype RepeatMode = Off | One | All

  /** Which suffix of the queue a node was last sent, and under which generation. */
  datatype Transport = Transport(generation: nat, start: Option<nat>, loadedLen: nat)

  /** One node as the server sees it. `wire` holds the messages its output has accepted and
      the node has not read yet; it is None while no output is registered. */
  datatype NodeView = NodeView(
    queue: seq<Track>,
    currentIndex: Option<nat>,
    transport: Option<Transport>,
    wire: Option<seq<NodeCommand>>)

  function Paths(tracks: seq<Track>): (r: seq<string>)
    ensures |r| == |tracks|
    ensures forall k :: 0 <= k < |r| ==> r[k] == tracks[k].filePath
  {
    seq(|tracks|, i requires 0 <= i < |tracks| => tracks[i].filePath)
  }

  /** The part of the queue from `start` on: what a node should hold. */
  function Suffix(queue: seq<Track>, start: nat): seq<string> {
    if start <= |queue| then Paths(queue[start..]) else []
  }

  function TransportOf(v: NodeView): Transport {
    if v.transport.Some? then v.transport.value else Transport(0, None, 0)
  }

  function Rebuild(v: NodeView, start: Option<nat>, loadedLen: nat): NodeView {
    v.(transport := Some(Transport(TransportOf(v).generation + 1, start, loadedLen)))
  }

  /** Hand a message to the output: it is lost when no output is registered or the output
      refuses it. */
  function Send(v: NodeView, command: NodeCommand, accepted: bool): NodeView {
    if v.wire.Some? && accepted then v.(wire := Some(v.wire.value + [command])) else v
  }

  function SendQueue(v: NodeView, paths: seq<string>, accepted: bool): NodeView {
    Send(v, SetQueue(paths, TransportOf(v).generation), accepted)
  }

  function Reaches(v: NodeView, accepted: bool): bool {
    v.wire.Some? && accepted
  }

  /** Play from an entry of the queue: next, previous and play_index all end here. */
  function JumpTo(v: NodeView, index: nat, accepted: bool): NodeView {
    var paths := Suffix(v.queue, index);
    SendQueue(Rebuild(v.(currentIndex := Some(index)), Some(index), |paths|), paths, accepted)
  }

  /** A new queue. The projection is rebuilt first; the queue follows only if the node could be told. */
  function Replace(v: NodeView, tracks: seq<Track>, start: Option<nat>, connected: bool, accepted: bool): NodeView {
    var from := if start.Some? then start.value else 0;
    var paths := Suffix(tracks, from);
    var projected := if connected
      then SendQueue(Rebuild(v, if paths == [] then None else start, |paths|), paths, accepted)
      else v;
    if connected && !Reaches(v, accepted) then projected
    else projected.(queue := tracks, currentIndex := start)
  }

  function ClearAll(v: NodeView, connected: bool, accepted: bool): NodeView {
    var projected := if connected then SendQueue(Rebuild(v, None, 0), [], accepted) else v;
    if connected && !Reaches(v, accepted) then projected else projected.(queue := [], currentIndex := None)
  }

  function Append(v: NodeView, tracks: seq<Track>, connected: bool, accepted: bool): NodeView {
    var grown := v.(queue := v.queue + tracks);
    if tracks == [] then v
    else if connected && Reaches(v, accepted) then
      var sent := Send(grown, Add(Paths(tracks)), accepted);
      if v.transport.Some?
      then sent.(transport := Some(v.transport.value.(loadedLen := v.transport.value.loadedLen + |tracks|)))
      else sent
    else grown
  }

  /** Send the node its queue again; the loaded length is that of the whole queue. */
  function Resync(v: NodeView, accepted: bool): NodeView {
    SendQueue(Rebuild(v, v.currentIndex, |v.queue|),
      Suffix(v.queue, if v.currentIndex.Some? then v.currentIndex.value else 0), accepted)
  }

  /** Starting playback on a stopped node with no current track picks the first one. */
  function StartAtFirst(v: NodeView): NodeView {
    if v.queue != [] && v.currentIndex.None? then v.(currentIndex := Some(0)) else v
  }

  /** How far `index` lies past `current`, and never below zero. */
  function From(current: nat, index: nat): nat {
    if index < current then 0 else index - current
  }

  /** Where the server takes a queue index to be on the node's playlist. */
  function NodePosition(v: NodeView, index: nat): nat {
    if v.currentIndex.None? then index else From(v.currentIndex.value, index)
  }

  function CurrentAfterRemove(current: Option<nat>, index: nat, remaining: nat): Option<nat> {
    if current.None? then None
    else if current.value == index then
      if remaining == 0 then None
      else if index <= remaining - 1 then Some(index) else Some(remaining - 1)
    else if current.value > index then Some(current.value - 1)
    else current
  }

  /** One entry fewer is loaded; a projection with nothing left has no start. */
  function ForgetOne(v: NodeView): NodeView {
    if v.transport.None? then v
    else
      var t := v.transport.value;
      var loadedLen := if t.loadedLen == 0 then 0 else t.loadedLen - 1;
      v.(transport := Some(t.(loadedLen := loadedLen, start := if loadedLen == 0 then None else t.start)))
  }

  function RemoveOnServer(v: NodeView, index: nat): (r: NodeView)
    requires index < |v.queue|
    ensures r.wire == v.wire && r.transport == v.transport
  {
    v.(queue := RemoveAt(v.queue, index), currentIndex := CurrentAfterRemove(v.currentIndex, index, |v.queue| - 1))
  }

  function RemoveEntry(v: NodeView, index: nat, connected: bool, accepted: bool): NodeView
    requires index < |v.queue|
  {
    var shrunk := RemoveOnServer(v, index);
    if connected && Reaches(v, accepted)
    then ForgetOne(Send(shrunk, PlayerProtocol.Remove(NodePosition(v, index)), accepted))
    else shrunk
  }

  function MoveOnServer(v: NodeView, from: nat, to: nat): (r: NodeView)
    requires from < |v.queue| && to < |v.queue|
    ensures r.wire == v.wire && r.transport == v.transport
  {
    v.(queue := MoveElement(v.queue, from, to),
       currentIndex := if v.currentIndex.None? then None else Some(FollowMove(v.currentIndex.value, from, to)))
  }

  function MoveEntry(v: NodeView, from: nat, to: nat, connected: bool, accepted: bool): NodeView
    requires from < |v.queue| && to < |v.queue|
  {
    var moved := MoveOnServer(v, from, to);
    if connected then Send(moved, MoveTrack(NodePosition(v, from), NodePosition(v, to)), accepted) else moved
  }

  /** The queue index a report stands for, if the report is current and inside the projection. */
  function ProjectedIndex(v: NodeView, report: Report): Option<nat> {
    if v.transport.Some?
      && v.transport.value.generation == report.generation
      && report.songIndex < v.transport.value.loadedLen
      && v.transport.value.start.Some?
      && v.transport.value.start.value + report.songIndex < |v.queue|
    then Some(v.transport.value.start.value + report.songIndex)
    else None
  }

  function Observe(v: NodeView, report: Report): NodeView {
    var index := ProjectedIndex(v, report);
    if index.Some? then v.(currentIndex := index) else v
  }

  function NextIndex(current: Option<nat>, length: nat, repeat: RepeatMode): Option<nat> {
    if length == 0 then None
    else match current
      case None => Some(0)
      case Some(i) =>
        match repeat
        case Off => if i + 1 < length then Some(i + 1) else None
        case One => Some(i)
        case All => Some((i + 1) % length)
  }

  function PreviousIndex(current: Option<nat>, length: nat, repeat: RepeatMode): Option<nat> {
    if length == 0 then None
    else if current.None? || current.value == 0 then
      match repeat
      case Off => None
      case One => Some(0)
      case All => Some(length - 1)
    else Some(current.value - 1)
  }

  /** Skipping stays on the queue, and outside repeat-one going back undoes going on, and the
      other way around, whenever both are possible. */
  lemma SkipsAreInverse(i: nat, length: nat, repeat: RepeatMode)
    requires i < length
    ensures NextIndex(Some(i), length, repeat).Some? ==> NextIndex(Some(i), length, repeat).value < length
    ensures PreviousIndex(Some(i), length, repeat).Some? ==> PreviousIndex(Some(i), length, repeat).value < length
    ensures !repeat.One? && NextIndex(Some(i), length, repeat).Some?
      ==> PreviousIndex(NextIndex(Some(i), length, repeat), length, repeat) == Some(i)
    ensures !repeat.One? && PreviousIndex(Some(i), length, repeat).Some?
      ==> NextIndex(PreviousIndex(Some(i), length, repeat), length, repeat) == Some(i)
  {
    if repeat.All? {
      WrapAround(i, length);
    }
  }

  lemma WrapAround(i: nat, length: nat)
    requires i < length
    ensures (i + 1) % length == if i + 1 < length then i + 1 else 0
  {
  }
}

/** The server: a queue and a projection per node, and the node the user has selected. */
module Server {
  import opened Wrappers
  import opened PlayerProtocol
  import opened NodeQueue
  import opened QueueCommands

  type NodeId = string

  datatype CoreError = NoActiveOutput | NodeNotFound | QueueEmpty | QueueIndexOutOfBounds | OutputFailed

  datatype Node = Node(
    queue: seq<Track>,
    currentIndex: Option<nat>,
    repeat: RepeatMode,
    connected: bool)

  class Core {
    var nodes: map<NodeId, Node>
    var selected: Option<NodeId>
    var transport: map<NodeId, Transport>
    var wires: map<NodeId, seq<NodeCommand>>

    constructor ()
      ensures nodes == map[] && selected == None && transport == map[] && wires == map[]
    {
      nodes, selected, transport, wires := map[], None, map[], map[];
    }

    ghost function View(id: NodeId): NodeView
      requires id in nodes
      reads this
    {
      NodeView(nodes[id].queue, nodes[id].currentIndex,
        if id in transport then Some(transport[id]) else None,
        if id in wires then Some(wires[id]) else None)
    }

    /** Only `id` changed, and of it neither the connection nor the repeat mode. */
    twostate predicate OnlyTouches(id: NodeId)
      reads this
    {
      && nodes.Keys == old(nodes.Keys) && selected == old(selected)
      && (forall other <- nodes.Keys ::
            && nodes[other].connected == old(nodes)[other].connected
            && nodes[other].repeat == old(nodes)[other].repeat)
      && (forall other <- nodes.Keys :: other != id ==> View(other) == old(View(other)))
    }

    /** The entry is current, the queue is as it was, and nothing was sent but the paths from the entry on,
        to an output that took them. */
    twostate predicate PlaysFrom(id: NodeId, index: nat, accepted: bool)
      requires id in old(nodes)
      reads this
    {
      && id in nodes && nodes[id].queue == old(nodes)[id].queue && nodes[id].currentIndex == Some(index)
      && SendsQueue(old(View(id)), View(id), accepted, old(nodes)[id].queue, index)
    }

    function ActiveNode(): Result<NodeId, CoreError>
      reads this
    {
      if selected.None? then Err(NoActiveOutput)
      else if selected.value !in nodes then Err(NodeNotFound)
      else if !nodes[selected.value].connected then Err(NoActiveOutput)
      else Ok(selected.value)
    }

    /** The head is taken and the rest appended to it, as the projection is built. */
    function BuildQueueFilePaths(queue: seq<Track>, currentIndex: Option<nat>): (paths: seq<string>)
      ensures paths == Suffix(queue, if currentIndex.Some? then currentIndex.value else 0)
    {
      var start := if currentIndex.Some? then currentIndex.value else 0;
      var tail := if start + 1 <= |queue| then Paths(queue[start + 1..]) else [];
      var head := if start < |queue| then [queue[start].filePath] else [];
      head + tail
    }

    method RebuildProjectionState(id: NodeId, start: Option<nat>, loadedLen: nat) returns (generation: nat)
      requires id in nodes
      modifies this`transport
      ensures View(id) == Rebuild(old(View(id)), start, loadedLen) && OnlyTouches(id)
      ensures id in transport && generation == transport[id].generation
    {
      var entry := if id in transport then transport[id] else Transport(0, None, 0);
      generation := entry.generation + 1;
      transport := transport[id := Transport(generation, start, loadedLen)];
    }

    /** Deliver to the registered output, if there is one and it accepts the message. */
    method SendTo(id: NodeId, command: NodeCommand, accepted: bool) returns (result: Result<(), CoreError>)
      requires id in nodes
      modifies this`wires
      ensures View(id) == Send(old(View(id)), command, accepted) && OnlyTouches(id)
      ensures result.Ok? <==> Reaches(old(View(id)), accepted)
    {
      if id !in wires { return Err(NoActiveOutput); }
      if !accepted { return Err(OutputFailed); }
      wires := wires[id := wires[id] + [command]];
      return Ok(());
    }

    /** A rebuilt projection, and the message that brings the node the paths in it. */
    method SendProjection(id: NodeId, start: Option<nat>, loadedLen: nat, paths: seq<string>, accepted: bool)
      returns (result: Result<(), CoreError>)
      requires id in nodes
      modifies this`transport, this`wires
      ensures View(id) == SendQueue(Rebuild(old(View(id)), start, loadedLen), paths, accepted) && OnlyTouches(id)
      ensures result.Ok? <==> Reaches(old(View(id)), accepted)
    {
      var generation := RebuildProjectionState(id, start, loadedLen);
      result := SendTo(id, SetQueue(paths, generation), accepted);
    }

    method PlayFrom(id: NodeId, index: nat, accepted: bool) returns (result: Result<(), CoreError>)
      requires id in nodes
      modifies this
      ensures id in nodes && View(id) == JumpTo(old(View(id)), index, accepted) && OnlyTouches(id)
      ensures result.Ok? <==> Reaches(old(View(id)), accepted)
      ensures index < |old(nodes)[id].queue| ==> PlaysFrom(id, index, accepted)
    {
      hide JumpTo, SendsQueue;
      if index < |nodes[id].queue| {
        JumpMeans(View(id), index, accepted);
      }
      result := SetIndexAndSend(id, index, accepted);
    }

    method SetIndexAndSend(id: NodeId, index: nat, accepted: bool) returns (result: Result<(), CoreError>)
      requires id in nodes
      modifies this
      ensures id in nodes && View(id) == JumpTo(old(View(id)), index, accepted) && OnlyTouches(id)
      ensures result.Ok? <==> Reaches(old(View(id)), accepted)
    {
      nodes := nodes[id := nodes[id].(currentIndex := Some(index))];
      var paths := BuildQueueFilePaths(nodes[id].queue, nodes[id].currentIndex);
      result := SendProjection(id, Some(index), |paths|, paths, accepted);
    }

    method Next(accepted: bool) returns (result: Result<(), CoreError>)
      modifies this
      ensures old(ActiveNode()).Err? ==> result == Err(old(ActiveNode()).error) && unchanged(this)
      ensures old(ActiveNode()).Ok? ==>
        var id := old(ActiveNode()).value;
        var target := old(NextIndex(nodes[id].currentIndex, |nodes[id].queue|, nodes[id].repeat));
        if target.None? then result == Err(QueueEmpty) && unchanged(this) else (
          && id in nodes && OnlyTouches(id)
          && (target.value < |old(nodes)[id].queue| ==> PlaysFrom(id, target.value, accepted))
          && View(id) == JumpTo(old(View(id)), target.value, accepted)
          && (result.Ok? <==> Reaches(old(View(id)), accepted)))
    {
      var active := ActiveNode();
      if active.Err? { return Err(active.error); }
      var id := active.value;
      var length := |nodes[id].queue|;
      if length == 0 { return Err(QueueEmpty); }
      var next := 0;
      match nodes[id].currentIndex {
        case None =>
        case Some(i) =>
          match nodes[id].repeat {
            case Off =>
              if i + 1 >= length { return Err(QueueEmpty); }
              next := i + 1;
            case One => next := i;
            case All => next := (i + 1) % length;
          }
      }
      result := PlayFrom(id, next, accepted);
    }

    method Previous(accepted: bool) returns (result: Result<(), CoreError>)
      modifies this
      ensures old(ActiveNode()).Err? ==> result == Err(old(ActiveNode()).error) && unchanged(this)
      ensures old(ActiveNode()).Ok? ==>
        var id := old(ActiveNode()).value;
        var target := old(PreviousIndex(nodes[id].currentIndex, |nodes[id].queue|, nodes[id].repeat));
        if target.None? then result == Err(QueueEmpty) && unchanged(this) else (
          && id in nodes && OnlyTouches(id)
          && (target.value < |old(nodes)[id].queue| ==> PlaysFrom(id, target.value, accepted))
          && View(id) == JumpTo(old(View(id)), target.value, accepted)
          && (result.Ok? <==> Reaches(old(View(id)), accepted)))
    {
      var active := ActiveNode();
      if active.Err? { return Err(active.error); }
      var id := active.value;
      var length := |nodes[id].queue|;
      if length == 0 { return Err(QueueEmpty); }
      var current := nodes[id].currentIndex;
      var previous := 0;
      if current.None? || current.value == 0 {
        match nodes[id].repeat {
          case Off => return Err(QueueEmpty);
          case One =>
          case All => previous := length - 1;
        }
      } else {
        previous := current.value - 1;
      }
      result := PlayFrom(id, previous, accepted);
    }

    method PlayIndex(index: nat, accepted: bool) returns (result: Result<(), CoreError>)
      modifies this
      ensures old(ActiveNode()).Err? ==> result == Err(old(ActiveNode()).error) && unchanged(this)
      ensures old(ActiveNode()).Ok? ==>
        var id := old(ActiveNode()).value;
        if index >= |old(nodes[id].queue)| then result == Err(QueueIndexOutOfBounds) && unchanged(this) else (
          && id in nodes && OnlyTouches(id) && PlaysFrom(id, index, accepted)
          && View(id) == JumpTo(old(View(id)), index, accepted)
          && (result.Ok? <==> Reaches(old(View(id)), accepted)))
    {
      var active := ActiveNode();
      if active.Err? { return Err(active.error); }
      var id := active.value;
      if index >= |nodes[id].queue| { return Err(QueueIndexOutOfBounds); }
      result := PlayFrom(id, index, accepted);
    }

    method ReplaceQueue(tracks: seq<Track>, start: Option<nat>, accepted: bool) returns (result: Result<(), CoreError>)
      modifies this
      ensures old(selected).None? ==> result == Err(NoActiveOutput) && unchanged(this)
      ensures old(selected).Some? && old(selected).value !in old(nodes) ==> result == Err(NodeNotFound) && unchanged(this)
      ensures old(selected).Some? && old(selected).value in old(nodes) ==>
        var id := old(selected).value;
        id in nodes && OnlyTouches(id)
        && View(id) == Replace(old(View(id)), tracks, start, old(nodes)[id].connected, accepted)
        && (result.Err? <==> old(nodes)[id].connected && !Reaches(old(View(id)), accepted))
    {
      hide Suffix;
      if selected.None? { return Err(NoActiveOutput); }
      var id := selected.value;
      var active := ActiveNode();
      var rotated := BuildQueueFilePaths(tracks, start);
      var projectionStart := if rotated == [] then None else start;
      if active.Ok? {
        var sent := SendProjection(id, projectionStart, |rotated|, rotated, accepted);
        if sent.Err? { return sent; }
      }
      if id !in nodes { return Err(NodeNotFound); }
      nodes := nodes[id := nodes[id].(queue := tracks, currentIndex := start)];
      return Ok(());
    }

    method ClearQueue(accepted: bool) returns (result: Result<(), CoreError>)
      modifies this
      ensures old(selected).None? || old(selected).value !in old(nodes) ==> result == Err(NoActiveOutput) && unchanged(this)
      ensures old(selected).Some? && old(selected).value in old(nodes) ==>
        var id := old(selected).value;
        id in nodes && OnlyTouches(id)
        && View(id) == ClearAll(old(View(id)), old(nodes)[id].connected, accepted)
        && (result.Err? <==> old(nodes)[id].connected && !Reaches(old(View(id)), accepted))
    {
      var active := ActiveNode();
      if active.Ok? {
        var sent := SendProjection(active.value, None, 0, [], accepted);
        if sent.Err? { return sent; }
      }
      if selected.None? || selected.value !in nodes { return Err(NoActiveOutput); }
      var id := selected.value;
      nodes := nodes[id := nodes[id].(queue := [], currentIndex := None)];
      return Ok(());
    }

    /** Also add_to_queue, with a single track. An output's refusal is reported, but only after
        the queue has grown. */
    method AddTracks(tracks: seq<Track>, accepted: bool) returns (result: Result<(), CoreError>)
      modifies this
      ensures tracks == [] ==> result == Ok(()) && unchanged(this)
      ensures tracks != [] && old(selected).None? ==> result == Err(NoActiveOutput) && unchanged(this)
      ensures tracks != [] && old(selected).Some? && old(selected).value !in old(nodes)
        ==> result == Err(NodeNotFound) && unchanged(this)
      ensures tracks != [] && old(selected).Some? && old(selected).value in old(nodes) ==>
        var id := old(selected).value;
        id in nodes && OnlyTouches(id)
        && View(id) == Append(old(View(id)), tracks, old(nodes)[id].connected, accepted)
        && (result.Err? <==> old(nodes)[id].connected && old(View(id)).wire.Some? && !accepted)
    {
      if |tracks| == 0 { return Ok(()); }
      if selected.None? { return Err(NoActiveOutput); }
      var id := selected.value;
      if id !in nodes { return Err(NodeNotFound); }
      nodes := nodes[id := nodes[id].(queue := nodes[id].queue + tracks)];
      if nodes[id].connected && id in wires {
        var sent := SendTo(id, Add(Paths(tracks)), accepted);
        if sent.Err? { return sent; }
        if id in transport {
          transport := transport[id := transport[id].(loadedLen := transport[id].loadedLen + |tracks|)];
        }
      }
      return Ok(());
    }

    method SyncOutputToGlobal(id: NodeId, accepted: bool) returns (result: Result<(), CoreError>)
      modifies this
      ensures id !in old(nodes) ==> result == Err(NodeNotFound) && unchanged(this)
      ensures id in old(nodes) ==> (
        && id in nodes && OnlyTouches(id)
        && View(id) == Resync(old(View(id)), accepted)
        && (result.Ok? <==> Reaches(old(View(id)), accepted)))
    {
      if id !in nodes { return Err(NodeNotFound); }
      var paths := BuildQueueFilePaths(nodes[id].queue, nodes[id].currentIndex);
      result := SendProjection(id, nodes[id].currentIndex, |nodes[id].queue|, paths, accepted);
    }

    method SyncNodeState(id: NodeId, songIndex: Option<nat>, generation: nat)
      modifies this`nodes
      ensures nodes.Keys == old(nodes.Keys)
      ensures id !in old(nodes) || songIndex.None? ==> unchanged(this)
      ensures id in old(nodes) && songIndex.Some? ==>
        View(id) == Observe(old(View(id)), Report(songIndex.value, generation)) && OnlyTouches(id)
    {
      var projected: Option<nat> := None;
      if id in transport && transport[id].generation == generation && songIndex.Some? {
        if songIndex.value < transport[id].loadedLen && transport[id].start.Some? {
          projected := Some(transport[id].start.value + songIndex.value);
        }
      }
      if id in nodes && projected.Some? && projected.value < |nodes[id].queue| {
        nodes := nodes[id := nodes[id].(currentIndex := projected)];
      }
    }

    method DecrementLoadedLen(id: NodeId)
      requires id in nodes
      modifies this`transport
      ensures View(id) == ForgetOne(old(View(id))) && OnlyTouches(id)
    {
      if id in transport {
        var entry := transport[id];
        entry := entry.(loadedLen := if entry.loadedLen == 0 then 0 else entry.loadedLen - 1);
        if entry.loadedLen == 0 { entry := entry.(start := None); }
        transport := transport[id := entry];
      }
    }

    /** The server's own side of a removal, and the position the node is told. */
    method TakeOffQueue(id: NodeId, index: nat) returns (position: nat)
      requires id in nodes && index < |nodes[id].queue|
      modifies this`nodes
      ensures OnlyTouches(id) && View(id) == RemoveOnServer(old(View(id)), index)
      ensures position == NodePosition(old(View(id)), index)
    {
      var node := nodes[id];
      position := index;
      var currentIndex := node.currentIndex;
      if node.currentIndex.Some? {
        var current := node.currentIndex.value;
        position := if index >= current then index - current else 0;
        if current == index && |node.queue| == 1 {
          currentIndex := None;
        } else if current == index {
          currentIndex := Some(if current <= |node.queue| - 2 then current else |node.queue| - 2);
        } else if current > index {
          currentIndex := Some(current - 1);
        }
      }
      nodes := nodes[id := node.(queue := RemoveAt(node.queue, index), currentIndex := currentIndex)];
    }

    method RemoveFromQueue(index: nat, accepted: bool) returns (result: Result<(), CoreError>)
      modifies this
      ensures old(selected).None? || old(selected).value !in old(nodes) ==> result == Err(NoActiveOutput) && unchanged(this)
      ensures old(selected).Some? && old(selected).value in old(nodes) ==>
        var id := old(selected).value;
        if index >= |old(nodes)[id].queue| then result == Err(QueueIndexOutOfBounds) && unchanged(this) else (
          && id in nodes && OnlyTouches(id)
          && View(id) == RemoveEntry(old(View(id)), index, old(nodes)[id].connected, accepted)
          && (result.Err? <==> old(nodes)[id].connected && old(View(id)).wire.Some? && !accepted))
    {
      hide RemoveOnServer, NodePosition;
      if selected.None? || selected.value !in nodes { return Err(NoActiveOutput); }
      var id := selected.value;
      if index >= |nodes[id].queue| { return Err(QueueIndexOutOfBounds); }
      var position := TakeOffQueue(id, index);
      if nodes[id].connected && id in wires {
        var sent := SendTo(id, Remove(position), accepted);
        if sent.Err? { return sent; }
        DecrementLoadedLen(id);
      }
      return Ok(());
    }

    /** The server's own side of a move, and the positions the node is told. */
    method MoveWithinQueue(id: NodeId, from: nat, to: nat) returns (nodeFrom: nat, nodeTo: nat)
      requires id in nodes && from < |nodes[id].queue| && to < |nodes[id].queue|
      modifies this`nodes
      ensures OnlyTouches(id) && View(id) == MoveOnServer(old(View(id)), from, to)
      ensures nodeFrom == NodePosition(old(View(id)), from) && nodeTo == NodePosition(old(View(id)), to)
    {
      var node := nodes[id];
      nodeFrom, nodeTo := from, to;
      var currentIndex := node.currentIndex;
      if node.currentIndex.Some? {
        var current := node.currentIndex.value;
        nodeFrom := if from >= current then from - current else 0;
        nodeTo := if to >= current then to - current else 0;
        if current == from {
          currentIndex := Some(to);
        } else if from < current && current <= to {
          currentIndex := Some(current - 1);
        } else if to <= current && current < from {
          currentIndex := Some(current + 1);
        }
      }
      var queue := RemoveAt(node.queue, from);
      queue := InsertAt(queue, to, node.queue[from]);
      nodes := nodes[id := node.(queue := queue, currentIndex := currentIndex)];
    }

    method MoveInQueue(from: nat, to: nat, accepted: bool) returns (result: Result<(), CoreError>)
      modifies this
      ensures old(selected).None? || old(selected).value !in old(nodes) ==> result == Err(NoActiveOutput) && unchanged(this)
      ensures old(selected).Some? && old(selected).value in old(nodes) ==>
        var id := old(selected).value;
        if from >= |old(nodes)[id].queue| || to >= |old(nodes)[id].queue|
        then result == Err(QueueIndexOutOfBounds) && unchanged(this) else (
          && id in nodes && OnlyTouches(id)
          && View(id) == NodeQueue.MoveEntry(old(View(id)), from, to, old(nodes)[id].connected, accepted)
          && (result.Err? <==> old(nodes)[id].connected && old(View(id)).wire.Some? && !accepted))
    {
      hide MoveOnServer, NodePosition;
      if selected.None? || selected.value !in nodes { return Err(NoActiveOutput); }
      var id := selected.value;
      if from >= |nodes[id].queue| || to >= |nodes[id].queue| { return Err(QueueIndexOutOfBounds); }
      var nodeFrom, nodeTo := MoveWithinQueue(id, from, to);
      if nodes[id].connected && id in wires {
        var sent := SendTo(id, MoveTrack(nodeFrom, nodeTo), accepted);
        if sent.Err? { return sent; }
      }
      return Ok(());
    }

    method PlayNode(id: NodeId, accepted: bool) returns (result: Result<(), CoreError>)
      modifies this`nodes
      ensures result.Ok? <==> id in wires && accepted
      ensures id in old(nodes) ==> id in nodes && OnlyTouches(id)
      ensures id in old(nodes) ==> View(id) == if result.Ok? then StartAtFirst(old(View(id))) else old(View(id))
    {
      if id !in wires { return Err(NoActiveOutput); }
      if !accepted { return Err(OutputFailed); }
      if id in nodes && nodes[id].queue != [] && nodes[id].currentIndex.None? {
        nodes := nodes[id := nodes[id].(currentIndex := Some(0))];
      }
      return Ok(());
    }
  }

  /** Commands go to the selected node if the server knows it and it is connected; each other case has its error. */
  lemma ActiveNodeMeans(core: Core, id: NodeId)
    ensures core.ActiveNode() == Ok(id) <==> core.selected == Some(id) && id in core.nodes && core.nodes[id].connected
    ensures core.selected == None ==> core.ActiveNode() == Err(NoActiveOutput)
    ensures core.selected == Some(id) && id !in core.nodes ==> core.ActiveNode() == Err(NodeNotFound)
    ensures core.selected == Some(id) && id in core.nodes && !core.nodes[id].connected ==>
      core.ActiveNode() == Err(NoActiveOutput)
  {
  }
}
