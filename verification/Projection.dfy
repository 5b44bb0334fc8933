/** The queue projection protocol: the server, one FIFO channel each way, the node's pending
    signatures and its player, as a state machine; and what holds in every run of it. */
module Projection {
  import opened Wrappers
  import opened PlayerProtocol
  import opened NodeQueue

  /** A report on its way to the server. `playing` is history: what the node was playing when
      it sent the report. The server reads only `report`. */
  datatype Sent = Sent(report: Report, playing: Option<string>)

  /** `signing` holds the messages that have arrived at the node and wait for their URLs to be
      signed. It belongs to the page, and outlives the connection. */
  datatype System = System(server: NodeView, signing: seq<NodeCommand>, player: PlayerState, reports: seq<Sent>)

  /** One step. `accepted` says whether the node's output takes the message of a command. */
  datatype Action =
    | PlayFrom(index: nat, accepted: bool)
    | NewQueue(tracks: seq<Track>, start: Option<nat>, accepted: bool)
    | ClearQueue(accepted: bool)
    | AddToQueue(tracks: seq<Track>, accepted: bool)
    | ResyncOutput(accepted: bool)
    | PlayFirst
    | Disconnect
    | Restart(restored: seq<Track>)
    | Connect(keepsPlayer: bool, accepted: bool)
    | NodeArrives
    | NodeApplies(which: nat)
    | NodeEnds
    | NodeReports
    | ServerReceives

  const INITIAL := System(NodeView([], None, None, None), [], INITIAL_PLAYER, [])

  predicate Connected(s: System) { s.server.wire.Some? }

  /** When a step can happen: indices a caller passes are on the queue, and a channel is read
      only when it holds a message. Signatures may come back in any order. */
  predicate Enabled(s: System, a: Action) {
    match a
    case PlayFrom(index, _) => index < |s.server.queue|
    case NewQueue(tracks, start, _) => start.Some? ==> start.value < |tracks|
    case Connect(_, _) => !Connected(s)
    case NodeArrives => Connected(s) && s.server.wire.value != []
    case NodeApplies(k) => k < |s.signing|
    case NodeReports => Connected(s)
    case ServerReceives => s.reports != []
    case _ => true
  }

  /** The server comes back with the queue it finds in its database, and has forgotten what it sent. */
  function Restarted(v: NodeView, restored: seq<Track>): NodeView {
    var current := if v.currentIndex.Some? && v.currentIndex.value < |restored| then v.currentIndex else None;
    NodeView(restored, current, None, None)
  }

  function Step(s: System, a: Action): System
    requires Enabled(s, a)
  {
    match a
    case PlayFrom(index, accepted) => s.(server := JumpTo(s.server, index, accepted))
    case NewQueue(tracks, start, accepted) =>
      s.(server := Replace(s.server, tracks, start, Connected(s), accepted))
    case ClearQueue(accepted) => s.(server := ClearAll(s.server, Connected(s), accepted))
    case AddToQueue(tracks, accepted) => s.(server := Append(s.server, tracks, Connected(s), accepted))
    case ResyncOutput(accepted) => s.(server := Resync(s.server, accepted))
    case PlayFirst => s.(server := StartAtFirst(s.server))
    case Disconnect => s.(server := s.server.(wire := None), reports := [])
    case Restart(restored) => s.(server := Restarted(s.server, restored), reports := [])
    case Connect(keepsPlayer, accepted) =>
      System(Resync(s.server.(wire := Some([])), accepted),
        if keepsPlayer then s.signing else [], if keepsPlayer then s.player else INITIAL_PLAYER, [])
    case NodeArrives =>
      s.(server := s.server.(wire := Some(s.server.wire.value[1..])), signing := s.signing + [s.server.wire.value[0]])
    case NodeApplies(k) => s.(signing := RemoveAt(s.signing, k), player := Receive(s.player, s.signing[k]))
    case NodeEnds => s.(player := Ended(s.player))
    case NodeReports =>
      s.(reports := s.reports + [Sent(Report(s.player.songIndex, s.player.generation), Playing(s.player))])
    case ServerReceives => s.(server := Observe(s.server, s.reports[0].report), reports := s.reports[1..])
  }

  // What the node will hold.

  /** What the player has not applied yet, in the order in which it was sent. */
  function OnItsWay(s: System): seq<NodeCommand> {
    s.signing + if Connected(s) then s.server.wire.value else []
  }

  function CaughtUp(s: System): PlayerState {
    ReceiveAll(s.player, OnItsWay(s))
  }

  /** The node holds, or is about to hold, the current projection, and that projection is of
      a part of the queue. */
  predicate Live(s: System) {
    Connected(s) && s.server.transport.Some? && s.server.transport.value.start.Some?
    && CaughtUp(s).generation == s.server.transport.value.generation
  }

  /** The node's playlist stops short of the end of the queue: an earlier addition was refused
      by the output after the queue had grown, or was overtaken by a new queue. */
  predicate Gap(s: System) {
    Live(s) && s.server.transport.value.start.value + |CaughtUp(s).playlist| < |s.server.queue|
  }

  // What the server makes of a report.

  /** What a report is measured against: the current generation, the projected part of the queue,
      and, past a gap, the length below which indices are taken at all. */
  datatype Measure = Measure(generation: nat, suffix: Option<seq<string>>, bound: Option<nat>)

  function MeasureOf(s: System): Measure {
    var t := TransportOf(s.server);
    Measure(t.generation, if t.start.Some? then Some(Suffix(s.server.queue, t.start.value)) else None,
      if Gap(s) then Some(t.loadedLen) else None)
  }

  function EntryAt(playlist: seq<string>, i: nat): Option<string> {
    if i < |playlist| then Some(playlist[i]) else None
  }

  /** A report of this generation and index, sent while `playing`, can do no harm: it is older than
      the projection, or the projection has that very track there. */
  predicate Right(m: Measure, generation: nat, i: nat, playing: Option<string>) {
    && generation <= m.generation
    && (generation == m.generation && m.suffix.Some? && (m.bound.Some? ==> i < m.bound.value) ==>
          i < |m.suffix.value| && playing == Some(m.suffix.value[i]))
  }

  /** Whatever the player may report while it plays on is right. */
  ghost predicate LinesUp(m: Measure, p: PlayerState) {
    forall i: nat {:trigger EntryAt(p.playlist, i)} ::
      p.songIndex <= i && (i < |p.playlist| || i == p.songIndex) ==> Right(m, p.generation, i, EntryAt(p.playlist, i))
  }

  /** So it is now, and after each of the commands. */
  ghost predicate AllLineUp(m: Measure, p: PlayerState, commands: seq<NodeCommand>)
    decreases |commands|
  {
    LinesUp(m, p) && (commands != [] ==> AllLineUp(m, Receive(p, commands[0]), commands[1..]))
  }

  ghost predicate ReportsAreRight(m: Measure, reports: seq<Sent>) {
    forall sent <- reports :: Right(m, sent.report.generation, sent.report.songIndex, sent.playing)
  }

  /** The node, what is on its way to it, and what it has reported line up with the queue. */
  ghost predicate InLine(s: System) {
    AllLineUp(MeasureOf(s), s.player, OnItsWay(s)) && ReportsAreRight(MeasureOf(s), s.reports)
  }

  /** The rules under which runs are safe: an addition past a gap, a message that overtakes others, and
      a player that is kept across a new connection leave the node in line. */
  ghost predicate Careful(s: System, a: Action) {
    match a
    case AddToQueue(tracks, accepted) => tracks != [] && accepted && Gap(s) ==> InLine(Step(s, a))
    case NodeApplies(k) => Connected(s) && 0 < k < |s.signing| ==> InLine(Step(s, a))
    case Connect(keepsPlayer, _) => Enabled(s, a) && keepsPlayer ==> InLine(Step(s, a))
    case _ => true
  }

  // The invariant.

  /** Besides new queues only additions travel. */
  ghost predicate OnlyQueueing(commands: seq<NodeCommand>) {
    forall c <- commands :: c.SetQueue? || c.Add?
  }

  /** What the code takes for granted of its own state. */
  ghost predicate WellFormed(s: System) {
    && WellPlaced(s.player)
    && (s.server.currentIndex.Some? ==> s.server.currentIndex.value < |s.server.queue|)
    && OnlyQueueing(OnItsWay(s))
    && (!Connected(s) ==> s.reports == [])
  }

  ghost predicate Inv(s: System) {
    WellFormed(s) && (Connected(s) ==> InLine(s))
  }

  // Facts about lining up.

  /** Everything that is right by one measure is right by the other. */
  ghost predicate Implies(m: Measure, n: Measure) {
    || m.generation < n.generation
    || (m.generation == n.generation
        && (n.suffix.Some? ==> m.suffix.Some? && m.suffix.value <= n.suffix.value)
        && (m.bound.Some? ==> n.bound.Some? && n.bound.value <= m.bound.value))
  }

  lemma RightByOther(m: Measure, n: Measure, generation: nat, i: nat, playing: Option<string>)
    requires Implies(m, n) && Right(m, generation, i, playing)
    ensures Right(n, generation, i, playing)
  {
  }

  lemma LinesUpByOther(m: Measure, n: Measure, p: PlayerState)
    requires Implies(m, n) && LinesUp(m, p)
    ensures LinesUp(n, p)
  {
    hide Right, Implies;
    forall i: nat | p.songIndex <= i && (i < |p.playlist| || i == p.songIndex)
      ensures Right(n, p.generation, i, EntryAt(p.playlist, i))
    {
      RightByOther(m, n, p.generation, i, EntryAt(p.playlist, i));
    }
  }

  lemma {:induction false} AllLineUpByOther(m: Measure, n: Measure, p: PlayerState, commands: seq<NodeCommand>)
    requires Implies(m, n) && AllLineUp(m, p, commands)
    ensures AllLineUp(n, p, commands)
    decreases |commands|
  {
    hide LinesUp, Receive, Implies;
    LinesUpByOther(m, n, p);
    if commands != [] {
      AllLineUpByOther(m, n, Receive(p, commands[0]), commands[1..]);
    }
  }

  lemma {:induction false} AllLineUpAppend(m: Measure, p: PlayerState, commands: seq<NodeCommand>, last: NodeCommand)
    requires AllLineUp(m, p, commands) && LinesUp(m, Receive(ReceiveAll(p, commands), last))
    ensures AllLineUp(m, p, commands + [last])
    decreases |commands|
  {
    hide LinesUp, Receive;
    if commands != [] {
      assert (commands + [last])[1..] == commands[1..] + [last];
      AllLineUpAppend(m, Receive(p, commands[0]), commands[1..], last);
    } else {
      assert (commands + [last])[1..] == [];
    }
  }

  lemma {:induction false} LastLinesUp(m: Measure, p: PlayerState, commands: seq<NodeCommand>)
    requires AllLineUp(m, p, commands)
    ensures LinesUp(m, ReceiveAll(p, commands))
    decreases |commands|
  {
    hide LinesUp, Receive;
    if commands != [] {
      LastLinesUp(m, Receive(p, commands[0]), commands[1..]);
    }
  }

  /** The player has advanced. */
  ghost predicate PlayedOn(p: PlayerState, q: PlayerState) {
    q == p.(songIndex := q.songIndex) && p.songIndex <= q.songIndex
    && (p.songIndex < q.songIndex ==> q.songIndex < |q.playlist|)
  }

  lemma PlayedOnAfter(p: PlayerState, q: PlayerState, command: NodeCommand)
    requires PlayedOn(p, q) && (command.SetQueue? || command.Add?)
    ensures PlayedOn(Receive(p, command), Receive(q, command))
  {
  }

  lemma PlayedOnLinesUp(m: Measure, p: PlayerState, q: PlayerState)
    requires PlayedOn(p, q) && LinesUp(m, p)
    ensures LinesUp(m, q)
  {
    hide Right;
    forall i: nat | q.songIndex <= i && (i < |q.playlist| || i == q.songIndex)
      ensures Right(m, q.generation, i, EntryAt(q.playlist, i))
    {
      assert EntryAt(p.playlist, i) == EntryAt(q.playlist, i);
    }
  }

  /** Playing on changes nothing about what will be held, and leaves it in line. */
  lemma {:induction false} PlayedOnInLine(m: Measure, p: PlayerState, q: PlayerState, commands: seq<NodeCommand>)
    requires PlayedOn(p, q) && OnlyQueueing(commands)
    ensures ReceiveAll(q, commands).playlist == ReceiveAll(p, commands).playlist
    ensures ReceiveAll(q, commands).generation == ReceiveAll(p, commands).generation
    ensures AllLineUp(m, p, commands) ==> AllLineUp(m, q, commands)
    decreases |commands|
  {
    hide LinesUp, Receive;
    if AllLineUp(m, p, commands) {
      PlayedOnLinesUp(m, p, q);
    }
    if commands != [] {
      assert commands[0] in commands;
      PlayedOnAfter(p, q, commands[0]);
      PlayedOnInLine(m, Receive(p, commands[0]), Receive(q, commands[0]), commands[1..]);
    } else {
      PlayedOnSame(p, q);
    }
  }

  lemma PlayedOnSame(p: PlayerState, q: PlayerState)
    requires PlayedOn(p, q)
    ensures q.playlist == p.playlist && q.generation == p.generation
  {
  }

  /** A queue that is the projected part lines up. */
  lemma NewQueueLinesUp(m: Measure, paths: seq<string>)
    requires m.suffix.Some? ==> paths == m.suffix.value && paths != []
    ensures LinesUp(m, PlayerState(paths, 0, m.generation))
  {
  }

  lemma OlderLinesUp(m: Measure, p: PlayerState)
    requires p.generation < m.generation
    ensures LinesUp(m, p)
  {
  }

  // Every careful step keeps the invariant.

  lemma ReportsByOther(m: Measure, n: Measure, reports: seq<Sent>)
    requires Implies(m, n) && ReportsAreRight(m, reports)
    ensures ReportsAreRight(n, reports)
  {
    hide Right, Implies;
    forall sent <- reports
      ensures Right(n, sent.report.generation, sent.report.songIndex, sent.playing)
    {
      RightByOther(m, n, sent.report.generation, sent.report.songIndex, sent.playing);
    }
  }

  /** The server's end may change if it measures everything on its way no more strictly. */
  lemma ServerMayChange(s: System, after: System)
    requires Inv(s) && WellFormed(after) && Connected(s) && Connected(after)
    requires after == s.(server := after.server) && OnItsWay(after) == OnItsWay(s)
    requires Implies(MeasureOf(s), MeasureOf(after))
    ensures Inv(after)
  {
    hide MeasureOf, AllLineUp, ReportsAreRight, WellFormed, Implies;
    AllLineUpByOther(MeasureOf(s), MeasureOf(after), s.player, OnItsWay(s));
    ReportsByOther(MeasureOf(s), MeasureOf(after), s.reports);
  }

  /** So it may if it sends one more command that lines up. */
  lemma ServerMaySend(s: System, after: System, last: NodeCommand)
    requires Inv(s) && WellFormed(after) && Connected(s) && Connected(after)
    requires after == s.(server := after.server) && OnItsWay(after) == OnItsWay(s) + [last]
    requires Implies(MeasureOf(s), MeasureOf(after))
    requires LinesUp(MeasureOf(after), Receive(CaughtUp(s), last))
    ensures Inv(after)
  {
    hide MeasureOf, AllLineUp, ReportsAreRight, WellFormed, Implies, LinesUp, Receive;
    AllLineUpByOther(MeasureOf(s), MeasureOf(after), s.player, OnItsWay(s));
    ReportsByOther(MeasureOf(s), MeasureOf(after), s.reports);
    AllLineUpAppend(MeasureOf(after), s.player, OnItsWay(s), last);
  }

  /** A rebuilt projection, whether or not the node hears of it. */
  lemma RebuildKeepsInv(s: System, v: NodeView, start: Option<nat>, loadedLen: nat, paths: seq<string>, accepted: bool)
    requires Inv(s) && v.transport == s.server.transport && v.wire == s.server.wire
    requires v.currentIndex.Some? ==> v.currentIndex.value < |v.queue|
    requires Reaches(v, accepted) && start.Some? ==> start.value < |v.queue| && paths == Suffix(v.queue, start.value)
    ensures Inv(s.(server := SendQueue(Rebuild(v, start, loadedLen), paths, accepted)))
  {
    hide AllLineUp, ReportsAreRight, LinesUp, Suffix, Gap;
    var after := s.(server := SendQueue(Rebuild(v, start, loadedLen), paths, accepted));
    if Connected(s) {
      if accepted {
        var last := SetQueue(paths, TransportOf(after.server).generation);
        assert OnItsWay(after) == OnItsWay(s) + [last];
        if start.Some? {
          SuffixIsNotEmpty(v.queue, start.value);
        }
        NewQueueLinesUp(MeasureOf(after), paths);
        ServerMaySend(s, after, last);
      } else {
        assert OnItsWay(after) == OnItsWay(s);
        ServerMayChange(s, after);
      }
    }
  }

  lemma SuffixIsNotEmpty(queue: seq<Track>, start: nat)
    requires start < |queue|
    ensures Suffix(queue, start) != [] && |Suffix(queue, start)| == |queue| - start
  {
  }

  lemma SuffixIsPrefix(queue: seq<Track>, tracks: seq<Track>, start: nat)
    ensures Suffix(queue, start) <= Suffix(queue + tracks, start)
  {
    if start <= |queue| {
      SuffixGrows(queue, tracks, start);
    }
  }

  lemma SuffixGrows(queue: seq<Track>, tracks: seq<Track>, start: nat)
    requires start <= |queue|
    ensures Suffix(queue + tracks, start) == Suffix(queue, start) + Paths(tracks)
  {
  }

  /** Without a gap, a node that will hold the current projection will hold all of it. */
  lemma LiveHoldsAll(s: System)
    requires Inv(s) && Live(s) && !Gap(s)
    ensures var p := CaughtUp(s); var start := s.server.transport.value.start.value;
      var whole := Suffix(s.server.queue, start);
      && start <= |s.server.queue| && p.songIndex < |p.playlist| == |whole|
      && forall i :: p.songIndex <= i < |p.playlist| ==> p.playlist[i] == whole[i]
  {
    hide AllLineUp, ReceiveAll, ReportsAreRight;
    var p := CaughtUp(s);
    var m := MeasureOf(s);
    LastLinesUp(m, s.player, OnItsWay(s));
    assert Right(m, p.generation, p.songIndex, EntryAt(p.playlist, p.songIndex));
    assert EntryAt(p.playlist, |p.playlist| - 1).Some?;
    forall i | p.songIndex <= i < |p.playlist|
      ensures p.playlist[i] == m.suffix.value[i]
    {
      assert Right(m, p.generation, i, EntryAt(p.playlist, i));
    }
  }

  lemma AdditionLinesUp(s: System, tracks: seq<Track>, after: System)
    requires Inv(s) && Connected(s) && tracks != [] && !Gap(s)
    requires after == Step(s, AddToQueue(tracks, true))
    ensures OnItsWay(after) == OnItsWay(s) + [Add(Paths(tracks))]
    ensures CaughtUp(after) == Receive(CaughtUp(s), Add(Paths(tracks)))
    ensures Implies(MeasureOf(s), MeasureOf(after)) && LinesUp(MeasureOf(after), CaughtUp(after))
  {
    hide AllLineUp, ReceiveAll, Suffix, ReportsAreRight;
    assert OnItsWay(after) == OnItsWay(s) + [Add(Paths(tracks))];
    ReceiveAllAppend(s.player, OnItsWay(s), Add(Paths(tracks)));
    LastLinesUp(MeasureOf(s), s.player, OnItsWay(s));
    var t := TransportOf(s.server);
    if t.start.Some? {
      SuffixIsPrefix(s.server.queue, tracks, t.start.value);
      if Live(s) {
        LiveAdditionLinesUp(s, tracks, after);
      } else {
        assert Right(MeasureOf(s), CaughtUp(s).generation, CaughtUp(s).songIndex, EntryAt(CaughtUp(s).playlist, CaughtUp(s).songIndex));
        OlderLinesUp(MeasureOf(after), CaughtUp(after));
      }
    } else {
      assert Right(MeasureOf(s), CaughtUp(s).generation, CaughtUp(s).songIndex, EntryAt(CaughtUp(s).playlist, CaughtUp(s).songIndex));
    }
  }

  lemma LiveAdditionLinesUp(s: System, tracks: seq<Track>, after: System)
    requires Inv(s) && Live(s) && !Gap(s) && tracks != []
    requires after == Step(s, AddToQueue(tracks, true))
    requires CaughtUp(after) == Receive(CaughtUp(s), Add(Paths(tracks)))
    ensures !Gap(after) && LinesUp(MeasureOf(after), CaughtUp(after))
  {
    hide AllLineUp, ReceiveAll, Suffix, ReportsAreRight;
    var start := s.server.transport.value.start.value;
    LiveHoldsAll(s);
    SuffixGrows(s.server.queue, tracks, start);
  }

  lemma AddedCommandsOnly(s: System, tracks: seq<Track>, after: System)
    requires WellFormed(s) && Connected(s) && tracks != [] && after == Step(s, AddToQueue(tracks, true))
    ensures WellFormed(after) && OnItsWay(after) == OnItsWay(s) + [Add(Paths(tracks))]
    ensures CaughtUp(after) == Receive(CaughtUp(s), Add(Paths(tracks)))
  {
    assert OnItsWay(after) == OnItsWay(s) + [Add(Paths(tracks))];
    ReceiveAllAppend(s.player, OnItsWay(s), Add(Paths(tracks)));
    forall c <- OnItsWay(after)
      ensures c in OnItsWay(s) || c.Add?
    {
    }
  }

  lemma AppendKeepsInv(s: System, tracks: seq<Track>, accepted: bool)
    requires Inv(s) && Careful(s, AddToQueue(tracks, accepted))
    ensures Inv(Step(s, AddToQueue(tracks, accepted)))
  {
    hide AllLineUp, ReportsAreRight, LinesUp, Suffix;
    var after := Step(s, AddToQueue(tracks, accepted));
    if tracks != [] && Connected(s) {
      if accepted && Gap(s) {
        AddedCommandsOnly(s, tracks, after);
      } else if accepted {
        AdditionLinesUp(s, tracks, after);
        hide MeasureOf, CaughtUp;
        ServerMaySend(s, after, Add(Paths(tracks)));
      } else {
        if TransportOf(s.server).start.Some? {
          SuffixIsPrefix(s.server.queue, tracks, TransportOf(s.server).start.value);
        }
        ServerMayChange(s, after);
      }
    }
  }

  lemma ApplyKeepsInv(s: System, k: nat)
    requires Inv(s) && Enabled(s, NodeApplies(k)) && Careful(s, NodeApplies(k))
    ensures Inv(Step(s, NodeApplies(k)))
  {
    hide LinesUp, Receive, MeasureOf, ReportsAreRight;
    var after := Step(s, NodeApplies(k));
    var command := s.signing[k];
    assert command in OnItsWay(s);
    PlayerStaysPlaced(s.player, command);
    FewerOnTheirWay(s, k);
    if Connected(s) {
      assert after.server == s.server;
      if k == 0 {
        FirstIsApplied(s);
      }
    }
  }

  /** Applying what arrived first changes nothing about what the node will hold. */
  lemma FirstIsApplied(s: System)
    requires s.signing != []
    ensures var after := Step(s, NodeApplies(0));
      && OnItsWay(after) == OnItsWay(s)[1..] && CaughtUp(after) == CaughtUp(s) && MeasureOf(after) == MeasureOf(s)
    ensures InLine(s) ==> InLine(Step(s, NodeApplies(0)))
  {
    hide LinesUp, Receive, ReportsAreRight;
    var after := Step(s, NodeApplies(0));
    assert OnItsWay(after) == OnItsWay(s)[1..] && OnItsWay(s)[0] == s.signing[0];
    assert MeasureOf(after) == MeasureOf(s);
  }

  lemma NodeStepKeepsInv(s: System, a: Action)
    requires Inv(s) && Enabled(s, a) && Careful(s, a)
    requires a.NodeArrives? || a.NodeApplies? || a.NodeEnds? || a.NodeReports? || a.ServerReceives?
    ensures Inv(Step(s, a))
  {
    hide LinesUp, AllLineUp, ReportsAreRight;
    match a
    case NodeArrives => assert OnItsWay(Step(s, a)) == OnItsWay(s);
    case NodeApplies(k) => ApplyKeepsInv(s, k);
    case NodeEnds => EndKeepsInv(s);
    case NodeReports => ReportKeepsInv(s);
    case ServerReceives =>
      ReceivingKeepsMeasure(s);
      FewerReports(MeasureOf(s), s.reports);
  }

  lemma EndKeepsInv(s: System)
    requires Inv(s)
    ensures Inv(Step(s, NodeEnds))
  {
    hide LinesUp, AllLineUp, ReportsAreRight, ReceiveAll;
    PlayerStaysPlaced(s.player, Add([]));
    PlayedOnInLine(MeasureOf(s), s.player, Ended(s.player), OnItsWay(s));
    assert MeasureOf(Step(s, NodeEnds)) == MeasureOf(s);
  }

  lemma ReportKeepsInv(s: System)
    requires Inv(s) && Connected(s)
    ensures Inv(Step(s, NodeReports))
  {
    hide LinesUp, Right;
    var after := Step(s, NodeReports);
    assert OnItsWay(after) == OnItsWay(s) && MeasureOf(after) == MeasureOf(s);
    ReportIsRight(MeasureOf(s), s.player);
  }

  lemma ReceivingKeepsMeasure(s: System)
    requires s.reports != []
    ensures var after := Step(s, ServerReceives);
      && OnItsWay(after) == OnItsWay(s) && MeasureOf(after) == MeasureOf(s) && CaughtUp(after) == CaughtUp(s)
  {
    hide AllLineUp, ReceiveAll, Suffix;
  }

  lemma FewerReports(m: Measure, reports: seq<Sent>)
    requires reports != [] && ReportsAreRight(m, reports)
    ensures ReportsAreRight(m, reports[1..])
  {
    hide Right;
  }

  lemma FewerOnTheirWay(s: System, k: nat)
    requires k < |s.signing| && OnlyQueueing(OnItsWay(s))
    ensures OnlyQueueing(OnItsWay(Step(s, NodeApplies(k))))
  {
    forall c <- OnItsWay(Step(s, NodeApplies(k)))
      ensures c in OnItsWay(s)
    {
    }
  }

  lemma ReportIsRight(m: Measure, p: PlayerState)
    requires LinesUp(m, p)
    ensures Right(m, p.generation, p.songIndex, Playing(p))
  {
    assert Right(m, p.generation, p.songIndex, EntryAt(p.playlist, p.songIndex));
  }

  lemma ConnectKeepsInv(s: System, keepsPlayer: bool, accepted: bool)
    requires Inv(s) && !Connected(s) && Careful(s, Connect(keepsPlayer, accepted))
    ensures Inv(Step(s, Connect(keepsPlayer, accepted)))
  {
    hide LinesUp, AllLineUp;
    var after := Step(s, Connect(keepsPlayer, accepted));
    if !keepsPlayer {
      FreshPlayerLinesUp(s, accepted);
    }
  }

  lemma OneLinesUp(m: Measure, p: PlayerState, command: NodeCommand)
    requires LinesUp(m, p) && LinesUp(m, Receive(p, command))
    ensures AllLineUp(m, p, [command])
  {
    hide LinesUp, Receive;
    assert [command][1..] == [];
    assert AllLineUp(m, Receive(p, command), []);
  }

  lemma FreshPlayerLinesUp(s: System, accepted: bool)
    requires WellFormed(s) && !Connected(s)
    ensures InLine(Step(s, Connect(false, accepted)))
  {
    hide LinesUp, Suffix;
    var after := Step(s, Connect(false, accepted));
    var m := MeasureOf(after);
    OlderLinesUp(m, INITIAL_PLAYER);
    if accepted {
      var command := after.server.wire.value[0];
      assert OnItsWay(after) == [command] && OnItsWay(after)[1..] == [];
      if s.server.currentIndex.Some? {
        SuffixIsNotEmpty(s.server.queue, s.server.currentIndex.value);
      }
      NewQueueLinesUp(m, command.paths);
      assert Receive(INITIAL_PLAYER, command) == PlayerState(command.paths, 0, m.generation);
      OneLinesUp(m, INITIAL_PLAYER, command);
    } else {
      assert OnItsWay(after) == [];
    }
  }

  lemma StepKeepsInv(s: System, a: Action)
    requires Inv(s) && Enabled(s, a) && Careful(s, a)
    ensures Inv(Step(s, a))
  {
    match a
    case PlayFrom(index, accepted) =>
      RebuildKeepsInv(s, s.server.(currentIndex := Some(index)), Some(index),
        |Suffix(s.server.queue, index)|, Suffix(s.server.queue, index), accepted);
    case NewQueue(tracks, start, accepted) => NewQueueKeepsInv(s, tracks, start, accepted);
    case ClearQueue(accepted) =>
      hide InLine;
      var v := if Connected(s) && !accepted then s.server else s.server.(queue := [], currentIndex := None);
      if Connected(s) {
        RebuildKeepsInv(s, v, None, 0, [], accepted);
      }
    case AddToQueue(tracks, accepted) => AppendKeepsInv(s, tracks, accepted);
    case ResyncOutput(accepted) =>
      var current := s.server.currentIndex;
      RebuildKeepsInv(s, s.server, current, |s.server.queue|,
        Suffix(s.server.queue, if current.Some? then current.value else 0), accepted);
    case PlayFirst =>
    case Disconnect => LessOnItsWay(s, Step(s, a));
    case Restart(_) => LessOnItsWay(s, Step(s, a));
    case Connect(keepsPlayer, accepted) => ConnectKeepsInv(s, keepsPlayer, accepted);
    case _ => NodeStepKeepsInv(s, a);
  }

  lemma LessOnItsWay(s: System, after: System)
    requires OnlyQueueing(OnItsWay(s)) && after.signing == s.signing && !Connected(after)
    ensures OnlyQueueing(OnItsWay(after))
  {
    forall c <- OnItsWay(after)
      ensures c in OnItsWay(s)
    {
    }
  }

  lemma NewQueueKeepsInv(s: System, tracks: seq<Track>, start: Option<nat>, accepted: bool)
    requires Inv(s) && Enabled(s, NewQueue(tracks, start, accepted))
    ensures Inv(Step(s, NewQueue(tracks, start, accepted)))
  {
    hide InLine;
    if Connected(s) {
      var paths := Suffix(tracks, if start.Some? then start.value else 0);
      var v := if accepted then s.server.(queue := tracks, currentIndex := start) else s.server;
      RebuildKeepsInv(s, v, if paths == [] then None else start, |paths|, paths, accepted);
    }
  }

  // Safety.

  /** Taking an index from a report selects the very track the node was playing when it sent
      the report; a report of an older generation changes nothing. */
  ghost predicate SafeStep(s: System, a: Action) {
    a.ServerReceives? && Enabled(s, a) ==>
      var sent := s.reports[0];
      var taken := ProjectedIndex(s.server, sent.report);
      && (taken.Some? ==>
            && taken.value < |s.server.queue|
            && Step(s, a).server.currentIndex == taken
            && sent.playing == Some(s.server.queue[taken.value].filePath))
      && (sent.report.generation < TransportOf(s.server).generation ==> Step(s, a).server == s.server)
  }

  lemma InvMakesStepsSafe(s: System, a: Action)
    requires Inv(s)
    ensures SafeStep(s, a)
  {
    hide AllLineUp, Gap;
    if a.ServerReceives? && Enabled(s, a) {
      var sent := s.reports[0];
      assert Right(MeasureOf(s), sent.report.generation, sent.report.songIndex, sent.playing);
    }
  }

  /** A run: every action is possible and careful when it is taken. */
  ghost predicate Run(s: System, actions: seq<Action>)
    decreases |actions|
  {
    actions == [] ||
    (Enabled(s, actions[0]) && Careful(s, actions[0]) && Run(Step(s, actions[0]), actions[1..]))
  }

  ghost predicate SafeThroughout(s: System, actions: seq<Action>)
    requires Run(s, actions)
    decreases |actions|
  {
    actions == [] || (SafeStep(s, actions[0]) && SafeThroughout(Step(s, actions[0]), actions[1..]))
  }

  lemma {:induction false} RunsAreSafe(s: System, actions: seq<Action>)
    requires Inv(s) && Run(s, actions)
    ensures SafeThroughout(s, actions)
    decreases |actions|
  {
    hide Inv, SafeStep, Careful, Step, Enabled;
    if actions != [] {
      InvMakesStepsSafe(s, actions[0]);
      StepKeepsInv(s, actions[0]);
      RunsAreSafe(Step(s, actions[0]), actions[1..]);
    }
  }

  lemma InitiallyInLine()
    ensures Inv(INITIAL)
  {
  }

  /** The protocol is safe: in every careful run from the start, whatever is delayed, refused or lost,
      and however often the server restarts, an index taken from a report selects the track the node
      was playing. */
  lemma ProtocolIsSafe(actions: seq<Action>)
    requires Run(INITIAL, actions)
    ensures SafeThroughout(INITIAL, actions)
  {
    hide Run, SafeThroughout;
    InitiallyInLine();
    RunsAreSafe(INITIAL, actions);
  }
}
