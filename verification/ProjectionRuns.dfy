/** Runs of the queue projection protocol: what they keep when the server stays up and messages are
    applied in order, and where deliveries alone lead. */
module ProjectionRuns {
  import opened Wrappers
  import opened PlayerProtocol
  import opened NodeQueue
  import opened Projection

  ghost function Execute(s: System, actions: seq<Action>): System
    requires Run(s, actions)
    decreases |actions|
  {
    if actions == [] then s else Execute(Step(s, actions[0]), actions[1..])
  }

  lemma {:induction false} RunConcat(s: System, first: seq<Action>, second: seq<Action>)
    requires Run(s, first) && Run(Execute(s, first), second)
    ensures Run(s, first + second)
    ensures Execute(s, first + second) == Execute(Execute(s, first), second)
    ensures SafeThroughout(s, first + second) ==> SafeThroughout(Execute(s, first), second)
    decreases |first|
  {
    hide Careful, Step, Enabled, SafeStep;
    if first == [] {
      assert [] + second == second;
    } else {
      assert (first + second)[1..] == first[1..] + second;
      RunConcat(Step(s, first[0]), first[1..], second);
    }
  }

  lemma RunOne(s: System, a: Action)
    requires Enabled(s, a) && Careful(s, a)
    ensures Run(s, [a]) && Execute(s, [a]) == Step(s, a)
  {
    hide Careful, Step, Enabled;
    assert [a][1..] == [];
    assert Run(Step(s, a), []);
    assert Execute(Step(s, a), []) == Step(s, a);
  }

  lemma {:induction false} RunsKeepInv(s: System, actions: seq<Action>)
    requires Inv(s) && Run(s, actions)
    ensures Inv(Execute(s, actions))
    decreases |actions|
  {
    hide Inv, Careful, Step, Enabled;
    if actions != [] {
      StepKeepsInv(s, actions[0]);
      RunsKeepInv(Step(s, actions[0]), actions[1..]);
    }
  }

  // Runs without a restart, with messages applied in the order of their arrival.

  /** What is added repeats, in order, what the longer queue holds from where the node's playlist stops. */
  predicate Repeats(s: System, tracks: seq<Track>)
    requires Gap(s)
  {
    var held := s.server.transport.value.start.value + |CaughtUp(s).playlist|;
    forall j :: 0 <= j < |tracks| ==> tracks[j].filePath == (s.server.queue + tracks)[held + j].filePath
  }

  /** The only care to take is to add past a gap nothing but the tracks standing there. */
  predicate Plain(s: System, a: Action) {
    match a
    case Restart(_) => false
    case NodeApplies(k) => k == 0
    case AddToQueue(tracks, accepted) => tracks != [] && accepted && Gap(s) ==> Repeats(s, tracks)
    case _ => true
  }

  ghost predicate PlainRun(s: System, actions: seq<Action>)
    decreases |actions|
  {
    actions == [] ||
    (Enabled(s, actions[0]) && Plain(s, actions[0]) && PlainRun(Step(s, actions[0]), actions[1..]))
  }

  /** Nothing at the node or on its way is of a generation that the server has not reached. */
  ghost predicate Past(s: System) {
    && s.player.generation <= TransportOf(s.server).generation
    && (forall c <- OnItsWay(s) :: c.SetQueue? ==> c.generation <= TransportOf(s.server).generation)
  }

  lemma {:induction false} OldCommandsLineUp(m: Measure, p: PlayerState, commands: seq<NodeCommand>)
    requires p.generation < m.generation && OnlyQueueing(commands)
    requires forall c <- commands :: c.SetQueue? ==> c.generation < m.generation
    ensures AllLineUp(m, p, commands)
    decreases |commands|
  {
    hide LinesUp;
    OlderLinesUp(m, p);
    if commands != [] {
      assert commands[0] in commands;
      OldCommandsLineUp(m, Receive(p, commands[0]), commands[1..]);
    }
  }

  lemma SetQueueReplaces(p: PlayerState, command: NodeCommand)
    requires command.SetQueue?
    ensures Receive(p, command) == PlayerState(command.paths, 0, command.generation)
  {
  }

  lemma StillPast(s: System, a: Action)
    requires Past(s) && Enabled(s, a) && Plain(s, a)
    ensures Past(Step(s, a))
  {
    hide Gap, Suffix;
    var after := Step(s, a);
    if a.NodeApplies? {
      assert s.signing[0] in OnItsWay(s);
      forall c <- OnItsWay(after)
        ensures c in OnItsWay(s)
      {
      }
    } else if a.NodeArrives? {
      assert OnItsWay(after) == OnItsWay(s);
    } else if a.NodeEnds? || a.NodeReports? || a.ServerReceives? || a.PlayFirst? || a.Disconnect? {
      forall c <- OnItsWay(after)
        ensures c in OnItsWay(s)
      {
      }
    } else {
      SendingKeepsPast(s, a);
    }
  }

  lemma SendingKeepsPast(s: System, a: Action)
    requires Past(s) && Enabled(s, a)
    requires a.PlayFrom? || a.NewQueue? || a.ClearQueue? || a.AddToQueue? || a.ResyncOutput? || a.Connect?
    ensures Past(Step(s, a))
  {
    hide Gap, Suffix;
    var after := Step(s, a);
    assert TransportOf(after.server).generation >= TransportOf(s.server).generation;
    forall c <- OnItsWay(after)
      ensures c in OnItsWay(s) || (c.SetQueue? ==> c.generation == TransportOf(after.server).generation)
    {
    }
  }

  /** A live node will have something to play, and the server counts all of it as loaded. */
  predicate Counted(s: System) {
    Live(s) ==>
      var p := CaughtUp(s);
      p.songIndex < |p.playlist| <= s.server.transport.value.loadedLen
  }

  // The entries that the server does not count as loaded line up as well.

  function Full(m: Measure): Measure { m.(bound := None) }

  /** In line, however much the server counts as loaded. */
  ghost predicate InFull(s: System) {
    AllLineUp(Full(MeasureOf(s)), s.player, OnItsWay(s)) && ReportsAreRight(Full(MeasureOf(s)), s.reports)
  }

  /** What plain runs keep. */
  ghost predicate Orderly(s: System) {
    WellFormed(s) && Past(s) && (Connected(s) ==> InFull(s))
  }

  lemma OrderlyIsInv(s: System)
    requires Orderly(s)
    ensures Inv(s)
  {
    hide WellFormed, Past, AllLineUp, ReportsAreRight, MeasureOf, OnItsWay;
    if Connected(s) {
      InFullIsInLine(s);
    }
  }

  lemma InFullIsInLine(s: System)
    requires InFull(s)
    ensures InLine(s)
  {
    hide AllLineUp, ReportsAreRight, MeasureOf, OnItsWay;
    var m := MeasureOf(s);
    AllLineUpByOther(Full(m), m, s.player, OnItsWay(s));
    ReportsByOther(Full(m), m, s.reports);
  }

  /** Without a gap there is nothing more to line up. */
  lemma NoGapIsInFull(s: System)
    requires InLine(s) && !Gap(s)
    ensures InFull(s)
  {
    hide AllLineUp, ReportsAreRight, Gap, Suffix;
    assert Full(MeasureOf(s)) == MeasureOf(s);
  }

  lemma StillInFull(s: System, after: System)
    requires InFull(s) && after == s.(server := after.server) && OnItsWay(after) == OnItsWay(s)
    requires Implies(Full(MeasureOf(s)), Full(MeasureOf(after)))
    ensures InFull(after)
  {
    hide AllLineUp, ReportsAreRight, MeasureOf, OnItsWay, Implies;
    AllLineUpByOther(Full(MeasureOf(s)), Full(MeasureOf(after)), s.player, OnItsWay(s));
    ReportsByOther(Full(MeasureOf(s)), Full(MeasureOf(after)), s.reports);
  }

  lemma InFullWithOneMore(s: System, after: System, last: NodeCommand)
    requires InFull(s) && after == s.(server := after.server) && OnItsWay(after) == OnItsWay(s) + [last]
    requires Implies(Full(MeasureOf(s)), Full(MeasureOf(after)))
    requires LinesUp(Full(MeasureOf(after)), Receive(CaughtUp(s), last))
    ensures InFull(after)
  {
    hide AllLineUp, ReportsAreRight, MeasureOf, OnItsWay, Implies, LinesUp, Receive;
    var n := Full(MeasureOf(after));
    AllLineUpByOther(Full(MeasureOf(s)), n, s.player, OnItsWay(s));
    ReportsByOther(Full(MeasureOf(s)), n, s.reports);
    AllLineUpAppend(n, s.player, OnItsWay(s), last);
  }

  lemma RebuildIsInFull(s: System, v: NodeView, start: Option<nat>, loadedLen: nat, paths: seq<string>, accepted: bool)
    requires InFull(s) && Connected(s) && v.transport == s.server.transport && v.wire == s.server.wire
    requires accepted && start.Some? ==> start.value < |v.queue| && paths == Suffix(v.queue, start.value)
    ensures InFull(s.(server := SendQueue(Rebuild(v, start, loadedLen), paths, accepted)))
  {
    hide AllLineUp, ReportsAreRight, LinesUp, Suffix, Gap;
    var after := s.(server := SendQueue(Rebuild(v, start, loadedLen), paths, accepted));
    if accepted {
      var last := SetQueue(paths, TransportOf(after.server).generation);
      assert OnItsWay(after) == OnItsWay(s) + [last];
      if start.Some? {
        SuffixIsNotEmpty(v.queue, start.value);
      }
      NewQueueLinesUp(Full(MeasureOf(after)), paths);
      SetQueueReplaces(CaughtUp(s), last);
      InFullWithOneMore(s, after, last);
    } else {
      assert OnItsWay(after) == OnItsWay(s);
      StillInFull(s, after);
    }
  }

  /** Past a gap, what repeats the tracks standing there lines up with them. */
  lemma RepeatedLinesUp(s: System, tracks: seq<Track>, after: System)
    requires InFull(s) && Gap(s) && tracks != [] && Repeats(s, tracks)
    requires after == Step(s, AddToQueue(tracks, true))
    ensures LinesUp(Full(MeasureOf(after)), Receive(CaughtUp(s), Add(Paths(tracks))))
  {
    hide AllLineUp, ReportsAreRight, CaughtUp, OnItsWay;
    var m, n := Full(MeasureOf(s)), Full(MeasureOf(after));
    var p := CaughtUp(s);
    var q := p.(playlist := p.playlist + Paths(tracks));
    var start := s.server.transport.value.start.value;
    assert LinesUp(m, p) by {
      hide LinesUp;
      LastLinesUp(m, s.player, OnItsWay(s));
      CaughtUpIsAll(s);
    }
    SuffixGrows(s.server.queue, tracks, start);
    assert Right(m, p.generation, p.songIndex, EntryAt(p.playlist, p.songIndex));
    assert p.songIndex < |p.playlist|;
    forall i: nat | q.songIndex <= i && (i < |q.playlist| || i == q.songIndex)
      ensures Right(n, q.generation, i, EntryAt(q.playlist, i))
    {
      if i < |p.playlist| {
        assert Right(m, p.generation, i, EntryAt(p.playlist, i));
      } else {
        var j := i - |p.playlist|;
        assert q.playlist[i] == tracks[j].filePath;
        assert n.suffix.value[i] == (s.server.queue + tracks)[start + i].filePath;
      }
    }
  }

  lemma CaughtUpIsAll(s: System)
    ensures CaughtUp(s) == ReceiveAll(s.player, OnItsWay(s))
  {
  }

  lemma AdditionIsInFull(s: System, tracks: seq<Track>, accepted: bool)
    requires WellFormed(s) && Connected(s) && InFull(s) && Plain(s, AddToQueue(tracks, accepted))
    ensures InFull(Step(s, AddToQueue(tracks, accepted)))
  {
    hide AllLineUp, ReportsAreRight, Suffix, LinesUp;
    var after := Step(s, AddToQueue(tracks, accepted));
    InFullIsInLine(s);
    if tracks != [] {
      if TransportOf(s.server).start.Some? {
        SuffixIsPrefix(s.server.queue, tracks, TransportOf(s.server).start.value);
      }
      if accepted {
        AddedCommandsOnly(s, tracks, after);
        if Gap(s) {
          RepeatedLinesUp(s, tracks, after);
        } else {
          AdditionStaysInFull(s, tracks, after);
        }
        hide Gap, CaughtUp, OnItsWay;
        InFullWithOneMore(s, after, Add(Paths(tracks)));
      } else {
        hide Gap;
        StillInFull(s, after);
      }
    }
  }

  lemma AdditionStaysInFull(s: System, tracks: seq<Track>, after: System)
    requires Inv(s) && Connected(s) && tracks != [] && !Gap(s) && after == Step(s, AddToQueue(tracks, true))
    ensures LinesUp(Full(MeasureOf(after)), Receive(CaughtUp(s), Add(Paths(tracks))))
  {
    hide AllLineUp, ReportsAreRight, Suffix, LinesUp;
    AdditionLinesUp(s, tracks, after);
    if Live(s) {
      LiveAdditionLinesUp(s, tracks, after);
    }
    assert Full(MeasureOf(after)) == MeasureOf(after);
  }

  lemma NodeStepIsInFull(s: System, a: Action)
    requires WellFormed(s) && InFull(s) && Connected(s) && Enabled(s, a) && Plain(s, a)
    requires a.NodeArrives? || a.NodeApplies? || a.NodeEnds? || a.NodeReports? || a.ServerReceives?
    ensures InFull(Step(s, a))
  {
    hide LinesUp, Receive, Right, Gap, Suffix;
    var after := Step(s, a);
    var m := Full(MeasureOf(s));
    match a
    case NodeArrives => assert OnItsWay(after) == OnItsWay(s);
    case NodeApplies(_) => FirstIsApplied(s);
    case NodeEnds => EndIsInFull(s);
    case NodeReports =>
      assert OnItsWay(after) == OnItsWay(s);
      ReportIsRight(m, s.player);
    case ServerReceives =>
      ReceivingKeepsMeasure(s);
      FewerReports(m, s.reports);
  }

  lemma EndIsInFull(s: System)
    requires WellFormed(s) && InFull(s) && Connected(s)
    ensures InFull(Step(s, NodeEnds))
  {
    hide LinesUp, AllLineUp, ReportsAreRight, ReceiveAll;
    PlayerStaysPlaced(s.player, Add([]));
    PlayedOnInLine(Full(MeasureOf(s)), s.player, Ended(s.player), OnItsWay(s));
    assert MeasureOf(Step(s, NodeEnds)) == MeasureOf(s);
  }

  lemma KeptPlayerIsPast(s: System, accepted: bool)
    requires WellFormed(s) && !Connected(s) && Past(s)
    ensures InFull(Step(s, Connect(true, accepted)))
  {
    hide LinesUp, Suffix, Gap, Receive, AllLineUp;
    var after := Step(s, Connect(true, accepted));
    var m := Full(MeasureOf(after));
    assert OnItsWay(s) == s.signing;
    OldCommandsLineUp(m, s.player, s.signing);
    if accepted {
      var command := after.server.wire.value[0];
      assert OnItsWay(after) == s.signing + [command];
      if s.server.currentIndex.Some? {
        SuffixIsNotEmpty(s.server.queue, s.server.currentIndex.value);
      }
      NewQueueLinesUp(m, command.paths);
      SetQueueReplaces(ReceiveAll(s.player, s.signing), command);
      AllLineUpAppend(m, s.player, s.signing, command);
    } else {
      assert OnItsWay(after) == s.signing;
    }
  }

  lemma ConnectIsInFull(s: System, keepsPlayer: bool, accepted: bool)
    requires WellFormed(s) && Past(s) && !Connected(s)
    ensures InFull(Step(s, Connect(keepsPlayer, accepted)))
  {
    hide LinesUp, AllLineUp, Gap, Receive, Suffix;
    var after := Step(s, Connect(keepsPlayer, accepted));
    if keepsPlayer {
      KeptPlayerIsPast(s, accepted);
    } else {
      KeptPlayerIsPast(s.(signing := [], player := INITIAL_PLAYER), accepted);
    }
  }

  /** A plain step is careful, and leaves everything at the node in line and no newer than the server. */
  lemma PlainStepsStayOrderly(s: System, a: Action)
    requires Orderly(s) && Enabled(s, a) && Plain(s, a)
    ensures Careful(s, a) && Orderly(Step(s, a))
  {
    hide WellFormed, InFull, Past, InLine, CaughtUp, Suffix;
    OrderlyIsInv(s);
    StillPast(s, a);
    if Connected(Step(s, a)) {
      PlainStepsStayInFull(s, a);
      InFullIsInLine(Step(s, a));
    }
    assert Careful(s, a);
    StepKeepsInv(s, a);
  }

  lemma PlainStepsStayInFull(s: System, a: Action)
    requires Orderly(s) && Enabled(s, a) && Plain(s, a) && Connected(Step(s, a))
    ensures InFull(Step(s, a))
  {
    hide AllLineUp, ReportsAreRight, Gap, Past;
    match a
    case PlayFrom(index, accepted) =>
      var v := s.server.(currentIndex := Some(index));
      RebuildIsInFull(s, v, Some(index), |Suffix(v.queue, index)|, Suffix(v.queue, index), accepted);
    case NewQueue(tracks, start, accepted) =>
      var paths := Suffix(tracks, if start.Some? then start.value else 0);
      var v := if accepted then s.server.(queue := tracks, currentIndex := start) else s.server;
      RebuildIsInFull(s, v, if paths == [] then None else start, |paths|, paths, accepted);
    case ClearQueue(accepted) =>
      var v := if accepted then s.server.(queue := [], currentIndex := None) else s.server;
      RebuildIsInFull(s, v, None, 0, [], accepted);
    case AddToQueue(tracks, accepted) => AdditionIsInFull(s, tracks, accepted);
    case ResyncOutput(accepted) =>
      var current := s.server.currentIndex;
      RebuildIsInFull(s, s.server, current, |s.server.queue|,
        Suffix(s.server.queue, if current.Some? then current.value else 0), accepted);
    case PlayFirst => StillInFull(s, Step(s, a));
    case Connect(keepsPlayer, accepted) => ConnectIsInFull(s, keepsPlayer, accepted);
    case Disconnect =>
    case Restart(_) =>
    case _ => NodeStepIsInFull(s, a);
  }

  lemma {:induction false} PlainRunsAreRuns(s: System, actions: seq<Action>)
    requires Orderly(s) && PlainRun(s, actions)
    ensures Run(s, actions) && Orderly(Execute(s, actions))
    decreases |actions|
  {
    hide Orderly, Careful, Step, Enabled, Plain;
    if actions != [] {
      PlainStepsStayOrderly(s, actions[0]);
      PlainRunsAreRuns(Step(s, actions[0]), actions[1..]);
    }
  }

  lemma InitiallyOrderly()
    ensures Orderly(INITIAL) && Counted(INITIAL)
  {
  }

  /** While the server stays up and messages are applied in order, a run is safe whatever players are
      kept, if only nothing is added past a gap but the tracks standing there. */
  lemma PlainRunsAreSafe(actions: seq<Action>)
    requires PlainRun(INITIAL, actions)
    ensures Run(INITIAL, actions) && SafeThroughout(INITIAL, actions)
  {
    hide Run, SafeThroughout, PlainRun;
    InitiallyOrderly();
    InitiallyInLine();
    PlainRunsAreRuns(INITIAL, actions);
    RunsAreSafe(INITIAL, actions);
  }

  // What deliveries alone bring about.

  /** Only messages are delivered, applied in order, and the node reports: nobody issues a command. */
  ghost predicate DeliveriesOnly(actions: seq<Action>) {
    forall a <- actions :: a.NodeArrives? || a == NodeApplies(0) || a.NodeReports? || a.ServerReceives?
  }

  lemma {:induction false} NodeReadsAll(s: System) returns (actions: seq<Action>)
    requires Connected(s)
    ensures DeliveriesOnly(actions) && Run(s, actions)
    ensures Execute(s, actions) == System(s.server.(wire := Some([])), [], CaughtUp(s), s.reports)
    decreases 2 * |s.server.wire.value| + |s.signing|
  {
    hide InLine;
    if s.signing != [] {
      FirstIsApplied(s);
      var rest := NodeReadsAll(Step(s, NodeApplies(0)));
      actions := [NodeApplies(0)] + rest;
      assert actions[1..] == rest;
    } else if s.server.wire.value != [] {
      var after := Step(s, NodeArrives);
      assert OnItsWay(after) == OnItsWay(s);
      var rest := NodeReadsAll(after);
      actions := [NodeArrives] + rest;
      assert actions[1..] == rest;
    } else {
      actions := [];
      assert OnItsWay(s) == [];
    }
  }

  lemma {:induction false} ServerReadsAll(s: System) returns (actions: seq<Action>)
    ensures DeliveriesOnly(actions) && Run(s, actions)
    ensures Execute(s, actions) ==
      s.(server := s.server.(currentIndex := Execute(s, actions).server.currentIndex), reports := [])
    decreases |s.reports|
  {
    if s.reports == [] {
      return [];
    }
    var rest := ServerReadsAll(Step(s, ServerReceives));
    actions := [ServerReceives] + rest;
    assert actions[1..] == rest;
  }

  lemma {:induction false} NodePlaysOn(s: System, index: nat) returns (actions: seq<Action>)
    requires s.player.songIndex <= index < |s.player.playlist| || index == s.player.songIndex
    ensures Run(s, actions) && Execute(s, actions) == s.(player := s.player.(songIndex := index))
    decreases index - s.player.songIndex
  {
    if s.player.songIndex == index {
      return [];
    }
    var rest := NodePlaysOn(Step(s, NodeEnds), index);
    actions := [NodeEnds] + rest;
    assert actions[1..] == rest;
  }

  /** Everything on its way is delivered, in both directions. */
  lemma Settle(s: System) returns (actions: seq<Action>, settled: System)
    requires Connected(s)
    ensures DeliveriesOnly(actions) && Run(s, actions) && Execute(s, actions) == settled
    ensures settled.player == CaughtUp(s) && settled.signing == [] && settled.reports == []
    ensures settled.server == s.server.(wire := Some([]), currentIndex := settled.server.currentIndex)
  {
    var reading := NodeReadsAll(s);
    var read := Execute(s, reading);
    var observing := ServerReadsAll(read);
    RunConcat(s, reading, observing);
    actions, settled := reading + observing, Execute(read, observing);
  }

  /** From every state a run can reach with a live projection, delivering what is on its way
      and one report make the server's current track the one the node is playing. */
  lemma AgreementIsReachable(s: System) returns (actions: seq<Action>)
    requires Inv(s) && Live(s) && Counted(s)
    ensures DeliveriesOnly(actions) && Run(s, actions)
    ensures var t := Execute(s, actions);
      && t.server.currentIndex.Some? && t.server.currentIndex.value < |t.server.queue|
      && Playing(t.player) == Some(t.server.queue[t.server.currentIndex.value].filePath)
  {
    var settling, settled := Settle(s);
    RunsKeepInv(s, settling);
    assert CaughtUp(settled) == settled.player;
    LivePlayerIsHeard(settled);
    var reported := Step(settled, NodeReports);
    RunOne(settled, NodeReports);
    RunOne(reported, ServerReceives);
    RunConcat(settled, [NodeReports], [ServerReceives]);
    actions := settling + ([NodeReports] + [ServerReceives]);
    RunConcat(s, settling, [NodeReports] + [ServerReceives]);
  }

  /** The server takes the index that a live player reports, and it is the right one. */
  lemma LivePlayerIsHeard(s: System)
    requires Inv(s) && Live(s) && Counted(s) && OnItsWay(s) == [] && s.reports == []
    ensures var heard := Step(Step(s, NodeReports), ServerReceives).server.currentIndex;
      heard.Some? && heard.value < |s.server.queue| && Playing(s.player) == Some(s.server.queue[heard.value].filePath)
  {
    hide AllLineUp, LinesUp;
    var m := MeasureOf(s);
    LastLinesUp(m, s.player, []);
    assert CaughtUp(s) == s.player;
    ReportIsRight(m, s.player);
    var reported := Step(s, NodeReports);
    assert reported.reports == [Sent(Report(s.player.songIndex, s.player.generation), Playing(s.player))];
  }

  lemma FinalGeneration(s: System)
    requires Inv(s) && Connected(s)
    ensures CaughtUp(s).generation <= TransportOf(s.server).generation
  {
    hide AllLineUp, ReceiveAll, Gap;
    LastLinesUp(MeasureOf(s), s.player, OnItsWay(s));
    var p := CaughtUp(s);
    assert Right(MeasureOf(s), p.generation, p.songIndex, EntryAt(p.playlist, p.songIndex));
  }

  lemma RebuildKeepsCount(s: System, v: NodeView, start: Option<nat>, loadedLen: nat, paths: seq<string>, accepted: bool)
    requires Inv(s) && v.transport == s.server.transport && v.wire == s.server.wire
    requires Reaches(v, accepted) && start.Some? ==> 0 < |paths| <= loadedLen
    ensures Counted(s.(server := SendQueue(Rebuild(v, start, loadedLen), paths, accepted)))
  {
    hide InLine, ReceiveAll, WellFormed;
    var after := s.(server := SendQueue(Rebuild(v, start, loadedLen), paths, accepted));
    if Connected(s) {
      FinalGeneration(s);
      if accepted {
        var last := SetQueue(paths, TransportOf(after.server).generation);
        assert OnItsWay(after) == OnItsWay(s) + [last];
        ReceiveAllAppend(s.player, OnItsWay(s), last);
      } else {
        assert OnItsWay(after) == OnItsWay(s);
      }
    }
  }

  lemma ConnectKeepsCount(s: System, keepsPlayer: bool, accepted: bool)
    requires WellFormed(s) && !Connected(s) && Past(s)
    ensures Counted(Step(s, Connect(keepsPlayer, accepted)))
  {
    hide ReceiveAll, Suffix, Past;
    var after := Step(s, Connect(keepsPlayer, accepted));
    var before := if keepsPlayer then s else s.(signing := [], player := INITIAL_PLAYER);
    assert OnItsWay(before) == before.signing;
    PastCaughtUp(before);
    if accepted {
      var last := after.server.wire.value[0];
      assert OnItsWay(after) == OnItsWay(before) + [last];
      ReceiveAllAppend(before.player, OnItsWay(before), last);
      if s.server.currentIndex.Some? {
        SuffixIsNotEmpty(s.server.queue, s.server.currentIndex.value);
      }
    } else {
      assert OnItsWay(after) == OnItsWay(before);
    }
  }

  lemma PastCaughtUp(s: System)
    requires Past(s)|| (s.signing == [] && s.player == INITIAL_PLAYER && !Connected(s))
    ensures CaughtUp(s).generation <= TransportOf(s.server).generation
  {
    PastCommands(s.player, OnItsWay(s), TransportOf(s.server).generation);
  }

  lemma {:induction false} PastCommands(p: PlayerState, commands: seq<NodeCommand>, bound: nat)
    requires p.generation <= bound && forall c <- commands :: c.SetQueue? ==> c.generation <= bound
    ensures ReceiveAll(p, commands).generation <= bound
    decreases |commands|
  {
    if commands != [] {
      assert commands[0] in commands;
      PastCommands(Receive(p, commands[0]), commands[1..], bound);
    }
  }

  lemma AppendKeepsCount(s: System, tracks: seq<Track>, accepted: bool)
    requires Counted(s)
    ensures Counted(Step(s, AddToQueue(tracks, accepted)))
  {
    hide ReceiveAll, Suffix;
    var after := Step(s, AddToQueue(tracks, accepted));
    if tracks != [] && Connected(s) && accepted {
      assert OnItsWay(after) == OnItsWay(s) + [Add(Paths(tracks))];
      ReceiveAllAppend(s.player, OnItsWay(s), Add(Paths(tracks)));
    } else {
      assert OnItsWay(after) == OnItsWay(s);
    }
  }

  lemma NodeStepKeepsCount(s: System, a: Action)
    requires Inv(s) && Counted(s) && Enabled(s, a) && Plain(s, a)
    requires a.NodeArrives? || a.NodeApplies? || a.NodeEnds? || a.NodeReports? || a.ServerReceives?
    ensures Counted(Step(s, a))
  {
    hide InLine, ReceiveAll, Suffix;
    match a
    case NodeArrives => assert OnItsWay(Step(s, a)) == OnItsWay(s);
    case NodeApplies(_) => FirstIsApplied(s);
    case NodeEnds =>
      PlayedOnInLine(MeasureOf(s), s.player, Ended(s.player), OnItsWay(s));
      PlayedOnIndex(s.player, Ended(s.player), OnItsWay(s));
    case NodeReports => assert OnItsWay(Step(s, a)) == OnItsWay(s);
    case ServerReceives => ReceivingKeepsMeasure(s);
  }

  lemma {:induction false} PlayedOnIndex(p: PlayerState, q: PlayerState, commands: seq<NodeCommand>)
    requires PlayedOn(p, q) && OnlyQueueing(commands)
    ensures PlayedOn(ReceiveAll(p, commands), ReceiveAll(q, commands))
    decreases |commands|
  {
    hide Receive;
    if commands != [] {
      assert commands[0] in commands;
      PlayedOnAfter(p, q, commands[0]);
      PlayedOnIndex(Receive(p, commands[0]), Receive(q, commands[0]), commands[1..]);
    }
  }

  /** Plain runs keep the count, so agreement stays in reach. */
  lemma PlainStepsKeepCount(s: System, a: Action)
    requires Inv(s) && Past(s) && Counted(s) && Enabled(s, a) && Plain(s, a)
    ensures Counted(Step(s, a))
  {
    hide InLine, ReceiveAll, Suffix, Gap, Past;
    match a
    case PlayFrom(index, accepted) =>
      var v := s.server.(currentIndex := Some(index));
      SuffixIsNotEmpty(v.queue, index);
      RebuildKeepsCount(s, v, Some(index), |Suffix(v.queue, index)|, Suffix(v.queue, index), accepted);
    case NewQueue(tracks, start, accepted) =>
      if Connected(s) {
        var paths := Suffix(tracks, if start.Some? then start.value else 0);
        var v := if accepted then s.server.(queue := tracks, currentIndex := start) else s.server;
        RebuildKeepsCount(s, v, if paths == [] then None else start, |paths|, paths, accepted);
      }
    case ClearQueue(accepted) =>
      if Connected(s) {
        var v := if accepted then s.server.(queue := [], currentIndex := None) else s.server;
        RebuildKeepsCount(s, v, None, 0, [], accepted);
      }
    case AddToQueue(tracks, accepted) => AppendKeepsCount(s, tracks, accepted);
    case ResyncOutput(accepted) =>
      var current := s.server.currentIndex;
      if current.Some? {
        SuffixIsNotEmpty(s.server.queue, current.value);
      }
      RebuildKeepsCount(s, s.server, current, |s.server.queue|,
        Suffix(s.server.queue, if current.Some? then current.value else 0), accepted);
    case PlayFirst => assert OnItsWay(Step(s, a)) == OnItsWay(s);
    case Disconnect =>
    case Connect(keepsPlayer, accepted) => ConnectKeepsCount(s, keepsPlayer, accepted);
    case _ => NodeStepKeepsCount(s, a);
  }

  /** In every plain run, whenever there is a live projection, agreement is a few deliveries away. */
  lemma PlainRunsCanAgree(actions: seq<Action>) returns (deliveries: seq<Action>)
    requires PlainRun(INITIAL, actions) && Run(INITIAL, actions) && Live(Execute(INITIAL, actions))
    ensures DeliveriesOnly(deliveries) && Run(Execute(INITIAL, actions), deliveries)
    ensures var t := Execute(Execute(INITIAL, actions), deliveries);
      && t.server.currentIndex.Some? && t.server.currentIndex.value < |t.server.queue|
      && Playing(t.player) == Some(t.server.queue[t.server.currentIndex.value].filePath)
  {
    InitiallyOrderly();
    PlainRunsKeepCount(INITIAL, actions);
    deliveries := AgreementIsReachable(Execute(INITIAL, actions));
  }

  lemma {:induction false} PlainRunsKeepCount(s: System, actions: seq<Action>)
    requires Orderly(s) && Counted(s) && PlainRun(s, actions) && Run(s, actions)
    ensures Orderly(Execute(s, actions)) && Inv(Execute(s, actions)) && Counted(Execute(s, actions))
    decreases |actions|
  {
    hide InFull, InLine, Careful, Step, Enabled, Past, Plain, Counted, WellFormed;
    OrderlyIsInv(s);
    if actions != [] {
      PlainStepsStayOrderly(s, actions[0]);
      PlainStepsKeepCount(s, actions[0]);
      PlainRunsKeepCount(Step(s, actions[0]), actions[1..]);
    }
  }
}
