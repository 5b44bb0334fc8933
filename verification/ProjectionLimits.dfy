/** Why the care taken in runs of the queue projection protocol is needed: a state in which the node is
    out of line with the queue always has a run that makes the server select a wrong track. */
module ProjectionLimits {
  import opened Wrappers
  import opened PlayerProtocol
  import opened NodeQueue
  import opened Projection
  import opened ProjectionRuns

  /** A careful run with a step that is not safe. */
  ghost predicate Misleads(s: System, actions: seq<Action>) {
    Run(s, actions) && !SafeThroughout(s, actions)
  }

  lemma MisleadsLater(s: System, first: seq<Action>, second: seq<Action>)
    requires Run(s, first) && Misleads(Execute(s, first), second)
    ensures Misleads(s, first + second)
  {
    hide Run, SafeThroughout;
    RunConcat(s, first, second);
  }

  // From a wrong report.

  /** The report will be taken, and what it selects is not what was playing. */
  predicate Trap(v: NodeView, sent: Sent) {
    ProjectedIndex(v, sent.report).Some?
    && sent.playing != Some(v.queue[ProjectedIndex(v, sent.report).value].filePath)
  }

  lemma {:induction false} TrapSprings(s: System, n: nat) returns (actions: seq<Action>)
    requires n < |s.reports| && Trap(s.server, s.reports[n])
    ensures Misleads(s, actions)
    decreases n
  {
    if n == 0 {
      RunOne(s, ServerReceives);
      actions := [ServerReceives];
      assert !SafeStep(s, ServerReceives);
    } else {
      var after := Step(s, ServerReceives);
      assert after.reports[n - 1] == s.reports[n];
      var rest := TrapSprings(after, n - 1);
      RunOne(s, ServerReceives);
      actions := [ServerReceives] + rest;
      MisleadsLater(s, [ServerReceives], rest);
    }
  }

  /** Refused resyncs make the generation go up, and nothing else happens to the node or its reports. */
  lemma {:induction false} Ages(s: System, n: nat) returns (actions: seq<Action>)
    requires Connected(s)
    ensures Run(s, actions)
    ensures var after := Execute(s, actions);
      && after.reports == s.reports && Connected(after)
      && TransportOf(after.server).generation == TransportOf(s.server).generation + n
    decreases n
  {
    if n == 0 {
      return [];
    }
    var a := ResyncOutput(false);
    RunOne(s, a);
    var rest := Ages(Step(s, a), n - 1);
    RunConcat(s, [a], rest);
    actions := [a] + rest;
  }

  function Other(playing: Option<string>): Track {
    Track("", if playing.Some? then playing.value + "?" else "")
  }

  function Copies(t: Track, n: nat): (r: seq<Track>)
    ensures |r| == n && forall i :: 0 <= i < n ==> r[i] == t
  {
    seq(n, _ => t)
  }

  lemma OtherIsOther(playing: Option<string>)
    ensures playing != Some(Other(playing).filePath)
  {
    if playing.Some? {
      assert |Other(playing).filePath| == |playing.value| + 1;
    }
  }

  /** A report from a generation still to come: let it come, with a queue that has another track there. */
  lemma FutureReportMisleads(s: System, n: nat) returns (actions: seq<Action>)
    requires Connected(s) && n < |s.reports|
    requires s.reports[n].report.generation > TransportOf(s.server).generation
    ensures Misleads(s, actions)
  {
    var sent := s.reports[n];
    var aging := Ages(s, sent.report.generation - TransportOf(s.server).generation - 1);
    var aged := Execute(s, aging);
    var a := NewQueue(Copies(Other(sent.playing), sent.report.songIndex + 1), Some(0), true);
    OtherIsOther(sent.playing);
    RunOne(aged, a);
    var replaced := Step(aged, a);
    assert Trap(replaced.server, replaced.reports[n]);
    var springing := TrapSprings(replaced, n);
    MisleadsLater(aged, [a], springing);
    MisleadsLater(s, aging, [a] + springing);
    actions := aging + ([a] + springing);
  }

  /** A report of the current generation: make the queue long enough, and it is taken. */
  lemma CurrentReportMisleads(s: System, n: nat) returns (actions: seq<Action>)
    requires Connected(s) && n < |s.reports|
    requires var r := s.reports[n];
      r.report.generation == TransportOf(s.server).generation
      && !Right(MeasureOf(s), r.report.generation, r.report.songIndex, r.playing)
    ensures Misleads(s, actions)
  {
    var sent := s.reports[n];
    var t := TransportOf(s.server);
    assert s.server.transport.Some?;
    var a := AddToQueue(Copies(Other(sent.playing), t.start.value + sent.report.songIndex + 1), !Gap(s));
    OtherIsOther(sent.playing);
    RunOne(s, a);
    var longer := Step(s, a);
    WrongReportIsTaken(s, sent, longer);
    var springing := TrapSprings(longer, n);
    MisleadsLater(s, [a], springing);
    actions := [a] + springing;
  }

  lemma WrongReportIsTaken(s: System, sent: Sent, longer: System)
    requires Connected(s) && s.server.transport.Some? && s.server.transport.value.start.Some?
    requires sent.report.generation == s.server.transport.value.generation
    requires !Right(MeasureOf(s), sent.report.generation, sent.report.songIndex, sent.playing)
    requires longer == Step(s, AddToQueue(
      Copies(Other(sent.playing), s.server.transport.value.start.value + sent.report.songIndex + 1), !Gap(s)))
    ensures Trap(longer.server, sent)
  {
    hide Gap;
    OtherIsOther(sent.playing);
  }

  lemma WrongReportMisleads(s: System, n: nat) returns (actions: seq<Action>)
    requires Connected(s) && n < |s.reports|
    requires var r := s.reports[n]; !Right(MeasureOf(s), r.report.generation, r.report.songIndex, r.playing)
    ensures Misleads(s, actions)
  {
    if s.reports[n].report.generation > TransportOf(s.server).generation {
      actions := FutureReportMisleads(s, n);
    } else {
      actions := CurrentReportMisleads(s, n);
    }
  }

  // From a node out of line.

  lemma WrongPlayerMisleads(s: System) returns (actions: seq<Action>)
    requires WellFormed(s) && Connected(s) && !LinesUp(MeasureOf(s), s.player)
    ensures Misleads(s, actions)
  {
    hide Misleads;
    var m := MeasureOf(s);
    var p := s.player;
    var i: nat :| p.songIndex <= i && (i < |p.playlist| || i == p.songIndex)
      && !Right(m, p.generation, i, EntryAt(p.playlist, i));
    var playing := NodePlaysOn(s, i);
    var there := Execute(s, playing);
    PlayedOnInLine(m, p, there.player, OnItsWay(s));
    RunOne(there, NodeReports);
    var reported := Step(there, NodeReports);
    assert MeasureOf(reported) == m;
    var springing := WrongReportMisleads(reported, |s.reports|);
    MisleadsLater(there, [NodeReports], springing);
    MisleadsLater(s, playing, [NodeReports] + springing);
    actions := playing + ([NodeReports] + springing);
  }

  lemma {:induction false} OutOfLineMisleads(s: System) returns (actions: seq<Action>)
    requires WellFormed(s) && Connected(s) && !AllLineUp(MeasureOf(s), s.player, OnItsWay(s))
    ensures Misleads(s, actions)
    decreases 2 * |s.server.wire.value| + |s.signing|
  {
    hide Misleads, LinesUp, MeasureOf;
    if !LinesUp(MeasureOf(s), s.player) {
      actions := WrongPlayerMisleads(s);
    } else {
      var a := if s.signing != [] then NodeApplies(0) else NodeArrives;
      var after := Step(s, a);
      if s.signing != [] {
        FirstIsApplied(s);
        FewerOnTheirWay(s, 0);
        assert s.signing[0] in OnItsWay(s);
        PlayerStaysPlaced(s.player, s.signing[0]);
      } else {
        assert OnItsWay(after) == OnItsWay(s);
        ArrivalKeepsMeasure(s);
      }
      RunOne(s, a);
      var rest := OutOfLineMisleads(after);
      MisleadsLater(s, [a], rest);
      actions := [a] + rest;
    }
  }

  lemma ArrivalKeepsMeasure(s: System)
    requires Enabled(s, NodeArrives)
    ensures MeasureOf(Step(s, NodeArrives)) == MeasureOf(s)
  {
    assert OnItsWay(Step(s, NodeArrives)) == OnItsWay(s);
  }

  lemma OutsideInvMisleads(s: System) returns (actions: seq<Action>)
    requires WellFormed(s) && !Inv(s)
    ensures Misleads(s, actions)
  {
    hide AllLineUp, MeasureOf, Misleads;
    if !AllLineUp(MeasureOf(s), s.player, OnItsWay(s)) {
      actions := OutOfLineMisleads(s);
    } else {
      var sent :| sent in s.reports
        && !Right(MeasureOf(s), sent.report.generation, sent.report.songIndex, sent.playing);
      var n :| 0 <= n < |s.reports| && s.reports[n] == sent;
      actions := WrongReportMisleads(s, n);
    }
  }

  ghost predicate AlwaysSafe(s: System) {
    forall actions :: Run(s, actions) ==> SafeThroughout(s, actions)
  }

  /** The invariant is the weakest there is: every careful run from a state is safe if and only if the
      node is in line. */
  lemma SafeExactlyInLine(s: System)
    requires WellFormed(s)
    ensures Inv(s) <==> AlwaysSafe(s)
  {
    hide Run, SafeThroughout;
    if Inv(s) {
      forall actions | Run(s, actions)
        ensures SafeThroughout(s, actions)
      {
        RunsAreSafe(s, actions);
      }
    } else {
      var actions := OutsideInvMisleads(s);
    }
  }

  // Each rule is exact.

  lemma StaysWellFormed(s: System, a: Action)
    requires WellFormed(s) && Enabled(s, a) && (a.AddToQueue? || a.NodeApplies? || a.Connect?)
    ensures WellFormed(Step(s, a))
  {
    hide InLine;
    if a.AddToQueue? {
      if a.tracks != [] && a.accepted && Connected(s) {
        AddedCommandsOnly(s, a.tracks, Step(s, a));
      }
    } else if a.NodeApplies? {
      assert s.signing[a.which] in OnItsWay(s);
      PlayerStaysPlaced(s.player, s.signing[a.which]);
      FewerOnTheirWay(s, a.which);
    } else {
      var after := Step(s, a);
      forall c <- OnItsWay(after)
        ensures c in OnItsWay(s) || c.SetQueue?
      {
      }
    }
  }

  /** Adding past a gap, letting a message overtake others, or keeping a player across a new connection,
      is safe for all that may follow if and only if it is careful. */
  lemma CareIsExact(s: System, a: Action)
    requires Inv(s) && Enabled(s, a) && (a.AddToQueue? || a.NodeApplies? || a.Connect?)
    ensures Careful(s, a) <==> AlwaysSafe(Step(s, a))
  {
    hide AlwaysSafe, MeasureOf, AllLineUp, ReportsAreRight, CaughtUp;
    StaysWellFormed(s, a);
    SafeExactlyInLine(Step(s, a));
    if Careful(s, a) {
      StepKeepsInv(s, a);
    } else {
      assert Connected(Step(s, a)) && !InLine(Step(s, a));
    }
  }

  // Keeping a player.

  function PathAt(queue: seq<Track>, i: nat): Option<string> {
    if i < |queue| then Some(queue[i].filePath) else None
  }

  /** What a kept player may hold: it is older than the generation that the connection starts, or of
      that very one and still agrees with the queue from its current entry on. With `short`, entries
      beyond the queue's length are never asked for. */
  predicate Keepable(v: NodeView, p: PlayerState, short: bool) {
    var next := TransportOf(v).generation + 1;
    || p.generation < next
    || (p.generation == next
        && (v.currentIndex.None?
            || (p.playlist != []
                && forall i: nat :: p.songIndex <= i < |p.playlist| && (short ==> i < |v.queue|) ==>
                     EntryAt(p.playlist, i) == PathAt(v.queue, v.currentIndex.value + i))))
  }

  /** So now, and after each message that still waits for its signatures. */
  predicate AllKeepable(v: NodeView, p: PlayerState, signing: seq<NodeCommand>, short: bool)
    decreases |signing|
  {
    Keepable(v, p, short) && (signing != [] ==> AllKeepable(v, Receive(p, signing[0]), signing[1..], short))
  }

  /** The connection's own queue is refused, and what the page will hold is of its generation and stops
      short of the queue. */
  predicate StaysShort(s: System, accepted: bool) {
    var v, p := s.server, ReceiveAll(s.player, s.signing);
    && !accepted && v.currentIndex.Some? && p.generation == TransportOf(v).generation + 1
    && v.currentIndex.value + |p.playlist| < |v.queue|
  }

  function ResyncPaths(v: NodeView): seq<string> {
    Suffix(v.queue, if v.currentIndex.Some? then v.currentIndex.value else 0)
  }

  lemma MeasureAtConnect(s: System, accepted: bool)
    requires WellFormed(s) && !Connected(s)
    ensures var after := Step(s, Connect(true, accepted)); var m := MeasureOf(after);
      && m.generation == TransportOf(s.server).generation + 1
      && (s.server.currentIndex.None? ==> m.suffix.None?)
      && (s.server.currentIndex.Some? ==> m.suffix == Some(Suffix(s.server.queue, s.server.currentIndex.value)))
      && m.bound == (if StaysShort(s, accepted) then Some(|s.server.queue|) else None)
      && OnItsWay(after) == s.signing + (if accepted then [SetQueue(ResyncPaths(s.server), m.generation)] else [])
  {
    hide LinesUp, AllLineUp;
    var after := Step(s, Connect(true, accepted));
    if s.server.currentIndex.Some? {
      SuffixIsNotEmpty(s.server.queue, s.server.currentIndex.value);
    }
    if accepted {
      var last := after.server.wire.value[0];
      assert OnItsWay(after) == s.signing + [last];
      ReceiveAllAppend(s.player, s.signing, last);
    } else {
      assert OnItsWay(after) == s.signing;
    }
  }

  lemma KeptPlayerLinesUpExactly(v: NodeView, p: PlayerState, m: Measure, short: bool)
    requires WellPlaced(p) && (v.currentIndex.Some? ==> v.currentIndex.value < |v.queue|)
    requires m.generation == TransportOf(v).generation + 1
    requires v.currentIndex.None? ==> m.suffix.None?
    requires v.currentIndex.Some? ==> m.suffix == Some(Suffix(v.queue, v.currentIndex.value))
    requires m.bound == if short then Some(|v.queue|) else None
    ensures LinesUp(m, p) <==> Keepable(v, p, short)
  {
    assert LinesUp(m, p) ==> Right(m, p.generation, p.songIndex, EntryAt(p.playlist, p.songIndex));
    if p.generation == m.generation && v.currentIndex.Some? {
      var c := v.currentIndex.value;
      forall i: nat | p.songIndex <= i < |p.playlist| && (short ==> i < |v.queue|)
        ensures Right(m, p.generation, i, EntryAt(p.playlist, i)) <==> EntryAt(p.playlist, i) == PathAt(v.queue, c + i)
      {
      }
    }
  }

  lemma {:induction false} AllKeptLineUpExactly(
    v: NodeView, p: PlayerState, signing: seq<NodeCommand>, m: Measure, short: bool)
    requires WellPlaced(p) && OnlyQueueing(signing)
    requires v.currentIndex.Some? ==> v.currentIndex.value < |v.queue|
    requires m.generation == TransportOf(v).generation + 1
    requires v.currentIndex.None? ==> m.suffix.None?
    requires v.currentIndex.Some? ==> m.suffix == Some(Suffix(v.queue, v.currentIndex.value))
    requires m.bound == if short then Some(|v.queue|) else None
    ensures AllLineUp(m, p, signing) <==> AllKeepable(v, p, signing, short)
    decreases |signing|
  {
    hide LinesUp, Keepable, Suffix, Receive;
    KeptPlayerLinesUpExactly(v, p, m, short);
    if signing != [] {
      PlayerStaysPlaced(p, signing[0]);
      AllKeptLineUpExactly(v, Receive(p, signing[0]), signing[1..], m, short);
    }
  }

  lemma {:induction false} AllLineUpBefore(m: Measure, p: PlayerState, commands: seq<NodeCommand>, last: NodeCommand)
    requires AllLineUp(m, p, commands + [last])
    ensures AllLineUp(m, p, commands)
    decreases |commands|
  {
    hide LinesUp, Receive;
    if commands != [] {
      assert (commands + [last])[1..] == commands[1..] + [last];
      AllLineUpBefore(m, Receive(p, commands[0]), commands[1..], last);
    }
  }

  /** Keeping the player, and what waits for its signatures, is careful, and by that safe, exactly if it
      may hold what it holds and will hold. Without a restart its generation is always old enough; after
      one it is a matter of how often each server has sent a queue. */
  lemma KeepingIsCarefulExactly(s: System, accepted: bool)
    requires WellFormed(s) && !Connected(s)
    ensures Careful(s, Connect(true, accepted)) <==>
      AllKeepable(s.server, s.player, s.signing, StaysShort(s, accepted))
  {
    hide LinesUp, AllLineUp, AllKeepable, MeasureOf, Suffix, Receive, StaysShort;
    var after := Step(s, Connect(true, accepted));
    var m := MeasureOf(after);
    MeasureAtConnect(s, accepted);
    assert OnItsWay(s) == s.signing;
    AllKeptLineUpExactly(s.server, s.player, s.signing, m, StaysShort(s, accepted));
    if accepted {
      var command := SetQueue(ResyncPaths(s.server), m.generation);
      if s.server.currentIndex.Some? {
        SuffixIsNotEmpty(s.server.queue, s.server.currentIndex.value);
      }
      NewQueueLinesUp(m, command.paths);
      SetQueueReplaces(ReceiveAll(s.player, s.signing), command);
      if AllLineUp(m, s.player, s.signing) {
        AllLineUpAppend(m, s.player, s.signing, command);
      }
      if AllLineUp(m, s.player, s.signing + [command]) {
        AllLineUpBefore(m, s.player, s.signing, command);
      }
    } else {
      assert s.signing + [] == s.signing;
    }
  }

  // Such states are reached.

  lemma Then(actions: seq<Action>, s: System, a: Action) returns (more: seq<Action>)
    requires Run(INITIAL, actions) && Execute(INITIAL, actions) == s && Enabled(s, a) && Careful(s, a)
    ensures more == actions + [a] && Run(INITIAL, more) && Execute(INITIAL, more) == Step(s, a)
  {
    hide Run, Careful, Step, Enabled;
    RunOne(s, a);
    RunConcat(INITIAL, actions, [a]);
    more := actions + [a];
  }

  /** The server has sent the queue once, the node is on its second track and has said so, and then the
      server restarts. */
  lemma RestartIsReached(t: Track, u: Track, w: Track) returns (actions: seq<Action>)
    ensures Run(INITIAL, actions)
    ensures Execute(INITIAL, actions) == System(NodeView([t, u, w], Some(1), None, None), [],
      PlayerState([t.filePath, u.filePath, w.filePath], 1, 1), [])
  {
    hide Run, Careful, Step;
    var queue := [t, u, w];
    var view := NodeView(queue, Some(0), Some(Transport(1, Some(0), 3)), Some([]));
    var playing := PlayerState([t.filePath, u.filePath, w.filePath], 1, 1);
    var r := QueueIsPlayed(t, u, w);
    var s := System(view, [], playing, []);
    ReportIsTaken(s, playing);
    CarefulAnyway(s, NodeReports);
    r := Then(r, s, NodeReports);
    var reported := s.(reports := [Sent(Report(1, 1), Some(u.filePath))]);
    CarefulAnyway(reported, ServerReceives);
    r := Then(r, reported, ServerReceives);
    var heard := s.(server := view.(currentIndex := Some(1)));
    CarefulAnyway(heard, Restart(queue));
    actions := Then(r, heard, Restart(queue));
    RestartForgets(heard, queue);
  }

  lemma RestartForgets(s: System, queue: seq<Track>)
    requires s.server.currentIndex.Some? && s.server.currentIndex.value < |queue| && s.reports == []
    ensures Step(s, Restart(queue)) == s.(server := NodeView(queue, s.server.currentIndex, None, None))
  {
  }

  lemma ReportIsTaken(s: System, playing: PlayerState)
    requires s.player == playing && s.reports == [] && Connected(s) && playing.songIndex < |playing.playlist|
    requires s.server.transport == Some(Transport(playing.generation, Some(0), |s.server.queue|))
    requires playing.songIndex < |s.server.queue|
    ensures var sent := Sent(Report(playing.songIndex, playing.generation), Some(playing.playlist[playing.songIndex]));
      var reported := s.(reports := [sent]);
      && Step(s, NodeReports) == reported
      && Step(reported, ServerReceives) == s.(server := s.server.(currentIndex := Some(playing.songIndex)))
  {
    var sent := Sent(Report(playing.songIndex, playing.generation), Some(playing.playlist[playing.songIndex]));
    assert [] + [sent] == [sent] && [sent][1..] == [];
  }

  /** A queue is set, the node connects, reads it and plays on to the second track. */
  lemma QueueIsPlayed(t: Track, u: Track, w: Track) returns (actions: seq<Action>)
    ensures Run(INITIAL, actions)
    ensures Execute(INITIAL, actions) == System(
      NodeView([t, u, w], Some(0), Some(Transport(1, Some(0), 3)), Some([])), [],
      PlayerState([t.filePath, u.filePath, w.filePath], 1, 1), [])
  {
    hide Run, Careful, Step;
    var queue := [t, u, w];
    var paths := [t.filePath, u.filePath, w.filePath];
    var command := SetQueue(paths, 1);
    var queued := INITIAL.(server := NodeView(queue, Some(0), None, None));
    var view := NodeView(queue, Some(0), Some(Transport(1, Some(0), 3)), Some([]));
    var connected := System(view.(wire := Some([command])), [], INITIAL_PLAYER, []);
    QueueIsSent(queue, paths);
    NothingRun();
    CarefulAnyway(INITIAL, NewQueue(queue, Some(0), true));
    var r := Then([], INITIAL, NewQueue(queue, Some(0), true));
    CarefulAnyway(queued, Connect(false, true));
    r := Then(r, queued, Connect(false, true));
    CommandIsPlayed(connected, view, paths);
    CarefulAnyway(connected, NodeArrives);
    r := Then(r, connected, NodeArrives);
    var arrived := System(view, [command], INITIAL_PLAYER, []);
    CarefulAnyway(arrived, NodeApplies(0));
    r := Then(r, arrived, NodeApplies(0));
    var applied := System(view, [], PlayerState(paths, 0, 1), []);
    CarefulAnyway(applied, NodeEnds);
    actions := Then(r, applied, NodeEnds);
  }

  lemma QueueIsSent(queue: seq<Track>, paths: seq<string>)
    requires |queue| == 3 && paths == Paths(queue)
    ensures var queued := INITIAL.(server := NodeView(queue, Some(0), None, None));
      && Step(INITIAL, NewQueue(queue, Some(0), true)) == queued
      && Step(queued, Connect(false, true)) == System(
           NodeView(queue, Some(0), Some(Transport(1, Some(0), 3)), Some([SetQueue(paths, 1)])), [], INITIAL_PLAYER, [])
  {
    assert queue[0..] == queue && [] + [SetQueue(paths, 1)] == [SetQueue(paths, 1)];
  }

  lemma CommandIsPlayed(s: System, view: NodeView, paths: seq<string>)
    requires s == System(view.(wire := Some([SetQueue(paths, 1)])), [], INITIAL_PLAYER, [])
    requires view.wire == Some([]) && |paths| >= 2
    ensures var arrived := System(view, [SetQueue(paths, 1)], INITIAL_PLAYER, []);
      var applied := System(view, [], PlayerState(paths, 0, 1), []);
      && Step(s, NodeArrives) == arrived && Step(arrived, NodeApplies(0)) == applied
      && Step(applied, NodeEnds) == applied.(player := PlayerState(paths, 1, 1))
  {
    assert [] + [SetQueue(paths, 1)] == [SetQueue(paths, 1)] && [SetQueue(paths, 1)][1..] == [];
  }

  lemma NothingRun()
    ensures Run(INITIAL, []) && Execute(INITIAL, []) == INITIAL
  {
  }

  lemma CarefulAnyway(s: System, a: Action)
    requires !a.AddToQueue? && (a.NodeApplies? ==> a.which == 0) && (a.Connect? ==> !a.keepsPlayer)
    ensures Careful(s, a)
  {
  }

  /** A page that stays open over a restart of the server can then mislead it. */
  lemma RestartMisleads(t: Track, u: Track, w: Track) returns (actions: seq<Action>)
    requires u.filePath != w.filePath
    ensures Run(INITIAL, actions) && Enabled(Execute(INITIAL, actions), Connect(true, true))
    ensures !AlwaysSafe(Step(Execute(INITIAL, actions), Connect(true, true)))
  {
    hide Run, AlwaysSafe, Careful;
    actions := RestartIsReached(t, u, w);
    var s := Execute(INITIAL, actions);
    InitiallyInLine();
    RunsKeepInv(INITIAL, actions);
    assert !Keepable(s.server, s.player, false) by {
      assert EntryAt(s.player.playlist, 1) == Some(u.filePath) && PathAt(s.server.queue, 2) == Some(w.filePath);
    }
    KeepingIsCarefulExactly(s, true);
    CareIsExact(s, Connect(true, true));
  }
}
