/** Gaps: a node whose playlist stops short of the queue. What may be added then, exactly, and how the
    server could tell from what it did. */
module ProjectionGaps {
  import opened Wrappers
  import opened PlayerProtocol
  import opened NodeQueue
  import opened Projection
  import opened ProjectionRuns
  import opened ProjectionLimits

  // Adding past a gap.

  /** Past a gap, an addition that does not repeat the tracks standing there can be followed by a report
      that makes the server select another track than the one the node was playing. */
  lemma AdditionPastGapMisleads(s: System, tracks: seq<Track>) returns (actions: seq<Action>)
    requires Inv(s) && Gap(s) && Counted(s) && !Repeats(s, tracks)
    ensures Misleads(Step(s, AddToQueue(tracks, true)), actions)
  {
    hide Misleads, AllLineUp, MeasureOf, CaughtUp, OnItsWay, WellFormed, LinesUp;
    var after := Step(s, AddToQueue(tracks, true));
    GapIsConnected(s);
    AddedCommandsOnly(s, tracks, after);
    OtherTrackIsOutOfLine(s, tracks, after);
    CaughtUpIsAll(after);
    if AllLineUp(MeasureOf(after), after.player, OnItsWay(after)) {
      LastLinesUp(MeasureOf(after), after.player, OnItsWay(after));
    }
    actions := OutOfLineMisleads(after);
  }

  lemma OtherTrackIsOutOfLine(s: System, tracks: seq<Track>, after: System)
    requires Gap(s) && Counted(s) && !Repeats(s, tracks) && after == Step(s, AddToQueue(tracks, true))
    requires CaughtUp(after) == Receive(CaughtUp(s), Add(Paths(tracks)))
    ensures !LinesUp(MeasureOf(after), CaughtUp(after))
  {
    hide CaughtUp, OnItsWay;
    var p, q := CaughtUp(s), CaughtUp(after);
    var held := s.server.transport.value.start.value + |p.playlist|;
    var j: nat :| j < |tracks| && tracks[j].filePath != (s.server.queue + tracks)[held + j].filePath;
    var i := |p.playlist| + j;
    assert EntryAt(q.playlist, i) == Some(tracks[j].filePath);
    assert !Right(MeasureOf(after), q.generation, i, EntryAt(q.playlist, i));
  }

  /** Past a gap an addition is safe for all that may follow if and only if it repeats what stands there. */
  lemma RepeatingIsSafeExactly(s: System, tracks: seq<Track>)
    requires WellFormed(s) && InFull(s) && Gap(s) && Counted(s) && tracks != []
    ensures Careful(s, AddToQueue(tracks, true)) <==> Repeats(s, tracks)
    ensures AlwaysSafe(Step(s, AddToQueue(tracks, true))) <==> Repeats(s, tracks)
  {
    hide InFull, InLine, Gap, Repeats, Counted, AlwaysSafe, WellFormed;
    GapIsConnected(s);
    InFullIsInLine(s);
    var after := Step(s, AddToQueue(tracks, true));
    CareIsExact(s, AddToQueue(tracks, true));
    if Repeats(s, tracks) {
      AdditionIsInFull(s, tracks, true);
      InFullIsInLine(after);
    } else {
      var actions := AdditionPastGapMisleads(s, tracks);
      MisledIsNotSafe(after, actions);
    }
  }

  lemma GapIsConnected(s: System)
    requires Gap(s)
    ensures Connected(s) && s.server.transport.Some? && s.server.transport.value.start.Some?
  {
  }

  lemma MisledIsNotSafe(s: System, actions: seq<Action>)
    requires Misleads(s, actions)
    ensures !AlwaysSafe(s)
  {
  }

  /** At the end of any plain run, an addition keeps to the rule of plain runs if and only if it is safe
      for all that may follow. */
  lemma PlainRuleIsExact(actions: seq<Action>, tracks: seq<Track>)
    requires PlainRun(INITIAL, actions) && tracks != []
    ensures Run(INITIAL, actions)
    ensures var s := Execute(INITIAL, actions); var a := AddToQueue(tracks, true);
      Plain(s, a) <==> AlwaysSafe(Step(s, a))
  {
    hide Run, AlwaysSafe, PlainRun, InFull, InLine, Gap, Repeats, Counted, Past, WellFormed;
    InitiallyOrderly();
    PlainRunsAreRuns(INITIAL, actions);
    var s := Execute(INITIAL, actions);
    PlainRunsKeepCount(INITIAL, actions);
    if Gap(s) {
      GapIsConnected(s);
      RepeatingIsSafeExactly(s, tracks);
    } else {
      CareIsExact(s, AddToQueue(tracks, true));
    }
  }

  // What the server did, and what the node lacks.

  /** `told`: the output took the last queue it was sent. `missing`: how many tracks of additions it has
      refused since. */
  datatype Tally = Tally(told: bool, missing: nat)

  const NOTHING_SENT := Tally(false, 0)

  function QueueSent(accepted: bool): Tally { Tally(accepted, 0) }

  /** What the server can keep count of: its own commands, and whether the output took them. */
  function Heed(t: Tally, a: Action): Tally {
    match a
    case PlayFrom(_, accepted) => QueueSent(accepted)
    case NewQueue(_, _, accepted) => QueueSent(accepted)
    case ClearQueue(accepted) => QueueSent(accepted)
    case ResyncOutput(accepted) => QueueSent(accepted)
    case Connect(_, accepted) => QueueSent(accepted)
    case AddToQueue(tracks, accepted) => if accepted then t else t.(missing := t.missing + |tracks|)
    case _ => t
  }

  function HeedAll(t: Tally, actions: seq<Action>): Tally
    decreases |actions|
  {
    if actions == [] then t else HeedAll(Heed(t, actions[0]), actions[1..])
  }

  predicate HasStart(s: System) { Connected(s) && TransportOf(s.server).start.Some? }

  /** The count is right: it tells whether the node will hold the current projection, and how much of
      the queue it will lack. */
  predicate Tallies(s: System, t: Tally) {
    HasStart(s) ==>
      && (Live(s) <==> t.told)
      && (Live(s) ==> |s.server.queue| == s.server.transport.value.start.value + |CaughtUp(s).playlist| + t.missing)
  }

  lemma RebuildTallies(s: System, v: NodeView, start: Option<nat>, loadedLen: nat, paths: seq<string>, accepted: bool)
    requires Inv(s) && v.transport == s.server.transport && v.wire == s.server.wire
    requires accepted && start.Some? ==> start.value < |v.queue| && paths == Suffix(v.queue, start.value)
    ensures Tallies(s.(server := SendQueue(Rebuild(v, start, loadedLen), paths, accepted)), QueueSent(accepted))
  {
    hide InLine, ReceiveAll, WellFormed, Suffix;
    var after := s.(server := SendQueue(Rebuild(v, start, loadedLen), paths, accepted));
    if Connected(s) {
      FinalGeneration(s);
      if accepted {
        var last := SetQueue(paths, TransportOf(after.server).generation);
        assert OnItsWay(after) == OnItsWay(s) + [last];
        ReceiveAllAppend(s.player, OnItsWay(s), last);
        SetQueueReplaces(ReceiveAll(s.player, OnItsWay(s)), last);
        if start.Some? {
          SuffixIsNotEmpty(v.queue, start.value);
        }
      } else {
        assert OnItsWay(after) == OnItsWay(s);
      }
    }
  }

  lemma ConnectTallies(s: System, keepsPlayer: bool, accepted: bool)
    requires WellFormed(s) && !Connected(s) && Past(s)
    ensures Tallies(Step(s, Connect(keepsPlayer, accepted)), QueueSent(accepted))
  {
    hide ReceiveAll, Suffix, Past;
    var after := Step(s, Connect(keepsPlayer, accepted));
    var before := if keepsPlayer then s else s.(signing := [], player := INITIAL_PLAYER);
    assert OnItsWay(before) == before.signing;
    PastCaughtUp(before);
    if s.server.currentIndex.Some? {
      SuffixIsNotEmpty(s.server.queue, s.server.currentIndex.value);
    }
    if accepted {
      var last := after.server.wire.value[0];
      assert OnItsWay(after) == OnItsWay(before) + [last];
      ReceiveAllAppend(before.player, OnItsWay(before), last);
    } else {
      assert OnItsWay(after) == OnItsWay(before);
    }
  }

  lemma AdditionTallies(s: System, t: Tally, tracks: seq<Track>, accepted: bool)
    requires WellFormed(s) && Tallies(s, t)
    ensures Tallies(Step(s, AddToQueue(tracks, accepted)), Heed(t, AddToQueue(tracks, accepted)))
  {
    hide ReceiveAll;
    var after := Step(s, AddToQueue(tracks, accepted));
    if tracks != [] && Connected(s) && accepted {
      AddedCommandsOnly(s, tracks, after);
    } else {
      assert OnItsWay(after) == OnItsWay(s);
    }
  }

  lemma NodeStepTallies(s: System, t: Tally, a: Action)
    requires WellFormed(s) && Tallies(s, t) && Enabled(s, a) && Plain(s, a)
    requires a.NodeArrives? || a.NodeApplies? || a.NodeEnds? || a.NodeReports? || a.ServerReceives?
    ensures Tallies(Step(s, a), t)
  {
    hide ReceiveAll, Suffix;
    match a
    case NodeArrives => assert OnItsWay(Step(s, a)) == OnItsWay(s);
    case NodeApplies(_) => FirstIsApplied(s);
    case NodeEnds =>
      PlayerStaysPlaced(s.player, Add([]));
      PlayedOnInLine(MeasureOf(s), s.player, Ended(s.player), OnItsWay(s));
    case NodeReports => assert OnItsWay(Step(s, a)) == OnItsWay(s);
    case ServerReceives => ReceivingKeepsMeasure(s);
  }

  lemma StepTallies(s: System, t: Tally, a: Action)
    requires Orderly(s) && Tallies(s, t) && Enabled(s, a) && Plain(s, a)
    ensures Tallies(Step(s, a), Heed(t, a))
  {
    hide InFull, InLine, Past, CaughtUp, Live;
    OrderlyIsInv(s);
    match a
    case PlayFrom(index, accepted) =>
      var v := s.server.(currentIndex := Some(index));
      RebuildTallies(s, v, Some(index), |Suffix(v.queue, index)|, Suffix(v.queue, index), accepted);
    case NewQueue(tracks, start, accepted) =>
      if Connected(s) {
        var paths := Suffix(tracks, if start.Some? then start.value else 0);
        var v := if accepted then s.server.(queue := tracks, currentIndex := start) else s.server;
        RebuildTallies(s, v, if paths == [] then None else start, |paths|, paths, accepted);
      }
    case ClearQueue(accepted) =>
      if Connected(s) {
        var v := if accepted then s.server.(queue := [], currentIndex := None) else s.server;
        RebuildTallies(s, v, None, 0, [], accepted);
      }
    case AddToQueue(tracks, accepted) => AdditionTallies(s, t, tracks, accepted);
    case ResyncOutput(accepted) =>
      var current := s.server.currentIndex;
      RebuildTallies(s, s.server, current, |s.server.queue|,
        Suffix(s.server.queue, if current.Some? then current.value else 0), accepted);
    case PlayFirst => FirstPlayedTallies(s, t);
    case Disconnect =>
    case Connect(keepsPlayer, accepted) => ConnectTallies(s, keepsPlayer, accepted);
    case _ => NodeStepTallies(s, t, a);
  }

  lemma FirstPlayedTallies(s: System, t: Tally)
    requires Tallies(s, t)
    ensures Tallies(Step(s, PlayFirst), t)
  {
    assert OnItsWay(Step(s, PlayFirst)) == OnItsWay(s);
  }

  lemma {:induction false} PlainRunTallies(s: System, t: Tally, actions: seq<Action>)
    requires Orderly(s) && Tallies(s, t) && PlainRun(s, actions) && Run(s, actions)
    ensures Tallies(Execute(s, actions), HeedAll(t, actions))
    decreases |actions|
  {
    hide Orderly, Careful, Step, Enabled, Plain, Tallies, Heed;
    if actions != [] {
      StepTallies(s, t, actions[0]);
      PlainStepsStayOrderly(s, actions[0]);
      PlainRunTallies(Step(s, actions[0]), Heed(t, actions[0]), actions[1..]);
    }
  }

  /** The added tracks repeat the last `missing` ones of the queue, from the first of them on. */
  predicate ComeBack(queue: seq<Track>, missing: nat, tracks: seq<Track>)
    requires 0 < missing <= |queue|
  {
    forall j :: 0 <= j < |tracks| ==> tracks[j].filePath == (queue + tracks)[|queue| - missing + j].filePath
  }

  /** So may the refused tracks themselves. */
  lemma RefusedMayComeBack(queue: seq<Track>, tracks: seq<Track>)
    requires tracks != []
    ensures ComeBack(queue + tracks, |tracks|, tracks)
  {
    assert forall j :: 0 <= j < |tracks| ==> (queue + tracks + tracks)[|queue| + j] == tracks[j];
  }

  /** In every plain run there is a gap exactly if the output took the last queue, which has a current
      entry, and has refused tracks since; and what may be added then are the tracks it refused. So the
      rule of plain runs can be checked on the server alone. */
  lemma GapIsWhatWasRefused(actions: seq<Action>)
    requires PlainRun(INITIAL, actions)
    ensures Run(INITIAL, actions)
    ensures var s := Execute(INITIAL, actions); var t := HeedAll(NOTHING_SENT, actions);
      Gap(s) <==> HasStart(s) && t.told && t.missing > 0
    ensures var s := Execute(INITIAL, actions); var missing := HeedAll(NOTHING_SENT, actions).missing;
      Gap(s) ==> missing <= |s.server.queue|
                 && forall tracks :: Repeats(s, tracks) <==> ComeBack(s.server.queue, missing, tracks)
  {
    hide Run, PlainRun, InFull, Past, WellFormed, CaughtUp;
    InitiallyOrderly();
    PlainRunsAreRuns(INITIAL, actions);
    PlainRunTallies(INITIAL, NOTHING_SENT, actions);
  }

  /** A gap opens when an output refuses an addition. */
  lemma GapIsReached(t: Track, u: Track) returns (actions: seq<Action>)
    ensures Run(INITIAL, actions) && PlainRun(INITIAL, actions) && Gap(Execute(INITIAL, actions))
  {
    actions := [Connect(false, true), NewQueue([t], Some(0), true), AddToQueue([u], false)];
    var s1 := Step(INITIAL, actions[0]);
    var s2 := Step(s1, actions[1]);
    var s3 := Step(s2, actions[2]);
    assert actions[1..] == [actions[1], actions[2]] && actions[1..][1..] == [actions[2]] && actions[1..][1..][1..] == [];
    assert PlainRun(s3, []) && PlainRun(s2, [actions[2]]) && PlainRun(s1, actions[1..]);
    InitiallyInLine();
    PlainRunsAreRuns(INITIAL, actions);
    assert Execute(s3, []) == s3 && Execute(s2, [actions[2]]) == s3 && Execute(s1, actions[1..]) == s3;
    assert Suffix([], 0) == [] && Suffix([t], 0) == [t.filePath];
    var wire := s3.server.wire.value;
    assert wire == [SetQueue([], 1)] + [SetQueue([t.filePath], 2)];
    ReceiveAllAppend(INITIAL_PLAYER, [SetQueue([], 1)], SetQueue([t.filePath], 2));
    assert OnItsWay(s3) == wire;
  }
}
