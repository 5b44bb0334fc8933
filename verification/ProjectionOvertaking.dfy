/** Messages that the browser applies in another order than they were sent in, because each waits for its
    own signatures: which order is safe, exactly. */
module ProjectionOvertaking {
  import opened Wrappers
  import opened PlayerProtocol
  import opened NodeQueue
  import opened Projection
  import opened ProjectionRuns
  import opened ProjectionLimits

  // Additions among additions.

  lemma {:induction false} JoinedSum(first: seq<NodeCommand>, second: seq<NodeCommand>)
    requires OnlyAdditions(first) && OnlyAdditions(second)
    ensures OnlyAdditions(first + second) && Joined(first + second) == Joined(first) + Joined(second)
    decreases |first|
  {
    if first == [] {
      assert first + second == second;
    } else {
      assert (first + second)[1..] == first[1..] + second;
      JoinedSum(first[1..], second);
    }
  }

  /** From `songIndex` on the playlist is what the projected part has there. */
  predicate Agrees(m: Measure, songIndex: nat, playlist: seq<string>)
    requires m.suffix.Some?
  {
    && (songIndex < |playlist| ==> |playlist| <= |m.suffix.value|)
    && forall i :: songIndex <= i < |playlist| ==> playlist[i] == m.suffix.value[i]
  }

  lemma AgreesBefore(m: Measure, songIndex: nat, front: seq<string>, back: seq<string>)
    requires m.suffix.Some? && Agrees(m, songIndex, front + back)
    ensures Agrees(m, songIndex, front)
  {
    assert forall i :: 0 <= i < |front| ==> (front + back)[i] == front[i];
  }

  lemma LinesUpExactly(m: Measure, p: PlayerState)
    requires p.generation == m.generation && m.suffix.Some? && p.songIndex < |p.playlist|
    requires m.bound.Some? ==> |p.playlist| <= m.bound.value
    ensures LinesUp(m, p) <==> Agrees(m, p.songIndex, p.playlist)
  {
    if LinesUp(m, p) {
      var last := |p.playlist| - 1;
      assert Right(m, p.generation, last, EntryAt(p.playlist, last));
      forall i: nat | p.songIndex <= i < |p.playlist|
        ensures p.playlist[i] == m.suffix.value[i]
      {
        assert Right(m, p.generation, i, EntryAt(p.playlist, i));
      }
    }
  }

  /** Additions to a current player line up one after the other exactly if all together agree with the
      projected part. */
  lemma {:induction false} AdditionsLineUpExactly(m: Measure, p: PlayerState, commands: seq<NodeCommand>)
    requires OnlyAdditions(commands)
    requires p.generation == m.generation && m.suffix.Some? && p.songIndex < |p.playlist|
    requires m.bound.Some? ==> |p.playlist + Joined(commands)| <= m.bound.value
    ensures AllLineUp(m, p, commands) <==> Agrees(m, p.songIndex, p.playlist + Joined(commands))
    decreases |commands|
  {
    hide LinesUp;
    LinesUpExactly(m, p);
    var whole := p.playlist + Joined(commands);
    if commands == [] {
      assert whole == p.playlist;
    } else {
      var q := Receive(p, commands[0]);
      assert commands[0] in commands;
      assert q == p.(playlist := p.playlist + commands[0].paths);
      assert p.playlist + commands[0].paths + Joined(commands[1..]) == whole;
      AdditionsLineUpExactly(m, q, commands[1..]);
      assert q.playlist + Joined(commands[1..]) == whole;
      if Agrees(m, p.songIndex, whole) {
        AgreesBefore(m, p.songIndex, p.playlist, Joined(commands));
      }
      assert AllLineUp(m, p, commands) <==> LinesUp(m, p) && AllLineUp(m, q, commands[1..]);
    }
  }

  lemma SameLengthSameMeasure(s: System, after: System)
    requires after.server == s.server
    requires CaughtUp(after).generation == CaughtUp(s).generation
    requires |CaughtUp(after).playlist| == |CaughtUp(s).playlist|
    ensures MeasureOf(after) == MeasureOf(s)
  {
    hide CaughtUp;
  }

  /** With nothing but additions waiting, the k-th can be applied first exactly if that makes no
      difference to what they add together. */
  lemma AdditionMayGoFirstExactly(s: System, k: nat)
    requires Inv(s) && Live(s) && (Gap(s) ==> Counted(s)) && OnlyAdditions(OnItsWay(s)) && k < |s.signing|
    ensures OnlyAdditions(s.signing) && OnlyAdditions(RemoveAt(s.signing, k))
    ensures Careful(s, NodeApplies(k)) <==> s.signing[k].paths + Joined(RemoveAt(s.signing, k)) == Joined(s.signing)
  {
    hide ReportsAreRight, Suffix, LinesUp, Right, AllLineUp, Joined;
    var after := Step(s, NodeApplies(k));
    var rest := RemoveAt(s.signing, k);
    var wire := s.server.wire.value;
    var p, q := s.player, after.player;
    SomeOfAdditions(s.signing, wire, k);
    JoinedSum(s.signing, wire);
    JoinedSum(rest, wire);
    assert OnItsWay(s) == s.signing + wire && OnItsWay(after) == rest + wire;
    AdditionsJoin(p, s.signing + wire);
    AdditionsJoin(q, rest + wire);
    var first, second := Joined(s.signing), s.signing[k].paths + Joined(rest);
    JoinedLength(s.signing, k);
    var whole, other := p.playlist + Joined(s.signing + wire), q.playlist + Joined(rest + wire);
    assert whole == p.playlist + first + Joined(wire) && other == p.playlist + second + Joined(wire);
    SameLengthSameMeasure(s, after);
    var m := MeasureOf(s);
    LivePlayerHasEntry(s);
    AdditionsLineUpExactly(m, p, s.signing + wire);
    AdditionsLineUpExactly(m, q, rest + wire);
    if k == 0 {
      FirstJoined(s.signing);
    } else {
      MiddleAgrees(m, p.songIndex, p.playlist, first, second, Joined(wire));
    }
  }

  lemma SomeOfAdditions(signing: seq<NodeCommand>, wire: seq<NodeCommand>, k: nat)
    requires OnlyAdditions(signing + wire) && k < |signing|
    ensures OnlyAdditions(signing) && OnlyAdditions(wire) && OnlyAdditions(RemoveAt(signing, k)) && signing[k].Add?
  {
    assert forall c <- signing + wire :: c.Add?;
    assert forall c <- signing :: c in signing + wire;
    assert forall c <- wire :: c in signing + wire;
    assert forall c <- RemoveAt(signing, k) :: c in signing;
  }

  lemma FirstJoined(commands: seq<NodeCommand>)
    requires commands != [] && OnlyAdditions(commands)
    ensures RemoveAt(commands, 0) == commands[1..]
    ensures OnlyAdditions(commands[1..]) && Joined(commands) == commands[0].paths + Joined(commands[1..])
  {
  }

  lemma {:induction false} JoinedLength(commands: seq<NodeCommand>, k: nat)
    requires k < |commands| && OnlyAdditions(commands) && OnlyAdditions(RemoveAt(commands, k))
    ensures |Joined(commands)| == |commands[k].paths| + |Joined(RemoveAt(commands, k))|
    decreases |commands|
  {
    if k == 0 {
      FirstJoined(commands);
    } else {
      assert RemoveAt(commands, k)[0] == commands[0] && RemoveAt(commands, k)[1..] == RemoveAt(commands[1..], k - 1);
      JoinedLength(commands[1..], k - 1);
    }
  }

  lemma LivePlayerHasEntry(s: System)
    requires Inv(s) && Live(s) && (Gap(s) ==> Counted(s)) && OnlyAdditions(OnItsWay(s))
    ensures s.player.generation == MeasureOf(s).generation && s.player.songIndex < |s.player.playlist|
    ensures MeasureOf(s).bound.Some? ==> |s.player.playlist + Joined(OnItsWay(s))| <= MeasureOf(s).bound.value
  {
    hide ReportsAreRight, Suffix, Joined;
    AdditionsJoin(s.player, OnItsWay(s));
    assert Right(MeasureOf(s), s.player.generation, s.player.songIndex, EntryAt(s.player.playlist, s.player.songIndex));
  }

  /** Where one playlist agrees, another that differs only in the middle does exactly if it does not differ. */
  lemma MiddleAgrees(
    m: Measure, songIndex: nat, front: seq<string>, a: seq<string>, b: seq<string>, back: seq<string>)
    requires m.suffix.Some? && songIndex < |front| && |a| == |b| && Agrees(m, songIndex, front + a + back)
    ensures Agrees(m, songIndex, front + b + back) <==> b == a
  {
    var whole, other := front + a + back, front + b + back;
    if Agrees(m, songIndex, other) {
      forall i | 0 <= i < |a|
        ensures a[i] == b[i]
      {
        assert whole[|front| + i] == a[i] && other[|front| + i] == b[i];
      }
    }
  }

  // Where a new queue waits as well.

  lemma {:induction false} ReceiveAllSum(p: PlayerState, first: seq<NodeCommand>, second: seq<NodeCommand>)
    ensures ReceiveAll(p, first + second) == ReceiveAll(ReceiveAll(p, first), second)
    decreases |first|
  {
    hide Receive;
    if first == [] {
      assert first + second == second;
    } else {
      assert (first + second)[1..] == first[1..] + second;
      ReceiveAllSum(Receive(p, first[0]), first[1..], second);
    }
  }

  lemma {:induction false} LaterLineUp(m: Measure, p: PlayerState, first: seq<NodeCommand>, second: seq<NodeCommand>)
    requires AllLineUp(m, p, first + second)
    ensures AllLineUp(m, ReceiveAll(p, first), second)
    decreases |first|
  {
    hide LinesUp, Receive;
    if first == [] {
      assert first + second == second;
    } else {
      assert (first + second)[1..] == first[1..] + second;
      LaterLineUp(m, Receive(p, first[0]), first[1..], second);
    }
  }

  /** As long as the player is older than the projection, additions do no harm. */
  lemma {:induction false} OlderLineUpExactly(
    m: Measure, p: PlayerState, additions: seq<NodeCommand>, command: NodeCommand, rest: seq<NodeCommand>)
    requires OnlyAdditions(additions) && command.SetQueue? && p.generation < m.generation
    ensures AllLineUp(m, p, additions + [command] + rest) <==>
      AllLineUp(m, PlayerState(command.paths, 0, command.generation), rest)
    decreases |additions|
  {
    hide LinesUp;
    OlderLinesUp(m, p);
    var all := additions + [command] + rest;
    if additions == [] {
      assert all[0] == command && all[1..] == rest;
      SetQueueReplaces(p, command);
    } else {
      assert additions[0] in additions;
      assert all[0] == additions[0] && all[1..] == additions[1..] + [command] + rest;
      OlderLineUpExactly(m, Receive(p, additions[0]), additions[1..], command, rest);
    }
  }

  /** The last queue sent waits at place q, and all else on its way is additions. */
  predicate QueueWaits(s: System, q: nat) {
    && q < |s.signing| && s.signing[q].SetQueue? && Connected(s)
    && s.signing[q].generation == TransportOf(s.server).generation
    && OnlyAdditions(s.signing[..q]) && OnlyAdditions(Behind(s, q))
  }

  function Behind(s: System, q: nat): seq<NodeCommand>
    requires q < |s.signing| && Connected(s)
  {
    s.signing[q + 1..] + s.server.wire.value
  }

  /** Then the node will hold that queue with the additions behind it: all of the projected part. */
  lemma QueueHoldsAll(s: System, q: nat)
    requires Inv(s) && Live(s) && !Gap(s) && QueueWaits(s, q)
    ensures s.signing[q].paths != [] && s.server.transport.value.start.value <= |s.server.queue|
    ensures OnItsWay(s) == s.signing[..q] + [s.signing[q]] + Behind(s, q)
    ensures CaughtUp(s) ==
      PlayerState(s.signing[q].paths + Joined(Behind(s, q)), 0, s.server.transport.value.generation)
    ensures CaughtUp(s).playlist == Suffix(s.server.queue, s.server.transport.value.start.value)
  {
    hide ReportsAreRight, Suffix, Joined, LinesUp, Gap;
    var command, behind := s.signing[q], Behind(s, q);
    var queued := PlayerState(command.paths, 0, command.generation);
    assert s.signing == s.signing[..q] + [command] + s.signing[q + 1..];
    assert OnItsWay(s) == s.signing[..q] + [command] + behind;
    ReceiveAllSum(s.player, s.signing[..q] + [command], behind);
    ReceiveAllAppend(s.player, s.signing[..q], command);
    SetQueueReplaces(ReceiveAll(s.player, s.signing[..q]), command);
    AdditionsJoin(queued, behind);
    LiveHoldsAll(s);
    var m := MeasureOf(s);
    LaterLineUp(m, s.player, s.signing[..q] + [command], behind);
    assert LinesUp(m, queued);
    QueueInLineIsNotEmpty(s, queued);
  }

  lemma QueueInLineIsNotEmpty(s: System, p: PlayerState)
    requires Live(s) && !Gap(s) && LinesUp(MeasureOf(s), p) && p.songIndex == 0
    requires p.generation == s.server.transport.value.generation
    ensures p.playlist != []
  {
    hide CaughtUp, Suffix;
    assert Right(MeasureOf(s), p.generation, 0, EntryAt(p.playlist, 0));
  }

  /** The queue may be applied before the additions that were sent before it exactly if these add nothing. */
  lemma QueueMayGoFirstExactly(s: System, q: nat)
    requires Inv(s) && Live(s) && !Gap(s) && QueueWaits(s, q)
    ensures Careful(s, NodeApplies(q)) <==> q == 0 || Joined(s.signing[..q]) == []
  {
    hide ReportsAreRight, Suffix, LinesUp, Right, AllLineUp, Joined;
    if q > 0 {
      var after := Step(s, NodeApplies(q));
      var before, behind := s.signing[..q], Behind(s, q);
      QueueHoldsAll(s, q);
      var queued := PlayerState(s.signing[q].paths, 0, s.signing[q].generation);
      SetQueueReplaces(s.player, s.signing[q]);
      assert OnItsWay(after) == before + behind;
      JoinedSum(before, behind);
      AdditionsJoin(queued, before + behind);
      var m := MeasureOf(after);
      LongerHasNoGap(s, after);
      AdditionsLineUpExactly(m, queued, before + behind);
      PrefixAgreesExactly(m, queued.playlist + Joined(behind), queued.playlist + Joined(before + behind));
      if Joined(before) == [] {
        assert queued.playlist + Joined(before + behind) == queued.playlist + Joined(behind);
      }
    }
  }

  lemma LongerHasNoGap(s: System, after: System)
    requires Live(s) && !Gap(s) && after.server == s.server
    requires CaughtUp(after).generation == CaughtUp(s).generation
    requires |CaughtUp(after).playlist| >= |CaughtUp(s).playlist|
    ensures MeasureOf(after) == MeasureOf(s) && MeasureOf(s).bound.None? && MeasureOf(s).suffix.Some?
  {
    hide CaughtUp, Suffix;
  }

  /** A whole playlist agrees with the projected part, which is `whole`, exactly if it is a beginning of it. */
  lemma PrefixAgreesExactly(m: Measure, whole: seq<string>, playlist: seq<string>)
    requires m.suffix == Some(whole)
    ensures Agrees(m, 0, playlist) <==> playlist <= whole
  {
  }

  /** An addition behind the queue may be applied before it, to a player that is older than the queue,
      exactly if what the others add is a beginning of what all add. It is lost then, and leaves a gap
      unless it is empty. */
  lemma AdditionMayOvertakeQueueExactly(s: System, q: nat, k: nat)
    requires Inv(s) && Live(s) && !Gap(s) && Counted(s) && QueueWaits(s, q) && q < k < |s.signing|
    requires s.player.generation < s.signing[q].generation
    ensures OnlyAdditions(RemoveAt(Behind(s, q), k - q - 1))
    ensures Careful(s, NodeApplies(k)) <==> Joined(RemoveAt(Behind(s, q), k - q - 1)) <= Joined(Behind(s, q))
    ensures Gap(Step(s, NodeApplies(k))) <==> s.signing[k].paths != []
  {
    hide ReportsAreRight, Suffix, LinesUp, Right, AllLineUp, Joined;
    var after := Step(s, NodeApplies(k));
    var before, behind := s.signing[..q], Behind(s, q);
    var rest := RemoveAt(behind, k - q - 1);
    var command := s.signing[q];
    QueueHoldsAll(s, q);
    assert behind[k - q - 1] == s.signing[k] && behind[k - q - 1] in behind;
    assert forall c <- rest :: c in behind;
    assert OnItsWay(after) == before + [command] + rest by { RestIsOnItsWay(s, q, k); }
    var queued := PlayerState(command.paths, 0, command.generation);
    ReceiveAllSum(after.player, before + [command], rest);
    ReceiveAllAppend(after.player, before, command);
    SetQueueReplaces(ReceiveAll(after.player, before), command);
    AdditionsJoin(queued, rest);
    JoinedLength(behind, k - q - 1);
    var m := MeasureOf(after);
    ShorterHasGap(s, after);
    OlderLineUpExactly(m, after.player, before, command, rest);
    AdditionsLineUpExactly(m, queued, rest);
    PrefixAgreesExactly(m, queued.playlist + Joined(behind), queued.playlist + Joined(rest));
    SameFront(queued.playlist, Joined(rest), Joined(behind));
    ReportsStayRight(s, after);
  }

  lemma SameFront<T>(front: seq<T>, a: seq<T>, b: seq<T>)
    ensures front + a <= front + b <==> a <= b
  {
    if front + a <= front + b {
      forall i | 0 <= i < |a|
        ensures a[i] == b[i]
      {
        assert (front + a)[|front| + i] == (front + b)[|front| + i];
      }
    }
  }

  lemma RestIsOnItsWay(s: System, q: nat, k: nat)
    requires Connected(s) && q < k < |s.signing|
    ensures OnItsWay(Step(s, NodeApplies(k))) == s.signing[..q] + [s.signing[q]] + RemoveAt(Behind(s, q), k - q - 1)
  {
    var rest := RemoveAt(s.signing, k);
    assert rest == s.signing[..q] + [s.signing[q]] + RemoveAt(s.signing[q + 1..], k - q - 1);
    assert RemoveAt(Behind(s, q), k - q - 1) == RemoveAt(s.signing[q + 1..], k - q - 1) + s.server.wire.value;
  }

  lemma ShorterHasGap(s: System, after: System)
    requires Live(s) && !Gap(s) && Counted(s) && after.server == s.server
    requires CaughtUp(s).playlist == Suffix(s.server.queue, s.server.transport.value.start.value)
    requires s.server.transport.value.start.value <= |s.server.queue|
    requires CaughtUp(after).generation == CaughtUp(s).generation
    requires |CaughtUp(after).playlist| <= |CaughtUp(s).playlist|
    ensures Gap(after) <==> |CaughtUp(after).playlist| < |CaughtUp(s).playlist|
    ensures MeasureOf(after) == MeasureOf(s).(bound := MeasureOf(after).bound) && MeasureOf(s).suffix.Some?
    ensures MeasureOf(after).bound.Some? ==> |CaughtUp(s).playlist| <= MeasureOf(after).bound.value
  {
    hide CaughtUp;
    SuffixLength(s.server.queue, s.server.transport.value.start.value);
  }

  lemma ReportsStayRight(s: System, after: System)
    requires ReportsAreRight(MeasureOf(s), s.reports) && MeasureOf(s).bound.None?
    requires after.reports == s.reports && MeasureOf(after) == MeasureOf(s).(bound := MeasureOf(after).bound)
    ensures ReportsAreRight(MeasureOf(after), after.reports)
  {
    hide ReportsAreRight, MeasureOf;
    ReportsByOther(MeasureOf(s), MeasureOf(after), s.reports);
  }

  lemma SuffixLength(queue: seq<Track>, start: nat)
    requires start <= |queue|
    ensures |Suffix(queue, start)| == |queue| - start
  {
  }

  // Such states are reached.

  lemma AdditionArrives(s: System, t: Track)
    requires Inv(s) && Live(s) && !Gap(s) && s.server.wire == Some([])
    ensures var sent := Step(s, AddToQueue([t], true)); var after := Step(sent, NodeArrives);
      && Enabled(s, AddToQueue([t], true)) && Careful(s, AddToQueue([t], true)) && Enabled(sent, NodeArrives)
      && after.signing == s.signing + [Add([t.filePath])] && after.server.wire == Some([])
      && after.player == s.player && after.server.queue == s.server.queue + [t]
      && after.server.transport.Some? && after.server.transport.value.start == s.server.transport.value.start
      && after.server.transport.value.generation == s.server.transport.value.generation
      && Inv(after) && Live(after) && !Gap(after) && (Counted(s) ==> Counted(after))
  {
    hide AllLineUp, LinesUp, ReportsAreRight, ReceiveAll, Suffix;
    if Counted(s) {
      AppendKeepsCount(s, [t], true);
    }
    var sent := Step(s, AddToQueue([t], true));
    assert Paths([t]) == [t.filePath];
    assert [] + [Add([t.filePath])] == [Add([t.filePath])] && [Add([t.filePath])][1..] == [];
    AdditionLinesUp(s, [t], sent);
    LiveAdditionLinesUp(s, [t], sent);
    StepKeepsInv(s, AddToQueue([t], true));
    StepKeepsInv(sent, NodeArrives);
    assert OnItsWay(Step(sent, NodeArrives)) == OnItsWay(sent);
  }

  /** Two additions to what is playing, and the second signature comes first: a run from the start that
      can only be continued safely if both add the same track. */
  lemma OvertakingMisleads(t: Track, u: Track, w: Track, x: Track, y: Track) returns (actions: seq<Action>)
    requires x.filePath != y.filePath
    ensures Run(INITIAL, actions) && Enabled(Execute(INITIAL, actions), NodeApplies(1))
    ensures !AlwaysSafe(Step(Execute(INITIAL, actions), NodeApplies(1)))
  {
    hide Run, AlwaysSafe, Careful, Step, Enabled, Inv, Gap, Live;
    var r := QueueIsPlayed(t, u, w);
    var s := Execute(INITIAL, r);
    InitiallyInLine();
    RunsKeepInv(INITIAL, r);
    PlayedIsLive(s, [t, u, w]);
    AdditionArrives(s, x);
    r := Then(r, s, AddToQueue([x], true));
    var s1 := Step(s, AddToQueue([x], true));
    CarefulAnyway(s1, NodeArrives);
    r := Then(r, s1, NodeArrives);
    var s2 := Step(s1, NodeArrives);
    AdditionArrives(s2, y);
    r := Then(r, s2, AddToQueue([y], true));
    var s3 := Step(s2, AddToQueue([y], true));
    CarefulAnyway(s3, NodeArrives);
    actions := Then(r, s3, NodeArrives);
    var s4 := Step(s3, NodeArrives);
    assert s4.signing == [Add([x.filePath]), Add([y.filePath])];
    SecondAdditionIsNotFirst(s4, x.filePath, y.filePath);
    assert Enabled(s4, NodeApplies(1)) by { SecondMayApply(s4); }
    CareIsExact(s4, NodeApplies(1));
  }

  lemma LiveIsConnected(s: System)
    requires Live(s)
    ensures Connected(s) && s.server.transport.Some? && s.server.transport.value.start.Some?
  {
  }

  lemma QueueArrives(s: System, index: nat)
    requires Inv(s) && Connected(s) && s.server.wire == Some([]) && index < |s.server.queue|
    ensures var sent := Step(s, PlayFrom(index, true)); var after := Step(sent, NodeArrives);
      && Enabled(s, PlayFrom(index, true)) && Enabled(sent, NodeArrives)
      && after.signing == s.signing + [SetQueue(Suffix(s.server.queue, index), TransportOf(s.server).generation + 1)]
      && after.server.wire == Some([]) && after.player == s.player
      && after.server.transport == Some(Transport(TransportOf(s.server).generation + 1, Some(index),
           |Suffix(s.server.queue, index)|))
      && Inv(after) && Live(after) && !Gap(after) && Counted(after)
  {
    hide AllLineUp, LinesUp, ReportsAreRight, ReceiveAll, Suffix;
    var sent := Step(s, PlayFrom(index, true));
    var command := SetQueue(Suffix(s.server.queue, index), TransportOf(s.server).generation + 1);
    assert [] + [command] == [command] && [command][1..] == [];
    StepKeepsInv(s, PlayFrom(index, true));
    StepKeepsInv(sent, NodeArrives);
    var after := Step(sent, NodeArrives);
    assert OnItsWay(after) == OnItsWay(s) + [command];
    ReceiveAllAppend(s.player, OnItsWay(s), command);
    SetQueueReplaces(ReceiveAll(s.player, OnItsWay(s)), command);
    SuffixIsNotEmpty(s.server.queue, index);
  }

  /** An addition, and a new queue behind it, both waiting: the queue may not go first. */
  lemma QueueOvertakingIsReached(t: Track, u: Track, w: Track, x: Track) returns (actions: seq<Action>)
    ensures Run(INITIAL, actions) && Enabled(Execute(INITIAL, actions), NodeApplies(1))
    ensures !AlwaysSafe(Step(Execute(INITIAL, actions), NodeApplies(1)))
  {
    hide Run, AlwaysSafe, Careful, Step, Enabled, Inv, Gap, Live;
    var r := QueueIsPlayed(t, u, w);
    var s := Execute(INITIAL, r);
    InitiallyInLine();
    RunsKeepInv(INITIAL, r);
    PlayedIsLive(s, [t, u, w]);
    AdditionArrives(s, x);
    r := Then(r, s, AddToQueue([x], true));
    var s1 := Step(s, AddToQueue([x], true));
    CarefulAnyway(s1, NodeArrives);
    r := Then(r, s1, NodeArrives);
    var s2 := Step(s1, NodeArrives);
    LiveIsConnected(s2);
    QueueArrives(s2, 1);
    CarefulAnyway(s2, PlayFrom(1, true));
    r := Then(r, s2, PlayFrom(1, true));
    var s3 := Step(s2, PlayFrom(1, true));
    CarefulAnyway(s3, NodeArrives);
    actions := Then(r, s3, NodeArrives);
    var s4 := Step(s3, NodeArrives);
    assert s4.signing == [Add([x.filePath]), SetQueue(Suffix(s2.server.queue, 1), TransportOf(s2.server).generation + 1)];
    LiveIsConnected(s4);
    SecondIsQueue(s4, x.filePath, Suffix(s2.server.queue, 1));
    assert Enabled(s4, NodeApplies(1)) by { SecondMayApply(s4); }
    CareIsExact(s4, NodeApplies(1));
  }

  /** A new queue, and an addition behind it, both waiting: the addition may go first, and leaves a gap. */
  lemma AdditionOvertakingIsReached(t: Track, u: Track, w: Track, x: Track) returns (actions: seq<Action>)
    ensures Run(INITIAL, actions) && Enabled(Execute(INITIAL, actions), NodeApplies(1))
    ensures Careful(Execute(INITIAL, actions), NodeApplies(1)) && Gap(Step(Execute(INITIAL, actions), NodeApplies(1)))
  {
    hide Run, Careful, Step, Enabled, Inv, Gap, Live;
    var r := QueueIsPlayed(t, u, w);
    var s := Execute(INITIAL, r);
    InitiallyInLine();
    RunsKeepInv(INITIAL, r);
    PlayedIsLive(s, [t, u, w]);
    LiveIsConnected(s);
    QueueArrives(s, 1);
    CarefulAnyway(s, PlayFrom(1, true));
    r := Then(r, s, PlayFrom(1, true));
    var s1 := Step(s, PlayFrom(1, true));
    CarefulAnyway(s1, NodeArrives);
    r := Then(r, s1, NodeArrives);
    var s2 := Step(s1, NodeArrives);
    AdditionArrives(s2, x);
    r := Then(r, s2, AddToQueue([x], true));
    var s3 := Step(s2, AddToQueue([x], true));
    CarefulAnyway(s3, NodeArrives);
    actions := Then(r, s3, NodeArrives);
    var s4 := Step(s3, NodeArrives);
    var paths := Suffix(s.server.queue, 1);
    LiveIsConnected(s4);
    assert s4.signing == [SetQueue(paths, 2), Add([x.filePath])];
    SecondIsAddition(s4, paths, x.filePath);
    assert Enabled(s4, NodeApplies(1)) by { SecondMayApply(s4); }
  }

  lemma SecondIsQueue(s: System, a: string, paths: seq<string>)
    requires Inv(s) && Live(s) && !Gap(s) && s.server.wire == Some([])
    requires s.signing == [Add([a]), SetQueue(paths, TransportOf(s.server).generation)]
    ensures !Careful(s, NodeApplies(1))
  {
    hide Gap, Inv, Live, Careful;
    assert s.signing[..1] == [Add([a])] && Behind(s, 1) == [];
    QueueMayGoFirstExactly(s, 1);
    FirstJoined(s.signing[..1]);
  }

  lemma SecondIsAddition(s: System, paths: seq<string>, a: string)
    requires Inv(s) && Live(s) && !Gap(s) && Counted(s) && s.server.wire == Some([])
    requires s.signing == [SetQueue(paths, TransportOf(s.server).generation), Add([a])]
    requires s.player.generation < TransportOf(s.server).generation
    ensures Careful(s, NodeApplies(1)) && Gap(Step(s, NodeApplies(1)))
  {
    hide Gap, Inv, Live, Careful, Counted;
    assert s.signing[..0] == [] && Behind(s, 0) == [Add([a])];
    assert RemoveAt(Behind(s, 0), 0) == [];
    AdditionMayOvertakeQueueExactly(s, 0, 1);
  }

  lemma SecondAdditionIsNotFirst(s: System, a: string, b: string)
    requires Inv(s) && Live(s) && !Gap(s) && s.signing == [Add([a]), Add([b])] && s.server.wire == Some([]) && a != b
    ensures !Careful(s, NodeApplies(1))
  {
    hide Gap, Inv, Live, Careful;
    assert OnItsWay(s) == s.signing;
    assert RemoveAt(s.signing, 1) == [Add([a])];
    AdditionMayGoFirstExactly(s, 1);
    FirstJoined(s.signing);
    assert Joined(s.signing)[0] == a && (s.signing[1].paths + Joined(RemoveAt(s.signing, 1)))[0] == b;
  }

  lemma SecondMayApply(s: System)
    requires |s.signing| == 2
    ensures Enabled(s, NodeApplies(1))
  {
  }

  lemma PlayedIsLive(s: System, queue: seq<Track>)
    requires s.server == NodeView(queue, Some(0), Some(Transport(1, Some(0), |queue|)), Some([])) && s.signing == []
    requires s.player.playlist == Paths(queue) && s.player.generation == 1
    ensures Live(s) && !Gap(s)
  {
    assert OnItsWay(s) == [];
  }
}
