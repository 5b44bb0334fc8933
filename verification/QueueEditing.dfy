/** Removing and moving queue entries while a node holds a projection of the queue: exactly when
    the command the server sends keeps the two in step. */
module QueueEditing {
  import opened Wrappers
  import opened PlayerProtocol
  import opened NodeQueue

  /** The node holds the queue from the projection's start on, and the track the server takes to
      be current is the one the node is playing. */
  ghost predicate InStep(v: NodeView, start: nat, player: PlayerState) {
    && start + player.songIndex < |v.queue|
    && v.currentIndex == Some(start + player.songIndex)
    && player.playlist == Suffix(v.queue, start)
  }

  ghost predicate DistinctPaths(queue: seq<Track>) {
    forall i, j :: 0 <= i < j < |queue| ==> queue[i].filePath != queue[j].filePath
  }

  /** What the node holds once it has read the command that `RemoveEntry` sends. */
  function PlayerAfterRemove(v: NodeView, index: nat, player: PlayerState): PlayerState {
    Receive(player, Remove(NodePosition(v, index)))
  }

  function PlayerAfterMove(v: NodeView, from: nat, to: nat, player: PlayerState): PlayerState {
    Receive(player, MoveTrack(NodePosition(v, from), NodePosition(v, to)))
  }

  /** Read in order, the command is the last thing that changes what the node holds. */
  lemma EditReachesTheNode(v: NodeView, player: PlayerState, index: nat, to: nat)
    requires v.wire.Some? && index < |v.queue| && to < |v.queue|
    ensures ReceiveAll(player, RemoveEntry(v, index, true, true).wire.value)
      == PlayerAfterRemove(v, index, ReceiveAll(player, v.wire.value))
    ensures ReceiveAll(player, MoveEntry(v, index, to, true, true).wire.value)
      == PlayerAfterMove(v, index, to, ReceiveAll(player, v.wire.value))
  {
    ReceiveAllAppend(player, v.wire.value, Remove(NodePosition(v, index)));
    ReceiveAllAppend(player, v.wire.value, MoveTrack(NodePosition(v, index), NodePosition(v, to)));
  }

  // Removal.

  /** The server counts positions from the current track, the node from the projection's start.
      While these are the same entry, removing it (unless it is the last one) or a later one is
      right; once the node has played on, only removing what lies at or before the start is. */
  predicate RemovalFits(start: nat, current: nat, index: nat, length: nat) {
    if current == start then index > start || (index == start && start + 1 < length) else index <= start
  }

  /** Removing an entry takes it, or else the first one, off the projected suffix. */
  lemma SuffixAfterRemove(queue: seq<Track>, start: nat, index: nat)
    requires start < |queue| && index < |queue|
    ensures Suffix(RemoveAt(queue, index), start)
      == RemoveAt(Suffix(queue, start), if index < start then 0 else index - start)
  {
  }

  lemma RemovalKeepsStep(v: NodeView, start: nat, player: PlayerState, index: nat, accepted: bool)
    requires InStep(v, start, player) && index < |v.queue|
    requires RemovalFits(start, v.currentIndex.value, index, |v.queue|)
    ensures InStep(RemoveEntry(v, index, true, accepted), start, PlayerAfterRemove(v, index, player))
  {
    SuffixAfterRemove(v.queue, start, index);
  }

  lemma RemovalBreaksStep(v: NodeView, start: nat, player: PlayerState, index: nat, accepted: bool)
    requires InStep(v, start, player) && index < |v.queue| && DistinctPaths(v.queue)
    requires !RemovalFits(start, v.currentIndex.value, index, |v.queue|)
    ensures !InStep(RemoveEntry(v, index, true, accepted), start, PlayerAfterRemove(v, index, player))
  {
    if start < v.currentIndex.value {
      RemovalBreaksPlaylist(v.queue, start, From(v.currentIndex.value, index), index);
    }
  }

  lemma RemovalBreaksPlaylist(queue: seq<Track>, start: nat, position: nat, index: nat)
    requires start < index < |queue| && position < index - start && DistinctPaths(queue)
    ensures RemoveAt(Suffix(queue, start), position) != Suffix(RemoveAt(queue, index), start)
  {
    SuffixAfterRemove(queue, start, index);
    var held := Suffix(queue, start);
    assert RemoveAt(held, position)[position] == held[position + 1] == queue[start + position + 1].filePath;
    assert RemoveAt(held, index - start)[position] == held[position] == queue[start + position].filePath;
  }

  /** Exact: with distinct tracks, the sent removal keeps server and node in step if and only if
      `RemovalFits`. */
  lemma RemovalInStepExactlyWhenItFits(v: NodeView, start: nat, player: PlayerState, index: nat, accepted: bool)
    requires InStep(v, start, player) && index < |v.queue| && DistinctPaths(v.queue)
    ensures InStep(RemoveEntry(v, index, true, accepted), start, PlayerAfterRemove(v, index, player))
      <==> RemovalFits(start, v.currentIndex.value, index, |v.queue|)
  {
    if RemovalFits(start, v.currentIndex.value, index, |v.queue|) {
      RemovalKeepsStep(v, start, player, index, accepted);
    } else {
      RemovalBreaksStep(v, start, player, index, accepted);
    }
  }

  // Moves.

  predicate MoveFits(start: nat, current: nat, from: nat, to: nat) {
    from == to || (from < start && to < start) || (current == start && start <= from && start <= to)
  }

  lemma PlaceAfterMove(queue: seq<Track>, start: nat, from: nat, to: nat, k: nat)
    requires start <= from < |queue| && start <= to < |queue| && start + k < |queue|
    ensures MoveElement(Suffix(queue, start), from - start, to - start)[k]
      == MoveElement(queue, from, to)[start + k].filePath
  {
    hide MoveElement;
    MovedFromAt(queue, from, to, start + k);
    MovedFromAt(Suffix(queue, start), from - start, to - start, k);
    assert FollowMove(start + k, to, from) == start + FollowMove(k, to - start, from - start);
  }

  /** Moving entries on one side of the start moves them on the projected suffix, or not at all. */
  lemma SuffixAfterMove(queue: seq<Track>, start: nat, from: nat, to: nat)
    requires start <= from < |queue| && start <= to < |queue|
    ensures Suffix(MoveElement(queue, from, to), start) == MoveElement(Suffix(queue, start), from - start, to - start)
  {
    var held := MoveElement(Suffix(queue, start), from - start, to - start);
    forall k | 0 <= k < |held|
      ensures held[k] == MoveElement(queue, from, to)[start + k].filePath
    {
      PlaceAfterMove(queue, start, from, to, k);
    }
  }

  lemma SuffixBeyondMove(queue: seq<Track>, start: nat, from: nat, to: nat)
    requires from < start < |queue| && to < start
    ensures Suffix(MoveElement(queue, from, to), start) == Suffix(queue, start)
  {
  }

  lemma MoveToSelf<T>(s: seq<T>, i: nat)
    requires i < |s|
    ensures MoveElement(s, i, i) == s
  {
  }

  lemma MoveKeepsPlaylist(queue: seq<Track>, start: nat, current: nat, from: nat, to: nat)
    requires start <= current < |queue| && from < |queue| && to < |queue| && MoveFits(start, current, from, to)
    ensures MoveElement(Suffix(queue, start), From(current, from), From(current, to))
      == Suffix(MoveElement(queue, from, to), start)
  {
    if from == to {
      MoveToSelf(queue, from);
      MoveToSelf(Suffix(queue, start), From(current, from));
    } else if from < start {
      SuffixBeyondMove(queue, start, from, to);
      MoveToSelf(Suffix(queue, start), 0);
    } else {
      SuffixAfterMove(queue, start, from, to);
    }
  }

  lemma MoveKeepsIndex(start: nat, current: nat, from: nat, to: nat)
    requires start <= current && MoveFits(start, current, from, to)
    ensures start + FollowMove(current - start, From(current, from), From(current, to)) == FollowMove(current, from, to)
  {
  }

  lemma MovedTogether(queue: seq<Track>, current: nat, start: nat, player: PlayerState, from: nat, to: nat)
    requires start + player.songIndex == current < |queue| && player.playlist == Suffix(queue, start)
    requires from < |queue| && to < |queue|
    ensures var after := AfterMove(player, From(current, from), From(current, to));
      && after.playlist == MoveElement(Suffix(queue, start), From(current, from), From(current, to))
      && after.songIndex == FollowMove(player.songIndex, From(current, from), From(current, to))
    ensures FollowMove(current, from, to) < |queue|
  {
  }

  lemma MovedView(v: NodeView, from: nat, to: nat, accepted: bool)
    requires from < |v.queue| && to < |v.queue| && v.currentIndex.Some?
    ensures var after := MoveEntry(v, from, to, true, accepted);
      && after.queue == MoveElement(v.queue, from, to)
      && after.currentIndex == Some(FollowMove(v.currentIndex.value, from, to))
  {
  }

  lemma MoveIsRead(v: NodeView, from: nat, to: nat, player: PlayerState)
    requires v.currentIndex.Some?
    ensures PlayerAfterMove(v, from, to, player)
      == AfterMove(player, From(v.currentIndex.value, from), From(v.currentIndex.value, to))
  {
  }

  lemma MoveKeepsStep(v: NodeView, start: nat, player: PlayerState, from: nat, to: nat, accepted: bool)
    requires InStep(v, start, player) && from < |v.queue| && to < |v.queue|
    requires MoveFits(start, v.currentIndex.value, from, to)
    ensures InStep(MoveEntry(v, from, to, true, accepted), start, PlayerAfterMove(v, from, to, player))
  {
    hide MoveEntry, MoveElement, FollowMove, Suffix, AfterMove, MoveFits, PlayerAfterMove, From;
    var current := v.currentIndex.value;
    MoveKeepsPlaylist(v.queue, start, current, from, to);
    MoveKeepsIndex(start, current, from, to);
    MovedTogether(v.queue, current, start, player, from, to);
    MovedView(v, from, to, accepted);
    MoveIsRead(v, from, to, player);
  }

  /** Once the node has played on, the positions sent never describe the move that was made. */
  lemma ShiftedMoveDiffers(from: nat, to: nat, played: nat)
    requires from != to && played > 0
    ensures FollowMove(from, From(played, from), From(played, to)) != to
  {
  }

  /** The node still has the track somewhere else than where the server moved it. */
  lemma MoveMisplacesTrack(queue: seq<Track>, start: nat, from: nat, to: nat, nodeFrom: nat, nodeTo: nat)
    requires start <= from < |queue| && to < |queue| && DistinctPaths(queue)
    requires nodeFrom < |queue| - start && nodeTo < |queue| - start
    requires start + FollowMove(from - start, nodeFrom, nodeTo) != to
    ensures MoveElement(Suffix(queue, start), nodeFrom, nodeTo) != Suffix(MoveElement(queue, from, to), start)
  {
    var held := Suffix(queue, start);
    var place := FollowMove(from - start, nodeFrom, nodeTo);
    MoveKeepsEveryEntry(held, nodeFrom, nodeTo, from - start);
    assert MoveElement(held, nodeFrom, nodeTo)[place] == queue[from].filePath;
    OnlyOneEntryMovesThere(queue, start, from, to, place);
  }

  lemma OnlyOneEntryMovesThere(queue: seq<Track>, start: nat, from: nat, to: nat, place: nat)
    requires from < |queue| && to < |queue| && start + place < |queue| && start + place != to && DistinctPaths(queue)
    ensures Suffix(MoveElement(queue, from, to), start)[place] != queue[from].filePath
  {
    MovedFrom(queue, from, to);
    var source := FollowMove(start + place, to, from);
    assert source != from;
    assert MoveElement(queue, from, to)[start + place] == queue[source];
  }

  /** The server has put a track on the suffix that the node never had. */
  lemma MoveBringsTrackIn(queue: seq<Track>, start: nat, from: nat, to: nat, nodeFrom: nat, nodeTo: nat)
    requires from < start <= to < |queue| && DistinctPaths(queue)
    requires nodeFrom < |queue| - start && nodeTo < |queue| - start
    ensures MoveElement(Suffix(queue, start), nodeFrom, nodeTo) != Suffix(MoveElement(queue, from, to), start)
  {
    var held := Suffix(queue, start);
    var moved := MoveElement(queue, from, to);
    MovedFrom(queue, from, to);
    MovedFrom(held, nodeFrom, nodeTo);
    var k := to - start;
    assert Suffix(moved, start)[k] == moved[to].filePath == queue[from].filePath;
    var j := FollowMove(k, nodeTo, nodeFrom);
    assert MoveElement(held, nodeFrom, nodeTo)[k] == held[j] == queue[start + j].filePath;
  }

  lemma MoveBreaksStep(v: NodeView, start: nat, player: PlayerState, from: nat, to: nat, accepted: bool)
    requires InStep(v, start, player) && from < |v.queue| && to < |v.queue| && DistinctPaths(v.queue)
    requires !MoveFits(start, v.currentIndex.value, from, to)
    ensures !InStep(MoveEntry(v, from, to, true, accepted), start, PlayerAfterMove(v, from, to, player))
  {
    MoveBreaksPlaylist(v.queue, start, v.currentIndex.value, from, to);
  }

  lemma MoveBreaksPlaylist(queue: seq<Track>, start: nat, current: nat, from: nat, to: nat)
    requires start <= current < |queue| && from < |queue| && to < |queue| && DistinctPaths(queue)
    requires !MoveFits(start, current, from, to)
    ensures MoveElement(Suffix(queue, start), From(current, from), From(current, to))
      != Suffix(MoveElement(queue, from, to), start)
  {
    var nodeFrom, nodeTo := From(current, from), From(current, to);
    if from < start {
      MoveBringsTrackIn(queue, start, from, to, nodeFrom, nodeTo);
    } else {
      if start <= to {
        ShiftedMoveDiffers(from - start, to - start, current - start);
      }
      MoveMisplacesTrack(queue, start, from, to, nodeFrom, nodeTo);
    }
  }

  /** Exact: with distinct tracks, the sent move keeps server and node in step if and only if
      `MoveFits`. */
  lemma MoveInStepExactlyWhenItFits(
    v: NodeView, start: nat, player: PlayerState, from: nat, to: nat, accepted: bool)
    requires InStep(v, start, player) && from < |v.queue| && to < |v.queue| && DistinctPaths(v.queue)
    ensures InStep(MoveEntry(v, from, to, true, accepted), start, PlayerAfterMove(v, from, to, player))
      <==> MoveFits(start, v.currentIndex.value, from, to)
  {
    if MoveFits(start, v.currentIndex.value, from, to) {
      MoveKeepsStep(v, start, player, from, to, accepted);
    } else {
      MoveBreaksStep(v, start, player, from, to, accepted);
    }
  }

  // What the user sees, and what reports see.

  /** On the server, moving anything, or removing anything else, keeps the current track current. */
  lemma CurrentTrackStaysCurrent(v: NodeView, index: nat, to: nat, connected: bool, accepted: bool)
    requires v.currentIndex.Some? && v.currentIndex.value < |v.queue| && index < |v.queue| && to < |v.queue|
    ensures var moved := MoveEntry(v, index, to, connected, accepted);
      && moved.currentIndex.Some? && moved.currentIndex.value < |moved.queue|
      && moved.queue[moved.currentIndex.value] == v.queue[v.currentIndex.value]
    ensures index != v.currentIndex.value ==>
      var removed := RemoveEntry(v, index, connected, accepted);
      && removed.currentIndex.Some? && removed.currentIndex.value < |removed.queue|
      && removed.queue[removed.currentIndex.value] == v.queue[v.currentIndex.value]
  {
    MoveKeepsEveryEntry(v.queue, index, to, v.currentIndex.value);
  }

  /** Editing does not start a new generation, so a report sent before a removal is still taken
      after it. It then selects the entry it meant exactly when the removed entry came later. */
  lemma ReportAcrossRemoval(v: NodeView, report: Report, index: nat)
    requires v.wire.Some? && index < |v.queue| && DistinctPaths(v.queue)
    requires ProjectedIndex(v, report).Some?
    requires v.transport.value.loadedLen >= |v.queue| - v.transport.value.start.value
    ensures var meant := ProjectedIndex(v, report).value;
      var after := RemoveEntry(v, index, true, true);
      var taken := ProjectedIndex(after, report);
      index > meant <==> taken.Some? && after.queue[taken.value].filePath == v.queue[meant].filePath
  {
  }

  /** The same for a move: an earlier report still selects the entry it meant exactly when the move
      leaves that entry where it is. */
  lemma ReportAcrossMove(v: NodeView, report: Report, from: nat, to: nat)
    requires v.wire.Some? && from < |v.queue| && to < |v.queue| && DistinctPaths(v.queue)
    requires ProjectedIndex(v, report).Some?
    ensures var meant := ProjectedIndex(v, report).value;
      var after := MoveEntry(v, from, to, true, true);
      var taken := ProjectedIndex(after, report);
      FollowMove(meant, from, to) == meant <==> taken.Some? && after.queue[taken.value].filePath == v.queue[meant].filePath
  {
    var meant := ProjectedIndex(v, report).value;
    MovedFrom(v.queue, from, to);
    assert MoveElement(v.queue, from, to)[meant] == v.queue[FollowMove(meant, to, from)];
    assert FollowMove(meant, to, from) == meant <==> FollowMove(meant, from, to) == meant;
  }

  // Edits and signatures: the browser applies an edit as soon as it arrives, while additions and new
  // queues that were sent before it may still wait for their URLs to be signed.

  /** The edit first, then what was sent before it. */
  function EditedAtOnce(player: PlayerState, signing: seq<NodeCommand>, edit: NodeCommand): PlayerState {
    ReceiveAll(Receive(player, edit), signing)
  }

  function EditedInOrder(player: PlayerState, signing: seq<NodeCommand>, edit: NodeCommand): PlayerState {
    Receive(ReceiveAll(player, signing), edit)
  }

  /** A removal behind waiting additions: the player comes out as if both were read in order exactly when
      the removed entry was there before, but is not both playing and last behind another, or is on neither
      playlist, or nothing is added. */
  lemma RemovalOvertakesAdditions(p: PlayerState, signing: seq<NodeCommand>, index: nat)
    requires WellPlaced(p) && OnlyAdditions(signing)
    ensures EditedAtOnce(p, signing, Remove(index)) == EditedInOrder(p, signing, Remove(index))
      <==> || Joined(signing) == []
           || (index < |p.playlist| && !(0 < index == p.songIndex == |p.playlist| - 1))
           || index >= |p.playlist| + |Joined(signing)|
  {
    hide Joined;
    var paths := Joined(signing);
    AdditionsJoin(p, signing);
    AdditionsJoin(AfterRemove(p, index), signing);
    if index < |p.playlist| {
      assert RemoveAt(p.playlist, index) + paths == RemoveAt(p.playlist + paths, index);
    }
    if paths == [] {
      assert p.playlist + paths == p.playlist;
      assert AfterRemove(p, index).playlist + paths == AfterRemove(p, index).playlist;
    }
  }

  /** Place k is one that moving an entry from `from` to `to` fills anew. */
  predicate Crosses(from: nat, to: nat, k: nat) { from <= k <= to || to <= k <= from }

  /** The move cannot be noticed: only copies of one track change places, and the current entry is none of
      them. */
  predicate Unseen(playlist: seq<string>, songIndex: nat, from: nat, to: nat)
    requires from < |playlist| && to < |playlist|
  {
    !Crosses(from, to, songIndex) && forall k :: 0 <= k < |playlist| && Crosses(from, to, k) ==> playlist[k] == playlist[from]
  }

  lemma {:induction false} EqualNeighbours<T>(s: seq<T>, lo: nat, hi: nat, k: nat)
    requires lo <= k <= hi < |s| && forall i :: lo <= i < hi ==> s[i] == s[i + 1]
    ensures s[k] == s[lo]
    decreases k - lo
  {
    if k > lo {
      EqualNeighbours(s, lo, hi, k - 1);
    }
  }

  /** A move leaves a list as it is exactly if all it moves is equal. */
  lemma MoveChangesNothingExactly<T>(s: seq<T>, from: nat, to: nat)
    requires from < |s| && to < |s|
    ensures MoveElement(s, from, to) == s <==> forall k :: 0 <= k < |s| && Crosses(from, to, k) ==> s[k] == s[from]
  {
    hide MoveElement;
    MovedFrom(s, from, to);
    var moved := MoveElement(s, from, to);
    var lo, hi := if from <= to then from else to, if from <= to then to else from;
    if moved == s {
      forall i | lo <= i < hi
        ensures s[i] == s[i + 1]
      {
        assert from <= to ==> moved[i] == s[i + 1];
        assert to < from ==> moved[i + 1] == s[i];
      }
      EqualNeighbours(s, lo, hi, from);
      forall k | 0 <= k < |s| && Crosses(from, to, k)
        ensures s[k] == s[from]
      {
        EqualNeighbours(s, lo, hi, k);
      }
    } else if forall k :: 0 <= k < |s| && Crosses(from, to, k) ==> s[k] == s[from] {
      forall k | 0 <= k < |s|
        ensures moved[k] == s[k]
      {
        var source := FollowMove(k, to, from);
        assert moved[k] == s[source];
        assert source == k || (Crosses(from, to, k) && Crosses(from, to, source));
      }
    }
  }

  lemma MoveIsUnseenExactly(p: PlayerState, from: nat, to: nat)
    requires from < |p.playlist| && to < |p.playlist|
    ensures AfterMove(p, from, to) == p <==> from == to || Unseen(p.playlist, p.songIndex, from, to)
  {
    MoveChangesNothingExactly(p.playlist, from, to);
    if from == to {
      MoveToSelf(p.playlist, from);
    }
  }

  lemma MoveInFront<T>(front: seq<T>, back: seq<T>, from: nat, to: nat)
    requires from < |front| && to < |front|
    ensures MoveElement(front, from, to) + back == MoveElement(front + back, from, to)
  {
    hide MoveElement;
    forall k | 0 <= k < |front + back|
      ensures (MoveElement(front, from, to) + back)[k] == MoveElement(front + back, from, to)[k]
    {
      MovedFromAt(front + back, from, to, k);
      if k < |front| {
        MovedFromAt(front, from, to, k);
      }
    }
  }

  /** A move behind waiting additions: exactly when both places were there before, or one is on neither
      playlist, or the move cannot be noticed. */
  lemma MoveOvertakesAdditions(p: PlayerState, signing: seq<NodeCommand>, from: nat, to: nat)
    requires OnlyAdditions(signing)
    ensures EditedAtOnce(p, signing, MoveTrack(from, to)) == EditedInOrder(p, signing, MoveTrack(from, to))
      <==> var whole := p.playlist + Joined(signing);
           || from == to
           || (from < |p.playlist| && to < |p.playlist|)
           || from >= |whole| || to >= |whole|
           || Unseen(whole, p.songIndex, from, to)
  {
    hide MoveElement, FollowMove, Unseen, Joined;
    var paths := Joined(signing);
    AdditionsJoin(p, signing);
    AdditionsJoin(AfterMove(p, from, to), signing);
    var whole := p.(playlist := p.playlist + paths);
    if from < |whole.playlist| && to < |whole.playlist| {
      MoveIsUnseenExactly(whole, from, to);
      if from < |p.playlist| && to < |p.playlist| {
        MoveInFront(p.playlist, paths, from, to);
      }
    }
  }

  /** An edit behind a waiting new queue is lost, which makes no difference exactly if it names an entry
      that is not there, or is a move that cannot be noticed. */
  lemma EditOvertakesNewQueue(p: PlayerState, paths: seq<string>, generation: nat, edit: NodeCommand)
    requires edit.Remove? || edit.MoveTrack?
    ensures EditedAtOnce(p, [SetQueue(paths, generation)], edit) == PlayerState(paths, 0, generation)
    ensures EditedAtOnce(p, [SetQueue(paths, generation)], edit) == EditedInOrder(p, [SetQueue(paths, generation)], edit)
      <==> match edit
           case Remove(index) => index >= |paths|
           case MoveTrack(from, to) =>
             from == to || from >= |paths| || to >= |paths| || Unseen(paths, 0, from, to)
           case _ => true
  {
    hide MoveElement, FollowMove, Unseen;
    assert [SetQueue(paths, generation)] == [] + [SetQueue(paths, generation)];
    ReceiveAllAppend(p, [], SetQueue(paths, generation));
    ReceiveAllAppend(Receive(p, edit), [], SetQueue(paths, generation));
    if edit.MoveTrack? && edit.from < |paths| && edit.to < |paths| {
      MoveIsUnseenExactly(PlayerState(paths, 0, generation), edit.from, edit.to);
    }
  }
}
