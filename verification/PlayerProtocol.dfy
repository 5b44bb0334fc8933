/** The messages between the server and an output node, and the node's end of them:
    the browser audio player, which keeps its playlist, song index and projection
    generation together. */
module PlayerProtocol {
  import opened Wrappers

  datatype NodeCommand =
    | SetQueue(paths: seq<string>, generation: nat)
    | Add(paths: seq<string>)
    | Remove(index: nat)
    | MoveTrack(from: nat, to: nat)

  /** A state update; the server reads these two fields to place the node in its queue. */
  datatype Report = Report(songIndex: nat, generation: nat)

  datatype PlayerState = PlayerState(playlist: seq<string>, songIndex: nat, generation: nat)

  const INITIAL_PLAYER := PlayerState([], 0, 0)

  // List editing, as `splice` does it.

  function RemoveAt<T>(s: seq<T>, i: nat): (r: seq<T>)
    requires i < |s|
    ensures |r| == |s| - 1
    ensures forall k :: 0 <= k < |r| ==> r[k] == if k < i then s[k] else s[k + 1]
  {
    s[..i] + s[i + 1..]
  }

  function InsertAt<T>(s: seq<T>, i: nat, x: T): (r: seq<T>)
    requires i <= |s|
    ensures |r| == |s| + 1 && r[i] == x
    ensures forall k :: 0 <= k < |r| && k != i ==> r[k] == if k < i then s[k] else s[k - 1]
  {
    s[..i] + [x] + s[i..]
  }

  /** Where the element at position `i` is after `MoveElement(s, from, to)`. */
  function FollowMove(i: nat, from: nat, to: nat): nat {
    if i == from then to
    else if from < i && to >= i then i - 1
    else if from > i && to <= i then i + 1
    else i
  }

  function MoveElement<T>(s: seq<T>, from: nat, to: nat): (r: seq<T>)
    requires from < |s| && to < |s|
    ensures |r| == |s|
  {
    InsertAt(RemoveAt(s, from), to, s[from])
  }

  /** Moving back names, for every place, the entry that the move brings there. */
  lemma MovedFrom<T>(s: seq<T>, from: nat, to: nat)
    requires from < |s| && to < |s|
    ensures forall k {:trigger MoveElement(s, from, to)[k]} :: 0 <= k < |s| ==>
      FollowMove(k, to, from) < |s| && MoveElement(s, from, to)[k] == s[FollowMove(k, to, from)]
  {
    forall k | 0 <= k < |s|
      ensures FollowMove(k, to, from) < |s| && MoveElement(s, from, to)[k] == s[FollowMove(k, to, from)]
    {
      MovedFromAt(s, from, to, k);
    }
  }

  lemma MovedFromAt<T>(s: seq<T>, from: nat, to: nat, k: nat)
    requires from < |s| && to < |s| && k < |s|
    ensures FollowMove(k, to, from) < |s| && MoveElement(s, from, to)[k] == s[FollowMove(k, to, from)]
  {
    var rest := RemoveAt(s, from);
    if k < to {
      assert MoveElement(s, from, to)[k] == rest[k];
    } else if k > to {
      assert MoveElement(s, from, to)[k] == rest[k - 1];
    }
  }

  /** FollowMove names, for every entry, the place where the move leaves it. */
  lemma MoveKeepsEveryEntry<T>(s: seq<T>, from: nat, to: nat, i: nat)
    requires from < |s| && to < |s| && i < |s|
    ensures FollowMove(i, from, to) < |s|
    ensures MoveElement(s, from, to)[FollowMove(i, from, to)] == s[i]
  {
  }

  // What the player holds after each message.

  function AfterRemove(p: PlayerState, index: nat): PlayerState {
    if index >= |p.playlist| then p
    else
      var playlist := RemoveAt(p.playlist, index);
      var songIndex :=
        if playlist == [] then 0
        else if index < p.songIndex then p.songIndex - 1
        else if index == p.songIndex && p.songIndex >= |playlist| then |playlist| - 1
        else p.songIndex;
      p.(playlist := playlist, songIndex := songIndex)
  }

  function AfterMove(p: PlayerState, from: nat, to: nat): PlayerState {
    if from >= |p.playlist| || to >= |p.playlist| then p
    else p.(playlist := MoveElement(p.playlist, from, to), songIndex := FollowMove(p.songIndex, from, to))
  }

  function Receive(p: PlayerState, command: NodeCommand): PlayerState {
    match command
    case SetQueue(paths, generation) => PlayerState(paths, 0, generation)
    case Add(paths) => p.(playlist := p.playlist + paths)
    case Remove(index) => AfterRemove(p, index)
    case MoveTrack(from, to) => AfterMove(p, from, to)
  }

  function ReceiveAll(p: PlayerState, commands: seq<NodeCommand>): PlayerState
    decreases |commands|
  {
    if commands == [] then p else ReceiveAll(Receive(p, commands[0]), commands[1..])
  }

  function Ended(p: PlayerState): PlayerState {
    if p.songIndex + 1 < |p.playlist| then p.(songIndex := p.songIndex + 1) else p
  }

  function Playing(p: PlayerState): Option<string> {
    if p.songIndex < |p.playlist| then Some(p.playlist[p.songIndex]) else None
  }

  /** The index always names an entry of a non-empty playlist. */
  ghost predicate WellPlaced(p: PlayerState) {
    p.songIndex < |p.playlist| || (p.songIndex == 0 && p.playlist == [])
  }

  /** Every message and every auto-advance keeps the index on the playlist; removing or
      moving other tracks leaves the track that is playing the one that is playing. */
  lemma PlayerStaysPlaced(p: PlayerState, command: NodeCommand)
    requires WellPlaced(p)
    ensures WellPlaced(Receive(p, command)) && WellPlaced(Ended(p))
    ensures command.Remove? && command.index != p.songIndex ==> Playing(Receive(p, command)) == Playing(p)
    ensures command.MoveTrack? ==> Playing(Receive(p, command)) == Playing(p)
  {
    if command.MoveTrack? && command.from < |p.playlist| && command.to < |p.playlist| {
      MoveKeepsEveryEntry(p.playlist, command.from, command.to, p.songIndex);
    }
  }

  lemma {:induction false} StaysPlacedThroughout(p: PlayerState, commands: seq<NodeCommand>)
    requires WellPlaced(p)
    ensures WellPlaced(ReceiveAll(p, commands))
    decreases |commands|
  {
    if commands != [] {
      PlayerStaysPlaced(p, commands[0]);
      StaysPlacedThroughout(Receive(p, commands[0]), commands[1..]);
    }
  }

  predicate OnlyAdditions(commands: seq<NodeCommand>) { forall c <- commands :: c.Add? }

  /** All the paths that some additions add. */
  function Joined(commands: seq<NodeCommand>): seq<string>
    requires OnlyAdditions(commands)
  {
    if commands == [] then [] else commands[0].paths + Joined(commands[1..])
  }

  lemma {:induction false} AdditionsJoin(p: PlayerState, commands: seq<NodeCommand>)
    requires OnlyAdditions(commands)
    ensures ReceiveAll(p, commands) == p.(playlist := p.playlist + Joined(commands))
    decreases |commands|
  {
    if commands == [] {
      assert p.playlist + [] == p.playlist;
    } else {
      AdditionsJoin(Receive(p, commands[0]), commands[1..]);
      assert p.playlist + commands[0].paths + Joined(commands[1..]) == p.playlist + Joined(commands);
    }
  }

  lemma {:induction false} ReceiveAllAppend(p: PlayerState, commands: seq<NodeCommand>, last: NodeCommand)
    ensures ReceiveAll(p, commands + [last]) == Receive(ReceiveAll(p, commands), last)
    decreases |commands|
  {
    if commands == [] {
      assert ([last])[1..] == [];
      assert ReceiveAll(p, [last]) == ReceiveAll(Receive(p, last), []);
    } else {
      assert (commands + [last])[1..] == commands[1..] + [last];
      ReceiveAllAppend(Receive(p, commands[0]), commands[1..], last);
    }
  }

  /** The player object: its methods splice the playlist and move the index in place. */
  /** A new queue starts at its first entry, and additions go to the end. */
  lemma QueueingMeans(p: PlayerState, paths: seq<string>, generation: nat)
    ensures Receive(p, SetQueue(paths, generation)) == PlayerState(paths, 0, generation)
    ensures var after := Receive(p, Add(paths)); var n := |p.playlist|;
      && after.generation == p.generation && after.songIndex == p.songIndex
      && after.playlist[..n] == p.playlist && after.playlist[n..] == paths
  {
  }

  /** A removed entry leaves the others as they were and the playing one playing; if it played itself, the next one
      takes its place, or the last. */
  lemma RemovingMeans(p: PlayerState, i: nat)
    requires WellPlaced(p)
    ensures var after := Receive(p, Remove(i)); var n := |p.playlist|;
      && after.generation == p.generation
      && (i >= n ==> after.playlist == p.playlist && after.songIndex == p.songIndex)
      && (i < n ==>
            && after.playlist[..i] == p.playlist[..i] && after.playlist[i..] == p.playlist[i + 1..]
            && (i < p.songIndex ==> after.songIndex == p.songIndex - 1)
            && (i > p.songIndex ==> after.songIndex == p.songIndex)
            && (i == p.songIndex && i + 1 < n ==> after.songIndex == i)
            && (i == p.songIndex && i + 1 == n ==> after.songIndex == if n == 1 then 0 else n - 2))
  {
  }

  /** A move takes out one entry and puts it in, the others staying in order. */
  lemma MoveTakesOut<T>(s: seq<T>, from: nat, to: nat)
    requires from < |s| && to < |s|
    ensures MoveElement(s, from, to)[to] == s[from]
    ensures MoveElement(s, from, to)[..to] + MoveElement(s, from, to)[to + 1..] == s[..from] + s[from + 1..]
  {
    var rest := RemoveAt(s, from);
    var moved := InsertAt(rest, to, s[from]);
    assert moved[..to] == rest[..to] && moved[to + 1..] == rest[to..];
    assert moved[..to] + moved[to + 1..] == rest;
  }

  /** A moved entry is taken out and put in, the others staying in order and what plays playing on. */
  lemma MovingMeans(p: PlayerState, from: nat, to: nat)
    ensures var after := Receive(p, MoveTrack(from, to)); var n := |p.playlist|;
      && after.generation == p.generation && |after.playlist| == n
      && (from >= n || to >= n ==> after.playlist == p.playlist && after.songIndex == p.songIndex)
      && (from < n && to < n ==>
            && after.playlist[to] == p.playlist[from]
            && after.playlist[..to] + after.playlist[to + 1..] == p.playlist[..from] + p.playlist[from + 1..]
            && after.songIndex ==
              (if p.songIndex == from then to
               else if from < p.songIndex <= to then p.songIndex - 1
               else if to <= p.songIndex < from then p.songIndex + 1
               else p.songIndex))
  {
    if from < |p.playlist| && to < |p.playlist| {
      MoveTakesOut(p.playlist, from, to);
      hide MoveElement;
    }
  }

  /** The player goes on to the next entry, and stays on the last. */
  lemma EndingMeans(p: PlayerState)
    ensures Ended(p).playlist == p.playlist && Ended(p).generation == p.generation
    ensures p.songIndex + 1 < |p.playlist| ==> Ended(p).songIndex == p.songIndex + 1
    ensures p.songIndex + 1 >= |p.playlist| ==> Ended(p).songIndex == p.songIndex
  {
  }

  class AudioPlayer {
    var playlist: seq<string>
    var currentSongIndex: nat
    var projectionGeneration: nat

    ghost function State(): PlayerState
      reads this
    {
      PlayerState(playlist, currentSongIndex, projectionGeneration)
    }

    constructor ()
      ensures State() == INITIAL_PLAYER
    {
      playlist, currentSongIndex, projectionGeneration := [], 0, 0;
    }

    method ReplaceQueue(filePaths: seq<string>, generation: nat)
      modifies this
      ensures State() == Receive(old(State()), SetQueue(filePaths, generation))
    {
      playlist := filePaths;
      currentSongIndex := 0;
      projectionGeneration := generation;
    }

    method AddTracks(filePaths: seq<string>)
      modifies this
      ensures State() == Receive(old(State()), Add(filePaths))
    {
      if |filePaths| == 0 { return; }
      playlist := playlist + filePaths;
    }

    method RemoveTrack(index: int)
      modifies this
      ensures State() == if index < 0 then old(State()) else Receive(old(State()), Remove(index))
    {
      if index < 0 || index >= |playlist| { return; }
      var removingCurrent := index == currentSongIndex;
      playlist := RemoveAt(playlist, index);
      if |playlist| == 0 {
        currentSongIndex := 0;
        return;
      }
      if index < currentSongIndex {
        currentSongIndex := currentSongIndex - 1;
        return;
      }
      if removingCurrent {
        if currentSongIndex >= |playlist| {
          currentSongIndex := |playlist| - 1;
        }
      }
    }

    method MoveEntry(from: int, to: int)
      modifies this
      ensures State() == if from < 0 || to < 0 then old(State()) else Receive(old(State()), MoveTrack(from, to))
    {
      if from < 0 || to < 0 || from >= |playlist| || to >= |playlist| || from == to {
        assert from == to && 0 <= from < |playlist| ==> MoveElement(playlist, from, to) == playlist;
        return;
      }
      var track := playlist[from];
      playlist := RemoveAt(playlist, from);
      playlist := InsertAt(playlist, to, track);
      if currentSongIndex == from {
        currentSongIndex := to;
        return;
      }
      if from < currentSongIndex && to >= currentSongIndex {
        currentSongIndex := currentSongIndex - 1;
        return;
      }
      if from > currentSongIndex && to <= currentSongIndex {
        currentSongIndex := currentSongIndex + 1;
      }
    }

    method HandleEnded()
      modifies this
      ensures State() == Ended(old(State()))
    {
      if currentSongIndex + 1 < |playlist| {
        currentSongIndex := currentSongIndex + 1;
        return;
      }
    }

    method GetState() returns (report: Report)
      ensures report == Report(currentSongIndex, projectionGeneration)
    {
      report := Report(currentSongIndex, projectionGeneration);
    }
  }
}
