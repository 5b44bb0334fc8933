/** The bridge to the plugins: successive playback states turned into events. */
module PluginEvents {
  import opened Wrappers

  datatype Track = Track(id: string, durationSecs: Option<real>)

  datatype Status = Stopped | Playing | Paused | Loading

  datatype Node = Node(queue: seq<Track>, currentIndex: Option<nat>, status: Status, positionSecs: real)

  datatype PlaybackState = PlaybackState(
    nodes: map<string, Node>, selected: Option<string>, queue: seq<Track>, currentIndex: Option<nat>)
  {
    function SelectedNode(): Option<Node> {
      if selected.Some? && selected.value in nodes then Some(nodes[selected.value]) else None
    }

    function CurrentTrack(): Option<Track> {
      var own := SelectedNode();
      var fromNode := if own.Some? then EntryAt(own.value.queue, own.value.currentIndex) else None;
      if fromNode.Some? then fromNode else EntryAt(queue, currentIndex)
    }
  }

  const NO_STATE := PlaybackState(map[], None, [], None)

  datatype Event =
    | TrackChanged(previous: Option<Track>, current: Track)
    | PlaybackPaused(track: Option<Track>, positionSecs: real)
    | PlaybackResumed(track: Option<Track>, positionSecs: real)
    | PlaybackStopped(track: Option<Track>)
    | ScrobblePoint(scrobbled: Track)

  function EntryAt(queue: seq<Track>, index: Option<nat>): Option<Track> {
    if index.Some? && index.value < |queue| then Some(queue[index.value]) else None
  }

  /** Half of the track, but no more than four minutes. */
  function Threshold(durationSecs: real): real {
    if durationSecs / 2.0 < 240.0 then durationSecs / 2.0 else 240.0
  }

  /** The track that has been played for long enough, if there is one. */
  function Due(was: PlaybackState, state: PlaybackState): Option<Track> {
    var node, track := state.SelectedNode(), state.CurrentTrack();
    if was.SelectedNode().Some? && node.Some? && node.value.status.Playing? && track.Some?
      && track.value.durationSecs.Some? && track.value.durationSecs.value > 30.0
      && node.value.positionSecs >= Threshold(track.value.durationSecs.value)
    then track else None
  }

  function ChangeEvents(was: PlaybackState, state: PlaybackState): seq<Event> {
    var track := state.CurrentTrack();
    if state.currentIndex != was.currentIndex && track.Some?
    then [TrackChanged(was.CurrentTrack(), track.value)] else []
  }

  function StatusEvents(was: PlaybackState, state: PlaybackState): seq<Event> {
    var before, node, track := was.SelectedNode(), state.SelectedNode(), state.CurrentTrack();
    if before.None? || node.None? then []
    else if before.value.status.Playing? && node.value.status.Paused? then
      [PlaybackPaused(track, node.value.positionSecs)]
    else if (before.value.status.Paused? || before.value.status.Stopped?) && node.value.status.Playing?
      && state.currentIndex == was.currentIndex then
      [PlaybackResumed(track, node.value.positionSecs)]
    else if node.value.status.Stopped? && !before.value.status.Stopped? && ChangeEvents(was, state) == [] then
      [PlaybackStopped(track)]
    else []
  }

  function ScrobbleEvents(was: PlaybackState, state: PlaybackState, done: set<string>): seq<Event> {
    var due := Due(was, state);
    if due.Some? && due.value.id !in done then [ScrobblePoint(due.value)] else []
  }

  function DiffEvents(was: PlaybackState, state: PlaybackState, done: set<string>): seq<Event> {
    ChangeEvents(was, state) + StatusEvents(was, state) + ScrobbleEvents(was, state, done)
  }

  function Scrobbled(events: seq<Event>): set<string> {
    set e <- events | e.ScrobblePoint? :: e.scrobbled.id
  }

  class PluginBridge {
    var prevState: PlaybackState
    var scrobbledTracks: set<string>

    constructor ()
      ensures prevState == NO_STATE && scrobbledTracks == {}
    {
      prevState, scrobbledTracks := NO_STATE, {};
    }

    method Diff(state: PlaybackState) returns (events: seq<Event>)
      modifies this
      ensures events == DiffEvents(old(prevState), state, old(scrobbledTracks))
      ensures prevState == state && scrobbledTracks == old(scrobbledTracks) + Scrobbled(events)
    {
      hide Threshold;
      events := [];
      var prevTrack, currentTrack := prevState.CurrentTrack(), state.CurrentTrack();
      var trackChanged := state.currentIndex != prevState.currentIndex && currentTrack.Some?;
      if trackChanged {
        events := events + [TrackChanged(prevTrack, currentTrack.value)];
      }
      ghost var changes := events;
      ghost var statuses, scrobbles := [], [];
      var prevNode, node := prevState.SelectedNode(), state.SelectedNode();
      if prevNode.Some? && node.Some? {
        var prevStatus, status := prevNode.value.status, node.value.status;
        if prevStatus.Playing? && status.Paused? {
          events := events + [PlaybackPaused(currentTrack, node.value.positionSecs)];
        } else if (prevStatus.Paused? || prevStatus.Stopped?) && status.Playing?
            && state.currentIndex == prevState.currentIndex {
          events := events + [PlaybackResumed(currentTrack, node.value.positionSecs)];
        } else if status.Stopped? && !prevStatus.Stopped? && !trackChanged {
          events := events + [PlaybackStopped(currentTrack)];
        }
        statuses := StatusEvents(prevState, state);
        if status.Playing? && currentTrack.Some? && currentTrack.value.durationSecs.Some? {
          var duration := currentTrack.value.durationSecs.value;
          if duration > 30.0 && currentTrack.value.id !in scrobbledTracks {
            if node.value.positionSecs >= Threshold(duration) {
              events := events + [ScrobblePoint(currentTrack.value)];
              scrobbles := [ScrobblePoint(currentTrack.value)];
              scrobbledTracks := scrobbledTracks + {currentTrack.value.id};
            }
          }
        }
      }
      assert events == changes + statuses + scrobbles;
      OnlyScrobblesScrobble(prevState, state, scrobbles);
      prevState := state;
    }
  }

  lemma OnlyScrobblesScrobble(was: PlaybackState, state: PlaybackState, scrobbles: seq<Event>)
    ensures Scrobbled(ChangeEvents(was, state) + StatusEvents(was, state) + scrobbles) == Scrobbled(scrobbles)
    ensures forall t :: Scrobbled([ScrobblePoint(t)]) == {t.id}
  {
    forall t: Track
      ensures Scrobbled([ScrobblePoint(t)]) == {t.id}
    {
      assert ScrobblePoint(t) in [ScrobblePoint(t)];
    }
  }

  // Runs.

  /** Everything emitted over the states, one after the other. */
  function Emitted(states: seq<PlaybackState>): seq<Event> {
    if states == [] then []
    else
      var before := states[..|states| - 1];
      Emitted(before) + DiffEvents(Last(before), states[|states| - 1], Scrobbled(Emitted(before)))
  }

  function Last(states: seq<PlaybackState>): PlaybackState {
    if states == [] then NO_STATE else states[|states| - 1]
  }

  function Count(events: seq<Event>, id: string): nat {
    if events == [] then 0
    else
      var e := events[|events| - 1];
      Count(events[..|events| - 1], id) + if e.ScrobblePoint? && e.scrobbled.id == id then 1 else 0
  }

  lemma {:induction false} CountOfSum(a: seq<Event>, b: seq<Event>, id: string)
    ensures Count(a + b, id) == Count(a, id) + Count(b, id)
    decreases |b|
  {
    if b == [] {
      assert a + b == a;
    } else {
      CountOfSum(a, b[..|b| - 1], id);
      assert (a + b)[..|a + b| - 1] == a + b[..|b| - 1];
    }
  }

  lemma {:induction false} CountedExactlyWhenScrobbled(events: seq<Event>, id: string)
    ensures Count(events, id) > 0 <==> id in Scrobbled(events)
    decreases |events|
  {
    if events != [] {
      var n := |events| - 1;
      CountedExactlyWhenScrobbled(events[..n], id);
      assert events == events[..n] + [events[n]];
    }
  }

  lemma CountOfDiff(was: PlaybackState, state: PlaybackState, done: set<string>, id: string)
    ensures Count(DiffEvents(was, state, done), id)
      == if id !in done && Due(was, state).Some? && Due(was, state).value.id == id then 1 else 0
  {
    hide Due, ChangeEvents, StatusEvents, Count;
    var changes, statuses, scrobbles := ChangeEvents(was, state), StatusEvents(was, state), ScrobbleEvents(was, state, done);
    CountOfSum(changes + statuses, scrobbles, id);
    CountOfSum(changes, statuses, id);
    OthersDoNotScrobble(was, state, id);
    CountOfAtMostOne(scrobbles, id);
  }

  lemma OthersDoNotScrobble(was: PlaybackState, state: PlaybackState, id: string)
    ensures Count(ChangeEvents(was, state), id) == 0
    ensures Count(StatusEvents(was, state), id) == 0
  {
    hide Count;
    CountOfAtMostOne(ChangeEvents(was, state), id);
    CountOfAtMostOne(StatusEvents(was, state), id);
  }

  lemma CountOfAtMostOne(events: seq<Event>, id: string)
    requires |events| <= 1
    ensures Count(events, id) == if events != [] && events[0].ScrobblePoint? && events[0].scrobbled.id == id then 1 else 0
  {
    if events != [] {
      assert events[..0] == [];
    }
  }

  ghost predicate WasDue(states: seq<PlaybackState>, k: nat, id: string)
    requires k < |states|
  {
    var due := Due(Last(states[..k]), states[k]);
    due.Some? && due.value.id == id
  }

  /** Over a whole run a track is scrobbled once if it was ever due, and otherwise not at all: playing it
      again later makes no difference. */
  lemma {:induction false} ScrobbledOnceExactlyWhenDue(states: seq<PlaybackState>, id: string)
    ensures Count(Emitted(states), id) == if exists k :: 0 <= k < |states| && WasDue(states, k, id) then 1 else 0
    decreases |states|
  {
    hide DiffEvents, Scrobbled, Due;
    if states != [] {
      var n := |states| - 1;
      var before := states[..n];
      ScrobbledOnceExactlyWhenDue(before, id);
      CountedExactlyWhenScrobbled(Emitted(before), id);
      CountOfSum(Emitted(before), DiffEvents(Last(before), states[n], Scrobbled(Emitted(before))), id);
      CountOfDiff(Last(before), states[n], Scrobbled(Emitted(before)), id);
      forall k | 0 <= k < n
        ensures WasDue(before, k, id) <==> WasDue(states, k, id)
      {
        assert before[..k] == states[..k];
      }
      var earlier := exists k :: 0 <= k < n && WasDue(before, k, id);
      assert earlier <==> exists k :: 0 <= k < n && WasDue(states, k, id);
      assert (exists k :: 0 <= k < |states| && WasDue(states, k, id)) <==> earlier || WasDue(states, n, id);
    }
  }

  // What the events mean.

  /** The state's own node plays this: its current entry, or else the global one. */
  ghost predicate Plays(state: PlaybackState, t: Track) {
    if state.selected.Some? && state.selected.value in state.nodes
      && var n := state.nodes[state.selected.value]; n.currentIndex.Some? && n.currentIndex.value < |n.queue|
    then var n := state.nodes[state.selected.value]; n.queue[n.currentIndex.value] == t
    else state.currentIndex.Some? && state.currentIndex.value < |state.queue| && state.queue[state.currentIndex.value] == t
  }

  lemma CurrentTrackPlays(state: PlaybackState, t: Track)
    ensures state.CurrentTrack() == Some(t) <==> Plays(state, t)
  {
  }

  ghost predicate HasNode(state: PlaybackState) { state.selected.Some? && state.selected.value in state.nodes }

  ghost function NodeOf(state: PlaybackState): Node
    requires HasNode(state)
  {
    state.nodes[state.selected.value]
  }

  /** A track is due exactly if it is playing on a node that was there before, is longer than half a minute, and half
      of it or four minutes have been played. */
  lemma DueExactly(was: PlaybackState, state: PlaybackState, t: Track)
    ensures Due(was, state) == Some(t) <==>
      && HasNode(was) && HasNode(state) && NodeOf(state).status == Playing && Plays(state, t)
      && t.durationSecs.Some? && t.durationSecs.value > 30.0
      && (2.0 * NodeOf(state).positionSecs >= t.durationSecs.value || NodeOf(state).positionSecs >= 240.0)
  {
    CurrentTrackPlays(state, t);
  }

  /** A change is told exactly if the global index moved to a track. */
  lemma ChangesAreTold(was: PlaybackState, state: PlaybackState, done: set<string>, e: Event)
    requires e.TrackChanged?
    ensures e in DiffEvents(was, state, done) <==>
      && state.currentIndex != was.currentIndex && Plays(state, e.current)
      && (e.previous.Some? ==> Plays(was, e.previous.value))
      && (e.previous.None? ==> forall t :: !Plays(was, t))
  {
    hide Due;
    CurrentTrackPlays(state, e.current);
    forall t
      ensures was.CurrentTrack() == Some(t) <==> Plays(was, t)
    {
      CurrentTrackPlays(was, t);
    }
  }

  /** Pausing is told exactly when a playing node pauses; resuming when a paused or stopped one plays on without a
      change of the global index; stopping when a node stops without a change told. */
  lemma StatusIsTold(was: PlaybackState, state: PlaybackState, done: set<string>, track: Option<Track>, position: real)
    requires HasNode(was) && HasNode(state) && position == NodeOf(state).positionSecs
    requires track.Some? ==> Plays(state, track.value)
    requires track.None? ==> forall t :: !Plays(state, t)
    ensures var before, now := NodeOf(was).status, NodeOf(state).status; var events := DiffEvents(was, state, done);
      && (PlaybackPaused(track, position) in events <==> before == Playing && now == Paused)
      && (PlaybackResumed(track, position) in events <==>
            (before == Paused || before == Stopped) && now == Playing && state.currentIndex == was.currentIndex)
      && (PlaybackStopped(track) in events <==>
            now == Stopped && before != Stopped && (state.currentIndex == was.currentIndex || track.None?))
  {
    hide Due;
    if state.CurrentTrack().Some? {
      CurrentTrackPlays(state, state.CurrentTrack().value);
    }
    if track.Some? {
      CurrentTrackPlays(state, track.value);
    }
  }

  /** Where a node was not selected before or is not now, no status is told. */
  lemma NothingToldWithoutNode(was: PlaybackState, state: PlaybackState, done: set<string>)
    requires !HasNode(was) || !HasNode(state)
    ensures forall e <- DiffEvents(was, state, done) :: e.TrackChanged?
  {
  }

  function Rank(e: Event): nat {
    if e.TrackChanged? then 0 else if e.ScrobblePoint? then 2 else 1
  }

  /** A change comes first, then a status, then a scrobble, and of each at most one. */
  lemma EventsComeInOrder(was: PlaybackState, state: PlaybackState, done: set<string>, i: nat, j: nat)
    requires i < j < |DiffEvents(was, state, done)|
    ensures Rank(DiffEvents(was, state, done)[i]) < Rank(DiffEvents(was, state, done)[j])
  {
    hide Due;
  }

  /** What is due is told exactly if it has not been scrobbled before. */
  lemma ScrobbleIsTold(was: PlaybackState, state: PlaybackState, done: set<string>, t: Track)
    ensures ScrobblePoint(t) in DiffEvents(was, state, done) <==> Due(was, state) == Some(t) && t.id !in done
  {
    hide Due;
  }
}
