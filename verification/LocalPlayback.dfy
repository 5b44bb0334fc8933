/** The browser's own playback controller: a queue with repeat, shuffle, and a preloaded next track. */
module LocalPlayback {
  import opened Wrappers
  import opened PlayerProtocol
  import opened NodeQueue

  datatype Status = Stopped | Loading | Playing | Paused

  /** The queue index and track that were next when the player was told to preload. */
  datatype Preload = Preload(index: nat, trackId: string)

  /** The entry whose URL is being signed, and the track that was current when it was asked for. */
  datatype Signing = Signing(entry: Preload, playing: Option<string>)

  /** `loaded` is the track that the player itself has open. */
  datatype State = State(
    tracks: seq<Track>, current: Option<nat>, repeat: RepeatMode, shuffle: bool, order: seq<nat>,
    status: Status, preload: Option<Preload>, signing: Option<Signing>, loaded: Option<string>)

  const INITIAL := State([], None, RepeatMode.Off, false, [], Stopped, None, None, None)

  datatype Action =
    | PlayTracks(tracks: seq<Track>, start: int)
    | AddToQueue(track: Track)
    | AddTracksToQueue(tracks: seq<Track>)
    | RemoveFromQueue(index: int)
    | MoveInQueue(from: int, to: int)
    | ClearQueue
    | JumpToIndex(index: int)
    | Play
    | Next
    | Previous(late: bool)
    | SetRepeat(mode: RepeatMode)
    | SetShuffle(enabled: bool)
    | PlayerReports(status: Status)
    | PreloadSigned(given: bool)
    | TrackEnds

  function TrackId(s: State): Option<string> {
    if s.current.Some? && s.current.value < |s.tracks| then Some(s.tracks[s.current.value].id) else None
  }

  // The shuffle order.

  /** Whatever `Math.random` gives: `random(k)` stands for the k-th draw. */
  type Random = nat -> nat

  function Swap(s: seq<nat>, i: nat, j: nat): (r: seq<nat>)
    requires i < |s| && j < |s|
    ensures |r| == |s|
  {
    s[i := s[j]][j := s[i]]
  }

  /** Swap each place above `index`... down to 2 with one from 1 up to itself. */
  function Mix(s: seq<nat>, index: nat, random: Random): seq<nat>
    requires index <= 1 || index < |s|
    decreases index
  {
    if index <= 1 then s else Mix(Swap(s, index, 1 + random(index) % index), index - 1, random)
  }

  function Indices(n: nat): (r: seq<nat>)
    ensures |r| == n
  {
    seq(n, i => i)
  }

  function ShuffleOrder(n: nat, current: nat, random: Random): seq<nat>
    requires current < n
  {
    Mix(Swap(Indices(n), 0, current), n - 1, random)
  }

  ghost predicate IsPermutation(s: seq<nat>, n: nat) {
    && |s| == n
    && (forall i :: 0 <= i < n ==> s[i] < n)
    && (forall i, j :: 0 <= i < j < n ==> s[i] != s[j])
    && (forall k: nat :: k < n ==> k in s)
  }

  lemma SwapWithItself(s: seq<nat>)
    requires s != []
    ensures Swap(s, 0, 0) == s
  {
  }

  lemma MixStep(s: seq<nat>, index: nat, random: Random)
    requires 1 < index < |s|
    ensures 1 + random(index) % index <= index
    ensures Mix(s, index, random) == Mix(Swap(s, index, 1 + random(index) % index), index - 1, random)
  {
  }

  lemma MixEnds(s: seq<nat>, index: nat, random: Random)
    requires index <= 1
    ensures Mix(s, index, random) == s
  {
  }

  lemma SwapKeepsPermutation(s: seq<nat>, n: nat, i: nat, j: nat)
    requires IsPermutation(s, n) && i < n && j < n
    ensures IsPermutation(Swap(s, i, j), n)
  {
    var r := Swap(s, i, j);
    forall k: nat | k < n
      ensures k in r
    {
      assert k in s;
      var p :| 0 <= p < n && s[p] == k;
      assert r[if p == i then j else if p == j then i else p] == k;
    }
  }

  lemma IndicesArePermutation(n: nat)
    ensures IsPermutation(Indices(n), n)
  {
    forall k: nat | k < n
      ensures k in Indices(n)
    {
      assert Indices(n)[k] == k;
    }
  }

  lemma {:induction false} MixKeepsPermutation(s: seq<nat>, n: nat, index: nat, random: Random)
    requires IsPermutation(s, n) && (index <= 1 || index < n)
    ensures IsPermutation(Mix(s, index, random), n)
    ensures n > 0 ==> Mix(s, index, random)[0] == s[0]
    decreases index
  {
    hide IsPermutation;
    PermutationLength(s, n);
    if index > 1 {
      var j := 1 + random(index) % index;
      SwapKeepsPermutation(s, n, index, j);
      MixKeepsPermutation(Swap(s, index, j), n, index - 1, random);
    } else {
      PermutationLength(Mix(s, index, random), n);
    }
  }

  lemma PermutationLength(s: seq<nat>, n: nat)
    requires IsPermutation(s, n)
    ensures |s| == n
  {
  }

  /** Whatever the draws, the order holds every index once, the current one first. */
  lemma ShuffleOrderIsPermutation(n: nat, current: nat, random: Random)
    requires current < n
    ensures IsPermutation(ShuffleOrder(n, current, random), n)
    ensures ShuffleOrder(n, current, random)[0] == current
  {
    hide IsPermutation, Mix;
    IndicesArePermutation(n);
    SwapKeepsPermutation(Indices(n), n, 0, current);
    MixKeepsPermutation(Swap(Indices(n), 0, current), n, n - 1, random);
    PermutationLength(ShuffleOrder(n, current, random), n);
  }

  lemma {:induction false} DrawsAboveAreUnused(s: seq<nat>, index: nat, random: Random, other: Random)
    requires index <= 1 || index < |s|
    requires forall k: nat :: k <= index ==> random(k) == other(k)
    ensures Mix(s, index, random) == Mix(s, index, other)
    decreases index
  {
    if index > 1 {
      MixStep(s, index, random);
      MixStep(s, index, other);
      DrawsAboveAreUnused(Swap(s, index, 1 + random(index) % index), index - 1, random, other);
    }
  }

  /** Draws with one that swaps `index` with j, and the rest below it. */
  function Drawing(rest: Random, index: nat, j: nat): Random
    requires 1 <= j
  {
    k => if k == index then j - 1 else rest(k)
  }

  lemma DrawingSwaps(s: seq<nat>, rest: Random, index: nat, j: nat)
    requires 1 <= j <= index < |s| && 1 < index
    ensures Mix(s, index, Drawing(rest, index, j)) == Mix(Swap(s, index, j), index - 1, rest)
  {
    hide Mix, Swap;
    var random := Drawing(rest, index, j);
    assert random(index) % index == j - 1;
    MixStep(s, index, random);
    DrawsAboveAreUnused(Swap(s, index, j), index - 1, rest, random);
  }

  predicate AgreeAbove(s: seq<nat>, goal: seq<nat>, index: nat) {
    |s| == |goal| && s != [] && s[0] == goal[0] && forall i :: index < i < |s| ==> s[i] == goal[i]
  }

  lemma FindAbove(s: seq<nat>, goal: seq<nat>, n: nat, index: nat) returns (j: nat)
    requires IsPermutation(s, n) && IsPermutation(goal, n) && 1 < index < n
    requires AgreeAbove(s, goal, index)
    ensures 1 <= j <= index && s[j] == goal[index]
  {
    assert goal[index] in s;
    j :| 0 <= j < n && s[j] == goal[index];
  }

  lemma LastPlaceIsForced(s: seq<nat>, goal: seq<nat>, n: nat, index: nat)
    requires IsPermutation(s, n) && IsPermutation(goal, n) && index <= 1 && n > 0
    requires AgreeAbove(s, goal, index)
    ensures s == goal
  {
    if n > 1 {
      assert goal[1] in s;
      var j :| 0 <= j < n && s[j] == goal[1];
      assert j == 1;
    }
  }

  lemma SwapSettlesPlace(s: seq<nat>, goal: seq<nat>, index: nat, j: nat)
    requires AgreeAbove(s, goal, index) && 1 <= j <= index < |s| && s[j] == goal[index]
    ensures AgreeAbove(Swap(s, index, j), goal, index - 1)
  {
  }

  /** Draws that turn s into any order that agrees with it at the settled places. */
  lemma {:induction false} MixReaches(s: seq<nat>, goal: seq<nat>, n: nat, index: nat) returns (random: Random)
    requires IsPermutation(s, n) && IsPermutation(goal, n) && (index <= 1 || index < n)
    requires AgreeAbove(s, goal, index) && n > 0
    ensures |s| == n && Mix(s, index, random) == goal
    decreases index
  {
    hide IsPermutation, AgreeAbove, Mix, Swap, Drawing;
    PermutationLength(s, n);
    random := k => 0;
    if index <= 1 {
      LastPlaceIsForced(s, goal, n, index);
      MixEnds(s, index, random);
    } else {
      var j := FindAbove(s, goal, n, index);
      SwapKeepsPermutation(s, n, index, j);
      SwapSettlesPlace(s, goal, index, j);
      var rest := MixReaches(Swap(s, index, j), goal, n, index - 1);
      random := Drawing(rest, index, j);
      DrawingSwaps(s, rest, index, j);
    }
  }

  /** Every order that starts at the current index can be drawn. */
  lemma EveryOrderCanBeDrawn(n: nat, goal: seq<nat>) returns (random: Random)
    requires IsPermutation(goal, n) && n > 0
    ensures ShuffleOrder(n, goal[0], random) == goal
  {
    IndicesArePermutation(n);
    SwapKeepsPermutation(Indices(n), n, 0, goal[0]);
    random := MixReaches(Swap(Indices(n), 0, goal[0]), goal, n, n - 1);
  }

  // The operations.

  /** The index to put first: the current one, if the queue has it. */
  function First(s: State): nat {
    if s.current.Some? && s.current.value < |s.tracks| then s.current.value else 0
  }

  function Built(s: State, random: Random): State {
    if !s.shuffle || s.tracks == [] then s.(order := [])
    else s.(order := ShuffleOrder(|s.tracks|, First(s), random))
  }

  function IndexIn(order: seq<nat>, k: nat, from: nat): (r: nat)
    requires from <= |order|
    ensures from <= r <= |order|
    decreases |order| - from
  {
    if from == |order| || order[from] == k then from else IndexIn(order, k, from + 1)
  }

  /** What comes after the current entry; repeat-one is not considered here. */
  function NextUp(s: State): Option<nat> {
    if s.current.None? then None
    else if s.shuffle then
      // A missing index counts as position -1.
      var found := IndexIn(s.order, s.current.value, 0);
      var next := if found == |s.order| then 0 else found + 1;
      if next < |s.order| then Some(s.order[next])
      else if s.repeat.All? && s.order != [] then Some(s.order[0])
      else None
    else if s.current.value + 1 < |s.tracks| then Some(s.current.value + 1)
    else if s.repeat.All? && s.tracks != [] then Some(0)
    else None
  }

  /** Where the controller goes when a track is over, or is skipped. */
  function AdvanceTarget(s: State): Option<nat> {
    if s.repeat.One? then s.current else NextUp(s)
  }

  function BackTarget(s: State): Option<nat> {
    if s.current.None? then None
    else if s.shuffle then
      var found := IndexIn(s.order, s.current.value, 0);
      if 0 < found < |s.order| then Some(s.order[found - 1]) else None
    else if s.current.value == 0 then None
    else Some(s.current.value - 1)
  }

  function Cleared(s: State): State {
    s.(preload := None, signing := None)
  }

  function Halted(s: State): State {
    Cleared(s).(status := Stopped)
  }

  function Loaded(s: State, autoplay: bool): State {
    if TrackId(s).None? then Halted(s)
    else Cleared(s).(status := if autoplay then Loading else Paused, loaded := TrackId(s))
  }

  /** Have what comes next signed, unless an entry of that index has been preloaded already. */
  function Refreshed(s: State): State {
    var next := NextUp(s);
    if !s.status.Playing? || next.None? || next == s.current then Cleared(s)
    else if s.preload.Some? && s.preload.value.index == next.value then s
    else if next.value >= |s.tracks| then Cleared(s)
    else s.(preload := None, signing := Some(Signing(Preload(next.value, s.tracks[next.value].id), TrackId(s))))
  }

  /** The answer of the signing server, with a URL or without; an answer to a request given up is nothing. */
  function Signed(s: State, given: bool): State {
    if s.signing.None? then s
    else if TrackId(s) != s.signing.value.playing || NextUp(s) != Some(s.signing.value.entry.index) || !given then
      s.(signing := None)
    else s.(preload := Some(s.signing.value.entry), signing := None)
  }

  function Clamp(i: int, n: nat): Option<nat> {
    if n == 0 then None else if i < 0 then Some(0) else if i >= n then Some(n - 1) else Some(i)
  }

  function Skip(s: State, random: Random): State {
    var target := AdvanceTarget(s);
    if target.None? then Halted(s) else Loaded(Built(s.(current := target), random), true)
  }

  function Removed(s: State, i: nat, random: Random): State
    requires i < |s.tracks|
  {
    var rest := RemoveAt(s.tracks, i);
    var shorter := s.(tracks := rest, current := CurrentAfterRemove(s.current, i, |rest|));
    var built := Built(shorter, random);
    if s.current == Some(i) && rest == [] then Halted(built)
    else if TrackId(built) != TrackId(s) then Loaded(built, s.status.Playing? || s.status.Loading?)
    else built
  }

  function Moved(s: State, from: nat, to: nat, random: Random): State
    requires from < |s.tracks| && to < |s.tracks|
  {
    Built(s.(tracks := MoveElement(s.tracks, from, to),
             current := if s.current.None? then None else Some(FollowMove(s.current.value, from, to))), random)
  }

  /** The track is over: a player with a preloaded track goes on to it by itself and says so. */
  function Ended(s: State, random: Random): State {
    if s.preload.None? then Skip(s, random)
    else
      var onward := s.(loaded := Some(s.preload.value.trackId));
      var target := AdvanceTarget(s);
      if target.None? then Halted(onward)
      else Cleared(Built(onward.(current := target), random)).(status := Loading)
  }

  predicate InBounds(i: int, s: State) { 0 <= i < |s.tracks| }

  function Do(s: State, a: Action, random: Random): State {
    match a
    case PlayTracks(tracks, start) =>
      Loaded(Built(s.(tracks := tracks, current := Clamp(start, |tracks|)), random), true)
    case AddToQueue(track) =>
      var grown := Built(s.(tracks := s.tracks + [track]), random);
      if TrackId(grown).None? && |grown.tracks| == 1 then Loaded(grown.(current := Some(0)), false) else grown
    case AddTracksToQueue(tracks) =>
      var grown := Built(s.(tracks := s.tracks + tracks), random);
      if TrackId(s).None? && grown.tracks != [] then Loaded(grown.(current := Some(0)), false) else grown
    case RemoveFromQueue(i) => if InBounds(i, s) then Removed(s, i, random) else s
    case MoveInQueue(from, to) =>
      if from != to && InBounds(from, s) && InBounds(to, s) then Moved(s, from, to, random) else s
    case ClearQueue => Halted(s.(tracks := [], current := None, order := []))
    case JumpToIndex(i) => if InBounds(i, s) then Loaded(Built(s.(current := Some(i)), random), true) else s
    case Play =>
      if s.tracks == [] then s
      else if TrackId(s).None? then Loaded(Built(s.(current := Some(0)), random), true)
      else if s.status.Stopped? then Loaded(s, true)
      else s
    case Next => Skip(s, random)
    case Previous(late) =>
      var target := BackTarget(s);
      if late || target.None? then s else Loaded(Built(s.(current := target), random), true)
    case SetRepeat(mode) => Refreshed(s.(repeat := mode))
    case SetShuffle(enabled) => Refreshed(Built(s.(shuffle := enabled), random))
    case PlayerReports(status) =>
      var reported := s.(status := status);
      if status.Playing? then Refreshed(reported) else reported
    case PreloadSigned(given) => Signed(s, given)
    case TrackEnds => Ended(s, random)
  }

  // What every run keeps.

  ghost predicate Valid(s: State) {
    && (s.current.None? <==> s.tracks == [])
    && (s.current.Some? ==> s.current.value < |s.tracks|)
    && OrderFits(s)
  }

  ghost predicate OrderFits(s: State) {
    if !s.shuffle || s.tracks == [] then s.order == []
    else IsPermutation(s.order, |s.tracks|) && Some(s.order[0]) == s.current
  }

  lemma BuildingFits(s: State, random: Random)
    requires s.current.Some? ==> s.current.value < |s.tracks|
    ensures s.current.Some? || s.tracks == [] ==> OrderFits(Built(s, random))
    ensures s.current.None? && s.tracks != [] ==> OrderFits(Built(s, random).(current := Some(0)))
  {
    hide IsPermutation, ShuffleOrder;
    if s.tracks != [] {
      ShuffleOrderIsPermutation(|s.tracks|, First(s), random);
      PermutationLength(ShuffleOrder(|s.tracks|, First(s), random), |s.tracks|);
    }
  }

  lemma CurrentIsFirst(s: State)
    requires Valid(s) && s.shuffle && s.tracks != []
    ensures |s.order| == |s.tracks| && s.order[0] == s.current.value && IndexIn(s.order, s.current.value, 0) == 0
    ensures |s.order| > 1 ==> s.order[1] < |s.tracks| && s.order[1] != s.current.value
  {
  }

  lemma NextUpIsInRange(s: State)
    requires Valid(s)
    ensures NextUp(s).Some? ==> NextUp(s).value < |s.tracks|
  {
    if s.shuffle && s.tracks != [] {
      CurrentIsFirst(s);
    }
  }

  /** Building the order completes a state that is well placed. */
  lemma BuildingCompletes(s: State, random: Random)
    requires s.current.None? <==> s.tracks == []
    requires s.current.Some? ==> s.current.value < |s.tracks|
    ensures Valid(Built(s, random))
  {
    hide IsPermutation, ShuffleOrder;
    BuildingFits(s, random);
  }

  lemma BackTargetIsInRange(s: State)
    requires Valid(s)
    ensures BackTarget(s).Some? ==> BackTarget(s).value < |s.tracks|
  {
    if s.shuffle && s.tracks != [] {
      CurrentIsFirst(s);
    }
  }

  lemma AddingKeepsValid(s: State, more: seq<Track>, random: Random)
    requires Valid(s)
    ensures var grown := Built(s.(tracks := s.tracks + more), random);
      if s.current.None? && more != [] then Valid(grown.(current := Some(0))) else Valid(grown)
  {
    hide IsPermutation, ShuffleOrder;
    BuildingFits(s.(tracks := s.tracks + more), random);
  }

  lemma EditKeepsValid(s: State, a: Action, random: Random)
    requires Valid(s) && (a.RemoveFromQueue? || a.MoveInQueue?)
    ensures Valid(Do(s, a, random))
  {
    hide IsPermutation, ShuffleOrder;
    if a.RemoveFromQueue? && InBounds(a.index, s) {
      var rest := RemoveAt(s.tracks, a.index);
      BuildingCompletes(s.(tracks := rest, current := CurrentAfterRemove(s.current, a.index, |rest|)), random);
    }
    if a.MoveInQueue? && InBounds(a.from, s) && InBounds(a.to, s) {
      var moved := s.(tracks := MoveElement(s.tracks, a.from, a.to),
                      current := if s.current.None? then None else Some(FollowMove(s.current.value, a.from, a.to)));
      BuildingCompletes(moved, random);
    }
  }

  lemma SkipsKeepValid(s: State, a: Action, random: Random)
    requires Valid(s) && (a.Next? || a.Previous? || a.TrackEnds?)
    ensures Valid(Do(s, a, random))
  {
    hide IsPermutation, ShuffleOrder, Built, NextUp, BackTarget;
    NextUpIsInRange(s);
    BackTargetIsInRange(s);
    var target := if a.Previous? then BackTarget(s) else AdvanceTarget(s);
    if target.Some? {
      BuildingCompletes(s.(current := target), random);
      if a.TrackEnds? && s.preload.Some? {
        BuildingCompletes(s.(current := target, loaded := Some(s.preload.value.trackId)), random);
      }
    }
  }

  /** No operation, whatever is drawn, leaves the current index off the queue or the shuffle order
      incomplete or not starting at the current index. */
  lemma DoKeepsValid(s: State, a: Action, random: Random)
    requires Valid(s)
    ensures Valid(Do(s, a, random))
  {
    hide IsPermutation, ShuffleOrder, Built, NextUp, BackTarget, Removed, Moved, Skip, Ended;
    match a
    case PlayTracks(tracks, start) => BuildingCompletes(s.(tracks := tracks, current := Clamp(start, |tracks|)), random);
    case AddToQueue(track) =>
      AddingKeepsValid(s, [track], random);
      BuiltKeeps(s.(tracks := s.tracks + [track]), random);
    case AddTracksToQueue(tracks) =>
      AddingKeepsValid(s, tracks, random);
      BuiltKeeps(s.(tracks := s.tracks + tracks), random);
    case RemoveFromQueue(_) => EditKeepsValid(s, a, random);
    case MoveInQueue(_, _) => EditKeepsValid(s, a, random);
    case JumpToIndex(i) =>
      if InBounds(i, s) {
        BuildingCompletes(s.(current := Some(i)), random);
      }
    case Play =>
      if s.tracks != [] {
        BuildingCompletes(s.(current := Some(0)), random);
      }
    case Next => SkipsKeepValid(s, a, random);
    case Previous(_) => SkipsKeepValid(s, a, random);
    case TrackEnds => SkipsKeepValid(s, a, random);
    case SetShuffle(enabled) => BuildingCompletes(s.(shuffle := enabled), random);
    case _ =>
  }

  lemma BuiltKeeps(s: State, random: Random)
    ensures Built(s, random) == s.(order := Built(s, random).order)
  {
  }

  // Runs.

  datatype Event = Event(action: Action, random: Random)

  function Run(s: State, events: seq<Event>): State {
    if events == [] then s
    else
      var last := events[|events| - 1];
      Do(Run(s, events[..|events| - 1]), last.action, last.random)
  }

  /** After every run from the start the current index is on the queue, or absent with an empty one, and
      with shuffle on the order is a permutation that starts at it. */
  lemma {:induction false} RunsStayValid(events: seq<Event>)
    ensures Valid(Run(INITIAL, events))
    decreases |events|
  {
    hide Do;
    if events != [] {
      var last := events[|events| - 1];
      RunsStayValid(events[..|events| - 1]);
      DoKeepsValid(Run(INITIAL, events[..|events| - 1]), last.action, last.random);
    }
  }

  /** Moving entries, or removing another entry, leaves the current track current, and nothing is reloaded. */
  lemma EditsKeepTheTrack(s: State, a: Action, random: Random)
    requires Valid(s)
    requires a.MoveInQueue? || (a.RemoveFromQueue? && (s.current.Some? ==> a.index != s.current.value))
    ensures var after := Do(s, a, random);
      && TrackId(after) == TrackId(s) && after.loaded == s.loaded && after.status == s.status
      && (s.current.Some? ==> s.tracks[s.current.value] == after.tracks[after.current.value])
  {
    hide IsPermutation, ShuffleOrder;
    if a.MoveInQueue? && InBounds(a.from, s) && InBounds(a.to, s) {
      MoveKeepsEveryEntry(s.tracks, a.from, a.to, s.current.value);
    }
  }

  /** With shuffle on, going on changes the current entry exactly if there is another and repeat-one is
      off, and playback stops exactly on an empty queue, or after its only track without repeat. */
  lemma ShuffleGoesOnExactly(s: State, a: Action, random: Random)
    requires Valid(s) && s.shuffle && (a.Next? || a.TrackEnds?)
    ensures Do(s, a, random).current != s.current <==> |s.tracks| >= 2 && !s.repeat.One?
    ensures Do(s, a, random).status.Stopped? <==> s.tracks == [] || (|s.tracks| == 1 && s.repeat.Off?)
  {
    hide IsPermutation, ShuffleOrder, OrderFits;
    if s.tracks != [] {
      CurrentIsFirst(s);
      if |s.tracks| == 1 {
        OnlyEntry(s);
      }
    }
  }

  lemma OnlyEntry(s: State)
    requires Valid(s) && s.shuffle && |s.tracks| == 1
    ensures s.order == [0] && s.current == Some(0)
  {
  }

  /** With shuffle on, going back never does anything. */
  lemma ShuffleNeverGoesBack(s: State, late: bool, random: Random)
    requires Valid(s) && s.shuffle
    ensures Do(s, Previous(late), random) == s
  {
    if s.tracks != [] {
      CurrentIsFirst(s);
    }
  }

  /** An order that begins with any two different entries. */
  function Beginning(n: nat, x: nat, y: nat): (order: seq<nat>)
    requires x < n && y < n && x != y
  {
    var first := Swap(Indices(n), 0, x);
    var place := IndexIn(first, y, 0);
    if place < n then Swap(first, 1, place) else first
  }

  lemma IndexInFinds(order: seq<nat>, k: nat, from: nat)
    requires from <= |order| && exists i :: from <= i < |order| && order[i] == k
    ensures IndexIn(order, k, from) < |order| && order[IndexIn(order, k, from)] == k
    decreases |order| - from
  {
  }

  lemma PlaceOf(order: seq<nat>, n: nat, k: nat)
    requires IsPermutation(order, n) && k < n
    ensures |order| == n && IndexIn(order, k, 0) < n && order[IndexIn(order, k, 0)] == k
  {
    assert k in order;
    IndexInFinds(order, k, 0);
  }

  lemma SwapPlaces(s: seq<nat>, i: nat, j: nat)
    requires i < |s| && j < |s|
    ensures Swap(s, i, j)[i] == s[j]
    ensures forall k :: 0 <= k < |s| && k != i && k != j ==> Swap(s, i, j)[k] == s[k]
  {
  }

  lemma BeginningIsPermutation(n: nat, x: nat, y: nat)
    requires x < n && y < n && x != y
    ensures IsPermutation(Beginning(n, x, y), n) && Beginning(n, x, y)[0] == x && Beginning(n, x, y)[1] == y
  {
    hide IsPermutation, IndexIn, Swap;
    var first := Swap(Indices(n), 0, x);
    IndicesArePermutation(n);
    SwapKeepsPermutation(Indices(n), n, 0, x);
    SwapPlaces(Indices(n), 0, x);
    PlaceOf(first, n, y);
    var place := IndexIn(first, y, 0);
    assert first[0] == x && 0 < place < n;
    SwapKeepsPermutation(first, n, 1, place);
    SwapPlaces(first, 1, place);
  }

  /** A skip, with draws that put the entry just left up next again. */
  lemma SkipBetweenTwo(s: State) returns (random: Random)
    requires Valid(s) && s.shuffle && |s.tracks| >= 2 && !s.repeat.One?
    ensures var after := Do(s, Next, random);
      && Valid(after) && after.shuffle && after.tracks == s.tracks && after.repeat == s.repeat
      && after.order[0] == s.order[1] && after.order[1] == s.order[0]
  {
    hide IsPermutation, ShuffleOrder;
    CurrentIsFirst(s);
    BeginningIsPermutation(|s.tracks|, s.order[1], s.order[0]);
    random := EveryOrderCanBeDrawn(|s.tracks|, Beginning(|s.tracks|, s.order[1], s.order[0]));
    DoKeepsValid(s, Next, random);
    assert NextUp(s) == Some(s.order[1]);
  }

  /** Shuffle does not go through the queue: a track that is neither current nor up next may never be
      reached, however often one skips. */
  lemma {:induction false} ShuffleMayPassOver(s: State, avoided: nat, n: nat) returns (events: seq<Event>)
    requires Valid(s) && s.shuffle && |s.tracks| >= 2 && !s.repeat.One?
    requires avoided != s.order[0] && avoided != s.order[1]
    ensures |events| == n && forall k :: 0 <= k < n ==> events[k].action.Next?
    ensures forall k :: 0 <= k <= n ==> Run(s, events[..k]).current != Some(avoided)
    ensures var last := Run(s, events);
      && Valid(last) && last.shuffle && last.tracks == s.tracks && last.repeat == s.repeat
      && avoided != last.order[0] && avoided != last.order[1]
    decreases n
  {
    hide Do, IsPermutation;
    events := [];
    if n > 0 {
      var before := ShuffleMayPassOver(s, avoided, n - 1);
      var random := SkipBetweenTwo(Run(s, before));
      events := before + [Event(Next, random)];
      assert events[..n - 1] == before && events[..n] == events;
      forall k | 0 <= k <= n
        ensures Run(s, events[..k]).current != Some(avoided)
      {
        if k < n {
          assert events[..k] == before[..k];
        }
      }
    }
  }

  /** In order, going back undoes going on, short of the wrap of repeat-all. */
  lemma BackUndoesNext(s: State, random: Random)
    requires Valid(s) && !s.shuffle && !s.repeat.One?
    requires s.current.Some? && s.current.value + 1 < |s.tracks|
    ensures var after := Do(s, Next, random);
      after.current == Some(s.current.value + 1) && Do(after, Previous(false), random).current == s.current
  {
  }

  // The preloaded track.

  predicate Holds(s: State, p: Preload) {
    p.index < |s.tracks| && s.tracks[p.index].id == p.trackId
  }

  /** The track preloaded, or about to be, is still the one at its index. */
  ghost predicate Faithful(s: State) {
    && (s.preload.Some? ==> Holds(s, s.preload.value))
    && (s.signing.Some? ==> Holds(s, s.signing.value.entry))
  }

  /** Removing entry i leaves a current track of the same id, so nothing is reloaded. */
  predicate KeepsCurrentId(s: State, i: nat)
    requires i < |s.tracks| && s.current.Some? && s.current.value < |s.tracks|
  {
    var c := s.current.value;
    || i != c
    || (c + 1 < |s.tracks| && s.tracks[c + 1].id == s.tracks[c].id)
    || (c + 1 == |s.tracks| && c > 0 && s.tracks[c - 1].id == s.tracks[c].id)
  }

  /** The edit puts another track where the one of p was, and keeps p. */
  predicate DisplacesEntry(s: State, a: Action, p: Preload) {
    match a
    case RemoveFromQueue(i) =>
      && InBounds(i, s) && i <= p.index && s.current.Some? && s.current.value < |s.tracks| && KeepsCurrentId(s, i)
      && !(p.index + 1 < |s.tracks| && s.tracks[p.index + 1].id == p.trackId)
    case MoveInQueue(from, to) =>
      && from != to && InBounds(from, s) && InBounds(to, s)
      && var comes := FollowMove(p.index, to, from);
        !(comes < |s.tracks| && s.tracks[comes].id == p.trackId)
    case _ => false
  }

  /** The edit puts another track where the one preloaded, or about to be, was. */
  predicate Displaces(s: State, a: Action) {
    || (s.preload.Some? && DisplacesEntry(s, a, s.preload.value))
    || (s.signing.Some? && DisplacesEntry(s, a, s.signing.value.entry))
  }

  lemma RemovalClearsExactly(s: State, i: nat, random: Random)
    requires Valid(s) && i < |s.tracks|
    ensures var after := Removed(s, i, random);
      && after.tracks == RemoveAt(s.tracks, i)
      && if KeepsCurrentId(s, i) then after.preload == s.preload && after.signing == s.signing
         else after.preload.None? && after.signing.None?
  {
    hide IsPermutation, ShuffleOrder, OrderFits;
    var rest := RemoveAt(s.tracks, i);
    var shorter := s.(tracks := rest, current := CurrentAfterRemove(s.current, i, |rest|));
    BuiltKeeps(shorter, random);
    hide Built;
    assert TrackId(Built(shorter, random)) == TrackId(s) <==> KeepsCurrentId(s, i);
  }

  lemma HeldAfterRemoval(s: State, after: State, i: nat, p: Preload)
    requires Valid(s) && Holds(s, p) && i < |s.tracks| && KeepsCurrentId(s, i)
    requires after.tracks == RemoveAt(s.tracks, i)
    ensures Holds(after, p) <==> !DisplacesEntry(s, RemoveFromQueue(i), p)
  {
    hide OrderFits, KeepsCurrentId;
  }

  lemma RemovalDisplacesExactly(s: State, i: nat, random: Random)
    requires Valid(s) && Faithful(s) && i < |s.tracks|
    ensures Faithful(Removed(s, i, random)) <==> !Displaces(s, RemoveFromQueue(i))
  {
    hide OrderFits, Removed, Holds;
    RemovalClearsExactly(s, i, random);
    if KeepsCurrentId(s, i) {
      hide KeepsCurrentId, DisplacesEntry;
      var after := Removed(s, i, random);
      if s.preload.Some? {
        HeldAfterRemoval(s, after, i, s.preload.value);
      }
      if s.signing.Some? {
        HeldAfterRemoval(s, after, i, s.signing.value.entry);
      }
    }
  }

  lemma MoveDisplacesExactly(s: State, from: nat, to: nat, random: Random)
    requires Valid(s) && Faithful(s) && from < |s.tracks| && to < |s.tracks| && from != to
    ensures Faithful(Moved(s, from, to, random)) <==> !Displaces(s, MoveInQueue(from, to))
  {
    hide IsPermutation, ShuffleOrder, OrderFits, MoveElement;
    MovedFrom(s.tracks, from, to);
    if s.preload.Some? {
      var p := s.preload.value.index;
      assert MoveElement(s.tracks, from, to)[p].id == s.tracks[FollowMove(p, to, from)].id;
    }
  }

  lemma LookingStaysFaithful(s: State)
    requires Faithful(s)
    ensures Faithful(Refreshed(s))
    ensures forall given :: Faithful(Signed(s, given))
  {
    hide NextUp;
  }

  lemma LookingAfterBuilding(s: State, random: Random)
    requires Faithful(s)
    ensures Faithful(Refreshed(Built(s, random)))
  {
    BuiltKeeps(s, random);
    hide Built;
    LookingStaysFaithful(Built(s, random));
  }

  lemma GrowingStaysFaithful(s: State, more: seq<Track>, random: Random)
    requires Faithful(s)
    ensures Faithful(Built(s.(tracks := s.tracks + more), random))
  {
    BuiltKeeps(s.(tracks := s.tracks + more), random);
    hide Built;
  }

  /** Which operations leave a wrong track preloaded, exactly. */
  lemma PreloadIsDisplacedExactly(s: State, a: Action, random: Random)
    requires Valid(s) && Faithful(s)
    ensures Faithful(Do(s, a, random)) <==> !Displaces(s, a)
  {
    hide IsPermutation, ShuffleOrder, OrderFits, NextUp, BackTarget, Removed, Moved, KeepsCurrentId, Built, Refreshed,
      Signed;
    match a
    case RemoveFromQueue(i) =>
      if InBounds(i, s) {
        RemovalDisplacesExactly(s, i, random);
      }
    case MoveInQueue(from, to) =>
      if from != to && InBounds(from, s) && InBounds(to, s) {
        MoveDisplacesExactly(s, from, to, random);
      }
    case AddToQueue(track) => GrowingStaysFaithful(s, [track], random);
    case AddTracksToQueue(tracks) => GrowingStaysFaithful(s, tracks, random);
    case SetRepeat(mode) => LookingStaysFaithful(s.(repeat := mode));
    case SetShuffle(enabled) => LookingAfterBuilding(s.(shuffle := enabled), random);
    case PlayerReports(status) => LookingStaysFaithful(s.(status := status));
    case PreloadSigned(_) => LookingStaysFaithful(s);
    case _ =>
  }

  /** The player has the track open that the controller shows. */
  predicate InTune(s: State) { TrackId(s).Some? ==> s.loaded == TrackId(s) }

  /** The track preloaded is not the one that the controller will show next. */
  predicate Mismatched(s: State) {
    && s.preload.Some?
    && var target := if AdvanceTarget(s).Some? then AdvanceTarget(s) else s.current;
      target.Some? && !(target.value < |s.tracks| && s.tracks[target.value].id == s.preload.value.trackId)
  }

  lemma EndedInTuneExactly(s: State, random: Random)
    requires Valid(s) && InTune(s)
    ensures InTune(Ended(s, random)) <==> !Mismatched(s)
  {
    hide IsPermutation, ShuffleOrder, OrderFits, NextUp;
    NextUpIsInRange(s);
    if s.preload.Some? && AdvanceTarget(s).Some? {
      BuiltKeeps(s.(loaded := Some(s.preload.value.trackId)).(current := AdvanceTarget(s)), random);
    }
    hide Built;
  }

  lemma EditsStayInTune(s: State, a: Action, random: Random)
    requires Valid(s) && InTune(s) && (a.RemoveFromQueue? || a.MoveInQueue?)
    ensures InTune(Do(s, a, random))
  {
    hide IsPermutation, ShuffleOrder, OrderFits;
    if a.MoveInQueue? {
      EditsKeepTheTrack(s, a, random);
    } else if InBounds(a.index, s) {
      var rest := RemoveAt(s.tracks, a.index);
      BuiltKeeps(s.(tracks := rest, current := CurrentAfterRemove(s.current, a.index, |rest|)), random);
    }
  }

  /** Every operation leaves the player on the track that is shown, but for a track that ends with
      the wrong one preloaded. */
  lemma InTuneExactly(s: State, a: Action, random: Random)
    requires Valid(s) && InTune(s)
    ensures InTune(Do(s, a, random)) <==> !(a.TrackEnds? && Mismatched(s))
  {
    hide IsPermutation, ShuffleOrder, OrderFits, NextUp, BackTarget, Removed, Moved, Ended, Mismatched;
    match a
    case RemoveFromQueue(_) => EditsStayInTune(s, a, random);
    case MoveInQueue(_, _) => EditsStayInTune(s, a, random);
    case TrackEnds => EndedInTuneExactly(s, random);
    case AddToQueue(track) => BuiltKeeps(s.(tracks := s.tracks + [track]), random);
    case AddTracksToQueue(tracks) => BuiltKeeps(s.(tracks := s.tracks + tracks), random);
    case SetShuffle(enabled) => BuiltKeeps(s.(shuffle := enabled), random);
    case _ =>
  }

  // Runs in which the player stays on the track that is shown.

  predicate IsEdit(a: Action) { a.AddToQueue? || a.AddTracksToQueue? || a.RemoveFromQueue? || a.MoveInQueue? }

  /** The operation looks again at what comes next, or drops what was preloaded. */
  predicate LooksAgain(a: Action) {
    || a == PlayerReports(Playing) || a.SetRepeat? || a.SetShuffle?
    || a.PlayTracks? || a.ClearQueue? || a.Next? || a.TrackEnds?
  }

  /** Since the queue was last edited, the controller has looked again at what comes next. */
  predicate Settled(events: seq<Event>) {
    events == [] ||
    var n := |events| - 1;
    !IsEdit(events[n].action) && (LooksAgain(events[n].action) || Settled(events[..n]))
  }

  /** No edit has displaced the track that is preloaded. */
  ghost predicate Undisturbed(events: seq<Event>) {
    events == [] ||
    var n := |events| - 1;
    || (LooksAgain(events[n].action) && Run(INITIAL, events).preload.None?)
    || (Undisturbed(events[..n]) && !Displaces(Run(INITIAL, events[..n]), events[n].action))
  }

  /** The preloaded entry is the one that comes next. */
  predicate Timely(s: State) { s.preload.Some? ==> NextUp(s) == Some(s.preload.value.index) }

  lemma LookingAgainIsTimely(s: State, a: Action, random: Random)
    requires Valid(s) && LooksAgain(a)
    ensures Timely(Do(s, a, random))
  {
    hide IsPermutation, ShuffleOrder, OrderFits, NextUp, BackTarget, Built;
  }

  /** What is dropped, or asked for anew, is not displaced. */
  lemma LookingAgainIsFaithful(s: State, a: Action, random: Random)
    requires Valid(s) && LooksAgain(a) && Do(s, a, random).preload.None?
    ensures Faithful(Do(s, a, random))
  {
    hide IsPermutation, ShuffleOrder, OrderFits, NextUp, BackTarget, Built;
  }

  lemma OthersKeepTimely(s: State, a: Action, random: Random)
    requires Valid(s) && !IsEdit(a) && Timely(s)
    ensures Timely(Do(s, a, random))
  {
    hide IsPermutation, ShuffleOrder, OrderFits, BackTarget, Built;
    if LooksAgain(a) {
      LookingAgainIsTimely(s, a, random);
    }
  }

  lemma {:induction false} SettledIsTimely(events: seq<Event>)
    requires Settled(events)
    ensures Timely(Run(INITIAL, events))
    decreases |events|
  {
    hide Do, Valid, Timely;
    if events == [] {
      NothingIsInTune();
    } else {
      var n := |events| - 1;
      var s := Run(INITIAL, events[..n]);
      RunsStayValid(events[..n]);
      if LooksAgain(events[n].action) {
        LookingAgainIsTimely(s, events[n].action, events[n].random);
      } else {
        SettledIsTimely(events[..n]);
        OthersKeepTimely(s, events[n].action, events[n].random);
      }
    }
  }

  lemma {:induction false} UndisturbedIsFaithful(events: seq<Event>)
    requires Undisturbed(events)
    ensures Faithful(Run(INITIAL, events))
    decreases |events|
  {
    hide Do, Valid, Faithful, Displaces;
    if events == [] {
      NothingIsInTune();
    } else {
      var n := |events| - 1;
      var s := Run(INITIAL, events[..n]);
      RunsStayValid(events[..n]);
      if LooksAgain(events[n].action) && Run(INITIAL, events).preload.None? {
        LookingAgainIsFaithful(s, events[n].action, events[n].random);
      } else {
        UndisturbedIsFaithful(events[..n]);
        PreloadIsDisplacedExactly(s, events[n].action, events[n].random);
      }
    }
  }

  lemma TimelyMatches(s: State)
    requires Faithful(s) && Timely(s) && !s.repeat.One?
    ensures !Mismatched(s)
  {
    hide NextUp;
  }

  /** A track may end: what comes next has been looked at since the last edit, no edit has displaced the
      preloaded track, and the mode is not repeat-one. */
  ghost predicate MayEnd(events: seq<Event>) {
    Settled(events) && Undisturbed(events) && !Run(INITIAL, events).repeat.One?
  }

  /** Over a whole run the player is on the track that is shown, if every track that ends may end. */
  lemma {:induction false} RunsStayInTune(events: seq<Event>)
    requires forall k :: 0 <= k < |events| && events[k].action.TrackEnds? ==> MayEnd(events[..k])
    ensures InTune(Run(INITIAL, events))
    decreases |events|
  {
    hide Do, Valid, Timely, Mismatched, InTune, Settled, Undisturbed, Faithful;
    if events == [] {
      NothingIsInTune();
    } else {
      var n := |events| - 1;
      var before := events[..n];
      forall k | 0 <= k < n && before[k].action.TrackEnds?
        ensures MayEnd(before[..k])
      {
        assert before[..k] == events[..k] && before[k] == events[k];
      }
      RunsStayInTune(before);
      RunsStayValid(before);
      if events[n].action.TrackEnds? {
        SettledIsTimely(before);
        UndisturbedIsFaithful(before);
        TimelyMatches(Run(INITIAL, before));
      }
      InTuneExactly(Run(INITIAL, before), events[n].action, events[n].random);
    }
  }

  lemma NothingIsInTune()
    ensures InTune(INITIAL) && Timely(INITIAL) && Faithful(INITIAL)
  {
  }

  /** The player reports that it is playing, and the signing server answers. */
  function Preloaded(s: State, random: Random): State {
    Do(Do(s, PlayerReports(Playing), random), PreloadSigned(true), random)
  }

  lemma NextUpForgetsPreload(s: State, status: Status, preload: Option<Preload>, signing: Option<Signing>)
    ensures NextUp(s.(status := status, preload := preload, signing := signing)) == NextUp(s)
  {
  }

  lemma PreloadedIsNext(s: State, random: Random)
    requires Valid(s) && Faithful(s)
    ensures var next, after := NextUp(s), Preloaded(s, random);
      && after == s.(status := Playing, preload := after.preload, signing := after.signing)
      && (after.preload.None? <==> next.None? || next == s.current)
      && (after.preload.Some? ==> after.preload.value == Preload(next.value, s.tracks[next.value].id))
  {
    hide IsPermutation, ShuffleOrder, OrderFits;
    NextUpIsInRange(s);
    var playing := s.(status := Playing);
    var reported := Do(s, PlayerReports(Playing), random);
    NextUpForgetsPreload(s, Playing, s.preload, s.signing);
    assert reported == Refreshed(playing);
    hide NextUp;
    assert reported == s.(status := Playing, preload := reported.preload, signing := reported.signing);
    NextUpForgetsPreload(s, Playing, reported.preload, reported.signing);
    assert NextUp(reported) == NextUp(s);
  }

  /** Once that has happened the right track is preloaded, unless repeat-one is set and another track comes next. */
  lemma ReportMatchesExactly(s: State, random: Random)
    requires Valid(s) && Faithful(s)
    ensures var next := NextUp(s);
      Mismatched(Preloaded(s, random)) <==>
        s.repeat.One? && next.Some? && next.value < |s.tracks| && Some(s.tracks[next.value].id) != TrackId(s)
  {
    hide IsPermutation, ShuffleOrder, OrderFits, NextUp, Preloaded;
    NextUpIsInRange(s);
    PreloadedIsNext(s, random);
    var after := Preloaded(s, random);
    NextUpForgetsPreload(s, Playing, after.preload, after.signing);
  }

  /** Removing the track that is up next: the index that comes next does not change, so its successor is
      never preloaded, and the removed track is played while another one is shown. */
  lemma RemovedTrackIsPlayed(s: State, random: Random)
    requires Valid(s) && !s.shuffle && !s.repeat.One? && s.current.Some? && s.preload.None?
    requires var c := s.current.value; c + 2 < |s.tracks| && s.tracks[c + 1].id != s.tracks[c + 2].id
    ensures var c := s.current.value;
      var edited := Do(Preloaded(s, random), RemoveFromQueue(c + 1), random);
      var over := Do(Preloaded(edited, random), TrackEnds, random);
      TrackId(over) == Some(s.tracks[c + 2].id) && over.loaded == Some(s.tracks[c + 1].id)
  {
    hide IsPermutation, ShuffleOrder;
    var c := s.current.value;
    var before := Preloaded(s, random);
    assert before == s.(status := Playing, preload := Some(Preload(c + 1, s.tracks[c + 1].id)), signing := None);
    var edited := Do(before, RemoveFromQueue(c + 1), random);
    assert edited == before.(tracks := RemoveAt(s.tracks, c + 1), order := []);
    assert Preloaded(edited, random) == edited;
  }

  /** Adding at the end of a queue that is about to repeat: until the player reports again, the first track
      is played while the added one is shown. */
  lemma AddedTrackIsPassedOver(s: State, track: Track, random: Random)
    requires Valid(s) && !s.shuffle && s.repeat.All? && s.current.Some? && s.preload.None?
    requires |s.tracks| >= 2 && s.current.value == |s.tracks| - 1 && track.id != s.tracks[0].id
    ensures var over := Do(Do(Preloaded(s, random), AddToQueue(track), random), TrackEnds, random);
      TrackId(over) == Some(track.id) && over.loaded == Some(s.tracks[0].id)
  {
    hide IsPermutation, ShuffleOrder;
  }

  // The controller object.

  class Controller {
    var tracks: seq<Track>
    var currentIndex: Option<nat>
    var repeat: RepeatMode
    var shuffle: bool
    var shuffleOrder: seq<nat>
    var status: Status
    var preload: Option<Preload>
    var signing: Option<Signing>
    var loaded: Option<string>

    ghost function S(): State
      reads this
    {
      State(tracks, currentIndex, repeat, shuffle, shuffleOrder, status, preload, signing, loaded)
    }

    constructor ()
      ensures S() == INITIAL
    {
      tracks, currentIndex, repeat, shuffle, shuffleOrder := [], None, RepeatMode.Off, false, [];
      status, preload, signing, loaded := Stopped, None, None, None;
    }

    method BuildShuffleOrder(random: Random)
      modifies this`shuffleOrder
      ensures S() == Built(old(S()), random)
    {
      if !shuffle || |tracks| == 0 {
        shuffleOrder := [];
      } else {
        var current := if currentIndex.Some? then currentIndex.value else 0;
        shuffleOrder := Shuffle(|tracks|, current, random);
      }
    }

    static method Shuffle(n: nat, current: nat, random: Random) returns (order: seq<nat>)
      requires n > 0
      ensures order == ShuffleOrder(n, if current < n then current else 0, random)
    {
      hide Mix, Swap;
      var indices := new nat[n](i => i);
      assert indices[..] == Indices(n);
      var first := if current < n then current else 0;
      if first > 0 {
        SwapInPlace(indices, 0, first);
      } else {
        SwapWithItself(Indices(n));
      }
      var index := n - 1;
      ghost var result := Mix(indices[..], index, random);
      while index > 1
        invariant 0 <= index < n
        invariant Mix(indices[..], index, random) == result
      {
        var swapIndex := 1 + random(index) % index;
        MixStep(indices[..], index, random);
        SwapInPlace(indices, index, swapIndex);
        index := index - 1;
      }
      MixEnds(indices[..], index, random);
      order := indices[..];
    }

    static method SwapInPlace(a: array<nat>, i: nat, j: nat)
      requires i < a.Length && j < a.Length
      modifies a
      ensures a[..] == Swap(old(a[..]), i, j)
    {
      a[i], a[j] := a[j], a[i];
    }

    method PlayTracks(newTracks: seq<Track>, start: int, random: Random)
      modifies this
      ensures S() == Do(old(S()), Action.PlayTracks(newTracks, start), random)
    {
      hide Built;
      tracks := newTracks;
      currentIndex := Clamp(start, |tracks|);
      BuildShuffleOrder(random);
      LoadCurrentTrack(true);
    }

    method AddToQueue(track: Track, random: Random)
      modifies this
      ensures S() == Do(old(S()), Action.AddToQueue(track), random)
    {
      hide Built;
      tracks := tracks + [track];
      BuildShuffleOrder(random);
      if CurrentTrackId().None? && |tracks| == 1 {
        currentIndex := Some(0);
        LoadCurrentTrack(false);
      }
    }

    method AddTracksToQueue(more: seq<Track>, random: Random)
      modifies this
      ensures S() == Do(old(S()), Action.AddTracksToQueue(more), random)
    {
      hide Built;
      var hadCurrentTrack := CurrentTrackId().Some?;
      tracks := tracks + more;
      BuildShuffleOrder(random);
      if !hadCurrentTrack && |tracks| > 0 {
        currentIndex := Some(0);
        LoadCurrentTrack(false);
      }
    }

    method RemoveFromQueue(index: int, random: Random)
      modifies this
      ensures S() == Do(old(S()), Action.RemoveFromQueue(index), random)
    {
      hide Built;
      if index < 0 || index >= |tracks| {
        return;
      }
      var previousTrackId := CurrentTrackId();
      var shouldAutoplay := status.Playing? || status.Loading?;
      tracks := RemoveAt(tracks, index);
      if currentIndex.Some? {
        if index < currentIndex.value {
          currentIndex := Some(currentIndex.value - 1);
        } else if index == currentIndex.value {
          if |tracks| == 0 {
            currentIndex := None;
            BuildShuffleOrder(random);
            Halt();
            return;
          }
          if currentIndex.value >= |tracks| {
            currentIndex := Some(|tracks| - 1);
          }
        }
      }
      BuildShuffleOrder(random);
      if CurrentTrackId() != previousTrackId {
        LoadCurrentTrack(shouldAutoplay);
      }
    }

    method MoveInQueue(from: int, to: int, random: Random)
      modifies this
      ensures S() == Do(old(S()), Action.MoveInQueue(from, to), random)
    {
      hide Built;
      if from == to || from < 0 || to < 0 || from >= |tracks| || to >= |tracks| {
        return;
      }
      var track := tracks[from];
      tracks := RemoveAt(tracks, from);
      tracks := InsertAt(tracks, to, track);
      if currentIndex.Some? {
        var c := currentIndex.value;
        if c == from {
          currentIndex := Some(to);
        } else if from < c && to >= c {
          currentIndex := Some(c - 1);
        } else if from > c && to <= c {
          currentIndex := Some(c + 1);
        }
      }
      BuildShuffleOrder(random);
    }

    method ClearQueue(random: Random)
      modifies this
      ensures S() == Do(old(S()), Action.ClearQueue, random)
    {
      tracks := [];
      currentIndex := None;
      shuffleOrder := [];
      Halt();
    }

    method JumpToIndex(index: int, random: Random)
      modifies this
      ensures S() == Do(old(S()), Action.JumpToIndex(index), random)
    {
      hide Built;
      if index < 0 || index >= |tracks| {
        return;
      }
      currentIndex := Some(index);
      BuildShuffleOrder(random);
      LoadCurrentTrack(true);
    }

    method Play(random: Random)
      modifies this
      ensures S() == Do(old(S()), Action.Play, random)
    {
      hide Built;
      if |tracks| == 0 {
        return;
      }
      if CurrentTrackId().None? {
        currentIndex := Some(0);
        BuildShuffleOrder(random);
        LoadCurrentTrack(true);
        return;
      }
      if status.Stopped? {
        LoadCurrentTrack(true);
      }
    }

    /** Also what happens when playback finishes with nothing preloaded. */
    method Next(random: Random)
      modifies this
      ensures S() == Do(old(S()), Action.Next, random)
    {
      hide Built;
      var advanced := Advance();
      if !advanced {
        Halt();
        return;
      }
      BuildShuffleOrder(random);
      LoadCurrentTrack(true);
    }

    /** `late`: the current track is more than three seconds in. */
    method Previous(late: bool, random: Random)
      modifies this
      ensures S() == Do(old(S()), Action.Previous(late), random)
    {
      hide Built;
      if late {
        return;
      }
      var wentBack := GoBack();
      if !wentBack {
        return;
      }
      BuildShuffleOrder(random);
      LoadCurrentTrack(true);
    }

    method SetRepeat(mode: RepeatMode, random: Random)
      modifies this
      ensures S() == Do(old(S()), Action.SetRepeat(mode), random)
    {
      repeat := mode;
      UpdatePreloadIfNeeded();
    }

    method SetShuffle(enabled: bool, random: Random)
      modifies this
      ensures S() == Do(old(S()), Action.SetShuffle(enabled), random)
    {
      hide Built;
      shuffle := enabled;
      BuildShuffleOrder(random);
      UpdatePreloadIfNeeded();
    }

    method SyncFromPlayerState(reported: Status, random: Random)
      modifies this
      ensures S() == Do(old(S()), PlayerReports(reported), random)
    {
      status := reported;
      if status.Playing? {
        UpdatePreloadIfNeeded();
      }
    }

    /** The player's own end-of-track handling, and the callback it makes. */
    method HandleTrackEnd(random: Random)
      modifies this
      ensures S() == Do(old(S()), TrackEnds, random)
    {
      hide Built;
      if preload.None? {
        Next(random);
        return;
      }
      loaded := Some(preload.value.trackId);
      var advanced := Advance();
      if !advanced {
        Halt();
        return;
      }
      BuildShuffleOrder(random);
      preload := None;
      status := Loading;
      UpdatePreloadIfNeeded();
    }

    function CurrentTrackId(): (id: Option<string>)
      reads this
      ensures id == TrackId(S())
    {
      if currentIndex.Some? && currentIndex.value < |tracks| then Some(tracks[currentIndex.value].id) else None
    }

    function ResolveNextIndex(): (next: Option<nat>)
      reads this
      ensures next == NextUp(S())
    {
      NextUp(State(tracks, currentIndex, repeat, shuffle, shuffleOrder, status, preload, signing, loaded))
    }

    method Advance() returns (advanced: bool)
      modifies this`currentIndex
      ensures var target := AdvanceTarget(old(S()));
        advanced == target.Some? && S() == if advanced then old(S()).(current := target) else old(S())
    {
      if currentIndex.None? {
        return false;
      }
      if repeat.One? {
        return true;
      }
      var nextIndex := ResolveNextIndex();
      if nextIndex.None? {
        return false;
      }
      currentIndex := nextIndex;
      return true;
    }

    method GoBack() returns (wentBack: bool)
      modifies this`currentIndex
      ensures var target := BackTarget(old(S()));
        wentBack == target.Some? && S() == if wentBack then old(S()).(current := target) else old(S())
    {
      if currentIndex.None? {
        return false;
      }
      if shuffle {
        var position := IndexIn(shuffleOrder, currentIndex.value, 0);
        if position == 0 || position == |shuffleOrder| {
          return false;
        }
        currentIndex := Some(shuffleOrder[position - 1]);
        return true;
      }
      if currentIndex.value == 0 {
        return false;
      }
      currentIndex := Some(currentIndex.value - 1);
      return true;
    }

    method ClearPreload()
      modifies this`preload, this`signing
      ensures S() == Cleared(old(S()))
    {
      signing := None;
      preload := None;
    }

    method Halt()
      modifies this`preload, this`signing, this`status
      ensures S() == Halted(old(S()))
    {
      ClearPreload();
      status := Stopped;
    }

    method LoadCurrentTrack(autoplay: bool)
      modifies this`preload, this`signing, this`status, this`loaded
      ensures S() == Loaded(old(S()), autoplay)
    {
      var track := CurrentTrackId();
      if track.None? {
        Halt();
        return;
      }
      ClearPreload();
      status := if autoplay then Loading else Paused;
      loaded := track;
    }

    /** The request it starts is answered by PreloadIsSigned, unless another call gives it up. */
    method UpdatePreloadIfNeeded()
      modifies this`preload, this`signing
      ensures S() == Refreshed(old(S()))
    {
      hide NextUp;
      if !status.Playing? {
        ClearPreload();
        return;
      }
      var nextIndex := ResolveNextIndex();
      if nextIndex.None? || nextIndex == currentIndex {
        ClearPreload();
        return;
      }
      if preload.Some? && preload.value.index == nextIndex.value {
        return;
      }
      if nextIndex.value >= |tracks| {
        ClearPreload();
        return;
      }
      preload := None;
      signing := Some(Signing(Preload(nextIndex.value, tracks[nextIndex.value].id), CurrentTrackId()));
    }

    method PreloadIsSigned(given: bool, random: Random)
      modifies this`preload, this`signing
      ensures S() == Do(old(S()), PreloadSigned(given), random)
    {
      hide NextUp;
      if signing.None? {
        return;
      }
      var request := signing.value;
      if CurrentTrackId() == request.playing {
        var nextIndex := ResolveNextIndex();
        if nextIndex == Some(request.entry.index) && given {
          preload := Some(request.entry);
        }
      }
      signing := None;
    }
  }
}
