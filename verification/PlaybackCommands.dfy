/** What each operation of the browser's playback controller comes to, field by field. */
module PlaybackCommands {
  import opened Wrappers
  import opened PlayerProtocol
  import opened NodeQueue
  import opened LocalPlayback

  /** Queue and modes are as they were. */
  ghost predicate SameQueue(s: State, after: State) {
    after.tracks == s.tracks && after.repeat == s.repeat && after.shuffle == s.shuffle
  }

  ghost predicate NothingPreloaded(s: State) { s.preload.None? && s.signing.None? }

  /** The player has been given the entry, and is to play it or to wait. */
  ghost predicate Opens(after: State, i: nat, autoplay: bool) {
    && after.current == Some(i) && i < |after.tracks| && after.loaded == Some(after.tracks[i].id)
    && after.status == (if autoplay then Loading else Paused) && NothingPreloaded(after)
  }

  /** What plays, or does not, is untouched. */
  ghost predicate PlaysOn(s: State, after: State) {
    after.loaded == s.loaded && after.status == s.status && after.preload == s.preload && after.signing == s.signing
  }

  ghost predicate Stops(s: State, after: State) {
    after.loaded == s.loaded && after.status == Stopped && NothingPreloaded(after)
  }

  // Choosing.

  /** New tracks are played from the start index, or from the nearest entry there is. */
  lemma PlayTracksMeans(s: State, tracks: seq<Track>, start: int, random: Random)
    requires Valid(s)
    ensures var after := Do(s, PlayTracks(tracks, start), random); var n := |tracks|;
      && after.tracks == tracks && after.repeat == s.repeat && after.shuffle == s.shuffle
      && (n == 0 ==> after.current == None && Stops(s, after))
      && (0 <= start < n ==> Opens(after, start, true))
      && (n > 0 && start < 0 ==> Opens(after, 0, true))
      && (n > 0 && start >= n ==> Opens(after, n - 1, true))
  {
    hide ShuffleOrder;
  }

  /** An entry of the queue is played, and any other index ignored. */
  lemma JumpMeans(s: State, index: int, random: Random)
    requires Valid(s)
    ensures var after := Do(s, JumpToIndex(index), random);
      && SameQueue(s, after)
      && (0 <= index < |s.tracks| ==> Opens(after, index, true))
      && (index < 0 || index >= |s.tracks| ==> after == s)
  {
    hide ShuffleOrder, IsPermutation;
  }

  /** A stopped player is given the current entry, and anything else is left alone. */
  lemma PlayMeans(s: State, random: Random)
    requires Valid(s)
    ensures var after := Do(s, Play, random);
      && SameQueue(s, after)
      && (s.tracks == [] || s.status != Stopped ==> after == s)
      && (s.tracks != [] && s.status == Stopped ==> Opens(after, s.current.value, true))
  {
    hide ShuffleOrder, IsPermutation;
  }

  // Going on and back.

  /** Whether a track ended with another one preloaded, which the player has gone on to by itself. */
  ghost predicate GoesOnAlone(s: State, a: Action) { a.TrackEnds? && s.preload.Some? }

  ghost predicate OpensOrGoesOn(s: State, a: Action, after: State, i: nat) {
    if GoesOnAlone(s, a)
    then after.current == Some(i) && after.loaded == Some(s.preload.value.trackId) && after.status == Loading && NothingPreloaded(after)
    else Opens(after, i, true)
  }

  ghost predicate HaltsThere(s: State, a: Action, after: State) {
    && after.current == s.current && after.status == Stopped && NothingPreloaded(after)
    && after.loaded == if GoesOnAlone(s, a) then Some(s.preload.value.trackId) else s.loaded
  }

  /** In queue order, skipping and a track's end go to the next entry, from the last to the first only under
      repeat-all, stay under repeat-one, and otherwise stop where they are. */
  lemma QueueOrderGoesOn(s: State, a: Action, random: Random)
    requires Valid(s) && !s.shuffle && (a.Next? || a.TrackEnds?)
    ensures var after := Do(s, a, random); var n := |s.tracks|;
      && SameQueue(s, after)
      && (n == 0 ==> HaltsThere(s, a, after))
      && (n > 0 && s.repeat.One? ==> OpensOrGoesOn(s, a, after, s.current.value))
      && (n > 0 && !s.repeat.One? && s.current.value + 1 < n ==> OpensOrGoesOn(s, a, after, s.current.value + 1))
      && (n > 0 && s.repeat.All? && s.current.value + 1 == n ==> OpensOrGoesOn(s, a, after, 0))
      && (n > 0 && s.repeat.Off? && s.current.value + 1 == n ==> HaltsThere(s, a, after))
  {
    hide ShuffleOrder, IsPermutation;
  }

  /** With shuffle, to the second entry of the order, which is the one after the current. */
  lemma ShuffleGoesOn(s: State, a: Action, random: Random)
    requires Valid(s) && s.shuffle && (a.Next? || a.TrackEnds?)
    ensures var after := Do(s, a, random); var n := |s.tracks|;
      && SameQueue(s, after)
      && (n == 0 ==> HaltsThere(s, a, after))
      && (n > 0 && s.repeat.One? ==> OpensOrGoesOn(s, a, after, s.current.value))
      && (n > 1 && !s.repeat.One? ==> OpensOrGoesOn(s, a, after, s.order[1]))
      && (n == 1 && s.repeat.All? ==> OpensOrGoesOn(s, a, after, 0))
      && (n == 1 && s.repeat.Off? ==> HaltsThere(s, a, after))
  {
    hide ShuffleOrder, IsPermutation, IndexIn;
    if s.tracks != [] {
      CurrentIsFirst(s);
      if |s.tracks| == 1 {
        OnlyEntry(s);
      }
    }
  }

  /** In queue order, back to the entry before, unless the track is well under way or the first. */
  lemma QueueOrderGoesBack(s: State, late: bool, random: Random)
    requires Valid(s) && !s.shuffle
    ensures var after := Do(s, Previous(late), random);
      && SameQueue(s, after)
      && (late || s.current.None? || s.current == Some(0) ==> after == s)
      && (!late && s.current.Some? && s.current.value > 0 ==> Opens(after, s.current.value - 1, true))
  {
    hide ShuffleOrder, IsPermutation;
  }

  // Editing.

  /** Additions go to the end. The first tracks of an empty queue are opened, but not played. */
  lemma AdditionMeans(s: State, a: Action, more: seq<Track>, random: Random)
    requires Valid(s) && (a == AddTracksToQueue(more) || exists t :: a == AddToQueue(t) && more == [t])
    ensures var after := Do(s, a, random);
      && after.tracks == s.tracks + more && after.repeat == s.repeat && after.shuffle == s.shuffle
      && (s.tracks == [] && more != [] ==> Opens(after, 0, false))
      && (s.tracks != [] || more == [] ==> after.current == s.current && PlaysOn(s, after))
  {
    hide ShuffleOrder, IsPermutation;
    BuiltKeeps(s.(tracks := s.tracks + more), random);
    hide Built;
  }

  /** Whether a removal leaves another track current than before. */
  ghost predicate ChangesTrack(s: State, i: nat)
    requires i < |s.tracks| && s.current.Some? && s.current.value < |s.tracks|
  {
    var c := s.current.value;
    i == c && s.tracks[c].id != (if c + 1 < |s.tracks| then s.tracks[c + 1].id else if c > 0 then s.tracks[c - 1].id else "")
  }

  /** A removal takes out that entry and no other. The current entry stays current; the next takes the place of a
      removed current one, or else the one before; and what is current then is opened if it is another track. */
  lemma RemovalMeans(s: State, i: nat, random: Random)
    requires Valid(s) && i < |s.tracks|
    ensures var after := Do(s, RemoveFromQueue(i), random); var c, n := s.current.value, |s.tracks|;
      && after.tracks[..i] == s.tracks[..i] && after.tracks[i..] == s.tracks[i + 1..]
      && after.repeat == s.repeat && after.shuffle == s.shuffle
      && (n == 1 ==> after.current == None && Stops(s, after))
      && (n > 1 ==> after.current == Some(if i < c || (i == c && c + 1 == n) then c - 1 else c))
      && (n > 1 && ChangesTrack(s, i) ==> Opens(after, after.current.value, s.status.Playing? || s.status.Loading?))
      && (n > 1 && !ChangesTrack(s, i) ==> PlaysOn(s, after))
  {
    hide ShuffleOrder, IsPermutation;
    var rest := RemoveAt(s.tracks, i);
    BuiltKeeps(s.(tracks := rest, current := CurrentAfterRemove(s.current, i, |rest|)), random);
    hide Built;
  }

  /** A move takes out the entry and puts it in, the others staying in order and the current one current. */
  lemma MoveMeans(s: State, from: nat, to: nat, random: Random)
    requires Valid(s) && from < |s.tracks| && to < |s.tracks|
    ensures var after := Do(s, MoveInQueue(from, to), random); var c := s.current.value;
      && |after.tracks| == |s.tracks| && after.tracks[to] == s.tracks[from]
      && after.tracks[..to] + after.tracks[to + 1..] == s.tracks[..from] + s.tracks[from + 1..]
      && after.repeat == s.repeat && after.shuffle == s.shuffle && PlaysOn(s, after)
      && after.current == Some(
           if c == from then to
           else if from < c <= to then c - 1
           else if to <= c < from then c + 1
           else c)
  {
    hide ShuffleOrder, IsPermutation;
    MoveTakesOut(s.tracks, from, to);
    hide MoveElement;
  }

  lemma BadEditsAreIgnored(s: State, i: int, j: int, random: Random)
    requires i < 0 || i >= |s.tracks|
    ensures Do(s, RemoveFromQueue(i), random) == s
    ensures Do(s, MoveInQueue(i, j), random) == s && Do(s, MoveInQueue(j, i), random) == s
  {
  }

  lemma ClearingMeans(s: State, random: Random)
    ensures var after := Do(s, ClearQueue, random);
      && after.tracks == [] && after.current == None && after.order == []
      && after.repeat == s.repeat && after.shuffle == s.shuffle && Stops(s, after)
  {
  }

  // Modes and reports.

  lemma RepeatMeans(s: State, mode: RepeatMode, random: Random)
    ensures var after := Do(s, SetRepeat(mode), random);
      && after.repeat == mode && after.tracks == s.tracks && after.shuffle == s.shuffle && after.order == s.order
      && after.current == s.current && after.status == s.status && after.loaded == s.loaded
      && (s.status != Playing ==> NothingPreloaded(after))
  {
    hide NextUp;
  }

  lemma ShuffleMeans(s: State, enabled: bool, random: Random)
    ensures var after := Do(s, SetShuffle(enabled), random);
      && after.shuffle == enabled && after.tracks == s.tracks && after.repeat == s.repeat
      && after.current == s.current && after.status == s.status && after.loaded == s.loaded
      && (s.status != Playing ==> NothingPreloaded(after))
  {
    hide NextUp, ShuffleOrder;
  }

  lemma ReportMeans(s: State, status: Status, random: Random)
    ensures var after := Do(s, PlayerReports(status), random);
      && after.status == status && SameQueue(s, after) && after.order == s.order
      && after.current == s.current && after.loaded == s.loaded
      && (status != Playing ==> after.preload == s.preload && after.signing == s.signing)
  {
    hide NextUp;
  }

  /** The answer to a request preloads the entry asked for exactly if a URL came, the same track is current as when it
      was asked for, and that entry comes next; in any case the request is over. */
  lemma AnswerMeans(s: State, given: bool, random: Random)
    ensures var after := Do(s, PreloadSigned(given), random);
      && SameQueue(s, after) && after.order == s.order && after.current == s.current
      && after.status == s.status && after.loaded == s.loaded && after.signing == None
      && (s.signing.None? ==> after.preload == s.preload)
      && (s.signing.Some? ==>
            after.preload ==
              if given && TrackId(s) == s.signing.value.playing && NextUp(s) == Some(s.signing.value.entry.index)
              then Some(s.signing.value.entry) else s.preload)
  {
    hide NextUp;
  }

  /** While the player plays, the entry that comes next in queue order is asked for, unless it is preloaded already. */
  lemma NextIsAskedFor(s: State, random: Random)
    requires Valid(s) && !s.shuffle && s.current.Some?
    requires s.preload.Some? ==> s.preload.value.index != s.current.value + 1
    ensures var after := Do(s, PlayerReports(Playing), random); var c := s.current.value;
      c + 1 < |s.tracks| ==>
        after.signing == Some(Signing(Preload(c + 1, s.tracks[c + 1].id), Some(s.tracks[c].id))) && after.preload == None
  {
    hide ShuffleOrder, IsPermutation;
  }
}
