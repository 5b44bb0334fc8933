/** What each queue command comes to for one node, field by field: the queue and its current entry, the
    record of what the node was sent, and the one message that may have been added to its channel. */
module QueueCommands {
  import opened Wrappers
  import opened PlayerProtocol
  import opened NodeQueue

  // The channel.

  /** The paths are those of the queue from `from` on. */
  ghost predicate SpellsOut(paths: seq<string>, queue: seq<Track>, from: nat) {
    from + |paths| == |queue| && forall k :: 0 <= k < |paths| ==> paths[k] == queue[from + k].filePath
  }

  /** Exactly this message was added, if there is an output and it took it; otherwise nothing was. */
  ghost predicate Adds(before: NodeView, after: NodeView, accepted: bool, message: NodeCommand) {
    if before.wire.Some? && accepted
    then after.wire.Some? && after.wire.value == before.wire.value + [message]
    else after.wire == before.wire
  }

  /** Only a new queue may have been added: what stands from `from` on, under the generation on record. */
  ghost predicate SendsQueue(before: NodeView, after: NodeView, accepted: bool, queue: seq<Track>, from: nat) {
    after.transport.Some? && exists paths ::
      SpellsOut(paths, queue, from) && Adds(before, after, accepted, SetQueue(paths, after.transport.value.generation))
  }

  /** A record that was made anew: the generation after the one before, which counts from 0. */
  ghost predicate NextGeneration(before: NodeView, after: NodeView) {
    && after.transport.Some?
    && after.transport.value.generation == (if before.transport.Some? then before.transport.value.generation else 0) + 1
  }

  lemma SuffixSpellsOut(queue: seq<Track>, from: nat)
    requires from <= |queue|
    ensures SpellsOut(Suffix(queue, from), queue, from)
  {
  }

  // The commands.

  /** Playing from an entry makes it current, keeps the queue, and sends the node what stands from there on. */
  lemma JumpMeans(v: NodeView, index: nat, accepted: bool)
    requires index < |v.queue|
    ensures var after := JumpTo(v, index, accepted);
      && after.queue == v.queue && after.currentIndex == Some(index)
      && NextGeneration(v, after) && SendsQueue(v, after, accepted, v.queue, index)
      && after.transport.value.start == Some(index) && after.transport.value.loadedLen == |v.queue| - index
  {
    SuffixSpellsOut(v.queue, index);
    var after := JumpTo(v, index, accepted);
    assert Adds(v, after, accepted, SetQueue(Suffix(v.queue, index), after.transport.value.generation));
  }

  /** A new queue is shown at once where no node is connected, and otherwise only if the node's output took it.
      A connected node gets a new record either way. */
  lemma ReplaceMeans(v: NodeView, tracks: seq<Track>, start: Option<nat>, connected: bool, accepted: bool)
    requires start.Some? ==> start.value <= |tracks|
    ensures var after := Replace(v, tracks, start, connected, accepted);
      var from := if start.Some? then start.value else 0;
      && (!connected || (v.wire.Some? && accepted) ==> after.queue == tracks && after.currentIndex == start)
      && (connected && !(v.wire.Some? && accepted) ==> after.queue == v.queue && after.currentIndex == v.currentIndex)
      && (!connected ==> after.transport == v.transport && after.wire == v.wire)
      && (connected ==>
            && NextGeneration(v, after) && SendsQueue(v, after, accepted, tracks, from)
            && after.transport.value.loadedLen == |tracks| - from
            && after.transport.value.start == if from == |tracks| then None else start)
  {
    var after := Replace(v, tracks, start, connected, accepted);
    var from := if start.Some? then start.value else 0;
    SuffixSpellsOut(tracks, from);
    if connected {
      assert Adds(v, after, accepted, SetQueue(Suffix(tracks, from), after.transport.value.generation));
    }
  }

  /** Clearing empties the queue where no node is connected or its output took the empty queue. */
  lemma ClearMeans(v: NodeView, connected: bool, accepted: bool)
    ensures var after := ClearAll(v, connected, accepted);
      && (!connected || (v.wire.Some? && accepted) ==> after.queue == [] && after.currentIndex == None)
      && (connected && !(v.wire.Some? && accepted) ==> after.queue == v.queue && after.currentIndex == v.currentIndex)
      && (!connected ==> after.transport == v.transport && after.wire == v.wire)
      && (connected ==>
            && NextGeneration(v, after) && after.transport.value.start == None && after.transport.value.loadedLen == 0
            && Adds(v, after, accepted, SetQueue([], after.transport.value.generation)))
  {
  }

  /** An addition makes the queue longer in any case, and is sent only to a connected node. What its output
      takes counts as loaded. */
  lemma AppendMeans(v: NodeView, tracks: seq<Track>, connected: bool, accepted: bool)
    ensures var after := Append(v, tracks, connected, accepted);
      && after.queue == v.queue + tracks && after.currentIndex == v.currentIndex
      && (tracks == [] || !connected || v.wire.None? || !accepted ==>
            after.transport == v.transport && after.wire == v.wire)
      && (tracks != [] && connected && v.wire.Some? && accepted ==>
            && (exists paths :: |paths| == |tracks| && (forall k :: 0 <= k < |paths| ==> paths[k] == tracks[k].filePath)
                  && Adds(v, after, true, Add(paths)))
            && after.transport.Some? == v.transport.Some?
            && (v.transport.Some? ==>
                  && after.transport.value.loadedLen == v.transport.value.loadedLen + |tracks|
                  && after.transport.value.start == v.transport.value.start
                  && after.transport.value.generation == v.transport.value.generation))
  {
    if tracks == [] {
      assert v.queue + tracks == v.queue;
    } else if connected && v.wire.Some? && accepted {
      assert Adds(v, Append(v, tracks, connected, accepted), true, Add(Paths(tracks)));
    }
  }

  /** Bringing a node up to date changes nothing of the queue, and counts all of it as loaded. */
  lemma ResyncMeans(v: NodeView, accepted: bool)
    requires v.currentIndex.Some? ==> v.currentIndex.value < |v.queue|
    ensures var after := Resync(v, accepted); var from := if v.currentIndex.Some? then v.currentIndex.value else 0;
      && after.queue == v.queue && after.currentIndex == v.currentIndex
      && NextGeneration(v, after) && SendsQueue(v, after, accepted, v.queue, from)
      && after.transport.value.start == v.currentIndex && after.transport.value.loadedLen == |v.queue|
  {
    var after, from := Resync(v, accepted), if v.currentIndex.Some? then v.currentIndex.value else 0;
    SuffixSpellsOut(v.queue, from);
    assert Adds(v, after, accepted, SetQueue(Suffix(v.queue, from), after.transport.value.generation));
  }

  /** Starting to play makes the first entry current if none is, and changes nothing else. */
  lemma StartMeans(v: NodeView)
    ensures var after := StartAtFirst(v);
      && after.queue == v.queue && after.transport == v.transport && after.wire == v.wire
      && (v.currentIndex.Some? || v.queue == [] ==> after.currentIndex == v.currentIndex)
      && (v.currentIndex.None? && v.queue != [] ==> after.currentIndex == Some(0))
  {
  }

  /** A removal takes out that entry and no other, wherever the output stands. The current entry stays
      current; if it is the removed one, the next takes its place, or else the one before. */
  lemma RemoveMeans(v: NodeView, index: nat, connected: bool, accepted: bool)
    requires index < |v.queue| && (v.currentIndex.Some? ==> v.currentIndex.value < |v.queue|)
    ensures var after := RemoveEntry(v, index, connected, accepted);
      && after.queue[..index] == v.queue[..index] && after.queue[index..] == v.queue[index + 1..]
      && (v.currentIndex.None? <==> after.currentIndex.None? && (v.currentIndex.Some? ==> |v.queue| != 1))
      && (after.currentIndex.Some? ==>
            var c := v.currentIndex.value;
            && after.currentIndex.value < |after.queue|
            && (c != index ==> after.currentIndex.value == if c < index then c else c - 1)
            && (c == index ==> after.currentIndex.value == if index + 1 < |v.queue| then index else index - 1))
  {
  }

  /** What a removal tells the node, and what it does to the record. */
  lemma RemoveTells(v: NodeView, index: nat, connected: bool, accepted: bool)
    requires index < |v.queue|
    ensures var after := RemoveEntry(v, index, connected, accepted);
      var place := if v.currentIndex.None? then index as int else index - v.currentIndex.value;
      if !connected then after.wire == v.wire
      else Adds(v, after, accepted, Remove(if place < 0 then 0 else place))
    ensures var after := RemoveEntry(v, index, connected, accepted);
      if connected && v.wire.Some? && accepted && v.transport.Some? then
        && after.transport.Some? && after.transport.value.generation == v.transport.value.generation
        && (v.transport.value.loadedLen > 0 ==> after.transport.value.loadedLen == v.transport.value.loadedLen - 1)
        && (v.transport.value.loadedLen == 0 ==> after.transport.value.loadedLen == 0)
        && after.transport.value.start == (if v.transport.value.loadedLen <= 1 then None else v.transport.value.start)
      else after.transport == v.transport
  {
  }

  /** A move takes out the entry and puts it in at its new place, the others staying in order, and the current
      entry stays current. */
  lemma MoveMeans(v: NodeView, from: nat, to: nat, connected: bool, accepted: bool)
    requires from < |v.queue| && to < |v.queue|
    ensures var after := MoveEntry(v, from, to, connected, accepted);
      && |after.queue| == |v.queue| && after.queue[to] == v.queue[from]
      && after.queue[..to] + after.queue[to + 1..] == v.queue[..from] + v.queue[from + 1..]
      && after.transport == v.transport
      && (v.currentIndex.None? <==> after.currentIndex.None?)
      && (v.currentIndex.Some? ==>
            var c := v.currentIndex.value;
            after.currentIndex.value ==
              if c == from then to
              else if from < c <= to then c - 1
              else if to <= c < from then c + 1
              else c)
  {
    MoveTakesOut(v.queue, from, to);
    hide MoveElement;
  }

  lemma MoveTells(v: NodeView, from: nat, to: nat, connected: bool, accepted: bool)
    requires from < |v.queue| && to < |v.queue|
    ensures var after := MoveEntry(v, from, to, connected, accepted);
      var c := if v.currentIndex.None? then 0 else v.currentIndex.value;
      if !connected then after.wire == v.wire
      else Adds(v, after, accepted, MoveTrack(if from < c then 0 else from - c, if to < c then 0 else to - c))
  {
  }

  /** A report moves the current entry exactly if it is of the generation on record, counts as loaded and
      lies on the queue; nothing else changes. */
  lemma ObserveMeans(v: NodeView, report: Report)
    ensures var after := Observe(v, report);
      && after.queue == v.queue && after.transport == v.transport && after.wire == v.wire
      && if exists t: Transport, start: nat :: v.transport == Some(t) && t.start == Some(start)
              && t.generation == report.generation && report.songIndex < t.loadedLen
              && start + report.songIndex < |v.queue|
         then after.currentIndex == Some(v.transport.value.start.value + report.songIndex)
         else after.currentIndex == v.currentIndex
  {
  }

  // Skipping.

  /** Where skipping leads on a queue of `length` entries, for each mode. */
  lemma SkipsMean(current: Option<nat>, length: nat, repeat: RepeatMode)
    ensures length == 0 ==> NextIndex(current, length, repeat) == None && PreviousIndex(current, length, repeat) == None
    ensures length > 0 && current.None? ==> NextIndex(current, length, repeat) == Some(0)
    ensures length > 0 && (current.None? || current == Some(0)) ==>
      PreviousIndex(current, length, repeat) ==
        if repeat.Off? then None else if repeat.One? then Some(0) else Some(length - 1)
    ensures forall i: nat | i < length && current == Some(i) ::
      && (repeat.One? ==> NextIndex(current, length, repeat) == Some(i))
      && (!repeat.One? && i + 1 < length ==> NextIndex(current, length, repeat) == Some(i + 1))
      && (i + 1 == length && repeat.Off? ==> NextIndex(current, length, repeat) == None)
      && (i + 1 == length && repeat.All? ==> NextIndex(current, length, repeat) == Some(0))
      && (i > 0 ==> PreviousIndex(current, length, repeat) == Some(i - 1))
  {
    if current.Some? && current.value < length {
      WrapAround(current.value, length);
    }
  }
}
