/** Cutting a remuxed track into HLS segments, and writing the segments out. */
module Segmenter {
  import opened Wrappers
  import opened Bytes

  /** Sample entries are compared by identity, so an entry is its identity. */
  type EntryId = nat

  datatype Sample = Sample(
    start: nat, end: nat,
    duration: nat,
    entry: Option<EntryId>,
    keyframe: bool,
    compositionTimeOffset: Option<int>)

  datatype Track = Track(timescale: nat, bytes: seq<Byte>, entry: Option<EntryId>, samples: seq<Sample>)

  /** The samples from `first` up to, but not including, `last`. */
  datatype Chunk = Chunk(first: nat, last: nat, duration: nat)

  function EntryOf(track: Track, k: nat): Option<EntryId>
    requires k < |track.samples|
  {
    if track.samples[k].entry.Some? then track.samples[k].entry else track.entry
  }

  /** A sample's own entry counts, and where it has none the track's. */
  lemma OwnEntryCounts(track: Track, k: nat, e: EntryId)
    requires k < |track.samples|
    ensures track.samples[k].entry == Some(e) ==> EntryOf(track, k) == Some(e)
    ensures track.samples[k].entry == None ==> EntryOf(track, k) == track.entry
  {
  }

  function Duration(samples: seq<Sample>, i: nat, j: nat): nat
    requires i <= j <= |samples|
  {
    if i == j then 0 else Duration(samples, i, j - 1) + samples[j - 1].duration
  }

  /** A longer stretch of samples lasts at least as long. */
  lemma {:induction false} DurationGrows(samples: seq<Sample>, a: nat, i: nat, j: nat, b: nat)
    requires a <= i <= j <= b <= |samples|
    ensures Duration(samples, i, j) <= Duration(samples, a, b)
    decreases b
  {
    if i < j {
      if j < b {
        DurationGrows(samples, a, i, j, b - 1);
      } else {
        DurationGrows(samples, a, i, j - 1, b - 1);
      }
    }
  }

  // Splits.

  /** Non-empty consecutive runs that cover the samples up to `n`. */
  ghost predicate Tiles(chunks: seq<Chunk>, n: nat) {
    && (|chunks| == 0 <==> n == 0)
    && (forall i :: 0 <= i < |chunks| ==> chunks[i].first < chunks[i].last <= n)
    && (|chunks| > 0 ==> chunks[0].first == 0)
    && (forall i {:trigger chunks[i].first} :: 0 < i < |chunks| ==> chunks[i].first == chunks[i - 1].last)
    && (|chunks| > 0 ==> chunks[|chunks| - 1].last == n)
  }

  ghost predicate SingleEntry(track: Track, c: Chunk)
    requires c.last <= |track.samples|
  {
    forall i :: c.first <= i < c.last ==> EntryOf(track, i) == EntryOf(track, c.first)
  }

  /** What any split for this target has to be. */
  ghost predicate IsSplit(track: Track, target: nat, chunks: seq<Chunk>) {
    && Tiles(chunks, |track.samples|)
    && (forall c <- chunks :: SingleEntry(track, c) && Duration(track.samples, c.first, c.last) <= target)
  }

  /** A chunk ends only where the next sample has another entry, or would not fit any more behind what lasts some
      time already. */
  ghost predicate EndsForAReason(track: Track, target: nat, c: Chunk)
    requires c.first < c.last < |track.samples|
  {
    || EntryOf(track, c.last - 1) != EntryOf(track, c.last)
    || (Duration(track.samples, c.first, c.last) > 0 && Duration(track.samples, c.first, c.last + 1) > target)
  }

  ghost predicate NoSampleExceeds(track: Track, target: nat) {
    forall s <- track.samples :: s.duration <= target
  }

  /** A chunk of one entry that is as long as it says, ends for a reason, and fits if it can. */
  ghost predicate IsGreedyChunk(track: Track, target: nat, c: Chunk) {
    && c.first < c.last <= |track.samples|
    && SingleEntry(track, c)
    && c.duration == Duration(track.samples, c.first, c.last)
    && (c.last < |track.samples| ==> EndsForAReason(track, target, c))
    && (NoSampleExceeds(track, target) ==> c.duration <= target)
  }

  ghost predicate IsGreedy(track: Track, target: nat, chunks: seq<Chunk>) {
    Tiles(chunks, |track.samples|) && forall c <- chunks :: IsGreedyChunk(track, target, c)
  }

  lemma TilesAppend(chunks: seq<Chunk>, n: nat, c: Chunk)
    requires Tiles(chunks, n) && c.first == n < c.last
    ensures Tiles(chunks + [c], c.last)
  {
  }

  lemma NothingIsTiled()
    ensures Tiles([], 0)
  {
  }

  lemma GreedyWhereItEnds(track: Track, target: nat, c: Chunk)
    requires c.first < c.last <= |track.samples| && SingleEntry(track, c)
    requires c.duration == Duration(track.samples, c.first, c.last)
    requires NoSampleExceeds(track, target) ==> c.duration <= target
    requires c.last < |track.samples| ==>
      || EntryOf(track, c.last - 1) != EntryOf(track, c.last)
      || (c.duration > 0 && c.duration + track.samples[c.last].duration > target)
    ensures IsGreedyChunk(track, target, c)
  {
  }

  method SplitIntoSegments(track: Track, target: nat) returns (chunks: seq<Chunk>)
    requires target >= 1
    ensures IsGreedy(track, target, chunks)
  {
    hide IsGreedyChunk, Tiles, EndsForAReason;
    var samples := track.samples;
    NothingIsTiled();
    chunks := [];
    var currentStart, currentDuration, currentLen := 0, 0, 0;
    var currentEntry: Option<EntryId> := None;
    for i := 0 to |samples|
      invariant currentStart + currentLen == i && (i > 0 ==> currentLen > 0)
      invariant Tiles(chunks, currentStart)
      invariant currentDuration == Duration(samples, currentStart, i)
      invariant currentLen > 0 ==> currentEntry == EntryOf(track, i - 1)
      invariant SingleEntry(track, Chunk(currentStart, i, 0))
      invariant NoSampleExceeds(track, target) ==> currentDuration <= target
      invariant forall c <- chunks :: IsGreedyChunk(track, target, c)
    {
      var sample := samples[i];
      var exceedsTarget := currentDuration > 0 && currentDuration + sample.duration > target;
      var sampleEntry := EntryOf(track, i);
      var entryChanged := currentLen > 0 && currentEntry != sampleEntry;
      if currentLen > 0 && (exceedsTarget || entryChanged) {
        var chunk := Chunk(currentStart, currentStart + currentLen, currentDuration);
        TilesAppend(chunks, currentStart, chunk);
        GreedyWhereItEnds(track, target, chunk);
        chunks := chunks + [chunk];
        currentStart := currentStart + currentLen;
        currentLen := 0;
        currentDuration := 0;
      }
      currentDuration := currentDuration + sample.duration;
      currentLen := currentLen + 1;
      currentEntry := sampleEntry;
    }
    if currentLen > 0 {
      var chunk := Chunk(currentStart, currentStart + currentLen, currentDuration);
      TilesAppend(chunks, currentStart, chunk);
      GreedyWhereItEnds(track, target, chunk);
      chunks := chunks + [chunk];
    }
  }

  /** Whenever no single sample is too long, the greedy chunks are a split for the target. */
  lemma GreedyIsASplit(track: Track, target: nat, greedy: seq<Chunk>)
    requires IsGreedy(track, target, greedy) && NoSampleExceeds(track, target)
    ensures IsSplit(track, target, greedy)
  {
  }

  /** A greedy chunk reaches as far as any chunk that starts no later than it. */
  lemma GreedyReachesFurthest(track: Track, target: nat, g: Chunk, o: Chunk)
    requires IsGreedyChunk(track, target, g)
    requires o.first <= g.first && o.first < o.last <= |track.samples|
    requires SingleEntry(track, o) && Duration(track.samples, o.first, o.last) <= target
    ensures o.last <= g.last
  {
    if g.last < o.last {
      DurationGrows(track.samples, o.first, g.first, g.last + 1, o.last);
      assert false;
    }
  }

  lemma NextStarts(chunks: seq<Chunk>, n: nat, i: nat)
    requires Tiles(chunks, n) && 0 < i < |chunks|
    ensures chunks[i].first == chunks[i - 1].last
  {
  }

  /** The greedy split stays ahead: each of its chunks ends no earlier than the same chunk of
      any other split. */
  lemma {:induction false} GreedyStaysAhead(track: Track, target: nat, greedy: seq<Chunk>, other: seq<Chunk>, k: nat)
    requires IsGreedy(track, target, greedy) && IsSplit(track, target, other)
    ensures k < |greedy| && k < |other| ==> other[k].last <= greedy[k].last
  {
    if k < |greedy| && k < |other| {
      if k > 0 {
        GreedyStaysAhead(track, target, greedy, other, k - 1);
        NextStarts(greedy, |track.samples|, k);
        NextStarts(other, |track.samples|, k);
      }
      assert greedy[k] in greedy && other[k] in other;
      GreedyReachesFurthest(track, target, greedy[k], other[k]);
    }
  }

  /** Greedy is optimal: no split into runs of one entry within the target has fewer segments. */
  lemma GreedyIsOptimal(track: Track, target: nat, greedy: seq<Chunk>, other: seq<Chunk>)
    requires IsGreedy(track, target, greedy) && IsSplit(track, target, other)
    ensures |greedy| <= |other|
  {
    if |greedy| > |other| > 0 {
      GreedyStaysAhead(track, target, greedy, other, |other| - 1);
      NextStarts(greedy, |track.samples|, |other|);
      assert false;
    }
  }

  // Writing the segments.

  datatype MuxSample = MuxSample(
    entry: Option<EntryId>, duration: nat, keyframe: bool, compositionTimeOffset: Option<int>,
    dataOffset: nat, dataSize: nat)

  /** A segment file: the sample table given to the muxer, the media bytes, and the duration
      written in the playlist, in seconds. */
  datatype Segment = Segment(table: seq<MuxSample>, payload: seq<Byte>, extInf: real)

  datatype Output = Output(segments: seq<Segment>, targetDuration: nat)

  datatype HlsError = InvalidData

  ghost predicate RangesInBounds(track: Track) {
    forall s <- track.samples :: s.start <= s.end <= |track.bytes|
  }

  function SampleBytes(track: Track, k: nat): seq<Byte>
    requires k < |track.samples| && track.samples[k].start <= track.samples[k].end <= |track.bytes|
  {
    track.bytes[track.samples[k].start..track.samples[k].end]
  }

  ghost function Media(track: Track, i: nat, j: nat): seq<Byte>
    requires i <= j <= |track.samples| && RangesInBounds(track)
  {
    if i == j then [] else Media(track, i, j - 1) + SampleBytes(track, j - 1)
  }

  lemma {:induction false} MediaConcat(track: Track, i: nat, j: nat, k: nat)
    requires i <= j <= k <= |track.samples| && RangesInBounds(track)
    ensures Media(track, i, k) == Media(track, i, j) + Media(track, j, k)
    decreases k
  {
    if j < k {
      MediaConcat(track, i, j, k - 1);
      assert Media(track, i, j) + Media(track, j, k - 1) + SampleBytes(track, k - 1)
        == Media(track, i, j) + (Media(track, j, k - 1) + SampleBytes(track, k - 1));
    }
  }

  ghost function Payloads(segments: seq<Segment>): seq<Byte> {
    if segments == [] then [] else Payloads(segments[..|segments| - 1]) + segments[|segments| - 1].payload
  }

  /** Whole seconds, rounded up. */
  function CeilSeconds(units: nat, timescale: nat): nat
    requires timescale > 0
  {
    (units + timescale - 1) / timescale
  }

  function ExtInf(units: nat, timescale: nat): real
    requires timescale > 0
  {
    var seconds := (units as real) / (timescale as real);
    if seconds < 0.001 then 0.001 else seconds
  }

  ghost predicate DescribesSample(track: Track, k: nat, m: MuxSample, payload: seq<Byte>)
    requires RangesInBounds(track)
  {
    && k < |track.samples|
    && m.duration == track.samples[k].duration && m.keyframe == track.samples[k].keyframe
    && m.compositionTimeOffset == track.samples[k].compositionTimeOffset
    && m.dataOffset + m.dataSize <= |payload|
    && payload[m.dataOffset..m.dataOffset + m.dataSize] == SampleBytes(track, k)
  }

  ghost predicate Locates(track: Track, first: nat, table: seq<MuxSample>, payload: seq<Byte>)
    requires RangesInBounds(track)
  {
    forall k :: 0 <= k < |table| ==> DescribesSample(track, first + k, table[k], payload)
  }

  /** The table locates every sample of the chunk in the payload, names one entry on the first
      sample, and that entry is right for all of them. */
  ghost predicate Describes(track: Track, c: Chunk, s: Segment)
    requires RangesInBounds(track) && track.timescale > 0
  {
    && c.first < c.last <= |track.samples|
    && |s.table| == c.last - c.first
    && s.payload == Media(track, c.first, c.last)
    && s.extInf == ExtInf(Duration(track.samples, c.first, c.last), track.timescale)
    && Locates(track, c.first, s.table, s.payload)
    && s.table[0].entry.Some?
    && (forall k :: c.first <= k < c.last ==> EntryOf(track, k) == s.table[0].entry)
    && (forall k :: 0 < k < |s.table| ==> s.table[k].entry == None)
  }

  lemma LocatesAppend(track: Track, first: nat, table: seq<MuxSample>, payload: seq<Byte>, m: MuxSample)
    requires RangesInBounds(track) && first + |table| < |track.samples|
    requires Locates(track, first, table, payload)
    requires var s := track.samples[first + |table|];
      && m.duration == s.duration && m.keyframe == s.keyframe && m.compositionTimeOffset == s.compositionTimeOffset
      && m.dataOffset == |payload| && m.dataSize == s.end - s.start
    ensures Locates(track, first, table + [m], payload + SampleBytes(track, first + |table|))
  {
    var bytes := SampleBytes(track, first + |table|);
    var longer := payload + bytes;
    forall k | 0 <= k < |table|
      ensures DescribesSample(track, first + k, table[k], longer)
    {
      var n := table[k];
      assert DescribesSample(track, first + k, n, payload);
      assert longer[n.dataOffset..n.dataOffset + n.dataSize] == payload[n.dataOffset..n.dataOffset + n.dataSize];
    }
    assert longer[m.dataOffset..m.dataOffset + m.dataSize] == bytes;
  }

  method WriteSegment(track: Track, c: Chunk) returns (result: Result<Segment, HlsError>)
    requires RangesInBounds(track) && c.first < c.last <= |track.samples| && track.timescale > 0
    requires SingleEntry(track, c) && c.duration == Duration(track.samples, c.first, c.last)
    ensures result.Ok? <==> EntryOf(track, c.first).Some?
    ensures result.Ok? ==> Describes(track, c, result.value)
  {
    var dataOffset := 0;
    var table: seq<MuxSample> := [];
    var payload: seq<Byte> := [];
    for k := c.first to c.last
      invariant |table| == k - c.first && payload == Media(track, c.first, k) && dataOffset == |payload|
      invariant k > c.first ==> table[0].entry == EntryOf(track, c.first) && EntryOf(track, c.first).Some?
      invariant forall i :: 0 < i < |table| ==> table[i].entry == None
      invariant Locates(track, c.first, table, payload)
    {
      var sample := track.samples[k];
      var entry: Option<EntryId> := None;
      if k == c.first {
        if EntryOf(track, k).None? { return Err(InvalidData); }
        entry := EntryOf(track, k);
      }
      var size := sample.end - sample.start;
      var row := MuxSample(entry, sample.duration, sample.keyframe, sample.compositionTimeOffset, dataOffset, size);
      LocatesAppend(track, c.first, table, payload, row);
      table := table + [row];
      payload := payload + SampleBytes(track, k);
      dataOffset := dataOffset + size;
    }
    return Ok(Segment(table, payload, ExtInf(c.duration, track.timescale)));
  }

  /** The segments describe the chunks one by one, lose no byte, and none is longer than the
      playlist's target once rounded up to whole seconds. */
  ghost predicate Written(track: Track, chunks: seq<Chunk>, segments: seq<Segment>, n: nat, targetDuration: nat)
    requires RangesInBounds(track) && track.timescale > 0
  {
    && n <= |track.samples| && Tiles(chunks, n) && |segments| == |chunks|
    && Payloads(segments) == Media(track, 0, n)
    && (forall k :: 0 <= k < n ==> EntryOf(track, k).Some?)
    && (forall i :: 0 <= i < |chunks| ==> Describes(track, chunks[i], segments[i]))
    && (forall c <- chunks :: c.last <= |track.samples|
          && CeilSeconds(Duration(track.samples, c.first, c.last), track.timescale) <= targetDuration)
  }

  /** Some chunk is so long that no smaller target would do. */
  ghost predicate Reached(track: Track, chunks: seq<Chunk>, targetDuration: nat)
    requires track.timescale > 0
  {
    exists c <- chunks :: c.first <= c.last <= |track.samples|
      && CeilSeconds(Duration(track.samples, c.first, c.last), track.timescale) == targetDuration
  }

  lemma ReachedAppend(track: Track, chunks: seq<Chunk>, targetDuration: nat, c: Chunk, longer: nat)
    requires track.timescale > 0 && c.first <= c.last <= |track.samples|
    requires if chunks == [] then targetDuration == 0 else Reached(track, chunks, targetDuration)
    requires var seconds := CeilSeconds(Duration(track.samples, c.first, c.last), track.timescale);
      longer == if seconds > targetDuration then seconds else targetDuration
    ensures Reached(track, chunks + [c], longer)
  {
    hide CeilSeconds;
    var seconds := CeilSeconds(Duration(track.samples, c.first, c.last), track.timescale);
    assert c in chunks + [c];
    if seconds <= targetDuration && chunks != [] {
      var d :| d in chunks && d.first <= d.last <= |track.samples|
        && CeilSeconds(Duration(track.samples, d.first, d.last), track.timescale) == targetDuration;
      assert d in chunks + [c];
    }
  }

  lemma WrittenAppend(
    track: Track, chunks: seq<Chunk>, segments: seq<Segment>, n: nat, targetDuration: nat, c: Chunk, s: Segment, longer: nat)
    requires RangesInBounds(track) && track.timescale > 0
    requires Written(track, chunks, segments, n, targetDuration) && Describes(track, c, s) && c.first == n
    requires longer >= targetDuration
    requires longer >= CeilSeconds(Duration(track.samples, c.first, c.last), track.timescale)
    ensures Written(track, chunks + [c], segments + [s], c.last, longer)
  {
    TilesAppend(chunks, n, c);
    MediaConcat(track, 0, n, c.last);
    assert (segments + [s])[..|segments|] == segments;
  }

  method WriteHlsOutput(track: Track, target: nat) returns (result: Result<Output, HlsError>)
    requires target >= 1 && track.timescale > 0 && RangesInBounds(track)
    ensures result.Ok? <==> track.samples != [] && forall k :: 0 <= k < |track.samples| ==> EntryOf(track, k).Some?
    ensures result.Ok? ==> (exists chunks ::
      && IsGreedy(track, target, chunks)
      && Written(track, chunks, result.value.segments, |track.samples|, result.value.targetDuration)
      && Reached(track, chunks, result.value.targetDuration))
  {
    var chunks := SplitIntoSegments(track, target);
    if chunks == [] { return Err(InvalidData); }
    result := WriteSegments(track, target, chunks);
  }

  method WriteSegments(track: Track, ghost target: nat, chunks: seq<Chunk>) returns (result: Result<Output, HlsError>)
    requires track.timescale > 0 && RangesInBounds(track) && IsGreedy(track, target, chunks)
    ensures result.Err? ==> exists k :: 0 <= k < |track.samples| && EntryOf(track, k).None?
    ensures result.Ok? ==>
      && Written(track, chunks, result.value.segments, |track.samples|, result.value.targetDuration)
      && (chunks != [] ==> Reached(track, chunks, result.value.targetDuration))
  {
    hide IsGreedy, Describes, Written, CeilSeconds, Reached;
    NothingWritten(track);
    var segments: seq<Segment> := [];
    var targetDuration := 0;
    ghost var written := 0;
    for i := 0 to |chunks|
      invariant written == EndOf(chunks, i)
      invariant Written(track, chunks[..i], segments, written, targetDuration)
      invariant if i == 0 then targetDuration == 0 else Reached(track, chunks[..i], targetDuration)
    {
      GreedyChunkAt(track, target, chunks, i);
      var segment := WriteSegment(track, chunks[i]);
      if segment.Err? { return Err(InvalidData); }
      var seconds := CeilSeconds(chunks[i].duration, track.timescale);
      var longer := if seconds > targetDuration then seconds else targetDuration;
      WrittenAppend(track, chunks[..i], segments, written, targetDuration, chunks[i], segment.value, longer);
      ReachedAppend(track, chunks[..i], targetDuration, chunks[i], longer);
      assert chunks[..i + 1] == chunks[..i] + [chunks[i]];
      segments, targetDuration := segments + [segment.value], longer;
      written := chunks[i].last;
    }
    assert chunks[..|chunks|] == chunks;
    GreedyEnds(track, target, chunks);
    return Ok(Output(segments, targetDuration));
  }

  ghost function EndOf(chunks: seq<Chunk>, i: nat): nat
    requires i <= |chunks|
  {
    if i == 0 then 0 else chunks[i - 1].last
  }

  lemma NothingWritten(track: Track)
    requires track.timescale > 0 && RangesInBounds(track)
    ensures Written(track, [], [], 0, 0)
  {
  }

  lemma GreedyEnds(track: Track, target: nat, chunks: seq<Chunk>)
    requires IsGreedy(track, target, chunks)
    ensures EndOf(chunks, |chunks|) == |track.samples|
  {
  }

  lemma GreedyChunkAt(track: Track, target: nat, chunks: seq<Chunk>, i: nat)
    requires IsGreedy(track, target, chunks) && i < |chunks|
    ensures IsGreedyChunk(track, target, chunks[i]) && chunks[i].first == EndOf(chunks, i)
  {
  }

  /** The playlist rule of section 4.3.3.1 of RFC 8216: a segment duration, rounded to the nearest
      second, is within the target whenever its rounded-up length is, even where the playlist
      shows a millisecond for an empty segment. */
  lemma RoundedDurationWithinTarget(units: nat, timescale: nat, target: nat)
    requires timescale > 0 && CeilSeconds(units, timescale) <= target
    ensures (ExtInf(units, timescale) + 0.5).Floor <= target
  {
    var up := CeilSeconds(units, timescale);
    assert units <= up * timescale by { CeilBounds(units, timescale); }
    assert (units as real) <= (up as real) * (timescale as real) by {
      assert (up * timescale) as real == (up as real) * (timescale as real);
    }
    assert (units as real) / (timescale as real) <= up as real;
  }

  lemma CeilBounds(units: nat, timescale: nat)
    requires timescale > 0
    ensures units <= CeilSeconds(units, timescale) * timescale
  {
    var n := units + timescale - 1;
    assert n == (n / timescale) * timescale + n % timescale;
  }

  /** Rounded up means the least number of whole seconds that is enough. */
  lemma CeilSecondsIsLeast(units: nat, timescale: nat, seconds: nat)
    requires timescale > 0
    ensures CeilSeconds(units, timescale) <= seconds <==> units <= seconds * timescale
  {
    var up := CeilSeconds(units, timescale);
    var n := units + timescale - 1;
    assert n == up * timescale + n % timescale;
    if up <= seconds {
      assert up * timescale <= seconds * timescale;
    } else {
      assert (seconds + 1) * timescale <= up * timescale;
    }
  }

  /** The playlist shows the duration itself, or a millisecond for anything shorter than that. */
  lemma ExtInfShowsTheDuration(units: nat, timescale: nat)
    requires timescale > 0
    ensures 1000 * units >= timescale ==> ExtInf(units, timescale) * (timescale as real) == units as real
    ensures 1000 * units < timescale ==> ExtInf(units, timescale) == 0.001
  {
    AThousandth(units as real, timescale as real);
    assert (1000 * units) as real == 1000.0 * (units as real);
  }

  lemma AThousandth(units: real, timescale: real)
    requires timescale > 0.0
    ensures units / timescale * timescale == units
    ensures units / timescale < 0.001 <==> 1000.0 * units < timescale
  {
    var seconds := units / timescale;
    ThousandTimes(seconds, timescale);
    assert seconds * timescale == units;
  }

  lemma ThousandTimes(seconds: real, timescale: real)
    requires timescale > 0.0
    ensures seconds < 0.001 <==> 1000.0 * (seconds * timescale) < timescale
  {
    assert 1000.0 * (seconds * timescale) - timescale == (1000.0 * seconds - 1.0) * timescale;
  }
}
