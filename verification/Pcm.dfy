/** Uncompressed audio: cut into chunks as it is, or encoded packet by packet. */
module Pcm {
  import opened Wrappers
  import opened Bytes
  import Segmenter

  // Division, by what it leaves.

  function Times(d: nat, q: nat): nat { d * q }

  function CeilDiv(n: nat, d: nat): nat
    requires d > 0
  {
    (n + d - 1) / d
  }

  lemma Distribute(d: nat, p: nat, q: nat)
    ensures Times(d, p + q) == Times(d, p) + Times(d, q)
    ensures Times(d, 0) == 0 && Times(d, 1) == d
  {
  }

  lemma {:induction false} TimesGrows(d: nat, q: nat, p: nat)
    requires q < p
    ensures Times(d, q) + d <= Times(d, p)
  {
    hide Times;
    Distribute(d, p - 1, 1);
    if q < p - 1 {
      TimesGrows(d, q, p - 1);
    }
  }

  lemma Quotient(n: nat, d: nat)
    requires d > 0
    ensures n == Times(d, n / d) + n % d && n % d < d
  {
  }

  lemma QuotientIsUnique(n: nat, d: nat, q: nat, r: nat)
    requires r < d && n == Times(d, q) + r
    ensures n / d == q && n % d == r
  {
    var p := n / d;
    Quotient(n, d);
    if q < p {
      TimesGrows(d, q, p);
    }
    if p < q {
      TimesGrows(d, p, q);
    }
  }

  lemma CeilOf(d: nat, q: nat, r: nat)
    requires r < d
    ensures CeilDiv(Times(d, q) + r, d) == q + if r > 0 then 1 else 0
  {
    hide Times;
    var n := Times(d, q) + r + d - 1;
    if r > 0 {
      Distribute(d, q, 1);
      QuotientIsUnique(n, d, q + 1, r - 1);
    } else {
      QuotientIsUnique(n, d, q, d - 1);
    }
  }

  // Chunks.

  ghost predicate Consecutive(samples: seq<Segmenter.Sample>, start: nat, end: nat) {
    && (forall i :: 0 <= i < |samples| ==> start <= samples[i].start < samples[i].end <= end)
    && (|samples| > 0 ==> samples[0].start == start)
    && (forall i {:trigger samples[i].start} :: 0 < i < |samples| ==> samples[i].start == samples[i - 1].end)
    && (|samples| > 0 ==> samples[|samples| - 1].end == end)
    && (|samples| == 0 ==> start == end)
  }

  /** Whole frames, as many as its duration says. */
  predicate Aligned(s: Segmenter.Sample, frameSize: nat) {
    s.start <= s.end && s.end - s.start == Times(frameSize, s.duration) && s.duration >= 1
  }

  ghost predicate AlignedFrom(samples: seq<Segmenter.Sample>, frameSize: nat, n: nat) {
    forall i :: 0 <= i < |samples| && i < n ==> Aligned(samples[i], frameSize)
  }

  lemma ChunkAppends(samples: seq<Segmenter.Sample>, s: Segmenter.Sample, start: nat, middle: nat)
    requires Consecutive(samples, start, middle) && s.start == middle < s.end
    ensures Consecutive(samples + [s], start, s.end)
    ensures Segmenter.Duration(samples + [s], 0, |samples| + 1) == Segmenter.Duration(samples, 0, |samples|) + s.duration
  {
    DurationOfPrefix(samples, s, |samples|);
    StillConsecutive(samples, s, start, middle);
    hide Consecutive;
    assert (samples + [s])[|samples|] == s;
  }

  lemma StillConsecutive(samples: seq<Segmenter.Sample>, s: Segmenter.Sample, start: nat, middle: nat)
    requires Consecutive(samples, start, middle) && s.start == middle < s.end
    ensures Consecutive(samples + [s], start, s.end)
  {
    hide Segmenter.Duration;
    var more := samples + [s];
    assert forall i :: 0 <= i < |samples| ==> more[i] == samples[i];
    forall i | 0 < i < |more|
      ensures more[i].start == more[i - 1].end
    {
      if i < |samples| {
        assert samples[i].start == samples[i - 1].end;
      }
    }
  }

  lemma {:induction false} DurationOfPrefix(samples: seq<Segmenter.Sample>, s: Segmenter.Sample, n: nat)
    requires n <= |samples|
    ensures Segmenter.Duration(samples + [s], 0, n) == Segmenter.Duration(samples, 0, n)
  {
    if n > 0 {
      DurationOfPrefix(samples, s, n - 1);
    }
  }

  /** Rounding down to whole frames, at most `limit` of them. */
  lemma AlignDown(offset: nat, end: nat, frameSize: nat, limit: nat, nextEnd: nat) returns (frames: nat)
    requires offset < end && frameSize > 0 && limit > 0
    requires nextEnd == if offset + Times(frameSize, limit) <= end then offset + Times(frameSize, limit) else end
    ensures frames <= limit
    ensures 0 <= (nextEnd - offset) % frameSize <= nextEnd - offset
    ensures nextEnd - (nextEnd - offset) % frameSize == offset + Times(frameSize, frames) <= end
    ensures frames < limit ==> end - (offset + Times(frameSize, frames)) < frameSize
    ensures frames == 0 <==> Times(frameSize, frames) == 0
  {
    hide Times;
    frames := (nextEnd - offset) / frameSize;
    Quotient(nextEnd - offset, frameSize);
    Distribute(frameSize, 0, 0);
    if frames > 0 {
      TimesGrows(frameSize, 0, frames);
    }
    if offset + Times(frameSize, limit) <= end {
      QuotientIsUnique(nextEnd - offset, frameSize, limit, 0);
    } else if limit < frames {
      TimesGrows(frameSize, limit, frames);
    }
  }

  /** Where the chunk from `offset` ends: after whole frames, or with the data if not even one is left. */
  method NextChunk(offset: nat, end: nat, frameSize: nat, limit: nat) returns (chunkEnd: nat, frameCount: nat)
    requires offset < end && frameSize > 0 && limit > 0
    ensures offset < chunkEnd <= end && 1 <= frameCount <= limit
    ensures
      || chunkEnd - offset == Times(frameSize, frameCount)
      || (chunkEnd == end && end - offset < frameSize && frameCount == 1)
    ensures frameCount < limit ==> end - chunkEnd < frameSize
  {
    hide Times;
    var chunkSize := Times(frameSize, limit);
    var nextEnd := if offset + chunkSize <= end then offset + chunkSize else end;
    ghost var frames := AlignDown(offset, end, frameSize, limit, nextEnd);
    var alignedEnd := nextEnd - (nextEnd - offset) % frameSize;
    chunkEnd := if alignedEnd == offset then end else alignedEnd;
    Distribute(frameSize, 0, 0);
    QuotientIsUnique(chunkEnd - offset, frameSize, frames, if frames == 0 then end - offset else 0);
    frameCount := (chunkEnd - offset) / frameSize;
    if frameCount == 0 {
      frameCount := 1;
    }
  }

  /** How far the chunks reach: whole frames, and at most one broken frame of `broken` bytes at the end. */
  ghost predicate Reach(samples: seq<Segmenter.Sample>, start: nat, offset: nat, end: nat, frameSize: nat,
    frames: nat, broken: nat)
  {
    && start <= offset <= end && broken < frameSize
    && Consecutive(samples, start, offset)
    && (broken > 0 ==> offset == end && |samples| > 0)
    && AlignedFrom(samples, frameSize, if broken > 0 then |samples| - 1 else |samples|)
    && offset - start == Times(frameSize, frames) + broken
    && Segmenter.Duration(samples, 0, |samples|) == frames + if broken > 0 then 1 else 0
  }

  /** No range is longer than a chunk, and only where less than a frame is left is one shorter. */
  ghost predicate Filled(samples: seq<Segmenter.Sample>, end: nat, frameSize: nat, limit: nat) {
    forall s <- samples ::
      && s.start <= s.end <= end && s.end - s.start <= Times(frameSize, limit)
      && (s.end - s.start < Times(frameSize, limit) ==> end - s.end < frameSize)
  }

  /** Frames in a chunk: a segment's worth, but at least one. */
  function ChunkFrames(sampleRate: nat, segmentSecs: nat): (limit: nat)
    ensures limit > 0
  {
    var frames := sampleRate * (if segmentSecs == 0 then 1 else segmentSecs);
    if frames == 0 then 1 else frames
  }

  lemma ChunkFills(start: nat, chunkEnd: nat, end: nat, frameSize: nat, frameCount: nat, limit: nat)
    requires start < chunkEnd <= end && 1 <= frameCount <= limit && frameSize > 0
    requires chunkEnd - start == Times(frameSize, frameCount) || (chunkEnd == end && end - start < frameSize)
    requires frameCount < limit ==> end - chunkEnd < frameSize
    ensures chunkEnd - start <= Times(frameSize, limit)
    ensures chunkEnd - start < Times(frameSize, limit) ==> end - chunkEnd < frameSize
  {
    hide Times;
    Distribute(frameSize, 0, 0);
    TimesGrows(frameSize, 0, limit);
    if frameCount < limit {
      TimesGrows(frameSize, frameCount, limit);
    }
  }

  lemma ReachOneMore(samples: seq<Segmenter.Sample>, s: Segmenter.Sample, start: nat, offset: nat, end: nat, frameSize: nat,
      frames: nat) returns (more: nat, broken: nat)
    requires Reach(samples, start, offset, end, frameSize, frames, 0)
    requires s.start == offset < s.end <= end && s.duration >= 1
    requires s.end - offset == Times(frameSize, s.duration) || (s.end == end && end - offset < frameSize && s.duration == 1)
    ensures Reach(samples + [s], start, s.end, end, frameSize, more, broken)
  {
    hide Times, Consecutive;
    ChunkAppends(samples, s, start, offset);
    if s.end - offset == Times(frameSize, s.duration) {
      more, broken := frames + s.duration, 0;
      Distribute(frameSize, frames, s.duration);
    } else {
      more, broken := frames, end - offset;
    }
  }

  /** Consecutive ranges over all the data, all but the last of whole frames; their durations are the
      number of frames, a broken one at the end included. */
  method PcmChunks(start: nat, end: nat, frameSize: nat, sampleRate: nat, segmentSecs: nat, entry: Option<Segmenter.EntryId>)
    returns (samples: seq<Segmenter.Sample>)
    requires start <= end && frameSize > 0
    ensures Consecutive(samples, start, end)
    ensures AlignedFrom(samples, frameSize, if (end - start) % frameSize == 0 then |samples| else |samples| - 1)
    ensures Segmenter.Duration(samples, 0, |samples|) == CeilDiv(end - start, frameSize)
    ensures Filled(samples, end, frameSize, ChunkFrames(sampleRate, segmentSecs))
    ensures forall s <- samples :: s.entry == entry && s.keyframe && s.compositionTimeOffset == None
  {
    hide CeilDiv, Consecutive, Times, ChunkFrames;
    var limit := ChunkFrames(sampleRate, segmentSecs);
    samples := [];
    var offset := start;
    ghost var frames, broken := 0, 0;
    NothingReached(start, end, frameSize);
    while offset < end
      invariant offset <= end
      invariant Reach(samples, start, offset, end, frameSize, frames, broken)
      invariant Filled(samples, end, frameSize, limit)
      invariant forall s <- samples :: s.entry == entry && s.keyframe && s.compositionTimeOffset == None
      decreases end - offset
    {
      var chunkEnd, frameCount := NextChunk(offset, end, frameSize, limit);
      ChunkFills(offset, chunkEnd, end, frameSize, frameCount, limit);
      var s := Segmenter.Sample(offset, chunkEnd, frameCount, entry, true, None);
      frames, broken := ReachOneMore(samples, s, start, offset, end, frameSize, frames);
      samples := samples + [s];
      offset := chunkEnd;
    }
    CeilOf(frameSize, frames, broken);
    QuotientIsUnique(end - start, frameSize, frames, broken);
  }

  lemma NothingReached(start: nat, end: nat, frameSize: nat)
    requires start <= end && frameSize > 0
    ensures Reach([], start, start, end, frameSize, 0, 0)
  {
  }

  // Samples for the ALAC encoder.

  datatype PcmError = UnsupportedBitDepth | EmptyFrame | NotAligned | NoPackets

  function BytesPerSample(bitDepth: nat): Result<nat, PcmError> {
    if bitDepth == 16 then Ok(2)
    else if bitDepth == 20 || bitDepth == 24 then Ok(3)
    else if bitDepth == 32 then Ok(4)
    else Err(UnsupportedBitDepth)
  }

  function Reversed(s: seq<Byte>): (r: seq<Byte>)
    ensures |r| == |s|
    ensures forall i :: 0 <= i < |s| ==> r[i] == s[|s| - 1 - i]
  {
    seq(|s|, i requires 0 <= i < |s| => s[|s| - 1 - i])
  }

  /** Every group of n bytes reversed; bytes that do not fill a group are dropped. */
  function SwapSamples(s: seq<Byte>, n: nat): seq<Byte>
    requires n > 0
    decreases |s|
  {
    if |s| < n then [] else Reversed(s[..n]) + SwapSamples(s[n..], n)
  }

  /** Whole groups of n bytes. */
  predicate Whole(s: seq<Byte>, n: nat)
    requires n > 0
    decreases |s|
  {
    s == [] || (|s| >= n && Whole(s[n..], n))
  }

  lemma {:induction false} WholeExactly(s: seq<Byte>, n: nat)
    requires n > 0
    ensures Whole(s, n) <==> |s| % n == 0
    decreases |s|
  {
    if |s| >= n {
      WholeExactly(s[n..], n);
      Quotient(|s| - n, n);
      Distribute(n, (|s| - n) / n, 1);
      QuotientIsUnique(|s|, n, (|s| - n) / n + 1, (|s| - n) % n);
    } else {
      Distribute(n, 0, 0);
      QuotientIsUnique(|s|, n, 0, |s|);
    }
  }

  /** Swapping whole samples twice changes nothing. */
  lemma {:induction false} SwapTwice(s: seq<Byte>, n: nat)
    requires n > 0 && |s| % n == 0
    ensures SwapSamples(SwapSamples(s, n), n) == s
    decreases |s|
  {
    WholeExactly(s, n);
    if s != [] {
      var first, rest := s[..n], s[n..];
      WholeExactly(rest, n);
      SwapTwice(rest, n);
      var swapped := Reversed(first) + SwapSamples(rest, n);
      assert SwapSamples(s, n) == swapped;
      assert swapped[..n] == Reversed(first) && swapped[n..] == SwapSamples(rest, n);
      assert Reversed(Reversed(first)) == first;
      assert s == first + rest;
    }
  }

  // What the bytes say.

  function BigEndianValue(s: seq<Byte>): nat {
    if s == [] then 0 else 0x100 * BigEndianValue(s[..|s| - 1]) + (s[|s| - 1] as int)
  }

  function LittleEndianValue(s: seq<Byte>): nat {
    if s == [] then 0 else (s[0] as int) + 0x100 * LittleEndianValue(s[1..])
  }

  function ValueIn(s: seq<Byte>, bigEndian: bool): nat {
    if bigEndian then BigEndianValue(s) else LittleEndianValue(s)
  }

  lemma {:induction false} ReversedValue(s: seq<Byte>)
    ensures LittleEndianValue(Reversed(s)) == BigEndianValue(s)
    ensures BigEndianValue(Reversed(s)) == LittleEndianValue(s)
    decreases |s|
  {
    if s != [] {
      var n := |s| - 1;
      assert Reversed(s)[1..] == Reversed(s[..n]) && Reversed(s)[..n] == Reversed(s[1..]);
      ReversedValue(s[..n]);
      ReversedValue(s[1..]);
    }
  }

  /** The values of the whole samples, in order. */
  function SampleValues(s: seq<Byte>, n: nat, bigEndian: bool): seq<nat>
    requires n > 0
    decreases |s|
  {
    if |s| < n then [] else [ValueIn(s[..n], bigEndian)] + SampleValues(s[n..], n, bigEndian)
  }

  lemma {:induction false} SwapKeepsValues(s: seq<Byte>, n: nat, bigEndian: bool)
    requires n > 0
    ensures SampleValues(SwapSamples(s, n), n, !bigEndian) == SampleValues(s, n, bigEndian)
    decreases |s|
  {
    if |s| >= n {
      var first, rest := s[..n], s[n..];
      SwapKeepsValues(rest, n, bigEndian);
      ReversedValue(first);
      var swapped := Reversed(first) + SwapSamples(rest, n);
      assert swapped[..n] == Reversed(first) && swapped[n..] == SwapSamples(rest, n);
    }
  }

  /** The encoder takes 20- and 24-bit samples big-endian, and the others little-endian. */
  function EncoderIsBigEndian(bitDepth: nat): bool { bitDepth == 20 || bitDepth == 24 }

  lemma SwapStep(s: seq<Byte>, n: nat)
    requires 0 < n <= |s|
    ensures SwapSamples(s, n) == Reversed(s[..n]) + SwapSamples(s[n..], n)
  {
  }

  lemma SwapEnds(s: seq<Byte>, n: nat)
    requires |s| < n
    ensures SwapSamples(s, n) == []
  {
  }

  method AppendReversed(bytes: seq<Byte>, sample: seq<Byte>) returns (r: seq<Byte>)
    ensures r == bytes + Reversed(sample)
  {
    r := bytes;
    var n := |sample|;
    for i := 0 to n
      invariant r == bytes + Reversed(sample)[..i]
    {
      r := r + [sample[n - 1 - i]];
    }
    assert Reversed(sample)[..n] == Reversed(sample);
  }

  method PcmToAlacBytes(pcm: seq<Byte>, bitDepth: nat, sourceBigEndian: bool) returns (r: Result<seq<Byte>, PcmError>)
    ensures BytesPerSample(bitDepth).Err? ==> r == Err(UnsupportedBitDepth)
    ensures BytesPerSample(bitDepth).Ok? ==>
      && var n := BytesPerSample(bitDepth).value;
      && r.Ok? && (|pcm| % n == 0 ==> |r.value| == |pcm|)
      && SampleValues(r.value, n, EncoderIsBigEndian(bitDepth)) == SampleValues(pcm, n, sourceBigEndian)
  {
    hide SampleValues, Times, SwapSamples, Reversed;
    var size := BytesPerSample(bitDepth);
    if size.Err? {
      return Err(size.error);
    }
    var n := size.value;
    if sourceBigEndian == EncoderIsBigEndian(bitDepth) {
      return Ok(pcm);
    }
    var converted, left := [], pcm;
    while |left| >= n
      invariant converted + SwapSamples(left, n) == SwapSamples(pcm, n)
      decreases |left|
    {
      SwapStep(left, n);
      ghost var before := converted;
      converted := AppendReversed(converted, left[..n]);
      assert before + SwapSamples(left, n) == converted + SwapSamples(left[n..], n);
      left := left[n..];
    }
    SwapEnds(left, n);
    assert converted == SwapSamples(pcm, n);
    SwapKeepsValues(pcm, n, sourceBigEndian);
    SwapKeepsLength(pcm, n);
    return Ok(converted);
  }

  lemma {:induction false} SwapKeepsLength(s: seq<Byte>, n: nat)
    requires n > 0
    ensures |s| % n == 0 ==> |SwapSamples(s, n)| == |s|
    decreases |s|
  {
    WholeExactly(s, n);
    if |s| >= n {
      WholeExactly(s[n..], n);
      SwapKeepsLength(s[n..], n);
    }
  }

  // Encoding.

  /** What the encoder makes of the k-th packet's samples. */
  type Encoder = (nat, seq<Byte>) -> seq<Byte>

  /** The packets that `size` bytes at a time are encoded to. */
  function Packets(pcm: seq<Byte>, size: nat, k: nat, encode: Encoder): seq<seq<Byte>>
    requires size > 0
    decreases |pcm|
  {
    if pcm == [] then []
    else if |pcm| <= size then [encode(k, pcm)]
    else [encode(k, pcm[..size])] + Packets(pcm[size..], size, k + 1, encode)
  }

  ghost predicate PacketAt(s: Segmenter.Sample, payload: seq<Byte>, packet: seq<Byte>) {
    s.start <= s.end <= |payload| && payload[s.start..s.end] == packet
  }

  function EndBefore(samples: seq<Segmenter.Sample>, n: nat): nat
    requires n <= |samples|
  {
    if n == 0 then 0 else samples[n - 1].end
  }

  /** The samples index the payload packet by packet, with nothing between the packets or after them. */
  ghost predicate Indexes(samples: seq<Segmenter.Sample>, payload: seq<Byte>, packets: seq<seq<Byte>>) {
    && |samples| == |packets|
    && (forall i :: 0 <= i < |samples| ==> PacketAt(samples[i], payload, packets[i]))
    && (forall i {:trigger samples[i].start} :: 0 <= i < |samples| ==> samples[i].start == EndBefore(samples, i))
    && |payload| == EndBefore(samples, |samples|)
  }

  lemma PacketStays(s: Segmenter.Sample, payload: seq<Byte>, packet: seq<Byte>, more: seq<Byte>)
    requires PacketAt(s, payload, packet)
    ensures PacketAt(s, payload + more, packet)
  {
    assert (payload + more)[s.start..s.end] == payload[s.start..s.end];
  }

  lemma PacketAppended(s: Segmenter.Sample, payload: seq<Byte>, packet: seq<Byte>)
    requires s.start == |payload| && s.end == |payload| + |packet|
    ensures PacketAt(s, payload + packet, packet)
  {
  }

  lemma IndexOneMore(samples: seq<Segmenter.Sample>, payload: seq<Byte>, packets: seq<seq<Byte>>, packet: seq<Byte>,
      s: Segmenter.Sample)
    requires Indexes(samples, payload, packets)
    requires s.start == |payload| && s.end == |payload| + |packet|
    ensures Indexes(samples + [s], payload + packet, packets + [packet])
  {
    hide PacketAt;
    var more := samples + [s];
    PacketAppended(s, payload, packet);
    forall i | 0 <= i < |samples|
      ensures PacketAt(more[i], payload + packet, (packets + [packet])[i])
    {
      PacketStays(samples[i], payload, packets[i], packet);
    }
    forall i | 0 <= i < |more|
      ensures more[i].start == EndBefore(more, i)
    {
      if i < |samples| {
        assert samples[i].start == EndBefore(samples, i);
      }
    }
  }

  /** The next packet holds whole frames, and so does what is left. */
  lemma TakePacket(left: seq<Byte>, frameSize: nat, framesPerPacket: nat) returns (frames: nat)
    requires frameSize > 0 && framesPerPacket > 0 && left != [] && |left| % frameSize == 0
    ensures var size := Times(frameSize, framesPerPacket); var n := if |left| <= size then |left| else size;
      && 0 < n == Times(frameSize, frames) && n / frameSize == frames && frames > 0
      && (|left| - n) % frameSize == 0
  {
    hide Times;
    var size := Times(frameSize, framesPerPacket);
    var all := |left| / frameSize;
    Quotient(|left|, frameSize);
    Distribute(frameSize, 0, 0);
    TimesGrows(frameSize, 0, framesPerPacket);
    if |left| <= size {
      frames := all;
      QuotientIsUnique(0, frameSize, 0, 0);
    } else {
      frames := framesPerPacket;
      QuotientIsUnique(size, frameSize, framesPerPacket, 0);
      if all <= framesPerPacket && all < framesPerPacket {
        TimesGrows(frameSize, all, framesPerPacket);
      }
      Distribute(frameSize, framesPerPacket, all - framesPerPacket);
      QuotientIsUnique(|left| - size, frameSize, all - framesPerPacket, 0);
    }
  }

  lemma PacketsStep(left: seq<Byte>, size: nat, k: nat, encode: Encoder, chunk: seq<Byte>)
    requires size > 0 && left != [] && chunk == if |left| <= size then left else left[..size]
    ensures Packets(left, size, k, encode) == [encode(k, chunk)] + Packets(left[|chunk|..], size, k + 1, encode)
  {
    if |left| <= size {
      assert Packets(left[|chunk|..], size, k + 1, encode) == [];
    }
  }

  /** Every packet's bytes in order, samples that index them, and durations that add up to the number of frames. */
  method EncodePackets(pcm: seq<Byte>, frameSize: nat, framesPerPacket: nat, encode: Encoder)
    returns (payload: seq<Byte>, samples: seq<Segmenter.Sample>)
    requires frameSize > 0 && framesPerPacket > 0 && |pcm| % frameSize == 0
    ensures Times(frameSize, framesPerPacket) > 0
    ensures Indexes(samples, payload, Packets(pcm, Times(frameSize, framesPerPacket), 0, encode))
    ensures Times(frameSize, Segmenter.Duration(samples, 0, |samples|)) == |pcm|
    ensures samples == [] <==> pcm == []
    ensures forall s <- samples :: s.entry == None && s.keyframe && s.compositionTimeOffset == None
  {
    hide Times, Indexes, Packets;
    Distribute(frameSize, 0, 0);
    TimesGrows(frameSize, 0, framesPerPacket);
    var chunkBytes := Times(frameSize, framesPerPacket);
    payload, samples := [], [];
    var left, k := pcm, 0;
    ghost var packets: seq<seq<Byte>> := [];
    NothingIsIndexed();
    assert packets + Packets(pcm, chunkBytes, 0, encode) == Packets(pcm, chunkBytes, 0, encode);
    while left != []
      invariant |left| % frameSize == 0
      invariant if samples == [] then left == pcm else |left| < |pcm|
      invariant packets + Packets(left, chunkBytes, k, encode) == Packets(pcm, chunkBytes, 0, encode)
      invariant Indexes(samples, payload, packets)
      invariant forall s <- samples :: s.entry == None && s.keyframe && s.compositionTimeOffset == None
      invariant Times(frameSize, Segmenter.Duration(samples, 0, |samples|)) + |left| == |pcm|
      decreases |left|
    {
      ghost var frames := TakePacket(left, frameSize, framesPerPacket);
      var chunk := if |left| <= chunkBytes then left else left[..chunkBytes];
      var frameCount := |chunk| / frameSize;
      var start := |payload|;
      var packet := encode(k, chunk);
      PacketsStep(left, chunkBytes, k, encode, chunk);
      assert packets + ([packet] + Packets(left[|chunk|..], chunkBytes, k + 1, encode))
        == packets + [packet] + Packets(left[|chunk|..], chunkBytes, k + 1, encode);
      var sample := Segmenter.Sample(start, start + |packet|, frameCount, None, true, None);
      IndexOneMore(samples, payload, packets, packet, sample);
      DurationOfPrefix(samples, sample, |samples|);
      Distribute(frameSize, Segmenter.Duration(samples, 0, |samples|), frameCount);
      payload, samples, packets := payload + packet, samples + [sample], packets + [packet];
      left, k := left[|chunk|..], k + 1;
    }
    NoPacketsLeft(chunkBytes, k, encode);
    assert packets + [] == packets;
  }

  lemma NoPacketsLeft(size: nat, k: nat, encode: Encoder)
    requires size > 0
    ensures Packets([], size, k, encode) == []
  {
  }

  lemma NothingIsIndexed()
    ensures Indexes([], [], [])
  {
  }

  datatype AlacTrack = AlacTrack(payload: seq<Byte>, samples: seq<Segmenter.Sample>)

  lemma Regroup(a: nat, b: nat, q: nat)
    ensures Times(Times(a, b), q) == Times(a, Times(b, q))
  {
  }

  lemma WholeFramesAreWholeSamples(n: nat, sampleSize: nat, channels: nat)
    requires sampleSize > 0 && Times(sampleSize, channels) > 0 && n % Times(sampleSize, channels) == 0
    ensures n % sampleSize == 0
  {
    hide Times;
    var frames := n / Times(sampleSize, channels);
    Quotient(n, Times(sampleSize, channels));
    Regroup(sampleSize, channels, frames);
    QuotientIsUnique(n, sampleSize, Times(channels, frames), 0);
  }

  /** The track holds the packets of input that says the same as `pcm`, and lasts as many frames. */
  ghost predicate Encodes(t: AlacTrack, pcm: seq<Byte>, input: seq<Byte>, sampleSize: nat, channels: nat, bitDepth: nat,
    sourceBigEndian: bool, packetSize: nat, encode: Encoder)
  {
    && sampleSize > 0 && packetSize > 0
    && SampleValues(input, sampleSize, EncoderIsBigEndian(bitDepth)) == SampleValues(pcm, sampleSize, sourceBigEndian)
    && Indexes(t.samples, t.payload, Packets(input, packetSize, 0, encode))
    && Times(Times(sampleSize, channels), Segmenter.Duration(t.samples, 0, |t.samples|)) == |pcm|
    && forall s <- t.samples :: s.entry == None && s.keyframe && s.compositionTimeOffset == None
  }

  /** An input that is empty, or not whole frames, is refused. */
  method RemuxPcmAsAlac(pcm: seq<Byte>, channels: nat, bitDepth: nat, sourceBigEndian: bool, framesPerPacket: nat,
      encode: Encoder)
    returns (r: Result<AlacTrack, PcmError>)
    requires framesPerPacket > 0
    ensures var size := BytesPerSample(bitDepth);
      if size.Err? then r == Err(UnsupportedBitDepth)
      else if Times(size.value, channels) == 0 then r == Err(EmptyFrame)
      else if |pcm| % Times(size.value, channels) != 0 then r == Err(NotAligned)
      else if pcm == [] then r == Err(NoPackets)
      else r.Ok? && exists input: seq<Byte> ::
        Encodes(r.value, pcm, input, size.value, channels, bitDepth, sourceBigEndian,
                Times(Times(size.value, channels), framesPerPacket), encode)
  {
    hide SampleValues, Packets, Indexes, Times;
    var size := BytesPerSample(bitDepth);
    if size.Err? {
      return Err(size.error);
    }
    var frameSize := Times(size.value, channels);
    if frameSize == 0 {
      return Err(EmptyFrame);
    }
    if |pcm| % frameSize != 0 {
      return Err(NotAligned);
    }
    WholeFramesAreWholeSamples(|pcm|, size.value, channels);
    var normalized := PcmToAlacBytes(pcm, bitDepth, sourceBigEndian);
    var payload, samples := EncodePackets(normalized.value, frameSize, framesPerPacket, encode);
    if samples == [] {
      return Err(NoPackets);
    }
    assert Encodes(AlacTrack(payload, samples), pcm, normalized.value, size.value, channels, bitDepth, sourceBigEndian,
                   Times(frameSize, framesPerPacket), encode);
    return Ok(AlacTrack(payload, samples));
  }

  // What the numbers of the code mean.

  /** Sixteen, twenty, twenty-four and thirty-two bits take two, three, three and four bytes, and the encoder
      wants those of three bytes with the high byte first; other depths are refused. */
  lemma BitDepths(bitDepth: nat)
    ensures bitDepth == 16 ==> BytesPerSample(bitDepth) == Ok(2) && !EncoderIsBigEndian(bitDepth)
    ensures bitDepth == 20 || bitDepth == 24 ==> BytesPerSample(bitDepth) == Ok(3) && EncoderIsBigEndian(bitDepth)
    ensures bitDepth == 32 ==> BytesPerSample(bitDepth) == Ok(4) && !EncoderIsBigEndian(bitDepth)
    ensures bitDepth !in {16, 20, 24, 32} ==> BytesPerSample(bitDepth) == Err(UnsupportedBitDepth)
  {
  }

  /** A chunk holds the frames of so many seconds; of one second if none are asked for, and at least one frame. */
  lemma ChunkIsASegmentLong(sampleRate: nat, segmentSecs: nat)
    ensures sampleRate > 0 && segmentSecs > 0 ==> ChunkFrames(sampleRate, segmentSecs) == sampleRate * segmentSecs
    ensures sampleRate > 0 && segmentSecs == 0 ==> ChunkFrames(sampleRate, segmentSecs) == sampleRate
    ensures sampleRate == 0 ==> ChunkFrames(sampleRate, segmentSecs) == 1
  {
    if sampleRate > 0 && segmentSecs > 0 {
      assert sampleRate * segmentSecs > 0;
    }
  }

  function Power256(n: nat): nat { if n == 0 then 1 else 0x100 * Power256(n - 1) }

  /** Big-endian, the first byte weighs most; little-endian, the last. */
  lemma {:induction false} FirstByteWeighsMost(s: seq<Byte>)
    requires s != []
    ensures BigEndianValue(s) == (s[0] as int) * Power256(|s| - 1) + BigEndianValue(s[1..])
    decreases |s|
  {
    var n := |s| - 1;
    if n > 0 {
      FirstByteWeighsMost(s[..n]);
      assert s[..n][1..] == s[1..][..n - 1] && s[1..][n - 1] == s[n];
      assert 0x100 * ((s[0] as int) * Power256(n - 1)) == (s[0] as int) * Power256(n);
    } else {
      assert s[..0] == [] && s[1..] == [];
    }
  }

  lemma {:induction false} LastByteWeighsMost(s: seq<Byte>)
    requires s != []
    ensures LittleEndianValue(s) == LittleEndianValue(s[..|s| - 1]) + (s[|s| - 1] as int) * Power256(|s| - 1)
    decreases |s|
  {
    var n := |s| - 1;
    if n > 0 {
      LastByteWeighsMost(s[1..]);
      assert s[1..][..n - 1] == s[..n][1..] && s[1..][n - 1] == s[n];
      assert 0x100 * ((s[n] as int) * Power256(n - 1)) == (s[n] as int) * Power256(n);
    } else {
      assert s[..0] == [] && s[1..] == [];
    }
  }

  lemma PlaceOf(n: nat, k: nat)
    ensures Times(n, k) == if k == 0 then 0 else Times(n, k - 1) + n
  {
  }

  /** The k-th sample value is that of the k-th group of n bytes. */
  lemma {:induction false} SampleValueAt(s: seq<Byte>, n: nat, bigEndian: bool, k: nat, from: nat)
    requires n > 0 && from == Times(n, k) && from + n <= |s|
    ensures k < |SampleValues(s, n, bigEndian)|
    ensures SampleValues(s, n, bigEndian)[k] ==
      if bigEndian then BigEndianValue(s[from..from + n]) else LittleEndianValue(s[from..from + n])
    decreases k
  {
    PlaceOf(n, k);
    hide Times, BigEndianValue, LittleEndianValue;
    if k > 0 {
      SampleValueAt(s[n..], n, bigEndian, k - 1, from - n);
      assert s[n..][from - n..from] == s[from..from + n];
    }
  }

  /** The k-th packet is what the encoder makes of the k-th stretch of `size` bytes, the last one cut short. */
  lemma {:induction false} PacketIsOfItsStretch(pcm: seq<Byte>, size: nat, first: nat, encode: Encoder, k: nat, from: nat)
    requires size > 0 && from == Times(size, k) && from < |pcm|
    ensures var to := if from + size <= |pcm| then from + size else |pcm|;
      && k < |Packets(pcm, size, first, encode)|
      && Packets(pcm, size, first, encode)[k] == encode(first + k, pcm[from..to])
    decreases k
  {
    var to := if from + size <= |pcm| then from + size else |pcm|;
    var chunk := if |pcm| <= size then pcm else pcm[..size];
    PlaceOf(size, k);
    PacketsStep(pcm, size, first, encode, chunk);
    hide Times, Packets;
    if k == 0 {
      assert chunk == pcm[0..to];
    } else {
      assert |chunk| == size;
      PacketIsOfItsStretch(pcm[size..], size, first + 1, encode, k - 1, from - size);
      assert pcm[size..][from - size..to - size] == pcm[from..to];
    }
  }
}
