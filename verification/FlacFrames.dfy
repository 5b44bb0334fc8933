/** Finding the audio frames of a FLAC file by their headers (section 9.1 of RFC 9639), the
    samples cut from them, and the trim to the file's own sample count. */
module FlacFrames {
  import opened Wrappers
  import opened Bytes
  import Crc8
  import Segmenter

  // What a frame header is.

  /** The fields of a frame header, in order. The coded number, the block size and the sample
      rate are kept as the bytes that hold them. */
  datatype Header = Header(
    sync: Byte, sizeCode: nat, rateCode: nat, channels: Byte, number: seq<Byte>, size: seq<Byte>, rate: seq<Byte>)

  /** How many bytes a coded number has, from the leading ones of its first byte. */
  function NumberLength(first: Byte): (n: Option<nat>)
    ensures n.Some? ==> 1 <= n.value <= 7
  {
    if first < 0x80 then Some(1)
    else if 0xC0 <= first < 0xE0 then Some(2)
    else if 0xE0 <= first < 0xF0 then Some(3)
    else if 0xF0 <= first < 0xF8 then Some(4)
    else if 0xF8 <= first < 0xFC then Some(5)
    else if 0xFC <= first < 0xFE then Some(6)
    else if first == 0xFE then Some(7)
    else None
  }

  /** How many ones an octet of so many bits begins with. */
  ghost function LeadingOnes(value: nat, bits: nat): nat {
    if bits == 0 || value < Crc8.Power2(bits - 1) then 0
    else 1 + LeadingOnes(value - Crc8.Power2(bits - 1), bits - 1)
  }

  /** No leading one stands for one byte, two to seven for as many, and one or eight for no number. */
  lemma NumberLengthCountsOnes(first: Byte)
    ensures var ones := LeadingOnes(first as nat, 8);
      && ones <= 8
      && NumberLength(first) == if ones == 0 then Some(1) else if 2 <= ones <= 7 then Some(ones) else None
  {
    var powers := [1, 2, 4, 8, 16, 32, 64, 128];
    forall k | 0 <= k < 8
      ensures Crc8.Power2(k) == powers[k]
    {
      if k > 4 {
        assert Crc8.Power2(4) == 16;
      }
    }
    var v := first as nat;
    var ones := LeadingOnes(v, 8);
    if v >= 128 {
      assert ones == 1 + LeadingOnes(v - 128, 7);
      if v >= 192 {
        assert LeadingOnes(v - 128, 7) == 1 + LeadingOnes(v - 192, 6);
        if v >= 224 {
          assert LeadingOnes(v - 192, 6) == 1 + LeadingOnes(v - 224, 5);
          if v >= 240 {
            assert LeadingOnes(v - 224, 5) == 1 + LeadingOnes(v - 240, 4);
            FewLeadingOnes(v - 240);
          }
        }
      }
    }
  }

  lemma FewLeadingOnes(v: nat)
    requires v < 16
    ensures LeadingOnes(v, 4) == if v < 8 then 0 else if v < 12 then 1 else if v < 14 then 2 else if v < 15 then 3 else 4
  {
    assert Crc8.Power2(3) == 8 && Crc8.Power2(2) == 4 && Crc8.Power2(1) == 2 && Crc8.Power2(0) == 1;
    if v >= 8 {
      assert LeadingOnes(v, 4) == 1 + LeadingOnes(v - 8, 3);
      if v >= 12 {
        assert LeadingOnes(v - 8, 3) == 1 + LeadingOnes(v - 12, 2);
        if v >= 14 {
          assert LeadingOnes(v - 12, 2) == 1 + LeadingOnes(v - 14, 1);
        }
      }
    }
  }

  function SizeBytes(code: nat): nat { if code == 6 then 1 else if code == 7 then 2 else 0 }

  function RateBytes(code: nat): nat { if code == 12 then 1 else if code == 13 || code == 14 then 2 else 0 }

  ghost predicate WellFormed(h: Header) {
    && 0xF8 <= h.sync < 0xFC
    && h.sizeCode < 0x10 && h.rateCode < 0x10
    && |h.number| > 0 && NumberLength(h.number[0]) == Some(|h.number|)
    && |h.size| == SizeBytes(h.sizeCode)
    && |h.rate| == RateBytes(h.rateCode)
  }

  ghost function Encode(h: Header): seq<Byte>
    requires WellFormed(h)
  {
    [0xFF, h.sync, 0x10 * h.sizeCode + h.rateCode, h.channels] + h.number + h.size + h.rate
  }

  /** The number of samples in the frame; code 0 leaves it to the stream's maximum. */
  ghost function BlockSize(h: Header, maxBlockSize: nat): nat
    requires |h.size| == SizeBytes(h.sizeCode)
  {
    if h.sizeCode == 0 then maxBlockSize
    else if h.sizeCode == 1 then 192
    else if h.sizeCode < 6 then 144 * Crc8.Power2(h.sizeCode)
    else if h.sizeCode == 6 then h.size[0] as int + 1
    else if h.sizeCode == 7 then 0x100 * (h.size[0] as int) + (h.size[1] as int) + 1
    else Crc8.Power2(h.sizeCode)
  }

  function Octets(bytes: seq<Byte>): (r: seq<Crc8.Octet>)
    ensures |r| == |bytes|
  {
    seq(|bytes|, i requires 0 <= i < |bytes| => Crc8.OctetOf(bytes[i]))
  }

  /** The header stands at `o`, followed by its CRC. */
  ghost predicate HeaderAt(bytes: seq<Byte>, o: nat, h: Header) {
    && WellFormed(h)
    && var end := o + |Encode(h)|;
      && end < |bytes| && bytes[o..end] == Encode(h)
      && Crc8.OctetOf(bytes[end]) == Crc8.Crc(Octets(Encode(h)))
  }

  ghost predicate FrameAt(bytes: seq<Byte>, o: nat) {
    exists h :: HeaderAt(bytes, o, h)
  }

  // How it is found.

  function SkipNumber(bytes: seq<Byte>): Option<nat> {
    if bytes == [] then None
    else
      var length := NumberLength(bytes[0]);
      if length.Some? && |bytes| >= length.value then length else None
  }

  method FindHeaderEnd(bytes: seq<Byte>, offset: nat) returns (end: Option<nat>)
    requires offset <= |bytes|
    ensures end == HeaderEnd(bytes, offset)
  {
    if offset + 4 > |bytes| {
      return None;
    }
    var pos := offset + 2;
    var sizeCode := bytes[pos] / 0x10;
    var rateCode := bytes[pos] % 0x10;
    pos := pos + 1;
    pos := pos + 1;
    var number := SkipNumber(bytes[pos..]);
    if number.None? {
      return None;
    }
    pos := pos + number.value;
    match sizeCode {
      case 6 => pos := pos + 1;
      case 7 => pos := pos + 2;
      case _ =>
    }
    match rateCode {
      case 12 => pos := pos + 1;
      case 13 => pos := pos + 2;
      case 14 => pos := pos + 2;
      case _ =>
    }
    return Some(pos);
  }

  ghost function HeaderEnd(bytes: seq<Byte>, o: nat): Option<nat>
    requires o <= |bytes|
  {
    if o + 4 > |bytes| then None
    else
      match SkipNumber(bytes[o + 4..])
      case None => None
      case Some(n) => Some(o + 4 + n + SizeBytes(bytes[o + 2] / 0x10) + RateBytes(bytes[o + 2] % 0x10))
  }

  ghost predicate HeaderCrcMatches(bytes: seq<Byte>, o: nat)
    requires o <= |bytes|
  {
    var end := HeaderEnd(bytes, o);
    && end.Some? && end.value < |bytes|
    && Crc8.Crc(Octets(bytes[o..end.value])) == Crc8.OctetOf(bytes[end.value])
  }

  predicate Synced(bytes: seq<Byte>, o: nat) {
    o + 1 < |bytes| && bytes[o] == 0xFF && 0xF8 <= bytes[o + 1] < 0xFC
  }

  method ValidateHeaderCrc(bytes: seq<Byte>, offset: nat) returns (ok: bool)
    requires offset <= |bytes|
    ensures ok <==> HeaderCrcMatches(bytes, offset)
  {
    var found := FindHeaderEnd(bytes, offset);
    if found.None? {
      return false;
    }
    var end := found.value;
    if end >= |bytes| {
      return false;
    }
    var crc := Crc8.FlacCrc8(Octets(bytes[offset..end]));
    return crc == Crc8.OctetOf(bytes[end]);
  }

  /** The header standing at `o`, its fields cut out of the bytes. */
  ghost function ReadHeader(bytes: seq<Byte>, o: nat): (h: Header)
    requires Synced(bytes, o) && HeaderEnd(bytes, o).Some? && HeaderEnd(bytes, o).value <= |bytes|
    ensures |h.size| == SizeBytes(h.sizeCode)
  {
    var sizeCode, rateCode := bytes[o + 2] / 0x10, bytes[o + 2] % 0x10;
    var n := o + 4 + SkipNumber(bytes[o + 4..]).value;
    var s := n + SizeBytes(sizeCode);
    Header(bytes[o + 1], sizeCode, rateCode, bytes[o + 3], bytes[o + 4..n], bytes[n..s], bytes[s..s + RateBytes(rateCode)])
  }

  lemma ReadHeaderEncodes(bytes: seq<Byte>, o: nat)
    requires Synced(bytes, o) && HeaderEnd(bytes, o).Some? && HeaderEnd(bytes, o).value <= |bytes|
    ensures var h := ReadHeader(bytes, o);
      WellFormed(h) && Encode(h) == bytes[o..HeaderEnd(bytes, o).value]
  {
  }

  /** Looking at the bytes finds exactly the headers that someone could have written. */
  lemma FrameIsFoundExactly(bytes: seq<Byte>, o: nat)
    requires o <= |bytes|
    ensures FrameAt(bytes, o) <==> Synced(bytes, o) && HeaderCrcMatches(bytes, o)
  {
    if Synced(bytes, o) && HeaderCrcMatches(bytes, o) {
      ReadHeaderEncodes(bytes, o);
      assert HeaderAt(bytes, o, ReadHeader(bytes, o));
    }
    forall h | HeaderAt(bytes, o, h)
      ensures Synced(bytes, o) && HeaderCrcMatches(bytes, o)
    {
      HeaderIsRead(bytes, o, h);
    }
  }

  lemma SliceOfSlice(bytes: seq<Byte>, o: nat, e: nat, a: nat, b: nat)
    requires o <= e <= |bytes| && a <= b <= e - o
    ensures bytes[o..e][a..b] == bytes[o + a..o + b]
  {
    var whole, part := bytes[o..e], bytes[o + a..o + b];
    assert forall k :: 0 <= k < b - a ==> whole[a..b][k] == part[k];
  }

  lemma FieldsOfHeader(h: Header)
    requires WellFormed(h)
    ensures var e := Encode(h); var n := 4 + |h.number|; var s := n + |h.size|;
      |e| == s + |h.rate| && e[4..n] == h.number && e[n..s] == h.size && e[s..s + |h.rate|] == h.rate
  {
  }

  lemma BytesOfHeader(bytes: seq<Byte>, o: nat, h: Header)
    requires HeaderAt(bytes, o, h)
    ensures bytes[o] == 0xFF && bytes[o + 1] == h.sync && bytes[o + 3] == h.channels && bytes[o + 4] == h.number[0]
    ensures bytes[o + 2] / 0x10 == h.sizeCode && bytes[o + 2] % 0x10 == h.rateCode
  {
    var e := Encode(h);
    var w := bytes[o..o + |e|];
    assert w[0] == 0xFF && w[1] == h.sync && w[3] == h.channels;
    assert w[2] == 0x10 * h.sizeCode + h.rateCode && w[4] == h.number[0];
  }

  lemma HeaderIsRead(bytes: seq<Byte>, o: nat, h: Header)
    requires HeaderAt(bytes, o, h)
    ensures Synced(bytes, o)
    ensures HeaderEnd(bytes, o) == Some(o + |Encode(h)|)
    ensures ReadHeader(bytes, o) == h
  {
    hide Encode, NumberLength, Crc8.Crc, Crc8.OctetOf;
    var n := 4 + |h.number|;
    var s := n + |h.size|;
    FieldsOfHeader(h);
    SliceOfSlice(bytes, o, o + |Encode(h)|, 4, n);
    SliceOfSlice(bytes, o, o + |Encode(h)|, n, s);
    SliceOfSlice(bytes, o, o + |Encode(h)|, s, s + |h.rate|);
    assert bytes[o + 4..][0] == h.number[0];
    BytesOfHeader(bytes, o, h);
  }

  predicate Increasing(s: seq<nat>) {
    forall i, j :: 0 <= i < j < |s| ==> s[i] < s[j]
  }

  method FlacFrameStarts(bytes: seq<Byte>, audioOffset: nat) returns (starts: seq<nat>)
    ensures Increasing(starts)
    ensures forall o: nat :: o in starts <==> audioOffset <= o < |bytes| && FrameAt(bytes, o)
  {
    hide FrameAt, HeaderCrcMatches;
    starts := [];
    var offset := audioOffset;
    while offset + 1 < |bytes|
      invariant audioOffset <= offset
      invariant forall i :: 0 <= i < |starts| ==> starts[i] < offset
      invariant Increasing(starts)
      invariant forall o: nat :: o in starts <==> audioOffset <= o < offset && o < |bytes| && FrameAt(bytes, o)
    {
      FrameIsFoundExactly(bytes, offset);
      if bytes[offset] == 0xFF && 0xF8 <= bytes[offset + 1] < 0xFC {
        FrameIsFoundExactly(bytes, offset + 1);
        var ok := ValidateHeaderCrc(bytes, offset);
        if ok {
          starts := starts + [offset];
        }
        offset := offset + 2;
      } else {
        offset := offset + 1;
      }
    }
    forall o: nat | offset <= o < |bytes|
      ensures !FrameAt(bytes, o)
    {
      FrameIsFoundExactly(bytes, o);
    }
  }

  // Frames as samples.

  /** The sizes that a code stands for by itself. */
  function CodedSize(code: nat, maxBlockSize: nat): Option<nat> {
    match code
    case 0 => Some(maxBlockSize)
    case 1 => Some(192)
    case 2 => Some(576)
    case 3 => Some(1152)
    case 4 => Some(2304)
    case 5 => Some(4608)
    case 8 => Some(256)
    case 9 => Some(512)
    case 10 => Some(1024)
    case 11 => Some(2048)
    case 12 => Some(4096)
    case 13 => Some(8192)
    case 14 => Some(16384)
    case 15 => Some(32768)
    case _ => None
  }

  lemma CodedSizes(h: Header, maxBlockSize: nat)
    requires h.sizeCode < 0x10 && |h.size| == SizeBytes(h.sizeCode)
    ensures h.sizeCode != 6 && h.sizeCode != 7 ==> CodedSize(h.sizeCode, maxBlockSize) == Some(BlockSize(h, maxBlockSize))
  {
    assert Crc8.Power2(5) == 32;
    assert Crc8.Power2(8) == 8 * Crc8.Power2(5);
    assert Crc8.Power2(10) == 4 * Crc8.Power2(8);
    assert Crc8.Power2(12) == 4 * Crc8.Power2(10);
    assert Crc8.Power2(14) == 4 * Crc8.Power2(12);
  }

  /** A header, and one byte more. */
  ghost predicate Readable(bytes: seq<Byte>, o: nat) {
    Synced(bytes, o) && HeaderEnd(bytes, o).Some? && HeaderEnd(bytes, o).value < |bytes|
  }

  method ParseFrameBlockSize(frame: seq<Byte>, maxBlockSize: nat) returns (size: Option<nat>)
    ensures size.Some? <==> Readable(frame, 0)
    ensures size.Some? ==> size.value == BlockSize(ReadHeader(frame, 0), maxBlockSize)
  {
    if |frame| < 5 || frame[0] != 0xFF || !(0xF8 <= frame[1] < 0xFC) {
      return None;
    }
    var sizeCode := frame[2] / 0x10;
    var rateCode := frame[2] % 0x10;
    var number := SkipNumber(frame[4..]);
    if number.None? {
      return None;
    }
    var offset := 4 + number.value;
    if sizeCode == 6 {
      if offset >= |frame| {
        return None;
      }
      size := Some(frame[offset] as int + 1);
      offset := offset + 1;
    } else if sizeCode == 7 {
      if offset + 1 >= |frame| {
        return None;
      }
      size := Some(0x100 * (frame[offset] as int) + (frame[offset + 1] as int) + 1);
      offset := offset + 2;
    } else {
      size := CodedSize(sizeCode, maxBlockSize);
    }
    match rateCode {
      case 12 => offset := offset + 1;
      case 13 => offset := offset + 2;
      case 14 => offset := offset + 2;
      case _ =>
    }
    if offset >= |frame| {
      return None;
    }
    CodedSizes(ReadHeader(frame, 0), maxBlockSize);
  }

  /** Where a frame starts, its own header says how long it lasts: the parse never fails there. */
  lemma FramesDeclareTheirSize(bytes: seq<Byte>, o: nat, h: Header)
    requires HeaderAt(bytes, o, h)
    ensures Readable(bytes[o..], 0) && ReadHeader(bytes[o..], 0) == h
  {
    var rest := bytes[o..];
    var end := o + |Encode(h)|;
    assert rest[0..end - o] == bytes[o..end];
    assert rest[end - o] == bytes[end];
    assert HeaderAt(rest, 0, h);
    HeaderIsRead(rest, 0, h);
  }

  function AtLeastOne(n: nat): nat { if n == 0 then 1 else n }

  /** The sample from frame start `i` to the next one, or to the end. */
  ghost predicate IsFrameSample(bytes: seq<Byte>, starts: seq<nat>, maxBlockSize: nat, i: nat, s: Segmenter.Sample)
    requires i < |starts|
  {
    && s.start == starts[i]
    && s.end == (if i + 1 < |starts| then starts[i + 1] else |bytes|)
    && s.entry == None && s.keyframe && s.compositionTimeOffset == None
    && (forall h :: HeaderAt(bytes, starts[i], h) ==> s.duration == AtLeastOne(BlockSize(h, maxBlockSize)))
  }

  method CutFrames(bytes: seq<Byte>, starts: seq<nat>, maxBlockSize: nat) returns (samples: seq<Segmenter.Sample>)
    requires Increasing(starts)
    requires forall s <- starts :: s < |bytes| && FrameAt(bytes, s)
    ensures |samples| == |starts|
    ensures forall i :: 0 <= i < |starts| ==> IsFrameSample(bytes, starts, maxBlockSize, i, samples[i])
  {
    hide FrameAt, HeaderAt, BlockSize, Readable, ReadHeader;
    samples := [];
    for i := 0 to |starts|
      invariant |samples| == i
      invariant forall k :: 0 <= k < i ==> IsFrameSample(bytes, starts, maxBlockSize, k, samples[k])
    {
      var start := starts[i];
      assert start in starts;
      var end := if i + 1 < |starts| then starts[i + 1] else |bytes|;
      if end <= start {
        assert false;
      }
      var parsed := ParseFrameBlockSize(bytes[start..], maxBlockSize);
      var duration := if parsed.Some? then parsed.value else AtLeastOne(maxBlockSize);
      SizeIsDeclared(bytes, start, maxBlockSize, parsed);
      samples := samples + [Segmenter.Sample(start, end, AtLeastOne(duration), None, true, None)];
    }
  }

  lemma SizeIsDeclared(bytes: seq<Byte>, o: nat, maxBlockSize: nat, parsed: Option<nat>)
    requires o < |bytes| && FrameAt(bytes, o)
    requires parsed.Some? <==> Readable(bytes[o..], 0)
    requires parsed.Some? ==> parsed.value == BlockSize(ReadHeader(bytes[o..], 0), maxBlockSize)
    ensures parsed.Some?
    ensures forall h :: HeaderAt(bytes, o, h) ==> parsed.value == BlockSize(h, maxBlockSize)
  {
    hide BlockSize, Readable, ReadHeader, Encode;
    forall h | HeaderAt(bytes, o, h)
      ensures parsed.Some? && parsed.value == BlockSize(h, maxBlockSize)
    {
      FramesDeclareTheirSize(bytes, o, h);
    }
  }

  // The trim.

  ghost function Total(samples: seq<Segmenter.Sample>): nat {
    Segmenter.Duration(samples, 0, |samples|)
  }

  /** `now` is `was` up to `cut`, its durations 1 after it, and at `cut` somewhere between. */
  ghost predicate CutAt(was: seq<Segmenter.Sample>, now: seq<Segmenter.Sample>, cut: nat) {
    && |now| == |was|
    && (forall i :: 0 <= i < |was| ==> now[i] == was[i].(duration := now[i].duration))
    && (forall i :: 0 <= i < |was| && i < cut ==> now[i].duration == was[i].duration)
    && (forall i :: cut < i < |was| ==> now[i].duration == 1)
    && (cut < |was| ==> 1 <= now[cut].duration <= was[cut].duration)
  }

  /** Trimmed to `total` from the end, without taking any sample below 1. */
  ghost predicate Trimmed(was: seq<Segmenter.Sample>, now: seq<Segmenter.Sample>, total: nat) {
    && (exists cut: nat :: CutAt(was, now, cut))
    && Total(now) == if total < |was| then |was| else total
  }

  lemma {:induction false} UpdateChangesTotal(s: seq<Segmenter.Sample>, t: seq<Segmenter.Sample>, k: nat, n: nat)
    requires |s| == |t| && k < |s| && n <= |s|
    requires forall i :: 0 <= i < |s| && i != k ==> s[i] == t[i]
    ensures Segmenter.Duration(t, 0, n)
      == Segmenter.Duration(s, 0, n) + if k < n then t[k].duration - s[k].duration else 0
  {
    if n > 0 {
      UpdateChangesTotal(s, t, k, n - 1);
    }
  }

  lemma {:induction false} AtLeastOneEach(s: seq<Segmenter.Sample>, n: nat)
    requires n <= |s| && forall i :: 0 <= i < n ==> s[i].duration >= 1
    ensures Segmenter.Duration(s, 0, n) >= n
    ensures (forall i :: 0 <= i < n ==> s[i].duration == 1) ==> Segmenter.Duration(s, 0, n) == n
  {
    if n > 0 {
      AtLeastOneEach(s, n - 1);
    }
  }

  /** The samples from `i` on have been trimmed, with `excess` still to go. */
  ghost predicate TrimmedDownTo(was: seq<Segmenter.Sample>, now: seq<Segmenter.Sample>, i: nat, excess: nat) {
    && CutAt(was, now, i)
    && (forall k :: 0 <= k < |now| ==> now[k].duration >= 1)
    && (forall k :: 0 <= k < |now| && k < i ==> now[k] == was[k])
    && (excess > 0 ==> forall k :: i <= k < |now| ==> now[k].duration == 1)
  }

  lemma TrimStep(was: seq<Segmenter.Sample>, before: seq<Segmenter.Sample>, i: nat, s: Segmenter.Sample,
      excess: nat, reduction: nat)
    requires i < |before| && TrimmedDownTo(was, before, i + 1, excess) && excess > 0
    requires reduction <= excess && reduction < before[i].duration
    requires reduction == excess || reduction == before[i].duration - 1
    requires s == before[i].(duration := before[i].duration - reduction)
    ensures TrimmedDownTo(was, before[i := s], i, excess - reduction)
  {
  }

  method TrimToTotal(samples: array<Segmenter.Sample>, total: nat)
    requires forall i :: 0 <= i < samples.Length ==> samples[i].duration >= 1
    modifies samples
    ensures if total > 0 && Total(old(samples[..])) > total
      then Trimmed(old(samples[..]), samples[..], total)
      else samples[..] == old(samples[..])
  {
    if total > 0 {
      var computed := Sum(samples[..]);
      if computed > total {
        var excess: nat := computed - total;
        ghost var was := samples[..];
        var i := samples.Length;
        while i > 0
          invariant 0 <= i <= samples.Length
          invariant TrimmedDownTo(was, samples[..], i, excess)
          invariant Total(samples[..]) == total + excess
        {
          if excess == 0 {
            break;
          }
          i := i - 1;
          ghost var before := samples[..];
          ghost var needed := excess;
          var reducible := samples[i].duration - 1;
          var reduction := if reducible < excess then reducible else excess;
          samples[i] := samples[i].(duration := samples[i].duration - reduction);
          excess := excess - reduction;
          assert samples[..] == before[i := samples[i]];
          TrimStep(was, before, i, samples[i], needed, reduction);
          UpdateChangesTotal(before, samples[..], i, samples.Length);
        }
        AtLeastOneEach(was, samples.Length);
        AtLeastOneEach(samples[..], samples.Length);
      }
    }
  }

  method Sum(samples: seq<Segmenter.Sample>) returns (sum: nat)
    ensures sum == Total(samples)
  {
    sum := 0;
    for i := 0 to |samples|
      invariant sum == Segmenter.Duration(samples, 0, i)
    {
      sum := sum + samples[i].duration;
    }
  }

  lemma {:induction false} SmallerSamplesSumLess(s: seq<Segmenter.Sample>, t: seq<Segmenter.Sample>, n: nat)
    requires |s| == |t| && n <= |s|
    requires forall i :: 0 <= i < |s| ==> s[i].duration <= t[i].duration
    ensures Segmenter.Duration(s, 0, n) <= Segmenter.Duration(t, 0, n)
    ensures Segmenter.Duration(s, 0, n) == Segmenter.Duration(t, 0, n) ==>
      forall i :: 0 <= i < n ==> s[i].duration == t[i].duration
  {
    if n > 0 {
      SmallerSamplesSumLess(s, t, n - 1);
    }
  }

  /** There is only one way to trim. */
  lemma TrimIsUnique(was: seq<Segmenter.Sample>, s: seq<Segmenter.Sample>, t: seq<Segmenter.Sample>, total: nat)
    requires forall i :: 0 <= i < |was| ==> was[i].duration >= 1
    requires Trimmed(was, s, total) && Trimmed(was, t, total)
    ensures s == t
  {
    var p: nat :| CutAt(was, s, p);
    var q: nat :| CutAt(was, t, q);
    if p < q || (p == q && p < |was| && s[p].duration <= t[p].duration) {
      SmallerSamplesSumLess(s, t, |was|);
    } else {
      SmallerSamplesSumLess(t, s, |was|);
    }
  }

  // Damage.

  /** A damaged header is refused: with its length unchanged, no other value of a single one of its
      bytes, or of its CRC, passes the check. */
  lemma OneByteErrorIsRefused(bytes: seq<Byte>, o: nat, i: nat, x: Byte)
    requires Readable(bytes, o) && HeaderCrcMatches(bytes, o)
    requires o <= i <= HeaderEnd(bytes, o).value && x != bytes[i]
    requires HeaderEnd(bytes[i := x], o) == HeaderEnd(bytes, o)
    ensures !HeaderCrcMatches(bytes[i := x], o)
  {
    hide Crc8.Crc, Crc8.OctetOf;
    var end := HeaderEnd(bytes, o).value;
    var damaged := bytes[i := x];
    var a, b := Octets(bytes[o..end]), Octets(damaged[o..end]);
    Crc8.ValueOfOctet(bytes[i]);
    Crc8.ValueOfOctet(x);
    if i == end {
      assert damaged[o..end] == bytes[o..end];
    } else {
      assert damaged[end] == bytes[end];
      forall k | 0 <= k < end - o && k != i - o
        ensures a[k] == b[k]
      {
        assert damaged[o + k] == bytes[o + k];
      }
      Crc8.OneByteErrorIsCaught(a, b, i - o);
    }
  }

  // Section 9.1 of RFC 9639, and what the search accepts beyond it.

  predicate AllOnes(bytes: seq<Byte>, i: nat) { i < |bytes| && bytes[i] == 0xFF }

  ghost predicate Continued(bytes: seq<Byte>, n: nat) {
    forall i :: 0 < i < n && i < |bytes| ==> 0x80 <= bytes[i] < 0xC0
  }

  /** What section 9.1 fixes is as it should be: the 15th sync bit is 0, no size, rate, channel or sample
      size code is reserved or forbidden, the reserved bit is 0, every byte of the coded number after the
      first is a continuation byte, a frame number, which a stream of fixed block size has, is at most six
      bytes long, and the block size is not 65536. */
  ghost predicate Conforms(h: Header) {
    && (h.sync == 0xF8 || h.sync == 0xF9)
    && h.sizeCode != 0
    && h.rateCode != 15
    && h.channels / 0x10 < 11
    && h.channels / 2 % 8 != 3
    && h.channels % 2 == 0
    && Continued(h.number, |h.number|)
    && (h.sync == 0xF8 ==> |h.number| <= 6)
    && h.size != [0xFF, 0xFF]
  }

  /** The same, read off the bytes. */
  ghost predicate ConformsAt(bytes: seq<Byte>, o: nat) {
    && o + 4 < |bytes|
    && (bytes[o + 1] == 0xF8 || bytes[o + 1] == 0xF9)
    && bytes[o + 2] / 0x10 != 0
    && bytes[o + 2] % 0x10 != 15
    && bytes[o + 3] / 0x10 < 11
    && bytes[o + 3] / 2 % 8 != 3
    && bytes[o + 3] % 2 == 0
    && NumberLength(bytes[o + 4]).Some?
    && var n := NumberLength(bytes[o + 4]).value;
      && Continued(bytes[o + 4..], n)
      && (bytes[o + 1] == 0xF8 ==> n <= 6)
      && !(bytes[o + 2] / 0x10 == 7 && AllOnes(bytes, o + 4 + n) && AllOnes(bytes, o + 5 + n))
  }

  /** A frame of the standard. */
  ghost predicate StandardFrameAt(bytes: seq<Byte>, o: nat) {
    exists h :: HeaderAt(bytes, o, h) && Conforms(h)
  }

  lemma NumberOfHeader(bytes: seq<Byte>, o: nat, h: Header)
    requires HeaderAt(bytes, o, h)
    ensures o + 4 + |h.number| <= |bytes| && h.number == bytes[o + 4..][..|h.number|]
  {
    var e, n := Encode(h), |h.number|;
    FieldsOfHeader(h);
    hide Encode;
    assert o + |e| <= |bytes| && 4 + n <= |e|;
    SliceOfSlice(bytes, o, o + |e|, 4, 4 + n);
    SliceOfSlice(bytes, o + 4, |bytes|, 0, n);
    assert bytes[o + 4..] == bytes[o + 4..|bytes|];
  }

  lemma SizeInHeader(bytes: seq<Byte>, o: nat, h: Header)
    requires HeaderAt(bytes, o, h)
    ensures var start := o + 4 + |h.number|;
      && start + |h.size| <= |bytes| && h.size == bytes[start..start + |h.size|]
      && (|h.size| == 2 <==> h.sizeCode == 7)
  {
    var e, n := Encode(h), 4 + |h.number|;
    FieldsOfHeader(h);
    hide Encode, Crc8.Crc, Crc8.OctetOf, NumberLength;
    SliceOfSlice(bytes, o, o + |e|, n, n + |h.size|);
  }

  lemma SizeOfHeader(bytes: seq<Byte>, o: nat, h: Header)
    requires HeaderAt(bytes, o, h)
    ensures h.size == [0xFF, 0xFF] <==>
      h.sizeCode == 7 && AllOnes(bytes, o + 4 + |h.number|) && AllOnes(bytes, o + 5 + |h.number|)
  {
    hide HeaderAt;
    SizeInHeader(bytes, o, h);
    var start := o + 4 + |h.number|;
    if |h.size| == 2 {
      assert h.size[0] == bytes[start] && h.size[1] == bytes[start + 1];
    }
  }

  lemma ContinuedPrefix(bytes: seq<Byte>, n: nat)
    requires n <= |bytes|
    ensures Continued(bytes[..n], n) <==> Continued(bytes, n)
  {
    assert forall i :: 0 <= i < n ==> bytes[..n][i] == bytes[i];
  }

  lemma HeaderConformsExactly(bytes: seq<Byte>, o: nat, h: Header)
    requires HeaderAt(bytes, o, h)
    ensures Conforms(h) <==> ConformsAt(bytes, o)
  {
    hide Encode, NumberLength, Crc8.Crc, Crc8.OctetOf, HeaderAt, Continued, AllOnes;
    BytesOfHeader(bytes, o, h);
    HeaderIsWellFormed(bytes, o, h);
    NumberOfHeader(bytes, o, h);
    SizeOfHeader(bytes, o, h);
    ContinuedPrefix(bytes[o + 4..], |h.number|);
    assert bytes[o + 4] == h.number[0];
  }

  lemma HeaderIsWellFormed(bytes: seq<Byte>, o: nat, h: Header)
    requires HeaderAt(bytes, o, h)
    ensures WellFormed(h)
  {
  }

  /** Every frame of the standard is found, and what is found is one exactly if these bits say so. */
  lemma StandardFramesAreFound(bytes: seq<Byte>, o: nat)
    ensures StandardFrameAt(bytes, o) <==> FrameAt(bytes, o) && ConformsAt(bytes, o)
  {
    hide HeaderAt, Conforms, ConformsAt;
    forall h | HeaderAt(bytes, o, h)
      ensures Conforms(h) <==> ConformsAt(bytes, o)
    {
      HeaderConformsExactly(bytes, o, h);
    }
  }

  /** Some byte holds any given octet. */
  lemma ByteOf(o: Crc8.Octet) returns (b: Byte)
    ensures Crc8.OctetOf(b) == o
  {
    Crc8.ValueIsByte(o);
    b := Crc8.ValueOf(o);
    Crc8.OctetOfValue(o);
  }

  const NONSTANDARD: seq<Byte> := [0xFF, 0xFB, 0x0F, 0xFF, 0x00]

  /** A reserved size code, a forbidden rate code, reserved channel and sample size codes and a wrong
      sync bit, followed by the right CRC: the search takes it for a frame. */
  lemma NonstandardFrameIsFound() returns (crc: Byte)
    ensures var bytes := NONSTANDARD + [crc]; FrameAt(bytes, 0) && !StandardFrameAt(bytes, 0)
  {
    crc := ByteOf(Crc8.Crc(Octets(NONSTANDARD)));
    hide Crc8.Crc, Crc8.OctetOf;
    var bytes := NONSTANDARD + [crc];
    var h := Header(0xFB, 0, 15, 0xFF, [0], [], []);
    assert Encode(h) == NONSTANDARD == bytes[0..5];
    assert HeaderAt(bytes, 0, h);
    StandardFramesAreFound(bytes, 0);
  }

  // The tables of section 9.1 of RFC 9639.

  /** How many bytes the codes of size and rate call for behind the coded number. */
  lemma FieldsCalledFor(code: nat)
    ensures code == 6 ==> SizeBytes(code) == 1
    ensures code == 7 ==> SizeBytes(code) == 2
    ensures code !in {6, 7} ==> SizeBytes(code) == 0
    ensures code == 12 ==> RateBytes(code) == 1
    ensures code in {13, 14} ==> RateBytes(code) == 2
    ensures code !in {12, 13, 14} ==> RateBytes(code) == 0
  {
  }

  /** The block sizes that the codes stand for: 192, four multiples of 576, powers of two from 256 to 32768, and
      one more than what is written behind the coded number. */
  lemma BlockSizes(h: Header, maxBlockSize: nat)
    requires h.sizeCode < 0x10 && |h.size| == SizeBytes(h.sizeCode)
    ensures h.sizeCode == 0 ==> BlockSize(h, maxBlockSize) == maxBlockSize
    ensures h.sizeCode == 1 ==> BlockSize(h, maxBlockSize) == 192
    ensures 2 <= h.sizeCode <= 5 ==> BlockSize(h, maxBlockSize) == [576, 1152, 2304, 4608][h.sizeCode - 2]
    ensures h.sizeCode == 6 ==> h.size != [] && BlockSize(h, maxBlockSize) == (h.size[0] as int) + 1
    ensures h.sizeCode == 7 ==>
      |h.size| == 2 && BlockSize(h, maxBlockSize) - 1 == 256 * (h.size[0] as int) + (h.size[1] as int)
    ensures h.sizeCode >= 8 ==>
      BlockSize(h, maxBlockSize) == [256, 512, 1024, 2048, 4096, 8192, 16384, 32768][h.sizeCode - 8]
  {
    hide BlockSize;
    CodedSizes(h, maxBlockSize);
    if h.sizeCode in {6, 7} {
      WrittenSizes(h, maxBlockSize);
    }
  }

  lemma WrittenSizes(h: Header, maxBlockSize: nat)
    requires h.sizeCode in {6, 7} && |h.size| == SizeBytes(h.sizeCode)
    ensures h.sizeCode == 6 ==> h.size != [] && BlockSize(h, maxBlockSize) == (h.size[0] as int) + 1
    ensures h.sizeCode == 7 ==>
      |h.size| == 2 && BlockSize(h, maxBlockSize) - 1 == 256 * (h.size[0] as int) + (h.size[1] as int)
  {
  }

  /** A header's end is found even where nothing follows it. */
  lemma EndIsFound(bytes: seq<Byte>, o: nat, h: Header)
    requires WellFormed(h) && o + |Encode(h)| <= |bytes| && bytes[o..o + |Encode(h)|] == Encode(h)
    ensures HeaderEnd(bytes, o) == Some(o + |Encode(h)|)
  {
    var e := Encode(h);
    var w := bytes[o..o + |e|];
    assert w[2] == 0x10 * h.sizeCode + h.rateCode && w[4] == h.number[0];
    FieldsOfHeader(h);
    hide NumberLength;
    assert bytes[o + 4..][0] == h.number[0];
  }

  /** A sample lasts as long as its frame says, and at least one unit. */
  lemma LastsAtLeastOne(n: nat)
    ensures n >= 1 ==> AtLeastOne(n) == n
    ensures n == 0 ==> AtLeastOne(n) == 1
  {
  }
}
