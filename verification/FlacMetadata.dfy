/** The metadata blocks at the head of a FLAC file (section 8 of RFC 9639). */
module FlacMetadata {
  import opened Wrappers
  import opened Bytes

  datatype Block = Block(isLast: bool, blockType: nat, data: seq<Byte>)

  datatype StreamInfo = StreamInfo(
    sampleRate: nat, channels: nat, bitsPerSample: nat, maxBlockSize: nat, totalSamples: nat)

  datatype FlacError = UnexpectedEnd | BlockExceedsFile | StreamInfoSize | StreamInfoMissing

  /** The blocks, which of their contents is the STREAMINFO, and where the audio begins. */
  datatype Layout = Layout(blocks: seq<Block>, infoBlock: seq<Byte>, audioOffset: nat)

  datatype Metadata = Metadata(blocks: seq<Block>, streamInfo: StreamInfo, audioOffset: nat)

  const STREAMINFO_SIZE := 34

  /** The fields of a STREAMINFO block, taken from its bits. */
  function ParseStreamInfo(block: seq<Byte>): (r: Result<StreamInfo, FlacError>)
    ensures r.Ok? <==> |block| == STREAMINFO_SIZE
    ensures r.Ok? ==>
      && r.value.sampleRate < 0x10_0000 && 1 <= r.value.channels <= 8
      && 1 <= r.value.bitsPerSample <= 32 && r.value.totalSamples < 0x10_0000_0000
  {
    if |block| != STREAMINFO_SIZE then Err(StreamInfoSize)
    else
      var field := (i: nat) requires i < |block| => block[i] as int;
      Ok(StreamInfo(
        field(10) * 0x1000 + field(11) * 0x10 + field(12) / 0x10,
        field(12) % 0x10 / 2 + 1,
        field(12) % 2 * 0x10 + field(13) / 0x10 + 1,
        field(2) * 0x100 + field(3),
        field(13) % 0x10 * 0x1_0000_0000 + field(14) * 0x100_0000 + field(15) * 0x1_0000 + field(16) * 0x100 + field(17)))
  }

  /** Bytes 10 to 17 as one number: 20 bits of sample rate, 3 of channels less one, 5 of bits per sample
      less one, and 36 of the total. */
  ghost function PackedFields(block: seq<Byte>): nat
    requires |block| == STREAMINFO_SIZE
  {
    BigEndian24(block[10], block[11], block[12]) * 0x100_0000_0000
    + BigEndian24(block[13], block[14], block[15]) * 0x1_0000 + 0x100 * (block[16] as int) + (block[17] as int)
  }

  ghost predicate Representable(info: StreamInfo) {
    && info.sampleRate < 0x10_0000 && 1 <= info.channels <= 8 && 1 <= info.bitsPerSample <= 32
    && info.totalSamples < 0x10_0000_0000
  }

  ghost function Pack(info: StreamInfo): int {
    info.sampleRate * 0x1000_0000_0000 + (info.channels - 1) * 0x200_0000_0000 + (info.bitsPerSample - 1) * 0x10_0000_0000
    + info.totalSamples
  }

  lemma SplitByte(b: Byte)
    ensures b == 0x10 * (b / 0x10) + b % 0x10 && b % 0x10 == 2 * (b % 0x10 / 2) + b % 2
  {
  }

  lemma PackedUniquely(a: StreamInfo, b: StreamInfo)
    requires Representable(a) && Representable(b) && Pack(a) == Pack(b)
    ensures a.sampleRate == b.sampleRate && a.channels == b.channels
    ensures a.bitsPerSample == b.bitsPerSample && a.totalSamples == b.totalSamples
  {
  }

  lemma ParsedFieldsArePacked(block: seq<Byte>)
    requires |block| == STREAMINFO_SIZE
    ensures Representable(ParseStreamInfo(block).value) && Pack(ParseStreamInfo(block).value) == PackedFields(block)
  {
    SplitByte(block[12]);
    SplitByte(block[13]);
  }

  /** What is parsed is exactly what a writer of these fields would have packed into the block. */
  lemma StreamInfoRoundTrip(block: seq<Byte>, info: StreamInfo)
    requires |block| == STREAMINFO_SIZE
    ensures ParseStreamInfo(block) == Ok(info) <==>
      && Representable(info) && Pack(info) == PackedFields(block)
      && info.maxBlockSize == 0x100 * (block[2] as int) + (block[3] as int)
  {
    hide Pack, PackedFields;
    ParsedFieldsArePacked(block);
    var parsed := ParseStreamInfo(block).value;
    assert parsed.maxBlockSize == 0x100 * (block[2] as int) + (block[3] as int);
    if Representable(info) && Pack(info) == PackedFields(block) {
      PackedUniquely(parsed, info);
    }
  }

  // Writing blocks.

  predicate Writable(b: Block) {
    b.blockType < 0x80 && |b.data| < 0x100_0000
  }

  /** Four bytes that say: the last block or not, its type, and the length of its contents. */
  ghost predicate IsHeader(h: seq<Byte>, isLast: bool, blockType: nat, length: nat) {
    && |h| == 4
    && h[0] == (if isLast then 0x80 else 0) + blockType
    && BigEndian24(h[1], h[2], h[3]) == length
  }

  lemma HeaderExists(isLast: bool, blockType: nat, n: nat)
    requires blockType < 0x80 && n < 0x100_0000
    ensures exists h :: IsHeader(h, isLast, blockType, n)
  {
    Split24(n);
    var h: seq<Byte> :=
      [(if isLast then 0x80 else 0) + blockType, n / 0x1_0000, n / 0x100 % 0x100, n % 0x100];
    assert IsHeader(h, isLast, blockType, n);
  }

  lemma HeaderIsUnique(g: seq<Byte>, h: seq<Byte>, isLast: bool, blockType: nat, n: nat)
    requires IsHeader(g, isLast, blockType, n) && IsHeader(h, isLast, blockType, n)
    ensures g == h
  {
  }

  ghost function EncodeBlock(b: Block): (r: seq<Byte>)
    requires Writable(b)
    ensures |r| == 4 + |b.data| && r[4..] == b.data && IsHeader(r[..4], b.isLast, b.blockType, |b.data|)
  {
    HeaderExists(b.isLast, b.blockType, |b.data|);
    var h :| IsHeader(h, b.isLast, b.blockType, |b.data|);
    h + b.data
  }

  ghost function EncodeBlocks(blocks: seq<Block>): seq<Byte>
    requires forall b <- blocks :: Writable(b)
  {
    if blocks == [] then [] else EncodeBlock(blocks[0]) + EncodeBlocks(blocks[1..])
  }

  ghost predicate OnlyTheLastIsFlagged(blocks: seq<Block>) {
    forall i :: 0 <= i < |blocks| ==> (blocks[i].isLast <==> i == |blocks| - 1)
  }

  // Reading them.

  function LowSevenBits(b: Byte): nat {
    if b >= 0x80 then b - 0x80 else b
  }

  /** The block at an offset. */
  function BlockAt(bytes: seq<Byte>, offset: nat): (r: Result<Block, FlacError>)
    ensures r.Ok? ==> Writable(r.value) && offset + 4 + |r.value.data| <= |bytes|
  {
    if offset + 4 > |bytes| then Err(UnexpectedEnd)
    else
      var length := BigEndian24(bytes[offset + 1], bytes[offset + 2], bytes[offset + 3]);
      if offset + 4 + length > |bytes| then Err(BlockExceedsFile)
      else Ok(Block(bytes[offset] >= 0x80, LowSevenBits(bytes[offset]), bytes[offset + 4..offset + 4 + length]))
  }

  /** The blocks from an offset up to the flagged one, with the last STREAMINFO among them
      (or else the one found before), and the offset after them. */
  function ParseFrom(bytes: seq<Byte>, offset: nat, found: Option<seq<Byte>>): (r: Result<Layout, FlacError>)
    requires found.Some? ==> |found.value| == STREAMINFO_SIZE
    ensures r.Ok? ==> offset <= r.value.audioOffset <= |bytes| && |r.value.infoBlock| == STREAMINFO_SIZE
    ensures r.Ok? ==> forall b <- r.value.blocks :: Writable(b)
    decreases |bytes| - offset
  {
    var next := BlockAt(bytes, offset);
    if next.Err? then Err(next.error)
    else
      var block := next.value;
      var end := offset + 4 + |block.data|;
      if block.blockType == 0 && |block.data| != STREAMINFO_SIZE then Err(StreamInfoSize)
      else
        var info := Latest(block, found);
        if block.isLast then
          if info.Some? then Ok(Layout([block], info.value, end)) else Err(StreamInfoMissing)
        else Prepend([block], ParseFrom(bytes, end, info))
  }

  function Latest(block: Block, found: Option<seq<Byte>>): Option<seq<Byte>> {
    if block.blockType == 0 then Some(block.data) else found
  }

  function Prepend(blocks: seq<Block>, rest: Result<Layout, FlacError>): Result<Layout, FlacError> {
    if rest.Err? then rest else Ok(rest.value.(blocks := blocks + rest.value.blocks))
  }

  lemma PrependTwice(a: seq<Block>, b: Block, rest: Result<Layout, FlacError>)
    ensures Prepend(a, Prepend([b], rest)) == Prepend(a + [b], rest)
  {
    if rest.Ok? {
      assert a + ([b] + rest.value.blocks) == (a + [b]) + rest.value.blocks;
    }
  }

  lemma ParseUnfolds(bytes: seq<Byte>, offset: nat, found: Option<seq<Byte>>)
    requires found.Some? ==> |found.value| == STREAMINFO_SIZE
    ensures var next := BlockAt(bytes, offset);
      ParseFrom(bytes, offset, found) ==
        if next.Err? then Err(next.error)
        else if next.value.blockType == 0 && |next.value.data| != STREAMINFO_SIZE then Err(StreamInfoSize)
        else
          var info := Latest(next.value, found);
          var end := offset + 4 + |next.value.data|;
          if !next.value.isLast then Prepend([next.value], ParseFrom(bytes, end, info))
          else if info.Some? then Ok(Layout([next.value], info.value, end)) else Err(StreamInfoMissing)
  {
  }

  method ReadLayout(bytes: seq<Byte>) returns (result: Result<Layout, FlacError>)
    ensures result == ParseFrom(bytes, 4, None)
  {
    hide ParseFrom, ParseStreamInfo;
    var offset := 4;
    var blocks: seq<Block> := [];
    var info: Option<seq<Byte>> := None;
    ghost var whole := ParseFrom(bytes, 4, None);
    assert whole.Ok? ==> [] + whole.value.blocks == whole.value.blocks;
    while true
      invariant info.Some? ==> |info.value| == STREAMINFO_SIZE
      invariant Prepend(blocks, ParseFrom(bytes, offset, info)) == whole
      decreases |bytes| - offset
    {
      ParseUnfolds(bytes, offset, info);
      if offset + 4 > |bytes| { return Err(UnexpectedEnd); }
      var header := bytes[offset];
      var isLast := header >= 0x80;
      var length := BigEndian24(bytes[offset + 1], bytes[offset + 2], bytes[offset + 3]);
      var end := offset + 4 + length;
      if end > |bytes| { return Err(BlockExceedsFile); }
      var block := Block(isLast, LowSevenBits(header), bytes[offset + 4..end]);
      if block.blockType == 0 {
        if |block.data| != STREAMINFO_SIZE { return Err(StreamInfoSize); }
        info := Some(block.data);
      }
      if isLast {
        if info.None? { return Err(StreamInfoMissing); }
        return Ok(Layout(blocks + [block], info.value, end));
      }
      PrependTwice(blocks, block, ParseFrom(bytes, end, info));
      blocks := blocks + [block];
      offset := end;
    }
  }

  function WithStreamInfo(layout: Result<Layout, FlacError>): Result<Metadata, FlacError> {
    if layout.Err? then Err(layout.error)
    else
      var info := ParseStreamInfo(layout.value.infoBlock);
      if info.Err? then Err(info.error)
      else Ok(Metadata(layout.value.blocks, info.value, layout.value.audioOffset))
  }

  method ParseFlacMetadata(bytes: seq<Byte>) returns (result: Result<Metadata, FlacError>)
    ensures result == WithStreamInfo(ParseFrom(bytes, 4, None))
    ensures result.Ok? <==> ParseFrom(bytes, 4, None).Ok?
  {
    var layout := ReadLayout(bytes);
    return WithStreamInfo(layout);
  }

  // Round trips.

  lemma ReadBackBlock(bytes: seq<Byte>, offset: nat, b: Block)
    requires Writable(b) && offset <= |bytes| && EncodeBlock(b) <= bytes[offset..]
    ensures BlockAt(bytes, offset) == Ok(b)
  {
    var code := EncodeBlock(b);
    assert bytes[offset..offset + |code|] == code;
    assert forall k :: 0 <= k < 4 ==> bytes[offset + k] == code[k] == code[..4][k];
    assert bytes[offset + 4..offset + 4 + |b.data|] == code[4..];
  }

  /** The STREAMINFO a reader of the blocks settles on: the last one. */
  function InfoBlockOf(blocks: seq<Block>, found: Option<seq<Byte>>): Option<seq<Byte>> {
    if blocks == [] then found else InfoBlockOf(blocks[1..], Latest(blocks[0], found))
  }

  ghost predicate StreamInfosAreWhole(blocks: seq<Block>) {
    forall b <- blocks :: b.blockType == 0 ==> |b.data| == STREAMINFO_SIZE
  }

  /** What a reader of these blocks should come to. */
  function ReadBack(blocks: seq<Block>, found: Option<seq<Byte>>, end: nat): Result<Layout, FlacError> {
    var info := InfoBlockOf(blocks, found);
    if info.Some? then Ok(Layout(blocks, info.value, end)) else Err(StreamInfoMissing)
  }

  lemma ReadBackStep(block: Block, rest: seq<Block>, found: Option<seq<Byte>>, end: nat)
    ensures ReadBack([block] + rest, found, end) == Prepend([block], ReadBack(rest, Latest(block, found), end))
  {
    assert ([block] + rest)[1..] == rest;
  }

  lemma LastBlock(block: Block, found: Option<seq<Byte>>, end: nat)
    ensures ReadBack([block], found, end) ==
      if Latest(block, found).Some? then Ok(Layout([block], Latest(block, found).value, end)) else Err(StreamInfoMissing)
  {
    assert InfoBlockOf([block][1..], Latest(block, found)) == Latest(block, found);
  }

  lemma EncodeStep(blocks: seq<Block>)
    requires blocks != [] && forall b <- blocks :: Writable(b)
    ensures EncodeBlocks(blocks) == EncodeBlock(blocks[0]) + EncodeBlocks(blocks[1..])
  {
  }

  /** Reading the first of some written blocks leads to the others. */
  lemma ReadBackFirst(bytes: seq<Byte>, offset: nat, blocks: seq<Block>, found: Option<seq<Byte>>)
    requires offset <= |bytes| && (forall b <- blocks :: Writable(b)) && EncodeBlocks(blocks) <= bytes[offset..]
    requires blocks != [] && StreamInfosAreWhole(blocks)
    requires found.Some? ==> |found.value| == STREAMINFO_SIZE
    ensures var block := blocks[0]; var info := Latest(block, found); var end := offset + 4 + |block.data|;
      && end <= |bytes| && EncodeBlocks(blocks[1..]) <= bytes[end..]
      && |EncodeBlocks(blocks)| == 4 + |block.data| + |EncodeBlocks(blocks[1..])|
      && ParseFrom(bytes, offset, found) ==
        if !block.isLast then Prepend([block], ParseFrom(bytes, end, info))
        else if info.Some? then Ok(Layout([block], info.value, end)) else Err(StreamInfoMissing)
  {
    hide ParseFrom, EncodeBlocks, EncodeBlock, BlockAt, IsHeader;
    var code := EncodeBlock(blocks[0]);
    assert blocks[0] in blocks;
    EncodeStep(blocks);
    RestFollows(bytes, offset, code, EncodeBlocks(blocks[1..]));
    ReadBackBlock(bytes, offset, blocks[0]);
    ParseUnfolds(bytes, offset, found);
  }

  lemma ReadBackLast(bytes: seq<Byte>, offset: nat, block: Block, found: Option<seq<Byte>>)
    requires offset <= |bytes| && Writable(block) && EncodeBlocks([block]) <= bytes[offset..] && block.isLast
    requires StreamInfosAreWhole([block]) && (found.Some? ==> |found.value| == STREAMINFO_SIZE)
    ensures ParseFrom(bytes, offset, found) == ReadBack([block], found, offset + |EncodeBlocks([block])|)
  {
    ReadBackFirst(bytes, offset, [block], found);
    LastBlock(block, found, offset + 4 + |block.data|);
    assert EncodeBlocks([block][1..]) == [];
  }

  lemma {:induction false} ReadBackFrom(bytes: seq<Byte>, offset: nat, blocks: seq<Block>, found: Option<seq<Byte>>)
    requires offset <= |bytes| && (forall b <- blocks :: Writable(b)) && EncodeBlocks(blocks) <= bytes[offset..]
    requires blocks != [] && OnlyTheLastIsFlagged(blocks) && StreamInfosAreWhole(blocks)
    requires found.Some? ==> |found.value| == STREAMINFO_SIZE
    ensures ParseFrom(bytes, offset, found) == ReadBack(blocks, found, offset + |EncodeBlocks(blocks)|)
    decreases |blocks|
  {
    hide ParseFrom, ReadBack, Prepend;
    var block, rest := blocks[0], blocks[1..];
    assert block in blocks && (block.isLast <==> rest == []);
    assert blocks == [block] + rest;
    if rest == [] {
      assert blocks == [block];
      ReadBackLast(bytes, offset, block, found);
    } else {
      var end, finish := offset + 4 + |block.data|, offset + |EncodeBlocks(blocks)|;
      ReadBackFirst(bytes, offset, blocks, found);
      assert forall i :: 0 <= i < |rest| ==> rest[i] == blocks[i + 1];
      ReadBackFrom(bytes, end, rest, Latest(block, found));
      calc {
        ParseFrom(bytes, offset, found);
        Prepend([block], ParseFrom(bytes, end, Latest(block, found)));
        Prepend([block], ReadBack(rest, Latest(block, found), finish));
        { ReadBackStep(block, rest, found, finish); }
        ReadBack([block] + rest, found, finish);
      }
    }
  }

  lemma RestFollows(bytes: seq<Byte>, offset: nat, first: seq<Byte>, rest: seq<Byte>)
    requires offset <= |bytes| && first + rest <= bytes[offset..]
    ensures offset + |first| <= |bytes| && rest <= bytes[offset + |first|..]
  {
    assert bytes[offset..][|first|..] == bytes[offset + |first|..];
  }

  /** Writing out blocks and reading the file gives the same blocks, and the audio starts right
      after them. */
  lemma LayoutRoundTrip(magic: seq<Byte>, blocks: seq<Block>, audio: seq<Byte>)
    requires |magic| == 4 && blocks != [] && forall b <- blocks :: Writable(b)
    requires OnlyTheLastIsFlagged(blocks) && StreamInfosAreWhole(blocks)
    requires exists b <- blocks :: b.blockType == 0
    ensures InfoBlockOf(blocks, None).Some?
    ensures ParseFrom(magic + EncodeBlocks(blocks) + audio, 4, None)
      == Ok(Layout(blocks, InfoBlockOf(blocks, None).value, 4 + |EncodeBlocks(blocks)|))
  {
    hide ParseFrom, EncodeBlocks;
    var bytes := magic + EncodeBlocks(blocks) + audio;
    assert bytes[4..] == EncodeBlocks(blocks) + audio;
    assert EncodeBlocks(blocks) <= bytes[4..];
    InfoBlockFound(blocks, None);
    ReadBackFrom(bytes, 4, blocks, None);
  }

  lemma {:induction false} InfoBlockFound(blocks: seq<Block>, found: Option<seq<Byte>>)
    requires found.Some? || exists b <- blocks :: b.blockType == 0
    ensures InfoBlockOf(blocks, found).Some?
  {
    if blocks != [] {
      assert blocks == [blocks[0]] + blocks[1..];
      InfoBlockFound(blocks[1..], Latest(blocks[0], found));
    }
  }

  /** The other way: whatever is read successfully is exactly what writing its blocks gives, and
      only the last block is flagged. */
  lemma {:induction false} ReadingInvertsWriting(bytes: seq<Byte>, offset: nat, found: Option<seq<Byte>>)
    requires found.Some? ==> |found.value| == STREAMINFO_SIZE
    requires offset <= |bytes| && ParseFrom(bytes, offset, found).Ok?
    ensures var m := ParseFrom(bytes, offset, found).value;
      && m.blocks != [] && OnlyTheLastIsFlagged(m.blocks)
      && EncodeBlocks(m.blocks) == bytes[offset..m.audioOffset]
    decreases |bytes| - offset
  {
    var block := BlockAt(bytes, offset).value;
    var m := ParseFrom(bytes, offset, found).value;
    var end := offset + 4 + |block.data|;
    BlockReadIsBlockWritten(bytes, offset);
    if block.isLast {
      assert m.blocks[1..] == [];
      assert EncodeBlocks(m.blocks) == EncodeBlock(block) + [];
    } else {
      ReadingInvertsWriting(bytes, end, Latest(block, found));
      var rest := ParseFrom(bytes, end, Latest(block, found)).value.blocks;
      assert m.blocks == [block] + rest && m.blocks[1..] == rest;
      assert bytes[offset..m.audioOffset] == bytes[offset..end] + bytes[end..m.audioOffset];
    }
  }

  lemma BlockReadIsBlockWritten(bytes: seq<Byte>, offset: nat)
    requires BlockAt(bytes, offset).Ok?
    ensures var b := BlockAt(bytes, offset).value; EncodeBlock(b) == bytes[offset..offset + 4 + |b.data|]
  {
    var b := BlockAt(bytes, offset).value;
    var read := bytes[offset..offset + 4 + |b.data|];
    assert read[..4] == bytes[offset..offset + 4];
    assert IsHeader(read[..4], b.isLast, b.blockType, |b.data|);
    HeaderIsUnique(read[..4], EncodeBlock(b)[..4], b.isLast, b.blockType, |b.data|);
    assert read == read[..4] + read[4..];
    assert EncodeBlock(b) == EncodeBlock(b)[..4] + EncodeBlock(b)[4..];
  }

  // The blocks put into the MP4 sample entry.

  function Reflagged(blocks: seq<Block>): seq<Block> {
    seq(|blocks|, i requires 0 <= i < |blocks| => blocks[i].(isLast := i == |blocks| - 1))
  }

  method RebuildDflaBlocks(blocks: seq<Block>) returns (rebuilt: seq<Block>)
    ensures rebuilt == Reflagged(blocks)
  {
    if |blocks| == 0 { return blocks; }
    rebuilt := blocks;
    for i := 0 to |blocks|
      invariant |rebuilt| == |blocks|
      invariant forall k :: 0 <= k < |blocks| ==> rebuilt[k] == if k < i then blocks[k].(isLast := false) else blocks[k]
    {
      rebuilt := rebuilt[i := rebuilt[i].(isLast := false)];
    }
    var last := |rebuilt| - 1;
    rebuilt := rebuilt[last := rebuilt[last].(isLast := true)];
  }

  /** Any blocks, flagged in whatever way, survive being rebuilt, written out and read again:
      the same types and contents come back in order, exactly the last one flagged. */
  lemma RebuiltBlocksRoundTrip(magic: seq<Byte>, blocks: seq<Block>, audio: seq<Byte>)
    requires |magic| == 4 && blocks != [] && forall b <- blocks :: Writable(b)
    requires StreamInfosAreWhole(blocks) && exists b <- blocks :: b.blockType == 0
    ensures var written := Reflagged(blocks);
      && OnlyTheLastIsFlagged(written) && (forall b <- written :: Writable(b))
      && var r := ParseFrom(magic + EncodeBlocks(written) + audio, 4, None);
         r.Ok? && r.value.blocks == written && r.value.audioOffset == 4 + |EncodeBlocks(written)|
  {
    var written := Reflagged(blocks);
    var b :| b in blocks && b.blockType == 0;
    var i :| 0 <= i < |blocks| && blocks[i] == b;
    assert written[i].blockType == 0 && written[i] in written;
    forall w | w in written
      ensures Writable(w) && (w.blockType == 0 ==> |w.data| == STREAMINFO_SIZE)
    {
      var k :| 0 <= k < |written| && written[k] == w;
      assert blocks[k] in blocks;
    }
    LayoutRoundTrip(magic, written, audio);
  }

  // Which STREAMINFO counts, and what is refused.

  /** Where several STREAMINFO blocks come, the last one counts; where none does, nothing is found. */
  lemma {:induction false} LastStreamInfoCounts(before: seq<Block>, b: Block, after: seq<Block>, found: Option<seq<Byte>>)
    requires b.blockType == 0 && forall c <- after :: c.blockType != 0
    ensures InfoBlockOf(before + [b] + after, found) == Some(b.data)
    ensures InfoBlockOf(after, found) == found
    decreases |before| + |after|
  {
    if after != [] {
      assert after[0] in after;
      LastStreamInfoCounts([], b, after[1..], found);
      assert InfoBlockOf(after, Some(b.data)) == Some(b.data) by {
        LastStreamInfoCounts([], b, after[1..], Some(b.data));
      }
    }
    var all := before + [b] + after;
    if before == [] {
      assert all[0] == b && all[1..] == after;
      if after == [] {
        assert InfoBlockOf(after, Some(b.data)) == Some(b.data);
      }
    } else {
      assert all[0] == before[0] && all[1..] == before[1..] + [b] + after;
      LastStreamInfoCounts(before[1..], b, after, Latest(before[0], found));
    }
  }

  /** A block is refused exactly if its header is not all there, or its contents are not. */
  lemma BlockIsRefusedExactly(bytes: seq<Byte>, offset: nat)
    ensures BlockAt(bytes, offset) == Err(UnexpectedEnd) <==> |bytes| < offset + 4
    ensures BlockAt(bytes, offset) == Err(BlockExceedsFile) <==>
      |bytes| >= offset + 4 && |bytes| - offset - 4 <
        (bytes[offset + 1] as int) * 65536 + (bytes[offset + 2] as int) * 256 + (bytes[offset + 3] as int)
  {
  }

  /** Only a STREAMINFO of 34 bytes is taken, and only a file that has one before its last block or as it. */
  lemma StreamInfoIsNeeded(bytes: seq<Byte>, offset: nat, found: Option<seq<Byte>>, block: Block)
    requires found.Some? ==> |found.value| == 34
    requires BlockAt(bytes, offset) == Ok(block)
    ensures block.blockType == 0 && |block.data| != 34 ==> ParseFrom(bytes, offset, found) == Err(StreamInfoSize)
    ensures block.isLast && block.blockType != 0 && found.None? ==> ParseFrom(bytes, offset, found) == Err(StreamInfoMissing)
    ensures block.isLast && block.blockType == 0 && |block.data| == 34 ==>
      ParseFrom(bytes, offset, found) == Ok(Layout([block], block.data, offset + 4 + |block.data|))
  {
  }
}
