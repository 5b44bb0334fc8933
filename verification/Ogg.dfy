/** Taking Opus packets out of an Ogg stream (sections 5 and 6 of RFC 3533, section 5 of RFC 7845). */
module Ogg {
  import opened Wrappers
  import opened Bytes

  const OGGS: seq<Byte> := [0x4F, 0x67, 0x67, 0x53]
  const OPUS_HEAD: seq<Byte> := [0x4F, 0x70, 0x75, 0x73, 0x48, 0x65, 0x61, 0x64]
  const OPUS_TAGS: seq<Byte> := [0x4F, 0x70, 0x75, 0x73, 0x54, 0x61, 0x67, 0x73]

  datatype OggError = InvalidPageHeader | InvalidLacingTable | InvalidPageSize | OpusHeadMissing

  datatype OggOpusData = OggOpusData(channels: Byte, preSkip: nat, packets: seq<seq<Byte>>)

  // Pages.

  /** A page: the 22 header bytes between the capture pattern and the segment count, the lacing
      table, and the data it describes. */
  datatype Page = Page(header: seq<Byte>, laces: seq<Byte>, data: seq<Byte>)

  function Sum(laces: seq<Byte>): nat {
    if laces == [] then 0 else laces[0] + Sum(laces[1..])
  }

  predicate ValidPage(p: Page) {
    |p.header| == 22 && |p.laces| <= 255 && |p.data| == Sum(p.laces)
  }

  predicate ValidPages(pages: seq<Page>) {
    forall p <- pages :: ValidPage(p)
  }

  function EncodePage(p: Page): seq<Byte>
    requires ValidPage(p)
  {
    OGGS + p.header + [|p.laces|] + p.laces + p.data
  }

  function EncodePages(pages: seq<Page>): seq<Byte>
    requires ValidPages(pages)
  {
    if pages == [] then [] else EncodePage(pages[0]) + EncodePages(pages[1..])
  }

  function AllLaces(pages: seq<Page>): seq<Byte> {
    if pages == [] then [] else pages[0].laces + AllLaces(pages[1..])
  }

  function AllData(pages: seq<Page>): seq<Byte> {
    if pages == [] then [] else pages[0].data + AllData(pages[1..])
  }

  /** The page at the front of a byte string of at least a header's length. */
  function FirstPage(bytes: seq<Byte>): (r: Result<Page, OggError>)
    requires |bytes| >= 27
    ensures r.Ok? ==> ValidPage(r.value) && EncodePage(r.value) <= bytes
  {
    if !StartsWith(bytes, OGGS) then Err(InvalidPageHeader)
    else
      var n := bytes[26];
      if 27 + n > |bytes| then Err(InvalidLacingTable)
      else
        var laces := bytes[27..27 + n];
        var end := 27 + n + Sum(laces);
        if end > |bytes| then Err(InvalidPageSize)
        else
          var p := Page(bytes[4..26], laces, bytes[27 + n..end]);
          assert EncodePage(p) == bytes[..end] by {
            assert bytes[..4] == OGGS;
            assert bytes[..end] == bytes[..4] + bytes[4..26] + bytes[26..27] + bytes[27..27 + n] + bytes[27 + n..end];
          }
          Ok(p)
  }

  /** The pages of a stream; fewer bytes than a page header at the end are left alone. */
  function SplitPages(bytes: seq<Byte>): (r: Result<seq<Page>, OggError>)
    ensures r.Ok? ==> ValidPages(r.value) && EncodePages(r.value) <= bytes
    ensures r.Ok? ==> |bytes| - |EncodePages(r.value)| < 27
    decreases |bytes|
  {
    if |bytes| < 27 then Ok([])
    else
      var first := FirstPage(bytes);
      if first.Err? then Err(first.error)
      else
        var size := |EncodePage(first.value)|;
        var rest := SplitPages(bytes[size..]);
        if rest.Err? then rest
        else
          assert ([first.value] + rest.value)[1..] == rest.value;
          Ok([first.value] + rest.value)
  }

  lemma FirstPageOfEncoding(p: Page, rest: seq<Byte>)
    requires ValidPage(p)
    ensures |EncodePage(p)| >= 27 && FirstPage(EncodePage(p) + rest) == Ok(p)
  {
    var bytes := EncodePage(p) + rest;
    assert bytes[..4] == OGGS;
    assert bytes[4..26] == p.header;
    assert bytes[26] == |p.laces|;
    assert bytes[27..27 + |p.laces|] == p.laces;
    assert bytes[27 + |p.laces|..27 + |p.laces| + Sum(p.laces)] == p.data;
  }

  /** Splitting undoes encoding, whatever is left over after the last page. */
  lemma {:induction false} SplitUndoesEncode(pages: seq<Page>, rest: seq<Byte>)
    requires ValidPages(pages) && |rest| < 27
    ensures SplitPages(EncodePages(pages) + rest) == Ok(pages)
    decreases |pages|
  {
    if pages == [] {
      assert EncodePages(pages) + rest == rest;
    } else {
      var tail := EncodePages(pages[1..]) + rest;
      assert EncodePages(pages) + rest == EncodePage(pages[0]) + tail;
      FirstPageOfEncoding(pages[0], tail);
      assert (EncodePage(pages[0]) + tail)[|EncodePage(pages[0])|..] == tail;
      SplitUndoesEncode(pages[1..], rest);
      assert [pages[0]] + pages[1..] == pages;
    }
  }

  // Packets.

  datatype Delaced = Delaced(packets: seq<seq<Byte>>, current: seq<Byte>)

  /** Put segments together into packets: a lacing value below 255 ends one. */
  function Delace(laces: seq<Byte>, data: seq<Byte>, current: seq<Byte>): Delaced
    requires |data| == Sum(laces)
    decreases |laces|
  {
    if laces == [] then Delaced([], current)
    else
      var grown := current + data[..laces[0]];
      if laces[0] < 255 then
        var rest := Delace(laces[1..], data[laces[0]..], []);
        Delaced([grown] + rest.packets, rest.current)
      else Delace(laces[1..], data[laces[0]..], grown)
  }

  lemma {:induction false} SumConcat(a: seq<Byte>, b: seq<Byte>)
    ensures Sum(a + b) == Sum(a) + Sum(b)
  {
    if a == [] {
      assert a + b == b;
    } else {
      assert (a + b)[1..] == a[1..] + b;
      SumConcat(a[1..], b);
    }
  }

  /** Delacing in two parts, whatever packet is unfinished in between. */
  lemma {:induction false} DelaceConcat(
    a: seq<Byte>, b: seq<Byte>, aData: seq<Byte>, bData: seq<Byte>, current: seq<Byte>)
    requires |aData| == Sum(a) && |bData| == Sum(b)
    ensures |aData + bData| == Sum(a + b)
    ensures var first := Delace(a, aData, current); var second := Delace(b, bData, first.current);
      Delace(a + b, aData + bData, current) == Delaced(first.packets + second.packets, second.current)
    decreases |a|
  {
    SumConcat(a, b);
    if a == [] {
      assert a + b == b && aData + bData == bData;
      assert [] + Delace(b, bData, current).packets == Delace(b, bData, current).packets;
    } else {
      var lace := a[0];
      assert (a + b)[1..] == a[1..] + b;
      assert (aData + bData)[..lace] == aData[..lace];
      assert (aData + bData)[lace..] == aData[lace..] + bData;
      var grown := current + aData[..lace];
      DelaceConcat(a[1..], b, aData[lace..], bData, if lace < 255 then [] else grown);
      if lace < 255 {
        var rest := Delace(a[1..], aData[lace..], []);
        var second := Delace(b, bData, rest.current);
        assert [grown] + (rest.packets + second.packets) == ([grown] + rest.packets) + second.packets;
      }
    }
  }

  function Lacing(packet: seq<Byte>): seq<Byte> {
    if |packet| < 255 then [|packet|] else [255] + Lacing(packet[255..])
  }

  function AllLacing(packets: seq<seq<Byte>>): seq<Byte> {
    if packets == [] then [] else Lacing(packets[0]) + AllLacing(packets[1..])
  }

  function Flatten(packets: seq<seq<Byte>>): seq<Byte> {
    if packets == [] then [] else packets[0] + Flatten(packets[1..])
  }

  /** One packet's lacing values rebuild it, also when its length is a multiple of 255. */
  lemma {:induction false} DelaceOnePacket(packet: seq<Byte>, current: seq<Byte>)
    ensures Sum(Lacing(packet)) == |packet|
    ensures Delace(Lacing(packet), packet, current) == Delaced([current + packet], [])
    decreases |packet|
  {
    var laces := Lacing(packet);
    if |packet| < 255 {
      assert laces[1..] == [];
      assert packet[..|packet|] == packet;
    } else {
      assert laces[1..] == Lacing(packet[255..]);
      DelaceOnePacket(packet[255..], current + packet[..255]);
      assert current + packet[..255] + packet[255..] == current + packet;
    }
  }

  lemma {:induction false} DelaceUndoesLacing(packets: seq<seq<Byte>>)
    ensures Sum(AllLacing(packets)) == |Flatten(packets)|
    ensures Delace(AllLacing(packets), Flatten(packets), []) == Delaced(packets, [])
    decreases |packets|
  {
    if packets != [] {
      DelaceOnePacket(packets[0], []);
      DelaceUndoesLacing(packets[1..]);
      DelaceConcat(Lacing(packets[0]), AllLacing(packets[1..]), packets[0], Flatten(packets[1..]), []);
      assert [] + packets[0] == packets[0];
      assert [packets[0]] + packets[1..] == packets;
    }
  }

  // Which packets are audio.

  predicate IsHead(packet: seq<Byte>) { StartsWith(packet, OPUS_HEAD) && |packet| >= 19 }

  predicate IsAudio(packet: seq<Byte>) { !IsHead(packet) && !StartsWith(packet, OPUS_TAGS) }

  function Audio(packets: seq<seq<Byte>>): seq<seq<Byte>> {
    if packets == [] then []
    else
      var last := packets[|packets| - 1];
      Audio(packets[..|packets| - 1]) + (if IsAudio(last) then [last] else [])
  }

  /** The last identification header counts. */
  function LastHead(packets: seq<seq<Byte>>): (r: Option<seq<Byte>>)
    ensures r.Some? ==> IsHead(r.value)
    ensures r.None? <==> forall p <- packets :: !IsHead(p)
  {
    if packets == [] then None
    else
      assert packets == packets[..|packets| - 1] + [packets[|packets| - 1]];
      if IsHead(packets[|packets| - 1]) then Some(packets[|packets| - 1]) else LastHead(packets[..|packets| - 1])
  }

  function Classify(packets: seq<seq<Byte>>): Result<OggOpusData, OggError> {
    var head := LastHead(packets);
    if head.None? then Err(OpusHeadMissing)
    else Ok(OggOpusData(head.value[9], LittleEndian(head.value[10], head.value[11]), Audio(packets)))
  }

  /** All packets of a run of pages; one left unfinished at the end is taken as it is. */
  function PagePackets(pages: seq<Page>): seq<seq<Byte>>
    requires ValidPages(pages)
  {
    LacesMatchData(pages);
    var d := Delace(AllLaces(pages), AllData(pages), []);
    if d.current == [] then d.packets else d.packets + [d.current]
  }

  lemma {:induction false} LacesMatchData(pages: seq<Page>)
    requires ValidPages(pages)
    ensures |AllData(pages)| == Sum(AllLaces(pages))
  {
    if pages != [] {
      assert ValidPage(pages[0]);
      LacesMatchData(pages[1..]);
      SumConcat(pages[0].laces, AllLaces(pages[1..]));
    }
  }

  lemma {:induction false} PagesAppend(pages: seq<Page>, p: Page)
    ensures AllLaces(pages + [p]) == AllLaces(pages) + p.laces
    ensures AllData(pages + [p]) == AllData(pages) + p.data
  {
    if pages == [] {
      assert ([p])[1..] == [];
      assert [] + [p] == [p];
    } else {
      assert (pages + [p])[1..] == pages[1..] + [p];
      PagesAppend(pages[1..], p);
    }
  }

  /** The whole stream is the pages so far and then what the rest gives. */
  ghost predicate Continues(
    whole: Result<seq<Page>, OggError>, pages: seq<Page>, rest: Result<seq<Page>, OggError>)
  {
    if rest.Err? then whole == rest else whole == Ok(pages + rest.value)
  }

  /** The first page of the rest of a stream, told by offsets into the whole. */
  lemma FirstPageAt(bytes: seq<Byte>, offset: nat)
    requires offset + 27 <= |bytes|
    ensures var dataStart := offset + 27 + bytes[offset + 26];
      FirstPage(bytes[offset..]) ==
        if bytes[offset..offset + 4] != OGGS then Err(InvalidPageHeader)
        else if dataStart > |bytes| then Err(InvalidLacingTable)
        else
          var laces := bytes[offset + 27..dataStart];
          if dataStart + Sum(laces) > |bytes| then Err(InvalidPageSize)
          else Ok(Page(bytes[offset + 4..offset + 26], laces, bytes[dataStart..dataStart + Sum(laces)]))
  {
    var left := bytes[offset..];
    var dataStart := offset + 27 + bytes[offset + 26];
    assert left[..4] == bytes[offset..offset + 4];
    assert left[4..26] == bytes[offset + 4..offset + 26];
    assert left[26] == bytes[offset + 26];
    if dataStart <= |bytes| {
      var laces := bytes[offset + 27..dataStart];
      assert left[27..27 + left[26]] == laces;
      var dataEnd := dataStart + Sum(laces);
      if dataEnd <= |bytes| {
        assert left[27 + left[26]..dataEnd - offset] == bytes[dataStart..dataEnd];
      }
    }
  }

  lemma PageSize(p: Page)
    requires ValidPage(p)
    ensures |EncodePage(p)| == 27 + |p.laces| + Sum(p.laces)
  {
  }

  lemma SplitStep(bytes: seq<Byte>, page: Page)
    requires |bytes| >= 27 && FirstPage(bytes) == Ok(page)
    ensures Continues(SplitPages(bytes), [page], SplitPages(bytes[|EncodePage(page)|..]))
  {
  }

  lemma NextPage(bytes: seq<Byte>, offset: nat, pages: seq<Page>, page: Page, end: nat)
    requires offset + 27 <= |bytes| && FirstPage(bytes[offset..]) == Ok(page)
    requires end == offset + |EncodePage(page)| <= |bytes|
    requires Continues(SplitPages(bytes), pages, SplitPages(bytes[offset..]))
    ensures Continues(SplitPages(bytes), pages + [page], SplitPages(bytes[end..]))
  {
    hide SplitPages, EncodePage, FirstPage;
    SplitStep(bytes[offset..], page);
    assert bytes[offset..][|EncodePage(page)|..] == bytes[end..];
    var rest := SplitPages(bytes[end..]);
    if rest.Ok? {
      assert pages + ([page] + rest.value) == (pages + [page]) + rest.value;
    }
  }

  /** The pages before `offset` have been read, and their packets put together. */
  ghost predicate Progress(
    bytes: seq<Byte>, offset: nat, pages: seq<Page>, packets: seq<seq<Byte>>, current: seq<Byte>)
  {
    && offset <= |bytes|
    && ValidPages(pages)
    && |AllData(pages)| == Sum(AllLaces(pages))
    && Delace(AllLaces(pages), AllData(pages), []) == Delaced(packets, current)
    && Continues(SplitPages(bytes), pages, SplitPages(bytes[offset..]))
  }

  lemma ProgressStarts(bytes: seq<Byte>)
    ensures Progress(bytes, 0, [], [], [])
  {
    assert bytes[0..] == bytes;
    if SplitPages(bytes).Ok? {
      assert [] + SplitPages(bytes).value == SplitPages(bytes).value;
    }
  }

  lemma ProgressEnds(bytes: seq<Byte>, offset: nat, pages: seq<Page>, packets: seq<seq<Byte>>, current: seq<Byte>)
    requires Progress(bytes, offset, pages, packets, current) && |bytes| < offset + 27
    ensures SplitPages(bytes) == Ok(pages)
    ensures PagePackets(pages) == if current == [] then packets else packets + [current]
  {
    assert pages + [] == pages;
  }

  method ReadPage(bytes: seq<Byte>, offset: nat) returns (result: Result<Page, OggError>)
    requires offset + 27 <= |bytes|
    ensures result == FirstPage(bytes[offset..])
    ensures result.Ok? ==> offset + |EncodePage(result.value)| <= |bytes|
  {
    FirstPageAt(bytes, offset);
    if bytes[offset..offset + 4] != OGGS { return Err(InvalidPageHeader); }
    var laceStart := offset + 27;
    var dataStart := laceStart + bytes[offset + 26];
    if dataStart > |bytes| { return Err(InvalidLacingTable); }
    var laces := bytes[laceStart..dataStart];
    var dataEnd := dataStart + Sum(laces);
    if dataEnd > |bytes| { return Err(InvalidPageSize); }
    return Ok(Page(bytes[offset + 4..offset + 26], laces, bytes[dataStart..dataEnd]));
  }

  method ParseOggOpusPackets(bytes: seq<Byte>) returns (result: Result<OggOpusData, OggError>)
    ensures SplitPages(bytes).Err? ==> result == Err(SplitPages(bytes).error)
    ensures SplitPages(bytes).Ok? ==> result == Classify(PagePackets(SplitPages(bytes).value))
  {
    var offset := 0;
    var packets: seq<seq<Byte>> := [];
    var current: seq<Byte> := [];
    ghost var pages: seq<Page> := [];
    ProgressStarts(bytes);
    while offset + 27 <= |bytes|
      invariant Progress(bytes, offset, pages, packets, current)
      decreases |bytes| - offset
    {
      var page := ReadPage(bytes, offset);
      if page.Err? { return Err(page.error); }
      PageSize(page.value);
      packets, current := DelacePage(page.value.laces, page.value.data, packets, current, pages);
      var end := offset + 27 + |page.value.laces| + |page.value.data|;
      PagesAppend(pages, page.value);
      NextPage(bytes, offset, pages, page.value, end);
      pages := pages + [page.value];
      offset := end;
    }
    ProgressEnds(bytes, offset, pages, packets, current);
    if |current| > 0 {
      packets := packets + [current];
    }
    result := ClassifyPackets(packets);
  }

  method DelacePage(laces: seq<Byte>, data: seq<Byte>, packets: seq<seq<Byte>>, current: seq<Byte>, ghost pages: seq<Page>)
    returns (newPackets: seq<seq<Byte>>, newCurrent: seq<Byte>)
    requires |data| == Sum(laces) && |AllData(pages)| == Sum(AllLaces(pages))
    requires Delace(AllLaces(pages), AllData(pages), []) == Delaced(packets, current)
    ensures |AllData(pages) + data| == Sum(AllLaces(pages) + laces)
    ensures Delace(AllLaces(pages) + laces, AllData(pages) + data, []) == Delaced(newPackets, newCurrent)
  {
    newPackets, newCurrent := packets, current;
    var pageOffset := 0;
    assert packets + [] == packets;
    for k := 0 to |laces|
      invariant pageOffset + Sum(laces[k..]) == |data|
      invariant var rest := Delace(laces[k..], data[pageOffset..], newCurrent);
        Delace(laces, data, current).current == rest.current
        && packets + Delace(laces, data, current).packets == newPackets + rest.packets
    {
      var end := pageOffset + laces[k];
      assert laces[k..][1..] == laces[k + 1..];
      assert data[pageOffset..][..laces[k]] == data[pageOffset..end];
      assert data[pageOffset..][laces[k]..] == data[end..];
      ghost var rest := Delace(laces[k..], data[pageOffset..], newCurrent);
      newCurrent := newCurrent + data[pageOffset..end];
      if laces[k] < 255 {
        ghost var tail := Delace(laces[k + 1..], data[end..], []);
        assert newPackets + ([newCurrent] + tail.packets) == (newPackets + [newCurrent]) + tail.packets;
        newPackets := newPackets + [newCurrent];
        newCurrent := [];
      }
      pageOffset := end;
    }
    assert newPackets + [] == newPackets;
    DelaceConcat(AllLaces(pages), laces, AllData(pages), data, []);
  }

  method ClassifyPackets(packets: seq<seq<Byte>>) returns (result: Result<OggOpusData, OggError>)
    ensures result == Classify(packets)
  {
    var audio: seq<seq<Byte>> := [];
    var channels: Byte, preSkip: nat, found := 2, 312, false;
    for i := 0 to |packets|
      invariant audio == Audio(packets[..i])
      invariant found <==> LastHead(packets[..i]).Some?
      invariant found ==> var head := LastHead(packets[..i]).value;
        channels == head[9] && preSkip == LittleEndian(head[10], head[11])
    {
      var packet := packets[i];
      assert packets[..i + 1][..i] == packets[..i];
      if StartsWith(packet, OPUS_HEAD) && |packet| >= 19 {
        channels, preSkip, found := packet[9], LittleEndian(packet[10], packet[11]), true;
        assert !IsAudio(packet);
      } else if StartsWith(packet, OPUS_TAGS) {
        assert !IsAudio(packet);
      } else {
        audio := audio + [packet];
      }
    }
    assert packets[..|packets|] == packets;
    if !found { return Err(OpusHeadMissing); }
    return Ok(OggOpusData(channels, preSkip, audio));
  }

  /** Round trip: however a stream's lacing values are spread over pages, reading it gives back
      exactly its packets, in order. */
  lemma PacketsSurvivePaging(packets: seq<seq<Byte>>, pages: seq<Page>, rest: seq<Byte>)
    requires ValidPages(pages) && |rest| < 27
    requires AllLaces(pages) == AllLacing(packets) && AllData(pages) == Flatten(packets)
    ensures SplitPages(EncodePages(pages) + rest) == Ok(pages)
    ensures PagePackets(pages) == packets
  {
    SplitUndoesEncode(pages, rest);
    DelaceUndoesLacing(packets);
  }

  // The headers.

  /** A packet that begins as section 5.1 of RFC 7845 has it: the magic, the version, the number of channels,
      and the pre-skip with its low byte first. */
  ghost predicate HeadSays(packet: seq<Byte>, channels: Byte, preSkip: nat) {
    && |packet| >= 19 && packet[..8] == [0x4F, 0x70, 0x75, 0x73, 0x48, 0x65, 0x61, 0x64]
    && packet[9] == channels && packet[10] as int == preSkip % 0x100 && packet[11] as int == preSkip / 0x100
  }

  ghost predicate IsTags(packet: seq<Byte>) {
    |packet| >= 8 && packet[..8] == [0x4F, 0x70, 0x75, 0x73, 0x54, 0x61, 0x67, 0x73]
  }

  ghost predicate IsHeader(packet: seq<Byte>) {
    IsTags(packet) || exists channels, preSkip :: HeadSays(packet, channels, preSkip)
  }

  lemma HeadIsRead(packet: seq<Byte>, channels: Byte, preSkip: nat)
    requires HeadSays(packet, channels, preSkip)
    ensures IsHead(packet) && packet[9] == channels && LittleEndian(packet[10], packet[11]) == preSkip
  {
    assert OPUS_HEAD <= packet[..8] + packet[8..];
  }

  lemma HeadersAreNotAudio(packet: seq<Byte>)
    ensures IsAudio(packet) <==> !IsHeader(packet)
    ensures IsTags(packet) ==> !IsHead(packet)
  {
    if IsTags(packet) {
      assert packet == packet[..8] + packet[8..];
      assert packet[4] == 0x54;
    }
    if IsHead(packet) {
      assert packet[..8] == OPUS_HEAD;
      var preSkip := (packet[10] as int) + 0x100 * (packet[11] as int);
      assert HeadSays(packet, packet[9], preSkip);
    }
    if StartsWith(packet, OPUS_TAGS) {
      assert packet[..8] == OPUS_TAGS;
    }
  }

  /** A well-formed Opus stream gives the channels and the pre-skip that its head was written with, and loses its
      two headers and nothing else. */
  lemma {:induction false} HeadersAreDropped(head: seq<Byte>, tags: seq<Byte>, audio: seq<seq<Byte>>, channels: Byte,
      preSkip: nat)
    requires HeadSays(head, channels, preSkip) && IsTags(tags) && forall p <- audio :: !IsHeader(p)
    ensures Classify([head, tags] + audio) == Ok(OggOpusData(channels, preSkip, audio))
    decreases |audio|
  {
    hide HeadSays, IsTags, IsHeader, IsHead, IsAudio, LittleEndian;
    var all := [head, tags] + audio;
    HeadIsRead(head, channels, preSkip);
    HeadIsHeader(head, channels, preSkip);
    HeadersAreNotAudio(head);
    HeadersAreNotAudio(tags);
    TagsAreHeader(tags);
    if audio == [] {
      assert all[..1] == [head] && all == [head, tags];
      assert LastHead(all) == LastHead(all[..1]) == Some(head);
      assert Audio(all[..1]) == [] && Audio(all) == [];
    } else {
      var shorter := audio[..|audio| - 1];
      assert all[..|all| - 1] == [head, tags] + shorter;
      HeadersAreDropped(head, tags, shorter, channels, preSkip);
      assert shorter + [audio[|audio| - 1]] == audio;
      HeadersAreNotAudio(audio[|audio| - 1]);
      AudioIsNoHead(audio[|audio| - 1]);
    }
  }

  lemma HeadIsHeader(packet: seq<Byte>, channels: Byte, preSkip: nat)
    requires HeadSays(packet, channels, preSkip)
    ensures IsHeader(packet)
  {
  }

  lemma TagsAreHeader(packet: seq<Byte>)
    requires IsTags(packet)
    ensures IsHeader(packet)
  {
  }

  lemma AudioIsNoHead(packet: seq<Byte>)
    requires IsAudio(packet)
    ensures !IsHead(packet)
  {
  }

  /** Without an identification header among its packets no stream is taken, and with one every stream is. */
  lemma HeadIsNeeded(packets: seq<seq<Byte>>)
    ensures Classify(packets) == Err(OpusHeadMissing) <==>
      forall p <- packets, channels, preSkip :: !HeadSays(p, channels, preSkip)
  {
    forall p | p in packets
      ensures IsHead(p) <==> exists channels, preSkip :: HeadSays(p, channels, preSkip)
    {
      HeadersAreNotAudio(p);
      if IsHead(p) {
        assert p[..8] == OPUS_HEAD;
        assert HeadSays(p, p[9], (p[10] as int) + 0x100 * (p[11] as int));
      } else if exists channels, preSkip :: HeadSays(p, channels, preSkip) {
        var channels: Byte, preSkip: nat :| HeadSays(p, channels, preSkip);
        HeadIsRead(p, channels, preSkip);
      }
    }
  }

  /** Where several identification headers come, the last one counts. */
  lemma LastHeadCounts(before: seq<seq<Byte>>, head: seq<Byte>, after: seq<seq<Byte>>, channels: Byte, preSkip: nat)
    requires HeadSays(head, channels, preSkip)
    requires forall p <- after, c, s :: !HeadSays(p, c, s)
    ensures Classify(before + [head] + after).Ok?
    ensures var data := Classify(before + [head] + after).value; data.channels == channels && data.preSkip == preSkip
    decreases |after|
  {
    hide HeadSays;
    HeadIsRead(head, channels, preSkip);
    if after == [] {
      assert before + [head] + after == before + [head];
      assert (before + [head])[..|before|] == before;
    } else {
      var all := before + [head] + after;
      var last := after[|after| - 1];
      var shorter := after[..|after| - 1];
      assert all[..|all| - 1] == before + [head] + shorter;
      LastHeadCounts(before, head, shorter, channels, preSkip);
      HeadIsNeeded([last]);
      assert LastHead([last]).None? by { NoHeadNoResult([last]); }
    }
  }

  lemma NoHeadNoResult(packets: seq<seq<Byte>>)
    requires Classify(packets) == Err(OpusHeadMissing)
    ensures LastHead(packets).None?
  {
  }

  /** The marks that the bytes spell. */
  lemma MarksAreSpelled(k: nat)
    ensures |OGGS| == 4 && (k < 4 ==> OGGS[k] == "OggS"[k] as int)
    ensures |OPUS_HEAD| == 8 && (k < 8 ==> OPUS_HEAD[k] == "OpusHead"[k] as int)
    ensures |OPUS_TAGS| == 8 && (k < 8 ==> OPUS_TAGS[k] == "OpusTags"[k] as int)
  {
  }
}
