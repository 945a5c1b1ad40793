/** A finished archive opens to what its writer recorded, whichever way the header went. */
module ArchiveRoundTrip {
  import opened Wire
  import opened Repeats
  import opened Blocks
  import opened UnpackInfos
  import opened SubStreams
  import opened FilesInfos
  import opened Headers
  import opened Chains
  import opened Codecs
  import opened StartHeaders
  import opened Writers
  import opened Finishing
  import opened Archives
  import PackInfos
  import F = FilesRoundTrip
  import H = HeaderRoundTrip

  /** The archive the reader ends up with. */
  function Reopened(c: Codecs, st: State): Archive
    requires H.HeaderFits(st.records)
  {
    var a := H.ExpectedArchive(st.records);
    a.(isSolid := AnySolid(a.blocks))
  }

  lemma WriteBehind(out: bytes, pos: nat, body: bytes, b: bytes)
    requires |out| == pos || (out == [] && pos == SIGNATURE_HEADER_SIZE && body == [])
    requires |out| == pos ==> pos >= SIGNATURE_HEADER_SIZE && body == out[SIGNATURE_HEADER_SIZE..]
    ensures var out' := Splice(out, pos, b);
            && (|out'| == pos + |b| || (out' == [] && pos + |b| == SIGNATURE_HEADER_SIZE && b == []))
            && (|out'| == pos + |b| ==> out'[SIGNATURE_HEADER_SIZE..] == body + b)
  {
    if |out| == pos {
      hide Splice;
      SpliceAppends(out, pos, b);
    }
  }

  lemma OverwriteFront(out: bytes, front: bytes)
    requires 0 < |front| <= |out|
    ensures Splice(out, 0, front) == front + out[|front|..]
  {
  }

  /** Where everything is in the finished file. */
  lemma Layout(c: Codecs, st: State, packer: Method)
    requires CountsFit(st.records) && |st.records.blocks| == |st.datas| && BytesHold(c, st)
    ensures var ms, raw := HeaderMethods(st, packer), PutHeader(st.records);
            var data := EncodedData(c, ms, raw);
            var header := EncodedHeader(c, ms, AsU64(st.pos - SIGNATURE_HEADER_SIZE), raw);
            var front := PutSignatureHeader(c.crc, AsU64(st.pos + |data| - SIGNATURE_HEADER_SIZE), |header|, c.crc(header));
            && Finished(c, st, packer) == front + ((Body(st) + data) + header)
            && |Body(st)| == st.pos - SIGNATURE_HEADER_SIZE
  {
    hide Splice, EncodedData, EncodedHeader, PutHeader, HeaderMethods, PutSignatureHeader, PackedBlocks;
    var ms, raw := HeaderMethods(st, packer), PutHeader(st.records);
    var data := EncodedData(c, ms, raw);
    var header := EncodedHeader(c, ms, AsU64(st.pos - SIGNATURE_HEADER_SIZE), raw);
    HeaderNotEmpty(c, ms, AsU64(st.pos - SIGNATURE_HEADER_SIZE), st.records);
    WriteBehind(st.out, st.pos, Body(st), data);
    WriteBehind(Splice(st.out, st.pos, data), st.pos + |data|, Body(st) + data, header);
    var out := Splice(Splice(st.out, st.pos, data), st.pos + |data|, header);
    OverwriteFront(out, PutSignatureHeader(c.crc, AsU64(st.pos + |data| - SIGNATURE_HEADER_SIZE), |header|, c.crc(header)));
  }

  lemma HeaderNotEmpty(c: Codecs, ms: Methods, at: u64, r: Records)
    requires CountsFit(r)
    ensures EncodedHeader(c, ms, at, PutHeader(r)) != []
  {
    hide PutStreamsInfo, Packed;
  }

  // ----- the packed header

  lemma FirstBlock(c: Codecs, ms: Methods, at: u64, raw: bytes)
    requires StageSizes(c, ms, raw) == AsU64s(StageSizes(c, ms, raw))
    ensures var bs := CountedBlocks(PackedHeaderRecords(c, ms, at, raw).blocks);
            |bs| == 1 && bs[0] == Made(ms, StageSizes(c, ms, raw), 1)
  {
    hide Stage, Packed, StageSizes;
  }

  /** What the reader needs of the first block's record to unpack the header. */
  lemma BlockUnpacks(c: Codecs, ms: Methods, raw: bytes)
    requires c.Inverts() && forall i :: 0 <= i <= |ms| ==> |Stage(c, ms, raw, i)| < U64_LIMIT
    ensures var sizes := StageSizes(c, ms, raw);
            (forall i :: 0 <= i < |sizes| ==> sizes[i] < U64_LIMIT) && (
              var b := Made(ms, sizes, 1);
              && b.Sized() && UnpackSize(b) == |raw| && !b.hasCrc && b.coders != []
              && DecodeBlock(c, b, Packed(c, ms, raw)).Ok?
              && raw <= DecodeBlock(c, b, Packed(c, ms, raw)).value)
  {
    hide Stage, Packed, Unpack, OrderedCoders;
    var sizes: seq<u64> := AsU64s(StageSizes(c, ms, raw));
    AsU64sSame(StageSizes(c, ms, raw));
    LastStage(c, ms, raw);
    ChainUnpackSize(ms, sizes, 1);
    UnpackPacked(c, ms, sizes, 1, raw, []);
    assert Packed(c, ms, raw) + [] == Packed(c, ms, raw);
  }

  lemma HeaderUnpacks(c: Codecs, ms: Methods, at: u64, raw: bytes, data: bytes)
    requires c.Inverts() && forall i :: 0 <= i <= |ms| ==> |Stage(c, ms, raw, i)| < U64_LIMIT
    requires SIGNATURE_HEADER_SIZE + at < U64_LIMIT
    requires Window(data, SIGNATURE_HEADER_SIZE + at, |Packed(c, ms, raw)|) == Packed(c, ms, raw)
    ensures UnpackHeader(c, data, PutStreamsInfo(PackedHeaderRecords(c, ms, at, raw))) == Ok(raw)
  {
    hide Stage, Packed, StageSizes, DecodeBlock, UnpackSize, Window, GetStreamsInfo, PutStreamsInfo, H.StreamsFit, CountedBlocks, Made;
    var r := PackedHeaderRecords(c, ms, at, raw);
    PackedHeaderFits(c, ms, at, raw);
    H.StreamsInfoReads(r, []);
    assert PutStreamsInfo(r) + [] == PutStreamsInfo(r);
    assert StageSizes(c, ms, raw) == AsU64s(StageSizes(c, ms, raw));
    FirstBlock(c, ms, at, raw);
    BlockUnpacks(c, ms, raw);
    var info := H.ExpectedStreams(r);
    assert info.0.pos == at && info.0.sizes == [|Packed(c, ms, raw)|] && info.1 == CountedBlocks(r.blocks);
    StartsWith(raw, DecodeBlock(c, info.1[0], Packed(c, ms, raw)).value);
  }

  lemma StartsWith(a: bytes, b: bytes)
    requires a <= b
    ensures b[..|a|] == a
  {
  }

  // ----- the whole file

  lemma WindowMiddle(a: bytes, b: bytes, d: bytes)
    ensures Window(a + b + d, |a|, |b|) == b
  {
  }

  lemma Tail(a: bytes, b: bytes)
    ensures (a + b)[Min(|a|, |a + b|)..] == b
  {
  }

  /** The header found through the start header is the one written. */
  lemma StartLeadsToHeader(c: Codecs, data: bytes, front: bytes, mid: bytes, header: bytes)
    requires |front| == SIGNATURE_HEADER_SIZE && data == front + (mid + header)
    requires SIGNATURE_HEADER_SIZE + |mid| < U64_LIMIT && |header| < U64_LIMIT
    ensures InitArchive(c, data, StartHeader(|mid|, |header|, c.crc(header)))
         == match PlainHeader(c, data, header) case Err(e) => Err(e) case Ok(h) => ReadPlain(h)
  {
    hide PlainHeader, ReadPlain;
    assert data == (front + mid) + header;
    Tail(front + mid, header);
    GetExactAppend(header, []);
    assert header + [] == header;
  }

  lemma PlainOfRaw(r: Records)
    requires CountsFit(r) && H.HeaderFits(r)
    ensures ReadPlain(PutHeader(r)) == Ok(H.ExpectedArchive(r).(isSolid := AnySolid(H.ExpectedArchive(r).blocks)))
    ensures GetU8(PutHeader(r)).Ok? && GetU8(PutHeader(r)).value.0 == K_HEADER
  {
    hide PutStreamsInfo, GetHeader, PutFilesInfo, PutOptionalComment, H.HeaderFits, H.ExpectedArchive, AnySolid;
    H.RoundTrip(r);
    assert PutHeader(r) == [K_HEADER] + PutHeader(r)[1..];
    GetU8Cons(K_HEADER, PutHeader(r)[1..]);
  }

  /** The packed header is where its record says. */
  lemma PackedInPlace(front: bytes, body: bytes, packed: bytes, header: bytes)
    ensures Window(front + ((body + packed) + header), |front| + |body|, |packed|) == packed
  {
    hide Window;
    Cat2(front, body + packed, header);
    Cat2(front, body, packed);
    WindowMiddle(front + body, packed, header);
  }

  lemma PlainOfEncoded(c: Codecs, ms: Methods, at: u64, raw: bytes, data: bytes)
    requires c.Inverts() && forall i :: 0 <= i <= |ms| ==> |Stage(c, ms, raw, i)| < U64_LIMIT
    requires SIGNATURE_HEADER_SIZE + at < U64_LIMIT
    requires !KeepsRaw(c, ms, raw) ==> Window(data, SIGNATURE_HEADER_SIZE + at, |Packed(c, ms, raw)|) == Packed(c, ms, raw)
    requires raw != [] && raw[0] == K_HEADER
    ensures PlainHeader(c, data, EncodedHeader(c, ms, at, raw)) == Ok(raw)
  {
    hide PutStreamsInfo, UnpackHeader, PackedHeaderRecords, Packed, Stage, Window;
    if !KeepsRaw(c, ms, raw) {
      HeaderUnpacks(c, ms, at, raw, data);
      GetU8Cons(K_ENCODED_HEADER, PutStreamsInfo(PackedHeaderRecords(c, ms, at, raw)));
    }
  }

  lemma InvParts(c: Codecs, st: State)
    requires Stored(c, st)
    ensures |st.records.blocks| == |st.datas| && BytesHold(c, st) && st.pos >= SIGNATURE_HEADER_SIZE && CountsFit(st.records)
  {
  }

  /** Where the start header points. */
  function Written(c: Codecs, st: State, packer: Method): (r: (bytes, bytes))
    requires CountsFit(st.records) && st.pos >= SIGNATURE_HEADER_SIZE
  {
    var ms, raw := HeaderMethods(st, packer), PutHeader(st.records);
    (EncodedData(c, ms, raw), EncodedHeader(c, ms, AsU64(st.pos - SIGNATURE_HEADER_SIZE), raw))
  }

  lemma StartReads(c: Codecs, st: State, packer: Method)
    requires |st.records.blocks| == |st.datas| && BytesHold(c, st) && CountsFit(st.records) && LengthsFit(c, st, packer)
    ensures var (data, header) := Written(c, st, packer);
            var at := st.pos + |data| - SIGNATURE_HEADER_SIZE;
            ReadArchive(c, Finished(c, st, packer)) == InitArchive(c, Finished(c, st, packer), StartHeader(at, |header|, c.crc(header)))
  {
    hide PutHeader, Finished, Body, HeaderMethods, PutSignatureHeader, GetSignatureHeader, InitArchive, EncodedHeader, EncodedData, PackedBlocks;
    var ms, raw := HeaderMethods(st, packer), PutHeader(st.records);
    var (data, header) := Written(c, st, packer);
    Layout(c, st, packer);
    HeaderNotEmpty(c, ms, AsU64(st.pos - SIGNATURE_HEADER_SIZE), st.records);
    StartHeaders.RoundTrip(c.crc, AsU64(st.pos + |data| - SIGNATURE_HEADER_SIZE), |header|, c.crc(header), (Body(st) + data) + header);
  }

  lemma HeaderReads(c: Codecs, st: State, packer: Method)
    requires c.Inverts() && |st.records.blocks| == |st.datas| && BytesHold(c, st) && CountsFit(st.records) && LengthsFit(c, st, packer)
    ensures var (data, header) := Written(c, st, packer);
            var at := st.pos + |data| - SIGNATURE_HEADER_SIZE;
            InitArchive(c, Finished(c, st, packer), StartHeader(at, |header|, c.crc(header))) == ReadPlain(PutHeader(st.records))
  {
    hide PutHeader, Finished, Body, PlainHeader, ReadPlain, HeaderMethods, PutSignatureHeader, InitArchive, EncodedHeader,
      Window, Packed, Stage, PackedBlocks;
    var ms, raw, at := HeaderMethods(st, packer), PutHeader(st.records), st.pos - SIGNATURE_HEADER_SIZE;
    var (data, header) := Written(c, st, packer);
    var front := PutSignatureHeader(c.crc, AsU64(at + |data|), |header|, c.crc(header));
    Layout(c, st, packer);
    StartLeadsToHeader(c, Finished(c, st, packer), front, Body(st) + data, header);
    PackedInPlace(front, Body(st), data, header);
    HeaderStarts(st.records);
    PlainOfEncoded(c, ms, AsU64(at), raw, Finished(c, st, packer));
  }

  lemma HeaderStarts(r: Records)
    requires CountsFit(r)
    ensures PutHeader(r) != [] && PutHeader(r)[0] == K_HEADER
  {
    hide PutStreamsInfo, PutFilesInfo, PutOptionalComment;
  }

  /** From the writer's last state to the open archive: every table is recovered, whether the
      header was packed or not. */
  lemma RoundTrip(c: Codecs, st: State, packer: Method)
    requires c.Inverts() && Inv(c, st) && CountsFit(st.records) && Finishable(c, st, packer)
    ensures H.HeaderFits(st.records)
    ensures ReadArchive(c, Finished(c, st, packer)) == Ok(Reopened(c, st))
  {
    hide *;
    StoredParts(c, st);
    InvParts(c, st);
    FinishableParts(c, st, packer);
    RecordsFit(c, st);
    TablesRecovered(c, st, packer);
  }

  /** The same for records that fit but do not use all the room in the blocks. */
  lemma TablesRecovered(c: Codecs, st: State, packer: Method)
    requires c.Inverts() && Stored(c, st) && CountsFit(st.records) && Finishable(c, st, packer)
    requires H.HeaderFits(st.records)
    ensures ReadArchive(c, Finished(c, st, packer)) == Ok(Reopened(c, st))
  {
    hide *;
    InvParts(c, st);
    FinishableParts(c, st, packer);
    StartReads(c, st, packer);
    HeaderReads(c, st, packer);
    PlainOfRaw(st.records);
    ReopenedIs(c, st);
  }

  lemma FinishableParts(c: Codecs, st: State, packer: Method)
    requires CountsFit(st.records) && st.pos >= SIGNATURE_HEADER_SIZE && Finishable(c, st, packer)
    ensures PackInfos.Uniform(st.records.packCrcs) && F.TableFits(st.records.files) && H.CommentFits(st.records.comment)
    ensures LengthsFit(c, st, packer)
  {
  }

  lemma ReopenedIs(c: Codecs, st: State)
    requires H.HeaderFits(st.records)
    ensures var a := H.ExpectedArchive(st.records); Reopened(c, st) == a.(isSolid := AnySolid(a.blocks))
  {
  }
}
