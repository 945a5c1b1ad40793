/** The end of a writer's life: the header, as it is or packed, and the start header over the
    room left for it; and why the records are then fit to be read back. */
module Finishing {
  import opened Wire
  import opened Repeats
  import opened Blocks
  import opened UnpackInfos
  import opened SubStreams
  import opened FilesInfos
  import opened StreamMaps
  import opened Headers
  import opened Codecs
  import opened StartHeaders
  import opened Writers
  import PackInfos
  import F = FilesRoundTrip
  import H = HeaderRoundTrip

  const AES_ID: bytes := [0x06, 0xF1, 0x07, 0x01]

  /** The first method that encrypts. */
  function Encrypting(ms: seq<Method>): Option<Method> {
    if ms == [] then None
    else if ms[0].id == AES_ID then Some(ms[0])
    else Encrypting(ms[1..])
  }

  /** The header is packed with `packer`, and encrypted too if that was asked for and the
      content is. */
  function HeaderMethods(st: State, packer: Method): Methods {
    match (if st.encryptHeader then Encrypting(st.methods) else None)
    case Some(aes) => [aes, packer]
    case None => [packer]
  }

  /** The records that describe the packed header at `at`. */
  function PackedHeaderRecords(c: Codecs, ms: Methods, at: u64, raw: bytes): (r: Records)
    ensures CountsFit(r)
  {
    var packed := Packed(c, ms, raw);
    Records([], at, [AsU64(|packed|)], [c.crc(packed)],
            [BlockInfo(ms, AsU64s(StageSizes(c, ms, raw)), c.crc(raw), 1, [], [])], None)
  }

  /** Packing did not save more than twenty bytes. */
  predicate KeepsRaw(c: Codecs, ms: Methods, raw: bytes) {
    |Packed(c, ms, raw)| + 20 >= |raw|
  }

  /** What `write_encoded_header` hands back. */
  function EncodedHeader(c: Codecs, ms: Methods, at: u64, raw: bytes): bytes {
    if KeepsRaw(c, ms, raw) then raw else [K_ENCODED_HEADER] + PutStreamsInfo(PackedHeaderRecords(c, ms, at, raw))
  }

  /** What it writes to the output first. */
  function EncodedData(c: Codecs, ms: Methods, raw: bytes): bytes {
    if KeepsRaw(c, ms, raw) then [] else Packed(c, ms, raw)
  }

  function Finished(c: Codecs, st: State, packer: Method): bytes
    requires CountsFit(st.records) && st.pos >= SIGNATURE_HEADER_SIZE
  {
    var ms, raw := HeaderMethods(st, packer), PutHeader(st.records);
    var data := EncodedData(c, ms, raw);
    var header := EncodedHeader(c, ms, AsU64(st.pos - SIGNATURE_HEADER_SIZE), raw);
    var pos := st.pos + |data|;
    Splice(Splice(Splice(st.out, st.pos, data), pos, header), 0,
           PutSignatureHeader(c.crc, AsU64(pos - SIGNATURE_HEADER_SIZE), |header|, c.crc(header)))
  }

  // ----- conditions under which what was written can be read

  /** The lengths of the header and the file are within the machine's limits. */
  predicate LengthsFit(c: Codecs, st: State, packer: Method)
    requires CountsFit(st.records) && st.pos >= SIGNATURE_HEADER_SIZE
  {
    var ms, raw := HeaderMethods(st, packer), PutHeader(st.records);
    var data := EncodedData(c, ms, raw);
    && (forall i :: 0 <= i <= |ms| ==> |Stage(c, ms, raw, i)| < U64_LIMIT)
    && |EncodedHeader(c, ms, AsU64(st.pos - SIGNATURE_HEADER_SIZE), raw)| < 0x1_0000_0000
    && st.pos + |data| < U64_LIMIT
  }

  /** What the writer's state has to satisfy besides its invariant: pack CRCs all zero or
      all non-zero, a file table and a comment that fit, lengths within the machine's limits. */
  predicate Finishable(c: Codecs, st: State, packer: Method)
    requires CountsFit(st.records) && st.pos >= SIGNATURE_HEADER_SIZE
  {
    && PackInfos.Uniform(st.records.packCrcs)
    && F.TableFits(st.records.files)
    && H.CommentFits(st.records.comment)
    && LengthsFit(c, st, packer)
  }

  lemma {:induction false} FlatRows(c: Codecs, r: Records, datas: seq<seq<bytes>>)
    requires |r.packSizes| == |r.packCrcs| == |r.blocks| == |datas|
    requires forall i :: 0 <= i < |r.blocks| ==> BlockHolds(c, r.blocks[i], datas[i], r.packSizes[i], r.packCrcs[i])
    ensures FlatSizes(r.blocks) == Lengths(Flatten(datas)) && FlatCrcs(r.blocks) == Crcs(c, Flatten(datas))
    decreases |datas|
  {
    hide BlockHolds, FileSizes, BlockCrcs, Lengths, Crcs;
    if datas == [] {
      assert Lengths([]) == [] && Crcs(c, []) == [];
    } else {
      var rest := r.(packSizes := r.packSizes[1..], packCrcs := r.packCrcs[1..], blocks := r.blocks[1..]);
      FlatRows(c, rest, datas[1..]);
      BlockContents(c, r.blocks[0], datas[0], r.packSizes[0], r.packCrcs[0]);
      assert EachFileSizes(r.blocks)[1..] == EachFileSizes(rest.blocks);
      assert EachBlockCrcs(r.blocks)[1..] == EachBlockCrcs(rest.blocks);
      RowsConcat(c, datas[0], Flatten(datas[1..]));
    }
  }

  lemma BlocksOk(c: Codecs, r: Records, datas: seq<seq<bytes>>)
    requires |r.packSizes| == |r.packCrcs| == |r.blocks| == |datas|
    requires forall i :: 0 <= i < |r.blocks| ==> BlockHolds(c, r.blocks[i], datas[i], r.packSizes[i], r.packCrcs[i])
    ensures forall b :: b in r.blocks ==> SubOk(b)
  {
    hide BlockHolds, SubOk;
    forall b | b in r.blocks
      ensures SubOk(b)
    {
      var i :| 0 <= i < |r.blocks| && r.blocks[i] == b;
      BlockContents(c, b, datas[i], r.packSizes[i], r.packCrcs[i]);
    }
  }

  /** The sub-stream table says of each file with data how long it is and what its CRC is. */
  lemma RecordsDescribe(c: Codecs, st: State)
    requires Inv(c, st)
    ensures F.Describes(ExpectedSub(st.records.blocks), st.records.files)
    ensures AllSubOk(st.records.blocks) && H.Filled(st.records)
  {
    hide BlockHolds, SubOk, Settled, Lengths, Crcs, F.StreamSizes, F.StreamCrcs, FlatSizes, FlatCrcs, PackedBlocks, Counts;
    var r := st.records;
    FlatRows(c, r, st.datas);
    BlocksOk(c, r, st.datas);
    FlatLengths(r.blocks);
    StreamsBound(r.files);
  }

  lemma StreamsBound(files: seq<Entry>)
    ensures |F.StreamSizes(files)| == |F.WithStreams(files)| <= |files|
  {
    AllStreams(files);
  }

  lemma StoredParts(c: Codecs, st: State)
    requires Inv(c, st)
    ensures Stored(c, st)
  {
    hide TablesHold, BytesHold;
    StreamsBound(st.records.files);
    assert |F.StreamSizes(st.records.files)| == |Flatten(st.datas)|;
  }

  /** After any run, the writer's records are in the form the header reader needs. */
  lemma RecordsFit(c: Codecs, st: State)
    requires Inv(c, st) && PackInfos.Uniform(st.records.packCrcs)
    requires F.TableFits(st.records.files) && H.CommentFits(st.records.comment)
    ensures H.HeaderFits(st.records) && H.Filled(st.records)
  {
    hide BlockHolds, SubOk, Settled, AllSubOk, H.Filled, F.Describes, F.TableFits, H.CommentFits, PackInfos.Uniform, PackedBlocks;
    RecordsDescribe(c, st);
    StoredParts(c, st);
    if |st.records.blocks| > 0 {
      PackedBytes(c, st, 0);
    } else {
      assert st.records.packSizes == [];
    }
  }

  /** The packed header's own records are in that form too. */
  lemma PackedHeaderFits(c: Codecs, ms: Methods, at: u64, raw: bytes)
    requires forall i :: 0 <= i <= |ms| ==> |Stage(c, ms, raw, i)| < U64_LIMIT
    ensures H.StreamsFit(PackedHeaderRecords(c, ms, at, raw))
    ensures PackedHeaderRecords(c, ms, at, raw).packSizes == [|Packed(c, ms, raw)|]
    ensures PackedHeaderRecords(c, ms, at, raw).blocks[0].sizes == StageSizes(c, ms, raw)
  {
    hide Stage;
    var r := PackedHeaderRecords(c, ms, at, raw);
    AsU64sSame(StageSizes(c, ms, raw));
    assert Counts(r.blocks) == [1];
    NothingElse([1]);
    OneCrc(r.packCrcs[0]);
  }

  lemma NothingElse(xs: seq<nat>)
    ensures |xs| == 1 ==> Sum(xs) == xs[0]
  {
  }

  lemma OneCrc(crc: u32)
    ensures PackInfos.Uniform([crc])
  {
  }

  /** Pushing no bytes for a file, through the call that takes bytes, leaves an archive whose
      file table cannot be read: the entry is flagged as having data, and no block has it. */
  lemma EmptyPushUnreadable(c: Codecs, st: State, e: Entry, rest: bytes)
    requires Inv(c, st) && !e.isDirectory
    requires F.TableFits(Apply(c, st, PushBytes(e, [])).records.files)
    ensures var r := Apply(c, st, PushBytes(e, [])).records;
            GetFilesInfo(Some(ExpectedSub(r.blocks)), PutFilesInfo(r.files)[1..] + rest) == Err(Panic)
  {
    hide Inv, GetFilesInfo, PutFilesInfo, F.TableFits, FlatSizes, FlatCrcs, F.WithStreams;
    var r := Apply(c, st, PushBytes(e, [])).records;
    RecordsDescribe(c, st);
    var n := |st.records.files|;
    F.CountSnoc(r.files, n);
    assert r.files[..n] == st.records.files && r.files[..n + 1] == r.files;
    F.ReadsIffCovered(r.files, ExpectedSub(r.blocks), rest);
  }
}
