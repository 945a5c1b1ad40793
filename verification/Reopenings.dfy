/** When a finished archive opens, and when it gives back what was pushed, however the entries
    were flagged. */
module Reopenings {
  import opened Wire
  import opened Repeats
  import opened Blocks
  import opened UnpackInfos
  import opened SubStreams
  import opened FilesInfos
  import opened StreamMaps
  import opened Headers
  import opened Codecs
  import opened Writers
  import opened Finishing
  import opened Archives
  import opened ArchiveRoundTrip
  import PackInfos
  import BitSets
  import StartHeaders
  import VarInt
  import F = FilesRoundTrip
  import H = HeaderRoundTrip

  // ----- files as the sub-stream table describes them

  /** The files with the sizes and CRCs the table has for them, from its row `k` on. */
  function Corrected(files: seq<Entry>, sizes: seq<u64>, crcs: seq<u32>, k: nat): (r: seq<Entry>)
    requires |sizes| == |crcs| && k + |F.WithStreams(files)| <= |sizes|
    ensures |r| == |files|
  {
    if files == [] then []
    else if files[0].hasStream then
      [files[0].(size := sizes[k], crc := crcs[k])] + Corrected(files[1..], sizes, crcs, k + 1)
    else [files[0]] + Corrected(files[1..], sizes, crcs, k)
  }

  /** The same files, but for the sizes and CRCs of those with data. */
  predicate SameTable(files: seq<Entry>, others: seq<Entry>) {
    && |files| == |others|
    && forall i :: 0 <= i < |files| ==>
      others[i] == if files[i].hasStream then files[i].(size := others[i].size, crc := others[i].crc) else files[i]
  }

  lemma CorrectedStep(files: seq<Entry>, sizes: seq<u64>, crcs: seq<u32>, k: nat)
    requires |sizes| == |crcs| && k + |F.WithStreams(files)| <= |sizes| && files != []
    ensures var r, next := Corrected(files, sizes, crcs, k), if files[0].hasStream then k + 1 else k;
            && next + |F.WithStreams(files[1..])| <= |sizes|
            && |F.WithStreams(files)| == next - k + |F.WithStreams(files[1..])|
            && r[1..] == Corrected(files[1..], sizes, crcs, next)
            && r[0] == if files[0].hasStream then files[0].(size := sizes[k], crc := crcs[k]) else files[0]
  {
  }

  lemma {:induction false} CorrectedSame(files: seq<Entry>, sizes: seq<u64>, crcs: seq<u32>, k: nat)
    requires |sizes| == |crcs| && k + |F.WithStreams(files)| <= |sizes|
    ensures SameTable(files, Corrected(files, sizes, crcs, k))
  {
    hide F.WithStreams, Corrected;
    if files != [] {
      var r := Corrected(files, sizes, crcs, k);
      CorrectedStep(files, sizes, crcs, k);
      CorrectedSame(files[1..], sizes, crcs, if files[0].hasStream then k + 1 else k);
      forall i | 0 <= i < |files|
        ensures r[i] == if files[i].hasStream then files[i].(size := r[i].size, crc := r[i].crc) else files[i]
      {
        if i > 0 {
          assert r[i] == r[1..][i - 1] && files[i] == files[1..][i - 1];
        }
      }
    }
  }

  lemma ColumnsStep(files: seq<Entry>)
    requires files != []
    ensures files[0].hasStream ==>
      F.StreamSizes(files) == [files[0].size] + F.StreamSizes(files[1..]) && F.StreamCrcs(files) == [files[0].crc] + F.StreamCrcs(files[1..])
    ensures !files[0].hasStream ==>
      F.StreamSizes(files) == F.StreamSizes(files[1..]) && F.StreamCrcs(files) == F.StreamCrcs(files[1..])
  {
    hide F.WithStreams;
    FilterStep(files);
  }

  lemma FilterStep(files: seq<Entry>)
    requires files != []
    ensures files[0].hasStream ==> F.WithStreams(files) == [files[0]] + F.WithStreams(files[1..])
    ensures !files[0].hasStream ==> F.WithStreams(files) == F.WithStreams(files[1..])
  {
  }

  lemma SliceStep<T>(xs: seq<T>, k: nat, m: nat)
    requires k < m <= |xs|
    ensures xs[k..m] == [xs[k]] + xs[k + 1..m]
  {
  }

  lemma {:induction false} CorrectedColumns(files: seq<Entry>, sizes: seq<u64>, crcs: seq<u32>, k: nat)
    requires |sizes| == |crcs| && k + |F.WithStreams(files)| <= |sizes|
    ensures var r, m := Corrected(files, sizes, crcs, k), k + |F.WithStreams(files)|;
            F.StreamSizes(r) == sizes[k..m] && F.StreamCrcs(r) == crcs[k..m]
  {
    if files != [] {
      hide F.WithStreams, Corrected, F.StreamSizes, F.StreamCrcs;
      var r, next := Corrected(files, sizes, crcs, k), if files[0].hasStream then k + 1 else k;
      CorrectedStep(files, sizes, crcs, k);
      CorrectedColumns(files[1..], sizes, crcs, next);
      ColumnsStep(r);
      if files[0].hasStream {
        SliceStep(sizes, k, k + |F.WithStreams(files)|);
        SliceStep(crcs, k, k + |F.WithStreams(files)|);
      }
    }
  }

  lemma CorrectedIs(files: seq<Entry>, sizes: seq<u64>, crcs: seq<u32>, k: nat)
    requires |sizes| == |crcs| && k + |F.WithStreams(files)| <= |sizes|
    ensures var r := Corrected(files, sizes, crcs, k);
            && SameTable(files, r)
            && |F.WithStreams(r)| == |F.WithStreams(files)|
            && F.StreamSizes(r) == sizes[k..k + |F.WithStreams(files)|]
            && F.StreamCrcs(r) == crcs[k..k + |F.WithStreams(files)|]
  {
    hide Corrected, F.WithStreams;
    CorrectedSame(files, sizes, crcs, k);
    CorrectedColumns(files, sizes, crcs, k);
    assert |F.StreamSizes(Corrected(files, sizes, crcs, k))| == |F.WithStreams(Corrected(files, sizes, crcs, k))|;
  }

  lemma {:induction false} SameStreamless(files: seq<Entry>, others: seq<Entry>)
    requires SameTable(files, others)
    ensures Streamless(files) == Streamless(others)
  {
    if files != [] {
      assert SameTable(files[1..], others[1..]);
      SameStreamless(files[1..], others[1..]);
    }
  }

  lemma SameColumns(files: seq<Entry>, others: seq<Entry>)
    requires SameTable(files, others)
    ensures NoStream(files) == NoStream(others) && Names(files) == Names(others)
    ensures HasAttributes(files) == HasAttributes(others) && Attributes(files) == Attributes(others)
    ensures forall f: Stamp :: HasColumn(files, f) == HasColumn(others, f) && ValueColumn(files, f) == ValueColumn(others, f)
    ensures HasStreams(files) == HasStreams(others)
  {
  }

  /** The file table on the wire says nothing of sizes and CRCs. */
  lemma SameBytes(files: seq<Entry>, others: seq<Entry>)
    requires SameTable(files, others)
    ensures PutFilesInfo(files) == PutFilesInfo(others)
    ensures F.TableFits(files) <==> F.TableFits(others)
  {
    hide BitSets.PackBits, PutSection, PutColumn, PutAll, F.InStep, F.Units;
    SameStreamless(files, others);
    SameColumns(files, others);
    SameNames(files, others);
  }

  lemma SameNames(files: seq<Entry>, others: seq<Entry>)
    requires Names(files) == Names(others)
    ensures F.NamesFit(files) <==> F.NamesFit(others)
  {
    hide F.Units;
    StorableNames(files);
    StorableNames(others);
  }

  lemma StorableNames(files: seq<Entry>)
    ensures (forall e :: e in files ==> F.Storable(e.name)) <==> forall n :: n in Names(files) ==> F.Storable(n)
  {
    if forall n :: n in Names(files) ==> F.Storable(n) {
      forall e | e in files
        ensures F.Storable(e.name)
      {
        var i :| 0 <= i < |files| && files[i] == e;
        assert Names(files)[i] in Names(files);
      }
    }
  }

  // ----- opening

  predicate Covered(st: State) {
    |F.WithStreams(st.records.files)| <= |Flatten(st.datas)|
  }

  /** The rows of the sub-stream table are the contents. */
  lemma TableIs(c: Codecs, st: State)
    requires Stored(c, st)
    ensures FlatSizes(st.records.blocks) == Lengths(Flatten(st.datas)) && FlatCrcs(st.records.blocks) == Crcs(c, Flatten(st.datas))
    ensures AllSubOk(st.records.blocks)
  {
    hide BlockHolds, SubOk, BytesHold, Lengths, Crcs, FlatSizes, FlatCrcs, Counts;
    FlatRows(c, st.records, st.datas);
    BlocksOk(c, st.records, st.datas);
    FlatLengths(st.records.blocks);
  }

  /** The state a reader would take the archive to have been finished in. */
  function Seen(c: Codecs, st: State): State
    requires Stored(c, st) && Covered(st)
  {
    TableIs(c, st);
    st.(records := st.records.(files := Corrected(st.records.files, FlatSizes(st.records.blocks), FlatCrcs(st.records.blocks), 0)))
  }

  lemma SeenIs(c: Codecs, st: State)
    requires Stored(c, st) && Covered(st)
    ensures var s := Seen(c, st);
            && Stored(c, s) && SameTable(st.records.files, s.records.files)
            && s == st.(records := st.records.(files := s.records.files))
            && F.Describes(ExpectedSub(s.records.blocks), s.records.files)
            && |F.WithStreams(s.records.files)| == |F.WithStreams(st.records.files)|
  {
    hide TablesHold, BytesHold, Lengths, Crcs, FlatSizes, FlatCrcs, AllSubOk, SameTable, F.WithStreams;
    TableIs(c, st);
    CorrectedIs(st.records.files, FlatSizes(st.records.blocks), FlatCrcs(st.records.blocks), 0);
    StoredBut(c, st, Seen(c, st));
  }

  lemma StoredBut(c: Codecs, st: State, st': State)
    requires Stored(c, st) && st' == st.(records := st.records.(files := st'.records.files))
    requires |st'.records.files| == |st.records.files|
    ensures Stored(c, st')
  {
    hide BlockHolds;
  }

  lemma StoredCounts(c: Codecs, st: State)
    requires Stored(c, st)
    ensures CountsFit(st.records) && st.pos >= SIGNATURE_HEADER_SIZE
  {
    hide BlockHolds;
  }

  /** Both finish to the same bytes. */
  lemma SameFinish(c: Codecs, st: State, st': State, packer: Method)
    requires CountsFit(st.records) && st.pos >= SIGNATURE_HEADER_SIZE
    requires st' == st.(records := st.records.(files := st'.records.files))
    requires SameTable(st.records.files, st'.records.files)
    ensures Finished(c, st', packer) == Finished(c, st, packer)
    ensures Finishable(c, st', packer) <==> Finishable(c, st, packer)
  {
    hide F.TableFits, PutFilesInfo, PutStreamsInfo, PutTables, PutSubStreams, StartHeaders.PutSignatureHeader, Splice, EncodedHeader, EncodedData,
      HeaderMethods, Stage, SameTable;
    SameBytes(st.records.files, st'.records.files);
    SameHeader(st.records, st'.records);
    SameMethods(st, st', packer);
  }

  lemma SameMethods(st: State, st': State, packer: Method)
    requires st'.methods == st.methods && st'.encryptHeader == st.encryptHeader
    ensures HeaderMethods(st', packer) == HeaderMethods(st, packer)
  {
  }

  lemma SameHeader(r: Records, r': Records)
    requires CountsFit(r) && r' == r.(files := r'.files) && PutFilesInfo(r'.files) == PutFilesInfo(r.files)
    ensures PutHeader(r') == PutHeader(r)
  {
    hide PutFilesInfo, PackInfos.PutPack, PutUnpack, PutSubStreams;
  }

  lemma SeenFits(c: Codecs, st: State)
    requires Stored(c, st) && PackInfos.Uniform(st.records.packCrcs) && H.CommentFits(st.records.comment)
    requires F.TableFits(st.records.files) && F.Describes(ExpectedSub(st.records.blocks), st.records.files)
    ensures H.HeaderFits(st.records)
  {
    hide BlockHolds, AllSubOk, F.TableFits, H.CommentFits, PackInfos.Uniform, PackedBlocks, FlatSizes, FlatCrcs, F.Describes;
    TableIs(c, st);
    if |st.records.blocks| > 0 {
      PackedBytes(c, st, 0);
    } else {
      assert st.records.packSizes == [];
    }
  }

  /** With enough contents for the files flagged as having data, the archive opens; the flagged
      files take sizes and CRCs from the sub-stream table in order. */
  lemma OpensCovered(c: Codecs, st: State, packer: Method)
    requires c.Inverts() && Stored(c, st) && Covered(st) && CountsFit(st.records) && st.pos >= SIGNATURE_HEADER_SIZE
    requires Finishable(c, st, packer)
    ensures H.HeaderFits(Seen(c, st).records)
    ensures Finished(c, Seen(c, st), packer) == Finished(c, st, packer)
    ensures ReadArchive(c, Finished(c, st, packer)) == Ok(Reopened(c, Seen(c, st)))
  {
    hide *;
    SeenIs(c, st);
    SeenRecords(c, st);
    var s := Seen(c, st);
    StoredCounts(c, s);
    SameFinish(c, st, s, packer);
    FinishableParts(c, s, packer);
    SeenFits(c, s);
    TablesRecovered(c, s, packer);
  }

  lemma SeenRecords(c: Codecs, st: State)
    requires Stored(c, st) && Covered(st)
    ensures Seen(c, st).records.blocks == st.records.blocks && Seen(c, st).datas == st.datas
  {
  }

  /** Without, an index runs past the end of the table. */
  lemma FailsUncovered(c: Codecs, st: State, packer: Method)
    requires c.Inverts() && Stored(c, st) && !Covered(st) && CountsFit(st.records) && st.pos >= SIGNATURE_HEADER_SIZE
    requires Finishable(c, st, packer)
    ensures ReadArchive(c, Finished(c, st, packer)) == Err(Panic)
  {
    hide *;
    InvParts(c, st);
    FinishableParts(c, st, packer);
    StartReads(c, st, packer);
    HeaderReads(c, st, packer);
    PlainUncovered(c, st);
  }

  lemma StreamsStillFit(c: Codecs, st: State)
    requires Stored(c, st) && PackInfos.Uniform(st.records.packCrcs)
    ensures H.StreamsFit(st.records)
  {
    hide BlockHolds, AllSubOk, PackInfos.Uniform, PackedBlocks, FlatSizes, FlatCrcs;
    TableIs(c, st);
    if |st.records.blocks| > 0 {
      PackedBytes(c, st, 0);
    }
  }

  lemma FilesUncovered(c: Codecs, st: State, rest: bytes)
    requires Stored(c, st) && !Covered(st) && F.TableFits(st.records.files)
    ensures GetFilesInfo(Some(ExpectedSub(st.records.blocks)), PutFilesInfo(st.records.files)[1..] + rest) == Err(Panic)
  {
    hide TablesHold, BytesHold, F.TableFits, GetFilesInfo, PutFilesInfo, FlatSizes, FlatCrcs, AllSubOk, F.WithStreams;
    TableIs(c, st);
    F.ReadsIffCovered(st.records.files, ExpectedSub(st.records.blocks), rest);
  }

  /** A header whose file table cannot be read cannot be read. */
  lemma PlainFailsWithFiles(c: Codecs, st: State, e: Error)
    requires Stored(c, st) && CountsFit(st.records)
    requires PackInfos.Uniform(st.records.packCrcs) && H.CommentFits(st.records.comment)
    requires GetFilesInfo(Some(ExpectedSub(st.records.blocks)), PutFilesInfo(st.records.files)[1..] + [K_END]) == Err(e)
    ensures ReadPlain(PutHeader(st.records)) == Err(e)
  {
    hide Stored, H.StreamsFit, GetStreamsInfo, GetFilesInfo, GetPropertiesPart, PutStreamsInfo, PutFilesInfo, PutOptionalComment,
      H.CommentFits, PackInfos.Uniform, ExpectedSub, MapOf, AnySolid;
    var r := st.records;
    StreamsStillFit(c, st);
    var s3 := PutFilesInfo(r.files) + ([K_END] + []);
    var s2 := PutStreamsInfo(r) + s3;
    var s1 := PutOptionalComment(r.comment) + ([K_MAIN_STREAMS_INFO] + s2);
    assert PutHeader(r) == [K_HEADER] + s1;
    GetU8Cons(K_HEADER, s1);
    H.PropertiesPartReads(r.comment, s2);
    H.StreamsInfoReads(r, s3);
    FilesTag(r.files);
    assert s3 == [K_FILES_INFO] + (PutFilesInfo(r.files)[1..] + [K_END]);
    GetU8Cons(K_FILES_INFO, s3[1..]);
  }

  lemma PlainUncovered(c: Codecs, st: State)
    requires Stored(c, st) && !Covered(st) && CountsFit(st.records)
    requires PackInfos.Uniform(st.records.packCrcs) && F.TableFits(st.records.files) && H.CommentFits(st.records.comment)
    ensures ReadPlain(PutHeader(st.records)) == Err(Panic)
  {
    hide *;
    FilesUncovered(c, st, [K_END]);
    PlainFailsWithFiles(c, st, Panic);
  }

  lemma FilesTag(files: seq<Entry>)
    ensures PutFilesInfo(files) == [K_FILES_INFO] + PutFilesInfo(files)[1..]
  {
    hide PutProperties, VarInt.Enc;
  }

  /** A finished archive opens if and only if there are contents for all files flagged as
      having data. */
  lemma OpensIffCovered(c: Codecs, st: State, packer: Method)
    requires c.Inverts() && Stored(c, st) && CountsFit(st.records) && st.pos >= SIGNATURE_HEADER_SIZE
    requires Finishable(c, st, packer)
    ensures ReadArchive(c, Finished(c, st, packer)).Ok? <==> Covered(st)
    ensures ReadArchive(c, Finished(c, st, packer)).Err? ==> ReadArchive(c, Finished(c, st, packer)) == Err(Panic)
  {
    hide *;
    if Covered(st) {
      OpensCovered(c, st, packer);
    } else {
      FailsUncovered(c, st, packer);
    }
  }

  // ----- runs of calls, with any flags and any data

  /** Every call of the run is within the machine's limits. */
  predicate RunSized(c: Codecs, st: State, ops: seq<Op>)
    decreases |ops|
  {
    ops != [] ==> OpFits(c, st, ops[0]) && RunSized(c, Apply(c, st, ops[0]), ops[1..])
  }

  /** How many more files a call flags as having data than it adds contents. */
  function Surplus(op: Op): int {
    match op
    case PushBytes(e, data) => if !e.isDirectory && data == [] then 1 else 0
    case PushSolid(es, _) => |F.WithStreams(es)| - |es|
    case _ => 0
  }

  function TotalSurplus(ops: seq<Op>): int {
    if ops == [] then 0 else Surplus(ops[0]) + TotalSurplus(ops[1..])
  }

  /** Files flagged as having data for which there are no contents. */
  function Owed(st: State): int {
    |F.WithStreams(st.records.files)| - |Flatten(st.datas)|
  }

  lemma OwedGrows(st: State, st': State, es: seq<Entry>, ds: seq<bytes>)
    requires st'.records.files == st.records.files + es
    requires Flatten(st'.datas) == Flatten(st.datas) + ds
    ensures Owed(st') == Owed(st) + |F.WithStreams(es)| - |ds|
  {
    hide F.WithStreams, Flatten;
    F.FilterSplit(st'.records.files, |st.records.files|);
    assert st'.records.files[..|st.records.files|] == st.records.files && st'.records.files[|st.records.files|..] == es;
  }

  lemma OneStream(e: Entry)
    ensures |F.WithStreams([e])| == if e.hasStream then 1 else 0
  {
    assert F.WithStreams([e]) == (if e.hasStream then [e] else []) + F.WithStreams([]);
  }

  lemma BlockStored(c: Codecs, st: State, b: BlockInfo, es: seq<Entry>, ds: seq<bytes>)
    requires Stored(c, st) && BlockFits(c, st, Flatten(ds), |es|) && |es| == |ds|
    requires b.methods == st.methods
    requires BlockHolds(c, b, ds, AsU64(|Packed(c, st.methods, Flatten(ds))|), c.crc(Packed(c, st.methods, Flatten(ds))))
    ensures var st' := AddBlock(c, st, b, Flatten(ds), es, ds);
            Stored(c, st') && Owed(st') == Owed(st) + |F.WithStreams(es)| - |ds|
  {
    hide BlockHolds, BytesHold, TablesHold, Packed, Stage, Splice, Flatten, Owed;
    StageFits(c, st, Flatten(ds), |es|);
    RowCounts(c, st);
    TablesGrow(c, st, b, Flatten(ds), es, ds);
    BytesGrow(c, st, b, Flatten(ds), es, ds);
    FlattenSnoc(st.datas, ds);
    OwedGrows(st, AddBlock(c, st, b, Flatten(ds), es, ds), es, ds);
    FewerFiles(c, st, Flatten(ds), |es|);
  }

  lemma FewerFiles(c: Codecs, st: State, x: bytes, files: nat)
    requires BlockFits(c, st, x, files)
    ensures |st.records.files| + files < U64_LIMIT
  {
  }

  lemma FileStored(c: Codecs, st: State, e: Entry)
    requires Stored(c, st) && |st.records.files| + 1 < U64_LIMIT
    ensures Stored(c, WithFile(st, e)) && Owed(WithFile(st, e)) == Owed(st) + if e.hasStream then 1 else 0
  {
    hide BlockHolds, PackedBlocks, Flatten, F.WithStreams, Owed;
    assert Flatten(st.datas) == Flatten(st.datas) + [];
    OwedGrows(st, WithFile(st, e), [e], []);
    OneStream(e);
  }

  lemma SingleStored(c: Codecs, st: State, e: Entry, x: bytes)
    requires Stored(c, st) && BlockFits(c, st, x, 1)
    ensures var st' := AddBlock(c, st, SingleBlock(c, st.methods, x), x, [Streamed(c, e, x)], [x]);
            Stored(c, st') && Owed(st') == Owed(st)
  {
    hide Stored, BlockFits, BlockHolds, AddBlock, EntriesHold, Owed, F.WithStreams;
    FlattenOne(x);
    SingleHolds(c, st, e, x);
    BlockStored(c, st, SingleBlock(c, st.methods, x), [Streamed(c, e, x)], [x]);
    OneStream(Streamed(c, e, x));
  }

  lemma {:induction false} SameCount(es: seq<Entry>, others: seq<Entry>)
    requires |es| == |others| && forall i :: 0 <= i < |es| ==> es[i].hasStream == others[i].hasStream
    ensures |F.WithStreams(es)| == |F.WithStreams(others)|
  {
    if es != [] {
      SameCount(es[1..], others[1..]);
    }
  }

  lemma SolidStored(c: Codecs, st: State, es: seq<Entry>, ds: seq<bytes>)
    requires Stored(c, st) && |es| == |ds| && BlockFits(c, st, Flatten(ds), |es|)
    ensures Stored(c, AddSolid(c, st, es, ds)) && Owed(AddSolid(c, st, es, ds)) == Owed(st) + |F.WithStreams(es)| - |es|
  {
    hide Stored, BlockFits, BlockHolds, AddBlock, EntriesHold, Owed, F.WithStreams;
    SolidHolds(c, st, es, ds);
    BlockStored(c, st, SolidBlock(c, st.methods, ds), SolidEntries(c, es, ds), ds);
    SameCount(es, SolidEntries(c, es, ds));
  }

  lemma SettingStored(c: Codecs, st: State, st': State)
    requires Stored(c, st)
    requires st'.records.(comment := None) == st.records.(comment := None)
    requires st'.out == st.out && st'.pos == st.pos && st'.datas == st.datas
    ensures Stored(c, st') && Owed(st') == Owed(st)
  {
    hide BlockHolds, PackedBlocks;
  }

  /** Whatever its flags and data, a call that fits keeps the tables and the bytes in order. */
  lemma StepStored(c: Codecs, st: State, op: Op)
    requires Stored(c, st) && OpFits(c, st, op)
    ensures Stored(c, Apply(c, st, op)) && Owed(Apply(c, st, op)) == Owed(st) + Surplus(op)
  {
    hide Stored, BlockFits, SingleBlock, AddBlock, AddSolid, Owed, F.WithStreams;
    match op
    case PushEntry(e, data) =>
      if !e.isDirectory && data.Some? {
        SingleStored(c, st, e, data.value);
      } else {
        FileStored(c, st, e.(hasStream := false, size := 0, hasCrc := false));
      }
    case PushBytes(e, data) =>
      if e.isDirectory || data == [] {
        FileStored(c, st, e.(hasStream := !e.isDirectory && data == [], size := 0, hasCrc := false));
      } else {
        SingleStored(c, st, e, data);
      }
    case PushSolid(es, ds) => SolidStored(c, st, es, ds);
    case PushParallel(es, ds) =>
      if es == [] {
        SettingStored(c, st, st);
      } else {
        SolidStored(c, st, Flagged(es), ds);
        AllCounted(Flagged(es));
      }
    case SetMethods(_) => SettingStored(c, st, Apply(c, st, op));
    case SetEncryptHeader(_) => SettingStored(c, st, Apply(c, st, op));
    case SetComment(_) => SettingStored(c, st, Apply(c, st, op));
    case ClearComment => SettingStored(c, st, Apply(c, st, op));
  }

  lemma AllCounted(es: seq<Entry>)
    requires forall e :: e in es ==> e.hasStream
    ensures |F.WithStreams(es)| == |es|
  {
    AllStreams(es);
  }

  lemma {:induction false} RunStored(c: Codecs, st: State, ops: seq<Op>)
    requires Stored(c, st) && RunSized(c, st, ops)
    ensures AllMatched(ops)
    ensures Stored(c, Run(c, st, ops)) && Owed(Run(c, st, ops)) == Owed(st) + TotalSurplus(ops)
    decreases |ops|
  {
    hide Stored, OpFits, Apply, Owed, Surplus, Matched;
    if ops != [] {
      StepStored(c, st, ops[0]);
      FitsMatched(c, st, ops[0]);
      RunStored(c, Apply(c, st, ops[0]), ops[1..]);
    }
  }

  lemma FitsMatched(c: Codecs, st: State, op: Op)
    requires OpFits(c, st, op)
    ensures Matched(op)
  {
  }

  lemma FreshStored(methods: Methods, c: Codecs)
    ensures Stored(c, Fresh(methods)) && Owed(Fresh(methods)) == 0
  {
    assert Flatten<bytes>([]) == [];
  }

  /** For every run of calls, however its entries are flagged and whatever is pushed for them:
      the finished archive opens if and only if the pushes of nothing for a file through the
      call for bytes are no more than the entries of solid pushes not flagged as having data. */
  lemma RunOpensIff(c: Codecs, methods: Methods, ops: seq<Op>, packer: Method)
    requires c.Inverts() && RunSized(c, Fresh(methods), ops)
    ensures AllMatched(ops)
    ensures var st := Run(c, Fresh(methods), ops);
            && CountsFit(st.records) && st.pos >= SIGNATURE_HEADER_SIZE
            && (Finishable(c, st, packer) ==>
                  var r := ReadArchive(c, Finished(c, st, packer));
                  (r.Ok? <==> TotalSurplus(ops) <= 0) && (r.Err? ==> r == Err(Panic)))
  {
    hide *;
    FreshStored(methods, c);
    RunStored(c, Fresh(methods), ops);
    var st := Run(c, Fresh(methods), ops);
    StoredCounts(c, st);
    OwedIsUncovered(st);
    if Finishable(c, st, packer) {
      OpensIffCovered(c, st, packer);
    }
  }

  lemma OwedIsUncovered(st: State)
    ensures Covered(st) <==> Owed(st) <= 0
  {
  }

  // ----- runs whose solid entries are flagged

  predicate EmptyPush(op: Op) {
    op.PushBytes? && !op.entry.isDirectory && op.bytes == []
  }

  predicate SolidFlagged(op: Op) {
    op.PushSolid? ==> forall e :: e in op.entries ==> e.hasStream
  }

  lemma {:induction false} SurplusOfFlagged(ops: seq<Op>)
    requires forall op :: op in ops ==> SolidFlagged(op)
    ensures TotalSurplus(ops) >= 0
    ensures TotalSurplus(ops) <= 0 <==> forall op :: op in ops ==> !EmptyPush(op)
  {
    hide F.WithStreams;
    if ops != [] {
      SurplusOfFlagged(ops[1..]);
      assert ops[0] in ops && ops == [ops[0]] + ops[1..];
      if ops[0].PushSolid? {
        AllCounted(ops[0].entries);
      }
    }
  }

  /** A run within the limits, with solid entries flagged and no empty push, meets all the
      conditions of its calls. */
  lemma {:induction false} SizedAndProper(c: Codecs, st: State, ops: seq<Op>)
    requires RunSized(c, st, ops) && forall op :: op in ops ==> SolidFlagged(op) && !EmptyPush(op)
    ensures RunFits(c, st, ops)
    decreases |ops|
  {
    hide OpFits, Apply;
    if ops != [] {
      assert ops[0] in ops;
      FitsMatched(c, st, ops[0]);
      SizedAndProper(c, Apply(c, st, ops[0]), ops[1..]);
    }
  }
}
