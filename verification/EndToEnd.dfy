/** From the pushes to the files read back: whatever was pushed in a run of calls, solid or
    not, is what a reader of the finished archive hands out, each file exactly once. */
module EndToEnd {
  import opened Wire
  import opened Repeats
  import opened Blocks
  import opened UnpackInfos
  import opened SubStreams
  import opened FilesInfos
  import opened StreamMaps
  import opened Headers
  import opened Chains
  import opened Codecs
  import opened StartHeaders
  import opened Writers
  import opened Finishing
  import opened Archives
  import opened ArchiveRoundTrip
  import opened ArchiveReaders
  import PackInfos
  import F = FilesRoundTrip
  import H = HeaderRoundTrip

  /** What was pushed for file `i`: the contents are in order of the files with data. */
  function ContentOf(st: State, i: nat): bytes
    requires i < |st.records.files|
  {
    var k, flat := Streams(HasStreams(st.records.files), i), Flatten(st.datas);
    if st.records.files[i].hasStream && k < |flat| then flat[k] else []
  }

  function ContentsOf(st: State): (r: seq<bytes>)
    ensures |r| == |st.records.files|
  {
    seq(|st.records.files|, i requires 0 <= i < |st.records.files| => ContentOf(st, i))
  }

  lemma {:induction false} FlatIndex<T>(parts: seq<seq<T>>, b: nat, j: nat)
    requires b < |parts| && j < |parts[b]|
    ensures |Flatten(parts[..b])| + j < |Flatten(parts)|
    ensures Flatten(parts)[|Flatten(parts[..b])| + j] == parts[b][j]
  {
    if b > 0 {
      FlatIndex(parts[1..], b - 1, j);
      assert parts[..b][1..] == parts[1..][..b - 1];
    }
  }

  /** The record of a file with data says how long its content is and what its CRC is. */
  lemma RecordOf(c: Codecs, st: State, i: nat)
    requires FilesHold(c, st.records.files, st.datas) && i < |st.records.files|
    ensures FileDescribes(c, F.AllRecovered(st.records.files)[i], ContentOf(st, i))
    ensures st.records.files[i].hasStream ==> Streams(HasStreams(st.records.files), i) < |Flatten(st.datas)|
  {
    hide F.WithStreams;
    var files := st.records.files;
    H.StreamsOfFiles(files, i);
    F.NthFiltered(files, i);
    var k := Streams(HasStreams(files), i);
    if files[i].hasStream {
      assert k < |F.StreamSizes(files)| && F.StreamSizes(files)[k] == files[i].size;
      assert F.StreamCrcs(files)[k] == files[i].crc;
    }
  }

  // ----- the reopened archive, part by part

  lemma Parts(c: Codecs, st: State)
    requires H.HeaderFits(st.records)
    ensures var a, r := Reopened(c, st), st.records;
            && a.pack == H.ExpectedPack(r) && a.blocks == CountedBlocks(r.blocks) && |a.blocks| == |r.blocks|
            && a.sub == Some(ExpectedSub(r.blocks)) && a.files == F.AllRecovered(r.files)
            && a.isSolid == AnySolid(a.blocks)
            && MapOf(CountedBlocks(r.blocks), H.ExpectedPack(r).sizes, F.AllRecovered(r.files)) == Ok(a.streams)
  {
    hide H.HeaderFits, MapOf, AnySolid, F.AllRecovered, ExpectedSub;
    H.MapSucceeds(st.records);
  }

  lemma BlockIs(blocks: seq<BlockInfo>, b: nat)
    requires b < |blocks|
    ensures CountedBlocks(blocks)[b] == Made(blocks[b].methods, blocks[b].sizes, blocks[b].numSub)
  {
  }

  /** The columns of the stream map. */
  lemma MapIs(c: Codecs, st: State)
    requires Stored(c, st) && H.HeaderFits(st.records)
    ensures var a, counts, has := Reopened(c, st), Counts(st.records.blocks), HasStreams(st.records.files);
            var packs := seq(|counts|, i => true);
            && WalkTo(counts, packs, has, |has|).Ok?
            && a.streams.blockFirstPack == Offsets(Ones(|counts|)) && a.streams.packOffsets == Offsets(st.records.packSizes)
            && a.streams.blockFirstFile == Firsts(counts, packs, has)
            && a.streams.fileBlock == WalkTo(counts, packs, has, |has|).value.map0
  {
    hide H.HeaderFits, F.AllRecovered, ExpectedSub, WalkTo, Offsets, Counts, CountedBlocks, TablesHold, BytesHold;
    var r := st.records;
    Parts(c, st);
    H.MapSucceeds(r);
    H.CountsOfBlocks(r.blocks);
    H.SameStreams(r.files);
    H.AllPacksInTable(|r.blocks|);
    PackSizesKept(c, st);
  }

  /** The files with data take up all the room in the blocks. */
  lemma Fills(c: Codecs, st: State)
    requires Inv(c, st) && H.HeaderFits(st.records)
    ensures var counts, has := Counts(st.records.blocks), HasStreams(st.records.files);
            Complete(counts, seq(|counts|, i => true), has)
    ensures Stored(c, st)
  {
    hide H.HeaderFits, TablesHold, BytesHold, FilesHold, Settled, WalkTo, Counts;
    StoredParts(c, st);
    H.MapSucceeds(st.records);
    RecordsDescribe(c, st);
    H.CountsOfBlocks(st.records.blocks);
  }

  lemma PackSizesKept(c: Codecs, st: State)
    requires Stored(c, st)
    ensures H.ExpectedPack(st.records).sizes == st.records.packSizes && H.ExpectedPack(st.records).pos == 0
    ensures |st.records.packSizes| == |st.records.blocks| == |Counts(st.records.blocks)|
  {
    hide BlockHolds, BytesHold;
  }

  function AllIn(n: nat): (r: seq<bool>) {
    seq(n, i => true)
  }

  /** The number of files in a block is the number of contents pushed for it. */
  lemma CountIs(c: Codecs, st: State, b: nat)
    requires Stored(c, st) && b < |st.records.blocks|
    ensures |st.datas| == |st.records.blocks|
    ensures Counts(st.records.blocks)[b] == |st.datas[b]|
    ensures Before(Counts(st.records.blocks), b) == |Flatten(st.datas[..b])|
  {
    hide BlockHolds, BytesHold;
    var r := st.records;
    CountsOfContents(c, r, st.datas, b);
    CountOfBlock(c, r.blocks[b], st.datas[b], r.packSizes[b], r.packCrcs[b]);
  }

  /** The `j`th file the reader takes for block `b`. */
  lemma NthOfBlock(c: Codecs, st: State, b: nat, j: nat)
    requires Inv(c, st) && b < |st.records.blocks| == |st.datas| && j < |st.datas[b]|
    requires Complete(Counts(st.records.blocks), AllIn(|st.records.blocks|), HasStreams(st.records.files))
    ensures var i := Firsts(Counts(st.records.blocks), AllIn(|st.records.blocks|), HasStreams(st.records.files))[b] + j;
            i < |st.records.files| && st.records.files[i].hasStream && ContentsOf(st)[i] == st.datas[b][j]
  {
    hide WalkTo, Settled, TablesHold, BytesHold, FilesHold, Before, Streams, Counts, Firsts;
    StoredParts(c, st);
    CountIs(c, st, b);
    RangeIsBlock(Counts(st.records.blocks), AllIn(|st.records.blocks|), HasStreams(st.records.files), b, j);
    FlatIndex(st.datas, b, j);
  }

  /** The files the reader takes for block `b` hold exactly what was pushed for it. */
  lemma BlockRange(c: Codecs, st: State, b: nat)
    requires Inv(c, st) && b < |st.records.blocks| == |st.datas|
    requires Complete(Counts(st.records.blocks), AllIn(|st.records.blocks|), HasStreams(st.records.files))
    ensures var start := Firsts(Counts(st.records.blocks), AllIn(|st.records.blocks|), HasStreams(st.records.files))[b];
            var end := start + |st.datas[b]|;
            && end <= |st.records.files|
            && ContentsOf(st)[start..end] == st.datas[b]
            && forall i :: start <= i < end ==> st.records.files[i].hasStream
  {
    hide Inv, WalkTo, Counts, Firsts, ContentsOf;
    var counts, packs, has := Counts(st.records.blocks), AllIn(|st.records.blocks|), HasStreams(st.records.files);
    FirstWithin(counts, packs, has, b);
    var start := Firsts(counts, packs, has)[b];
    if st.datas[b] != [] {
      NthOfBlock(c, st, b, |st.datas[b]| - 1);
    }
    forall i | start <= i < start + |st.datas[b]|
      ensures st.records.files[i].hasStream && ContentsOf(st)[i] == st.datas[b][i - start]
    {
      NthOfBlock(c, st, b, i - start);
    }
  }

  lemma FirstWithin(counts: seq<nat>, packs: seq<bool>, has: seq<bool>, b: nat)
    requires |counts| == |packs| && Complete(counts, packs, has) && b < |counts|
    ensures Firsts(counts, packs, has)[b] <= |has|
  {
    FirstsInList(counts, packs, has, |has|, b);
  }

  /** The bytes the reader hands to block `b`'s coders are the ones its chain emitted. */
  predicate PackedAt(c: Codecs, st: State, b: nat, data: bytes) {
    && b < |st.records.blocks| == |st.records.packSizes| == |st.datas|
    && var from := SIGNATURE_HEADER_SIZE + Sum(st.records.packSizes[..b]);
    && from < U64_LIMIT
    && Window(data, from, st.records.packSizes[b]) == Packed(c, st.records.blocks[b].methods, Flatten(st.datas[b]))
  }

  lemma PackedFound(c: Codecs, st: State, packer: Method, b: nat)
    requires st.pos >= SIGNATURE_HEADER_SIZE && CountsFit(st.records) && b < |st.records.blocks|
    requires Stored(c, st)
    ensures PackedAt(c, st, b, Finished(c, st, packer))
  {
    hide Stored, Finished, Packed, Sum, Body, PutSignatureHeader, EncodedHeader, EncodedData, PutHeader, BytesHold, HeaderMethods, Flatten, Window;
    InvParts(c, st);
    PackedBytes(c, st, b);
    Layout(c, st, packer);
    PosBound(c, st);
    var ms, raw := HeaderMethods(st, packer), PutHeader(st.records);
    var data, header := EncodedData(c, ms, raw), EncodedHeader(c, ms, AsU64(st.pos - SIGNATURE_HEADER_SIZE), raw);
    var front := PutSignatureHeader(c.crc, AsU64(st.pos + |data| - SIGNATURE_HEADER_SIZE), |header|, c.crc(header));
    WindowIn(front, Body(st), data + header, Sum(st.records.packSizes[..b]), st.records.packSizes[b]);
    Cat2(Body(st), data, header);
  }

  lemma WindowIn(front: bytes, body: bytes, rest: bytes, off: nat, n: nat)
    requires off + n <= |body|
    ensures Window(front + (body + rest), |front| + off, n) == body[off..off + n]
  {
  }

  lemma PosBound(c: Codecs, st: State)
    requires Stored(c, st)
    ensures st.pos < U64_LIMIT
  {
  }

  // ----- opening a block of the reopened archive

  lemma {:induction false} SumSubIs(blocks: seq<BlockInfo>, b: nat)
    requires b <= |blocks|
    ensures SumSub(CountedBlocks(blocks)[..b]) == Before(Counts(blocks), b)
  {
    hide CountedBlocks, Counts;
    if b > 0 {
      SumSubIs(blocks, b - 1);
      CountedIs(blocks, b - 1);
      assert CountedBlocks(blocks)[..b] == CountedBlocks(blocks)[..b - 1] + [CountedBlocks(blocks)[b - 1]];
      SumSubSnoc(CountedBlocks(blocks)[..b - 1], CountedBlocks(blocks)[b - 1]);
    }
  }

  lemma CountedIs(blocks: seq<BlockInfo>, b: nat)
    requires b < |blocks|
    ensures |CountedBlocks(blocks)| == |blocks| && CountedBlocks(blocks)[b].numSub == Counts(blocks)[b]
  {
  }

  lemma CrcsAre(c: Codecs, st: State)
    requires Stored(c, st)
    ensures ExpectedSub(st.records.blocks).crcs == Crcs(c, Flatten(st.datas))
    ensures |ExpectedSub(st.records.blocks).hasCrc| == |Flatten(st.datas)|
  {
    hide BlockHolds, BytesHold, FlatCrcs, FlatSizes;
    FlatRows(c, st.records, st.datas);
  }

  /** The only file of a block lends it its CRC. */
  lemma LentCrc(c: Codecs, st: State, a: Archive, b: nat)
    requires Stored(c, st) && b < |st.records.blocks| == |st.datas|
    requires a.blocks == CountedBlocks(st.records.blocks) && |a.blocks| == |st.records.blocks|
    requires a.sub == Some(ExpectedSub(st.records.blocks))
    ensures BlockCrc(a, b).Ok?
    ensures BlockCrc(a, b).value.0 ==> BlockCrc(a, b).value.1 == c.crc(Flatten(st.datas[b]))
  {
    hide Stored, CountedBlocks, Counts, ExpectedSub, SumSub;
    BlockIs(st.records.blocks, b);
    CountIs(c, st, b);
    CountedIs(st.records.blocks, b);
    SumSubIs(st.records.blocks, b);
    CrcsAre(c, st);
    if a.blocks[b].numSub == 1 {
      FlatIndex(st.datas, b, 0);
      FlattenOne(st.datas[b][0]);
      assert st.datas[b] == [st.datas[b][0]];
    }
  }

  lemma RecordedSizes(c: Codecs, st: State, b: nat)
    requires Stored(c, st) && b < |st.records.blocks| == |st.datas|
    ensures st.records.blocks[b].sizes == StageSizes(c, st.records.blocks[b].methods, Flatten(st.datas[b]))
  {
    hide BytesHold, StageSizes;
  }

  /** The block's coders undo its chain, and its recorded size is that of what was pushed. */
  lemma BlockDecodes(c: Codecs, st: State, b: nat)
    requires c.Inverts() && Stored(c, st) && b < |st.records.blocks| == |st.datas|
    ensures var x, info := Flatten(st.datas[b]), st.records.blocks[b];
            var block := Made(info.methods, info.sizes, info.numSub);
            var r := DecodeBlock(c, block, Packed(c, info.methods, x));
            && block.Sized() && UnpackSize(block) == |x| && block.totalIn == block.totalOut
            && r.Ok? && x <= r.value
  {
    hide Stored, Packed, DecodeBlock, UnpackSize, Flatten, StageSizes;
    var x, info := Flatten(st.datas[b]), st.records.blocks[b];
    RecordedSizes(c, st, b);
    LastStage(c, info.methods, x);
    ChainUnpackSize(info.methods, info.sizes, info.numSub);
    UnpackPacked(c, info.methods, info.sizes, info.numSub, x, []);
    assert Packed(c, info.methods, x) + [] == Packed(c, info.methods, x);
  }

  /** What opening block `b` gives. */
  predicate Opens(c: Codecs, st: State, b: nat, r: Result<BlockStream>)
    requires b < |st.datas|
  {
    && r.Ok? && Flatten(st.datas[b]) <= r.value.decoded && r.value.size == |Flatten(st.datas[b])|
    && (r.value.hasCrc ==> r.value.crc == c.crc(Flatten(st.datas[b])))
  }

  /** The tables of an archive, but for its files and where they lie, are those recorded. */
  predicate Tabled(st: State, a: Archive) {
    && a.pack.pos == 0 && a.pack.sizes == st.records.packSizes
    && |a.blocks| == |st.records.blocks| && a.blocks == CountedBlocks(st.records.blocks)
    && a.sub == Some(ExpectedSub(st.records.blocks))
    && a.streams.blockFirstPack == Offsets(Ones(|st.records.blocks|))
    && a.streams.packOffsets == Offsets(st.records.packSizes)
  }

  lemma ReopenedTabled(c: Codecs, st: State)
    requires Stored(c, st) && H.HeaderFits(st.records)
    ensures Tabled(st, Reopened(c, st))
  {
    hide Stored, H.HeaderFits, Reopened, CountedBlocks, ExpectedSub, MapOf, WalkTo, H.ExpectedPack, Firsts;
    Parts(c, st);
    MapIs(c, st);
    PackSizesKept(c, st);
  }

  lemma BlockOpens(c: Codecs, st: State, a: Archive, b: nat, data: bytes)
    requires c.Inverts() && Stored(c, st) && Tabled(st, a)
    requires b < |st.records.blocks| == |st.datas| && PackedAt(c, st, b, data)
    ensures Opens(c, st, b, OpenBlock(c, data, a, b))
  {
    hide Stored, CountedBlocks, ExpectedSub, DecodeBlock, Packed, UnpackSize, BlockCrc, Window, Sum, Flatten;
    var info := st.records.blocks[b];
    BlockIs(st.records.blocks, b);
    LentCrc(c, st, a, b);
    BlockDecodes(c, st, b);
    FirstPack(|st.records.blocks|, b);
  }

  lemma FirstPack(n: nat, b: nat)
    requires b < n
    ensures Offsets(Ones(n))[b] == b
  {
    H.SumOfOnes(n, b);
  }

  // ----- every block delivers, and the map leads to every file

  lemma FilesDescribed(c: Codecs, st: State)
    requires Inv(c, st)
    ensures forall i :: 0 <= i < |st.records.files| ==> FileDescribes(c, F.AllRecovered(st.records.files)[i], ContentsOf(st)[i])
  {
    hide FileDescribes, TablesHold, BytesHold, FilesHold, Settled, F.AllRecovered;
    forall i | 0 <= i < |st.records.files|
      ensures FileDescribes(c, F.AllRecovered(st.records.files)[i], ContentsOf(st)[i])
    {
      RecordOf(c, st, i);
    }
  }

  /** The files the archive has in the range of block `b` are those pushed into it. */
  predicate HoldsFiles(c: Codecs, st: State, a: Archive, b: nat, contents: seq<bytes>)
    requires b < |st.datas|
  {
    && |contents| == |a.files| && b < |a.streams.blockFirstFile|
    && var start, end := a.streams.blockFirstFile[b], a.streams.blockFirstFile[b] + |st.datas[b]|;
    && end <= |a.files| && contents[start..end] == st.datas[b]
    && forall i :: start <= i < end ==> FileDescribes(c, a.files[i], contents[i])
  }

  /** A block delivers its files if they are those pushed into it. */
  lemma DeliversFiles(c: Codecs, st: State, a: Archive, b: nat, data: bytes, contents: seq<bytes>)
    requires c.Inverts() && Stored(c, st) && Tabled(st, a)
    requires b < |st.records.blocks| == |st.datas| && PackedAt(c, st, b, data)
    requires HoldsFiles(c, st, a, b, contents)
    ensures BlockDelivers(c, data, a, b, contents)
  {
    hide Stored, OpenBlock, CountedBlocks, Counts, FileDescribes, Flatten, PackedAt, ExpectedSub;
    BlockOpens(c, st, a, b, data);
    CountIs(c, st, b);
    CountedIs(st.records.blocks, b);
  }

  lemma DeliversBlock(c: Codecs, st: State, b: nat, data: bytes)
    requires c.Inverts() && Inv(c, st) && H.HeaderFits(st.records)
    requires b < |st.records.blocks| == |st.datas| && PackedAt(c, st, b, data)
    ensures |Reopened(c, st).blocks| == |st.records.blocks| && BlockDelivers(c, data, Reopened(c, st), b, ContentsOf(st))
  {
    hide Inv, Stored, H.HeaderFits, Reopened, CountedBlocks, WalkTo, Counts, Firsts, ContentsOf, FileDescribes, Flatten, PackedAt,
      Complete, MapOf;
    Fills(c, st);
    Parts(c, st);
    MapIs(c, st);
    ReopenedTabled(c, st);
    BlockRange(c, st, b);
    FilesDescribed(c, st);
    DeliversFiles(c, st, Reopened(c, st), b, data, ContentsOf(st));
  }

  /** All blocks of the reopened archive deliver the contents that were pushed. */
  lemma AllDelivers(c: Codecs, st: State, data: bytes)
    requires c.Inverts() && Inv(c, st) && H.HeaderFits(st.records)
    requires forall b :: 0 <= b < |st.records.blocks| ==> PackedAt(c, st, b, data)
    ensures Delivers(c, data, Reopened(c, st), ContentsOf(st))
  {
    hide Inv, H.HeaderFits, Reopened, ContentOf, PackedAt, BlockDelivers, WalkTo, MapOf, F.AllRecovered, CountedBlocks;
    var a := Reopened(c, st);
    Parts(c, st);
    Fills(c, st);
    MapIs(c, st);
    RowsOf(c, st);
    forall b | 0 <= b < |a.blocks|
      ensures BlockDelivers(c, data, a, b, ContentsOf(st))
    {
      DeliversBlock(c, st, b, data);
    }
    NoStreamNoContent(st);
  }

  lemma RowsOf(c: Codecs, st: State)
    requires Inv(c, st)
    ensures |st.records.blocks| == |st.datas|
  {
  }

  lemma NoStreamNoContent(st: State)
    ensures forall i :: 0 <= i < |st.records.files| && !F.AllRecovered(st.records.files)[i].hasStream ==> ContentsOf(st)[i] == []
  {
  }

  /** The walk puts a file with data into the range of its own block. */
  lemma WalkLeads(c: Codecs, st: State, i: nat)
    requires Inv(c, st) && i < |st.records.files| && st.records.files[i].hasStream
    requires var counts := Counts(st.records.blocks); Complete(counts, AllIn(|counts|), HasStreams(st.records.files))
    ensures var counts, has := Counts(st.records.blocks), HasStreams(st.records.files);
            var b := WalkTo(counts, AllIn(|counts|), has, |has|).value.map0[i];
            b.Some? && b.value < |counts| && Covers(counts, Firsts(counts, AllIn(|counts|), has), b.value, i)
  {
    hide WalkTo, Counts, Settled, TablesHold, BytesHold, FilesHold, Firsts, Before, Streams;
    var counts, has := Counts(st.records.blocks), HasStreams(st.records.files);
    var packs := AllIn(|counts|);
    MapAt(counts, packs, has, i);
    CoversBelongs(counts, packs, has, WalkTo(counts, packs, has, |has|).value.map0[i].value, i);
  }

  lemma LeadsToBlock(c: Codecs, st: State, i: nat)
    requires Inv(c, st) && H.HeaderFits(st.records) && i < |st.records.files| && st.records.files[i].hasStream
    ensures var a := Reopened(c, st);
            && |a.streams.fileBlock| == |a.files| == |st.records.files| && |a.blocks| <= |a.streams.blockFirstFile|
            && a.streams.fileBlock[i].Some? && Leads(a, i, a.streams.fileBlock[i].value)
  {
    hide H.HeaderFits, Reopened, WalkTo, MapOf, F.AllRecovered, CountedBlocks, Counts, Inv, Stored, Firsts, Complete;
    var a, counts, has := Reopened(c, st), Counts(st.records.blocks), HasStreams(st.records.files);
    assert AllIn(|counts|) == seq(|counts|, i => true);
    Fills(c, st);
    Parts(c, st);
    MapIs(c, st);
    WalkLeads(c, st, i);
    var b := a.streams.fileBlock[i].value;
    CountedIs(st.records.blocks, b);
    NotSolid(a.blocks, b);
  }

  lemma NotSolid(blocks: seq<SizedBlock>, b: nat)
    requires b < |blocks|
    ensures !AnySolid(blocks) ==> blocks[b].numSub <= 1
  {
  }

  lemma MapLeadsToAll(c: Codecs, st: State)
    requires Inv(c, st) && H.HeaderFits(st.records)
    ensures MapLeads(Reopened(c, st))
  {
    hide Inv, H.HeaderFits, Reopened, WalkTo, MapOf, CountedBlocks, Leads;
    var a := Reopened(c, st);
    Parts(c, st);
    Fills(c, st);
    MapIs(c, st);
    forall i | 0 <= i < |a.files| && a.files[i].hasStream
      ensures a.streams.fileBlock[i].Some? && Leads(a, i, a.streams.fileBlock[i].value)
    {
      LeadsToBlock(c, st, i);
    }
  }

  // ----- each file once

  /** How often file `i` is among the visits. */
  function Met(visits: seq<Visit>, i: nat): nat {
    if visits == [] then 0 else Met(visits[..|visits| - 1], i) + (if visits[|visits| - 1].file == i then 1 else 0)
  }

  lemma {:induction false} MetConcat(u: seq<Visit>, v: seq<Visit>, i: nat)
    ensures Met(u + v, i) == Met(u, i) + Met(v, i)
  {
    if v == [] {
      assert u + v == u;
    } else {
      MetConcat(u, v[..|v| - 1], i);
      assert (u + v)[..|u + v| - 1] == u + v[..|v| - 1];
    }
  }

  lemma {:induction false} MetInRange(contents: seq<bytes>, from: nat, to: nat, i: nat)
    requires from <= to <= |contents|
    ensures Met(ArchiveReaders.Visits(contents, from, to), i) == if from <= i < to then 1 else 0
  {
    if from < to {
      MetInRange(contents, from, to - 1, i);
      VisitsSnoc(contents, from, to - 1);
      var v := ArchiveReaders.Visits(contents, from, to);
      assert v[..|v| - 1] == ArchiveReaders.Visits(contents, from, to - 1);
    }
  }

  lemma {:induction false} MetInBlocks(a: Archive, contents: seq<bytes>, counts: seq<nat>, n: nat, i: nat)
    requires n <= |a.blocks| && InRange(a, |contents|)
    requires |counts| == |a.blocks| == |a.streams.blockFirstFile|
    requires forall b :: 0 <= b < |counts| ==> counts[b] == a.blocks[b].numSub
    ensures Met(AllBlockVisits(a, contents, n), i) == CoveringBlocks(counts, a.streams.blockFirstFile, n, i)
  {
    hide Met;
    if n > 0 {
      MetInBlocks(a, contents, counts, n - 1, i);
      MetConcat(AllBlockVisits(a, contents, n - 1), BlockVisits(a, contents, n - 1), i);
      MetInRange(contents, a.streams.blockFirstFile[n - 1], a.streams.blockFirstFile[n - 1] + a.blocks[n - 1].numSub, i);
    } else {
      NoneMet(i);
    }
  }

  lemma NoneMet(i: nat)
    ensures Met([], i) == 0
  {
  }

  lemma {:induction false} MetEmpty(a: Archive, n: nat, i: nat)
    requires n <= |a.streams.fileBlock|
    ensures Met(EmptyVisits(a, n), i) == if i < n && a.streams.fileBlock[i].None? then 1 else 0
  {
    if n > 0 {
      MetEmpty(a, n - 1, i);
      var last := if a.streams.fileBlock[n - 1].None? then [Visit(n - 1, [])] else [];
      MetConcat(EmptyVisits(a, n - 1), last, i);
      assert last != [] ==> last[..|last| - 1] == [];
    }
  }

  /** What a full traversal of the reopened archive hands out. */
  function Traversal(a: Archive, contents: seq<bytes>): seq<Visit>
    requires InRange(a, |contents|) && |a.files| <= |a.streams.fileBlock|
  {
    AllBlockVisits(a, contents, |a.blocks|) + EmptyVisits(a, |a.files|)
  }

  /** A traversal of an archive with the map of a walk meets files as the walk says. */
  lemma MetAsMapped(a: Archive, contents: seq<bytes>, counts: seq<nat>, w: Walk, i: nat)
    requires InRange(a, |contents|) && |a.files| <= |a.streams.fileBlock| && i < |a.files|
    requires |counts| == |a.blocks| && forall b :: 0 <= b < |counts| ==> counts[b] == a.blocks[b].numSub
    requires a.streams.blockFirstFile == w.first && a.streams.fileBlock == w.map0 && |w.first| == |counts|
    ensures Met(Traversal(a, contents), i) == StreamMaps.Visits(counts, w, i)
  {
    hide CoveringBlocks, Met, EmptyVisits, AllBlockVisits;
    MetConcat(AllBlockVisits(a, contents, |a.blocks|), EmptyVisits(a, |a.files|), i);
    MetInBlocks(a, contents, counts, |a.blocks|, i);
    MetEmpty(a, |a.files|, i);
  }

  lemma TraversalMeetsOnce(c: Codecs, st: State, i: nat)
    requires Inv(c, st) && H.HeaderFits(st.records) && i < |st.records.files|
    requires InRange(Reopened(c, st), |ContentsOf(st)|) && |Reopened(c, st).files| == |Reopened(c, st).streams.fileBlock|
    ensures Met(Traversal(Reopened(c, st), ContentsOf(st)), i) == 1
  {
    hide H.HeaderFits, Reopened, WalkTo, MapOf, F.AllRecovered, CountedBlocks, Counts, Settled, TablesHold, BytesHold, FilesHold,
      CoveringBlocks, Met, Traversal, Complete;
    var a, counts, has := Reopened(c, st), Counts(st.records.blocks), HasStreams(st.records.files);
    var packs := AllIn(|counts|);
    Parts(c, st);
    Fills(c, st);
    MapIs(c, st);
    assert packs == seq(|counts|, i => true);
    forall b | 0 <= b < |counts|
      ensures counts[b] == a.blocks[b].numSub
    {
      CountedIs(st.records.blocks, b);
    }
    CompleteWalk(counts, packs, has);
    VisitedOnceIffSettled(counts, packs, has);
    MetAsMapped(a, ContentsOf(st), counts, WalkTo(counts, packs, has, |has|).value, i);
    assert StreamMaps.Visits(counts, WalkTo(counts, packs, has, |has|).value, i) == 1;
  }

  lemma CompleteWalk(counts: seq<nat>, packs: seq<bool>, has: seq<bool>)
    requires |counts| == |packs| && Complete(counts, packs, has)
    ensures WalkTo(counts, packs, has, |has|).Ok?
    ensures Firsts(counts, packs, has) == WalkTo(counts, packs, has, |has|).value.first
  {
  }

  lemma OutsideBlocksIsEmpty(c: Codecs, st: State, i: nat)
    requires Inv(c, st) && H.HeaderFits(st.records) && i < |st.records.files|
    ensures |Reopened(c, st).streams.fileBlock| == |st.records.files|
    ensures Reopened(c, st).streams.fileBlock[i].None? ==> ContentsOf(st)[i] == []
  {
    hide H.HeaderFits, Reopened, WalkTo, MapOf, F.AllRecovered, CountedBlocks, Counts, Settled, TablesHold, BytesHold, FilesHold, Firsts,
      Before, Streams;
    var a, counts, has := Reopened(c, st), Counts(st.records.blocks), HasStreams(st.records.files);
    Parts(c, st);
    Fills(c, st);
    MapIs(c, st);
    MapAt(counts, seq(|counts|, i => true), has, i);
  }

  /** Every visit of a full traversal carries the content that was pushed for its file. */
  predicate AllRight(visits: seq<Visit>, contents: seq<bytes>) {
    forall v :: v in visits ==> v.file < |contents| && v.data == contents[v.file]
  }

  lemma {:induction false} BlockVisitsRight(a: Archive, contents: seq<bytes>, n: nat)
    requires n <= |a.blocks| && InRange(a, |contents|)
    ensures AllRight(AllBlockVisits(a, contents, n), contents)
  {
    if n > 0 {
      BlockVisitsRight(a, contents, n - 1);
    }
  }

  lemma {:induction false} EmptyVisitsRight(a: Archive, contents: seq<bytes>, n: nat)
    requires n <= |contents| <= |a.streams.fileBlock|
    requires forall i :: 0 <= i < |contents| && a.streams.fileBlock[i].None? ==> contents[i] == []
    ensures AllRight(EmptyVisits(a, n), contents)
  {
    if n > 0 {
      EmptyVisitsRight(a, contents, n - 1);
    }
  }

  // ----- the results

  /** The archive opens to the files recorded; draining everything in it meets each file
      once, with what was pushed for it; and its name index finds each file. */
  ghost predicate ReadsBack(c: Codecs, st: State, data: bytes) {
    && ReadArchive(c, data).Ok?
    && var a, contents := ReadArchive(c, data).value, ContentsOf(st);
    && a.files == F.AllRecovered(st.records.files) && a.comment == st.records.comment
    && Delivers(c, data, a, contents) && MapLeads(a)
    && InRange(a, |contents|)
    && AllRight(Traversal(a, contents), contents)
    && forall i :: 0 <= i < |a.files| ==> Met(Traversal(a, contents), i) == 1
  }

  lemma FinishedReadsBack(c: Codecs, st: State, packer: Method)
    requires c.Inverts() && Inv(c, st) && CountsFit(st.records) && st.pos >= SIGNATURE_HEADER_SIZE && Finishable(c, st, packer)
    ensures ReadsBack(c, st, Finished(c, st, packer))
  {
    hide Inv, H.HeaderFits, Reopened, Finished, Delivers, MapLeads, PackedAt, Finishable, ReadArchive, Met, AllRight, ContentsOf,
      EmptyVisits, AllBlockVisits;
    var data := Finished(c, st, packer);
    ArchiveRoundTrip.RoundTrip(c, st, packer);
    StoredParts(c, st);
    var a := Reopened(c, st);
    RowsOf(c, st);
    forall b | 0 <= b < |st.records.blocks|
      ensures PackedAt(c, st, b, data)
    {
      PackedFound(c, st, packer, b);
    }
    AllDelivers(c, st, data);
    MapLeadsToAll(c, st);
    FilesOf(c, st);
    DeliversInRange(c, data, a, ContentsOf(st));
    DeliversLengths(c, data, a, ContentsOf(st));
    forall i | 0 <= i < |a.files|
      ensures Met(Traversal(a, ContentsOf(st)), i) == 1
    {
      TraversalMeetsOnce(c, st, i);
    }
    TraversalRight(c, st);
  }

  lemma FilesOf(c: Codecs, st: State)
    requires Inv(c, st) && H.HeaderFits(st.records)
    ensures Reopened(c, st).files == F.AllRecovered(st.records.files) && Reopened(c, st).comment == st.records.comment
  {
    hide Inv, H.HeaderFits, MapOf, AnySolid, F.AllRecovered, ExpectedSub;
    H.MapSucceeds(st.records);
  }

  lemma DeliversLengths(c: Codecs, data: bytes, a: Archive, contents: seq<bytes>)
    requires Delivers(c, data, a, contents)
    ensures |contents| == |a.files| == |a.streams.fileBlock|
  {
  }

  lemma TraversalRight(c: Codecs, st: State)
    requires Inv(c, st) && H.HeaderFits(st.records)
    requires InRange(Reopened(c, st), |ContentsOf(st)|) && |Reopened(c, st).files| == |Reopened(c, st).streams.fileBlock| == |ContentsOf(st)|
    ensures AllRight(Traversal(Reopened(c, st), ContentsOf(st)), ContentsOf(st))
  {
    hide Inv, H.HeaderFits, Reopened, EmptyVisits, AllBlockVisits, ContentOf;
    var a, contents := Reopened(c, st), ContentsOf(st);
    forall i | 0 <= i < |contents| && a.streams.fileBlock[i].None?
      ensures contents[i] == []
    {
      OutsideBlocksIsEmpty(c, st, i);
    }
    BlockVisitsRight(a, contents, |a.blocks|);
    EmptyVisitsRight(a, contents, |a.files|);
  }
}
