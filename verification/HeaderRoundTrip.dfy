/** The header read back is the header written. */
module HeaderRoundTrip {
  import opened Wire
  import opened Repeats
  import opened Blocks
  import opened PackInfos
  import opened UnpackInfos
  import opened SubStreams
  import opened FilesInfos
  import opened StreamMaps
  import opened Headers
  import F = FilesRoundTrip
  import Sub = SubStreams
  import Unpack = UnpackInfos
  import VarInt

  // ----- the comment

  lemma {:induction false} UnitsRead(us: seq<u16>)
    ensures UnitsOf(PutUnits(us)) == us
    ensures |PutUnits(us)| == 2 * |us|
  {
    if us != [] {
      UnitsRead(us[1..]);
      var b := PutUnits(us);
      assert b == PutU16(us[0]) + PutUnits(us[1..]);
      assert b[..2] == PutU16(us[0]) && b[2..] == PutUnits(us[1..]);
      assert Pow256(2) == 0x1_0000;
      LeSmall(us[0], 2);
    }
  }

  lemma {:induction false} StopsAtZero(us: seq<u16>)
    requires 0 !in us
    ensures UpToZero(us + [0]) == us
  {
    if us != [] {
      assert us[0] in us;
      StopsAtZero(us[1..]);
      assert (us + [0])[1..] == us[1..] + [0];
    }
  }

  /** A comment without zero units whose length fits. */
  predicate CommentFits(c: Option<Comment>) {
    c.Some? ==> 0 !in c.value && 2 * (|c.value| + 1) < U64_LIMIT
  }

  lemma CommentReads(c: Comment, rest: bytes)
    requires CommentFits(Some(c))
    ensures GetArchiveProperties(None, PutComment(c)[1..] + rest) == Ok((Some(c), rest))
  {
    hide VarInt.Enc, VarInt.Dec, UnitsOf, PutUnits, UpToZero;
    var b := PutUnits(c + [0]);
    UnitsRead(c + [0]);
    var s3 := [K_END] + rest;
    var s2 := b + s3;
    var s1 := VarInt.Enc(|b|) + s2;
    StopsAtZero(c);
    assert PutComment(c)[1..] + rest == [K_COMMENT] + s1;
    GetU8Cons(K_COMMENT, s1);
    VarInt.RoundTrip(|b|, s2);
    GetExactAppend(b, s3);
    assert GetArchiveProperty(K_COMMENT, |b|, None, s2) == Ok((Some(c), s3));
    EndOfArchiveProperties(Some(c), rest);
  }

  lemma EndOfArchiveProperties(c: Option<Comment>, rest: bytes)
    ensures GetArchiveProperties(c, [K_END] + rest) == Ok((c, rest))
  {
    GetU8Cons(K_END, rest);
  }

  // ----- the streams part

  /** What the three stream tables must satisfy to be read back. */
  predicate StreamsFit(r: Records) {
    && CountsFit(r)
    && |r.packSizes| == |r.packCrcs|
    && (|r.packSizes| == 0 <==> |r.blocks| == 0)
    && Uniform(r.packCrcs)
    && AllSubOk(r.blocks)
  }

  function ExpectedPack(r: Records): PackTable {
    if |r.packSizes| > 0 then Expected(r.packPos, r.packSizes, r.packCrcs) else NO_PACK
  }

  function ExpectedStreams(r: Records): (PackTable, seq<SizedBlock>, Option<SubStreams>) {
    (ExpectedPack(r), CountedBlocks(r.blocks), Some(ExpectedSub(r.blocks)))
  }

  lemma StreamsInfoReads(r: Records, rest: bytes)
    requires StreamsFit(r)
    ensures GetStreamsInfo(PutStreamsInfo(r) + rest) == Ok((ExpectedStreams(r), rest))
  {
    if |r.packSizes| > 0 {
      TablesRead(r, rest);
    } else {
      NoTablesRead(r, rest);
    }
  }

  lemma SubPartReads(blocks: seq<BlockInfo>, rest: bytes)
    requires AllSubOk(blocks)
    ensures var s := PutSubStreams(blocks) + ([K_END] + rest);
            && s[0] == K_SUB_STREAMS_INFO
            && GetSubPart(K_SUB_STREAMS_INFO, AsBlocks(blocks), s[1..])
               == Ok(((CountedBlocks(blocks), Some(ExpectedSub(blocks)), K_END), rest))
  {
    hide GetSubStreams, AllSubOk, PutCounts, PutSubSizes, PutSubCrcs;
    var s := PutSubStreams(blocks) + ([K_END] + rest);
    assert s[1..] == PutSubStreams(blocks)[1..] + ([K_END] + rest);
    Sub.RoundTrip(blocks, [K_END] + rest);
    GetU8Cons(K_END, rest);
  }

  /** Each section starts with its tag. */
  lemma SectionTags(r: Records)
    requires CountsFit(r)
    ensures var p, u := PutPack(r.packPos, r.packSizes, r.packCrcs), PutUnpack(r.blocks);
            p != [] && u != [] && p == [K_PACK_INFO] + p[1..] && u == [K_UNPACK_INFO] + u[1..]
  {
    hide VarInt.Enc, PutAll;
  }

  /** The bytes of the streams part, tag by tag. */
  lemma TaggedTables(r: Records, rest: bytes)
    requires CountsFit(r) && |r.packSizes| > 0
    ensures var p, u := PutPack(r.packPos, r.packSizes, r.packCrcs), PutUnpack(r.blocks);
            PutStreamsInfo(r) + rest
            == [K_PACK_INFO] + (p[1..] + ([K_UNPACK_INFO] + (u[1..] + (PutSubStreams(r.blocks) + ([K_END] + rest)))))
  {
    hide PutPack, PutUnpack, PutSubStreams;
    var p, u, s3 := PutPack(r.packPos, r.packSizes, r.packCrcs), PutUnpack(r.blocks), PutSubStreams(r.blocks) + ([K_END] + rest);
    SectionTags(r);
    Nest4(p, u, PutSubStreams(r.blocks), [K_END], rest);
    Cat2([K_PACK_INFO], p[1..], u + s3);
    Cat2([K_UNPACK_INFO], u[1..], s3);
  }

  /** The three sections in turn. */
  lemma SectionsRead(s1: bytes, pack: PackTable, s2: bytes, blocks: seq<SizedBlock>, s3: bytes,
                     counted: seq<SizedBlock>, sub: SubStreams, rest: bytes)
    requires GetPack(s1) == Ok((pack, [K_UNPACK_INFO] + s2)) && GetUnpack(s2) == Ok((blocks, s3))
    requires s3 != [] && s3[0] == K_SUB_STREAMS_INFO
    requires GetSubPart(K_SUB_STREAMS_INFO, blocks, s3[1..]) == Ok(((counted, Some(sub), K_END), rest))
    ensures GetStreamsInfo([K_PACK_INFO] + s1) == Ok(((pack, counted, Some(sub)), rest))
  {
    hide GetPack, GetUnpack, GetSubPart;
    GetU8Cons(K_PACK_INFO, s1);
    GetU8Cons(K_UNPACK_INFO, s2);
    assert s3 == [K_SUB_STREAMS_INFO] + s3[1..];
    GetU8Cons(K_SUB_STREAMS_INFO, s3[1..]);
  }

  lemma TablesRead(r: Records, rest: bytes)
    requires StreamsFit(r) && |r.packSizes| > 0
    ensures GetStreamsInfo(PutStreamsInfo(r) + rest) == Ok((ExpectedStreams(r), rest))
  {
    hide PutPack, PutUnpack, GetPack, GetUnpack, GetSubPart, AllSubOk, PutSubStreams, Uniform, PutStreamsInfo, GetStreamsInfo,
      AsBlocks, CountedBlocks, ExpectedSub;
    var s3 := PutSubStreams(r.blocks) + ([K_END] + rest);
    var p, u := PutPack(r.packPos, r.packSizes, r.packCrcs), PutUnpack(r.blocks);
    SectionTags(r);
    var s2 := u[1..] + s3;
    TaggedTables(r, rest);
    RoundTripIffUniform(r.packPos, r.packSizes, r.packCrcs, [K_UNPACK_INFO] + s2);
    Unpack.RoundTrip(r.blocks, s3);
    SubPartReads(r.blocks, rest);
    SubPartStarts(r.blocks, rest);
    SectionsRead(p[1..] + ([K_UNPACK_INFO] + s2), Expected(r.packPos, r.packSizes, r.packCrcs), s2, AsBlocks(r.blocks), s3,
                 CountedBlocks(r.blocks), ExpectedSub(r.blocks), rest);
  }

  lemma SubPartStarts(blocks: seq<BlockInfo>, rest: bytes)
    ensures PutSubStreams(blocks) + ([K_END] + rest) != []
  {
  }

  lemma Nest4(a: bytes, b: bytes, c: bytes, d: bytes, rest: bytes)
    ensures ((a + b) + (c + d)) + rest == a + (b + (c + (d + rest)))
  {
    Cat2(c, d, rest);
    Cat2(a + b, c + d, rest);
    Cat2(a, b, c + (d + rest));
  }

  lemma NoTablesRead(r: Records, rest: bytes)
    requires StreamsFit(r) && |r.packSizes| == 0
    ensures GetStreamsInfo(PutStreamsInfo(r) + rest) == Ok((ExpectedStreams(r), rest))
  {
    hide GetPack, GetUnpack, GetSubPart, AllSubOk, PutSubStreams, Uniform;
    var s3 := PutSubStreams(r.blocks) + ([K_END] + rest);
    assert PutStreamsInfo(r) + rest == s3;
    assert AsBlocks(r.blocks) == [];
    SubPartReads(r.blocks, rest);
    assert s3 == [K_SUB_STREAMS_INFO] + s3[1..];
  }

  // ----- the files part and the stream map

  /** All conditions under which the header reads back. */
  predicate HeaderFits(r: Records) {
    && StreamsFit(r)
    && |r.packSizes| == |r.blocks|
    && Sum(r.packSizes) < U64_LIMIT
    && F.TableFits(r.files)
    && F.Describes(ExpectedSub(r.blocks), r.files)
    && CommentFits(r.comment)
  }

  lemma {:induction false} StreamsOfFiles(files: seq<Entry>, k: nat)
    requires k <= |files|
    ensures Streams(HasStreams(files), k) == |F.WithStreams(files[..k])|
  {
    if k > 0 {
      StreamsOfFiles(files, k - 1);
      F.CountSnoc(files, k - 1);
    } else {
      assert files[..0] == [];
    }
  }

  lemma {:induction false} BeforeIsSum(counts: seq<nat>, b: nat)
    requires b <= |counts|
    ensures Before(counts, b) == Sum(counts[..b])
  {
    if b > 0 {
      BeforeIsSum(counts, b - 1);
      SumSnoc(counts[..b - 1], counts[b - 1]);
      assert counts[..b] == counts[..b - 1] + [counts[b - 1]];
    }
  }

  lemma CountsOfBlocks(blocks: seq<BlockInfo>)
    ensures SubCounts(CountedBlocks(blocks)) == Counts(blocks)
    ensures PackedCounts(CountedBlocks(blocks)) == Ones(|blocks|)
  {
  }

  lemma {:induction false} SumOfOnes(n: nat, k: nat)
    requires k <= n
    ensures Sum(Ones(n)[..k]) == k
  {
    if k > 0 {
      SumOfOnes(n, k - 1);
      SumSnoc(Ones(n)[..k - 1], 1);
      assert Ones(n)[..k] == Ones(n)[..k - 1] + [1];
    }
  }

  lemma SameStreams(files: seq<Entry>)
    ensures HasStreams(F.AllRecovered(files)) == HasStreams(files)
  {
  }

  /** The blocks have room for as many files with data as there are, and no more. */
  predicate Filled(r: Records) {
    |F.WithStreams(r.files)| == |ExpectedSub(r.blocks).unpackSizes|
  }

  /** No more files with data than the blocks have room for. */
  lemma StreamsMatchCounts(r: Records)
    requires HeaderFits(r)
    ensures Streams(HasStreams(r.files), |r.files|) <= Before(Counts(r.blocks), |r.blocks|)
    ensures Filled(r) <==> Streams(HasStreams(r.files), |r.files|) == Before(Counts(r.blocks), |r.blocks|)
  {
    hide F.TableFits, Uniform;
    StreamsOfFiles(r.files, |r.files|);
    assert r.files[..|r.files|] == r.files;
    FlatLengths(r.blocks);
    BeforeIsSum(Counts(r.blocks), |r.blocks|);
    assert Counts(r.blocks)[..|r.blocks|] == Counts(r.blocks);
    assert |F.StreamSizes(r.files)| == |F.WithStreams(r.files)|;
  }

  /** One packed stream per block puts every block's first one in the table. */
  lemma AllPacksInTable(n: nat)
    ensures InTable(Offsets(Ones(n)), n) == seq(n, i => true)
  {
    forall b | 0 <= b < n
      ensures Offsets(Ones(n))[b] == b
    {
      SumOfOnes(n, b);
    }
  }

  lemma MapSucceeds(r: Records)
    requires HeaderFits(r)
    ensures MapOf(CountedBlocks(r.blocks), ExpectedPack(r).sizes, F.AllRecovered(r.files)).Ok?
    ensures WalkTo(Counts(r.blocks), seq(|r.blocks|, i => true), HasStreams(r.files), |r.files|).Ok?
    ensures Filled(r) ==> Complete(Counts(r.blocks), seq(|r.blocks|, i => true), HasStreams(r.files))
  {
    hide F.TableFits, F.Describes, Filled, AllSubOk, Uniform, WalkTo, Offsets, CountedBlocks, Counts;
    CountsOfBlocks(r.blocks);
    SameStreams(r.files);
    StreamsMatchCounts(r);
    AllPacksInTable(|r.blocks|);
    assert ExpectedPack(r).sizes == r.packSizes;
    FailsIffTooMany(Counts(r.blocks), seq(|r.blocks|, i => true), HasStreams(r.files), |r.files|);
  }

  /** The archive the reader builds. */
  function ExpectedArchive(r: Records): Archive
    requires HeaderFits(r)
  {
    MapSucceeds(r);
    Archive(ExpectedPack(r), CountedBlocks(r.blocks), Some(ExpectedSub(r.blocks)), F.AllRecovered(r.files),
            MapOf(CountedBlocks(r.blocks), ExpectedPack(r).sizes, F.AllRecovered(r.files)).value, r.comment, false)
  }

  lemma CommentTag(c: Comment)
    ensures PutComment(c) != [] && PutComment(c)[0] == K_ARCHIVE_PROPERTIES
  {
    hide VarInt.Enc, PutUnits;
  }

  lemma PropertiesPartReads(c: Option<Comment>, rest: bytes)
    requires CommentFits(c)
    ensures var s := PutOptionalComment(c) + ([K_MAIN_STREAMS_INFO] + rest);
            s != [] && GetPropertiesPart(s[0], s[1..]) == Ok(((c, K_MAIN_STREAMS_INFO), rest))
  {
    hide GetArchiveProperties, PutComment, CommentFits;
    var s := PutOptionalComment(c) + ([K_MAIN_STREAMS_INFO] + rest);
    match c
    case None => assert s == [K_MAIN_STREAMS_INFO] + rest;
    case Some(text) =>
      CommentTag(text);
      assert s[1..] == PutComment(text)[1..] + ([K_MAIN_STREAMS_INFO] + rest);
      CommentReads(text, [K_MAIN_STREAMS_INFO] + rest);
      GetU8Cons(K_MAIN_STREAMS_INFO, rest);
  }

  lemma FilesPartReads(r: Records, rest: bytes)
    requires HeaderFits(r)
    ensures var s := PutFilesInfo(r.files) + ([K_END] + rest);
            && s[0] == K_FILES_INFO
            && GetFilesPart(K_FILES_INFO, ExpectedStreams(r), s[1..])
               == Ok(((ExpectedArchive(r).files, ExpectedArchive(r).streams, K_END), rest))
  {
    hide GetFilesInfo, MapOf, F.TableFits, F.Describes, AllSubOk, Uniform, PutProperties, CountedBlocks, VarInt.Enc;
    var s := PutFilesInfo(r.files) + ([K_END] + rest);
    assert s[1..] == PutFilesInfo(r.files)[1..] + ([K_END] + rest);
    F.RoundTrip(r.files, ExpectedSub(r.blocks), [K_END] + rest);
    MapSucceeds(r);
    GetU8Cons(K_END, rest);
  }

  /** `read_header` on what `write_header` wrote: every table comes back, every byte is used. */
  lemma RoundTrip(r: Records)
    requires HeaderFits(r)
    ensures PutHeader(r)[0] == K_HEADER
    ensures GetHeader(PutHeader(r)[1..]) == Ok((ExpectedArchive(r), []))
  {
    hide HeaderFits, StreamsFit, GetStreamsInfo, GetFilesPart, GetPropertiesPart, PutStreamsInfo, PutFilesInfo,
      PutOptionalComment, ExpectedStreams, ExpectedArchive, CommentFits;
    HeaderConditions(r);
    var s3 := PutFilesInfo(r.files) + ([K_END] + []);
    var s2 := PutStreamsInfo(r) + s3;
    var s1 := PutOptionalComment(r.comment) + ([K_MAIN_STREAMS_INFO] + s2);
    assert PutHeader(r)[1..] == s1;
    PropertiesPartReads(r.comment, s2);
    StreamsInfoReads(r, s3);
    FilesPartReads(r, []);
    assert s3 == [K_FILES_INFO] + s3[1..];
    GetU8Cons(K_FILES_INFO, s3[1..]);
    ExpectedParts(r);
  }

  lemma HeaderConditions(r: Records)
    requires HeaderFits(r)
    ensures StreamsFit(r) && CountsFit(r) && CommentFits(r.comment)
  {
  }

  lemma ExpectedParts(r: Records)
    requires HeaderFits(r)
    ensures var a, e := ExpectedArchive(r), ExpectedStreams(r);
            a == Archive(e.0, e.1, e.2, a.files, a.streams, r.comment, false)
  {
  }
}
