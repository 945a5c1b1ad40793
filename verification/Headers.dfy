/** The whole archive header: written from the writer's records, read back as an archive. */
module Headers {
  import opened Wire
  import opened Repeats
  import opened Blocks
  import opened PackInfos
  import opened UnpackInfos
  import opened SubStreams
  import opened FilesInfos
  import opened StreamMaps
  import FilesRoundTrip
  import FileTables
  import VarInt

  /** A comment is a sequence of UTF-16 units, like a name. */
  type Comment = seq<u16>

  datatype Archive = Archive(
    pack: PackTable,
    blocks: seq<SizedBlock>,
    sub: Option<SubStreams>,
    files: seq<Entry>,
    streams: StreamMap,
    comment: Option<Comment>,
    isSolid: bool)

  const NO_PACK := PackTable(0, [], [], [])
  const NO_MAP := StreamMap([], [], [], [])
  const EMPTY := Archive(NO_PACK, [], None, [], NO_MAP, None, false)

  /** Everything the writer has recorded when it comes to write the header. */
  datatype Records = Records(
    files: seq<Entry>,
    packPos: u64,
    packSizes: seq<u64>,
    packCrcs: seq<u32>,
    blocks: seq<BlockInfo>,
    comment: Option<Comment>)

  // ----- the writer

  function PutUnits(us: seq<u16>): bytes {
    PutAll(PutU16, us)
  }

  function PutComment(c: Comment): bytes {
    [K_ARCHIVE_PROPERTIES] + ([K_COMMENT] + (VarInt.Enc(AsU64(|PutUnits(c + [0])|)) + (PutUnits(c + [0]) + [K_END])))
  }

  function PutOptionalComment(c: Option<Comment>): bytes {
    match c
    case None => []
    case Some(c) => PutComment(c)
  }

  predicate CountsFit(r: Records) {
    |r.packSizes| < U64_LIMIT && |r.blocks| < U64_LIMIT
  }

  function PutTables(r: Records): bytes
    requires CountsFit(r)
  {
    if |r.packSizes| > 0 then PutPack(r.packPos, r.packSizes, r.packCrcs) + PutUnpack(r.blocks) else []
  }

  function PutStreamsInfo(r: Records): bytes
    requires CountsFit(r)
  {
    PutTables(r) + (PutSubStreams(r.blocks) + [K_END])
  }

  function PutHeader(r: Records): bytes
    requires CountsFit(r)
  {
    [K_HEADER] + (PutOptionalComment(r.comment) + ([K_MAIN_STREAMS_INFO] + (PutStreamsInfo(r)
      + (PutFilesInfo(r.files) + [K_END]))))
  }

  method WriteArchiveProperties(header: Sink, c: Comment)
    modifies header
    ensures header.data == old(header.data) + PutComment(c)
  {
    hide VarInt.Enc;
    header.WriteU8(K_ARCHIVE_PROPERTIES);
    header.WriteU8(K_COMMENT);
    var units := c + [0];
    var temp := new Sink();
    for i := 0 to |units|
      invariant fresh(temp) && temp.data == PutUnits(units[..i])
      invariant header.data == old(header.data) + [K_ARCHIVE_PROPERTIES] + [K_COMMENT]
    {
      temp.WriteAll(Le(units[i], 2));
      PutSnoc(PutU16, units, i);
    }
    assert units[..|units|] == units;
    VarInt.WriteVar(header, AsU64(|temp.data|));
    header.WriteAll(temp.data);
    header.WriteU8(K_END);
    Cat5(old(header.data), [K_ARCHIVE_PROPERTIES], [K_COMMENT], VarInt.Enc(AsU64(|temp.data|)), temp.data, [K_END]);
  }

  method WriteStreamsInfo(header: Sink, packInfo: PackInfo, unpackInfo: UnpackInfo, ghost r: Records)
    requires r.packPos == packInfo.pos && r.packSizes == packInfo.sizes && r.packCrcs == packInfo.crcs
    requires r.blocks == unpackInfo.blocks && CountsFit(r)
    modifies header
    ensures header.data == old(header.data) + PutStreamsInfo(r)
  {
    hide PutPack, PutUnpack, PutSubStreams;
    if |packInfo.sizes| > 0 {
      packInfo.WriteTo(header);
      unpackInfo.WriteTo(header);
      Cat2(old(header.data), PutPack(r.packPos, r.packSizes, r.packCrcs), PutUnpack(r.blocks));
    }
    WriteSubStreams(header, unpackInfo.blocks);
    header.WriteU8(K_END);
    Cat3(old(header.data), PutTables(r), PutSubStreams(r.blocks), [K_END]);
  }

  /** `write_header`. */
  method WriteHeader(header: Sink, packInfo: PackInfo, unpackInfo: UnpackInfo, files: seq<Entry>, comment: Option<Comment>, ghost r: Records)
    requires r == Records(files, packInfo.pos, packInfo.sizes, packInfo.crcs, unpackInfo.blocks, comment)
    requires CountsFit(r)
    modifies header
    ensures header.data == old(header.data) + PutHeader(r)
  {
    hide PutStreamsInfo, PutFilesInfo, PutComment;
    header.WriteU8(K_HEADER);
    if comment.Some? {
      WriteArchiveProperties(header, comment.value);
    }
    header.WriteU8(K_MAIN_STREAMS_INFO);
    WriteStreamsInfo(header, packInfo, unpackInfo, r);
    FileTables.WriteFilesInfo(header, files);
    header.WriteU8(K_END);
    Cat6(old(header.data), [K_HEADER], PutOptionalComment(comment), [K_MAIN_STREAMS_INFO], PutStreamsInfo(r),
         PutFilesInfo(files), [K_END]);
  }

  // ----- the reader

  function UnitsOf(b: bytes): seq<u16> {
    if |b| < 2 then []
    else
      assert Pow256(2) == 0x1_0000;
      [FromLe(b[..2])] + UnitsOf(b[2..])
  }

  /** The units before the first zero one. */
  function UpToZero(us: seq<u16>): seq<u16> {
    if us == [] || us[0] == 0 then [] else [us[0]] + UpToZero(us[1..])
  }

  /** The body of one archive property. */
  function GetArchiveProperty(tag: byte, size: u64, c: Option<Comment>, s: bytes): (r: Parsed<Option<Comment>>)
    ensures r.Ok? ==> |r.value.1| <= |s|
  {
    if tag == K_COMMENT then
      var (b, s1) :- GetExact(s, size);
      Ok((if |b| >= 2 then Some(UpToZero(UnitsOf(b))) else c, s1))
    else
      var (_, s1) :- GetSkip(size, s);
      Ok((c, s1))
  }

  /** `read_archive_properties`, after its tag. */
  function GetArchiveProperties(c: Option<Comment>, s: bytes): Parsed<Option<Comment>>
    decreases |s|
  {
    var (tag, s1) :- GetU8(s);
    if tag == K_END then Ok((c, s1))
    else
      VarShrinks(s1);
      var (size, s2) :- VarInt.Dec(s1);
      var (c2, s3) :- GetArchiveProperty(tag, size, c, s2);
      GetArchiveProperties(c2, s3)
  }

  /** An optional part announced by `tag`, and the tag that comes after it. */
  function GetPackPart(nid: byte, s: bytes): Parsed<(PackTable, byte)> {
    if nid != K_PACK_INFO then Ok(((NO_PACK, nid), s))
    else
      var (pack, s1) :- GetPack(s);
      var (next, s2) :- GetU8(s1);
      Ok(((pack, next), s2))
  }

  function GetUnpackPart(nid: byte, s: bytes): Parsed<(seq<SizedBlock>, byte)> {
    if nid != K_UNPACK_INFO then Ok((([], nid), s))
    else
      var (blocks, s1) :- GetUnpack(s);
      var (next, s2) :- GetU8(s1);
      Ok(((blocks, next), s2))
  }

  function GetSubPart(nid: byte, blocks: seq<SizedBlock>, s: bytes): Parsed<(seq<SizedBlock>, Option<SubStreams>, byte)> {
    if nid != K_SUB_STREAMS_INFO then Ok(((blocks, None, nid), s))
    else
      var (bs, s1) :- GetSubStreams(blocks, s);
      var (next, s2) :- GetU8(s1);
      Ok(((bs.0, Some(bs.1), next), s2))
  }

  /** `read_streams_info`, after its tag. */
  function GetStreamsInfo(s: bytes): Parsed<(PackTable, seq<SizedBlock>, Option<SubStreams>)> {
    var (nid, s1) :- GetU8(s);
    var (pack, s2) :- GetPackPart(nid, s1);
    var (unpack, s3) :- GetUnpackPart(pack.1, s2);
    var (sub, s4) :- GetSubPart(unpack.1, unpack.0, s3);
    if sub.2 != K_END then Err(BadTerminatedStreamsInfo(sub.2))
    else Ok(((pack.0, sub.0, sub.1), s4))
  }

  function SubCounts(blocks: seq<SizedBlock>): (r: seq<nat>)
    ensures |r| == |blocks|
  {
    seq(|blocks|, i requires 0 <= i < |blocks| => blocks[i].numSub)
  }

  function PackedCounts(blocks: seq<SizedBlock>): (r: seq<nat>)
    ensures |r| == |blocks|
  {
    seq(|blocks|, i requires 0 <= i < |blocks| => |blocks[i].packedStreams|)
  }

  function HasStreams(files: seq<Entry>): (r: seq<bool>)
    ensures |r| == |files|
  {
    seq(|files|, i requires 0 <= i < |files| => files[i].hasStream)
  }

  function MapOf(blocks: seq<SizedBlock>, packSizes: seq<u64>, files: seq<Entry>): Result<StreamMap> {
    MapStreams(SubCounts(blocks), PackedCounts(blocks), packSizes, HasStreams(files))
  }

  function GetPropertiesPart(nid: byte, s: bytes): Parsed<(Option<Comment>, byte)> {
    if nid != K_ARCHIVE_PROPERTIES then Ok(((None, nid), s))
    else
      var (c, s1) :- GetArchiveProperties(None, s);
      var (next, s2) :- GetU8(s1);
      Ok(((c, next), s2))
  }

  function GetStreamsPart(nid: byte, s: bytes): Parsed<((PackTable, seq<SizedBlock>, Option<SubStreams>), byte)> {
    if nid != K_MAIN_STREAMS_INFO then Ok((((NO_PACK, [], None), nid), s))
    else
      var (info, s1) :- GetStreamsInfo(s);
      var (next, s2) :- GetU8(s1);
      Ok(((info, next), s2))
  }

  function GetFilesPart(nid: byte, info: (PackTable, seq<SizedBlock>, Option<SubStreams>), s: bytes): Parsed<(seq<Entry>, StreamMap, byte)> {
    if nid != K_FILES_INFO then Ok((([], NO_MAP, nid), s))
    else
      var (files, s1) :- GetFilesInfo(info.2, s);
      var streams :- MapOf(info.1, info.0.sizes, files);
      var (next, s2) :- GetU8(s1);
      Ok(((files, streams, next), s2))
  }

  /** `read_header`, after the tag that announces a plain header. */
  function GetHeader(s: bytes): Parsed<Archive> {
    var (nid, s1) :- GetU8(s);
    var (c, s2) :- GetPropertiesPart(nid, s1);
    if c.1 == K_ADDITIONAL_STREAMS_INFO then Err(AdditionalStreams)
    else
      var (info, s3) :- GetStreamsPart(c.1, s2);
      var (files, s4) :- GetFilesPart(info.1, info.0, s3);
      if files.2 != K_END then Err(BadTerminatedHeader(files.2))
      else Ok((Archive(info.0.0, info.0.1, info.0.2, files.0, files.1, c.0, false), s4))
  }

  method ReadArchiveProperties(header: Source) returns (r: Result<Option<Comment>>)
    modifies header
    ensures Follows(GetArchiveProperties(None, old(header.rest)), r, header.rest)
  {
    hide VarInt.Dec, GetArchiveProperty;
    var c: Option<Comment> := None;
    while true
      invariant GetArchiveProperties(None, old(header.rest)) == GetArchiveProperties(c, header.rest)
      decreases |header.rest|
    {
      var tag :- header.ReadU8();
      if tag == K_END {
        return Ok(c);
      }
      VarShrinks(header.rest);
      var size :- VarInt.ReadVar(header);
      c :- ReadArchiveProperty(header, tag, size, c);
    }
  }

  method ReadArchiveProperty(header: Source, tag: byte, size: u64, c0: Option<Comment>) returns (r: Result<Option<Comment>>)
    modifies header
    ensures Follows(GetArchiveProperty(tag, size, c0, old(header.rest)), r, header.rest)
  {
    if tag == K_COMMENT {
      var b :- header.ReadExact(size);
      r := Ok(if |b| >= 2 then Some(UpToZero(UnitsOf(b))) else c0);
    } else {
      var _ :- FileTables.Skip(header, size);
      r := Ok(c0);
    }
  }

  method ReadStreamsInfo(header: Source) returns (r: Result<(PackTable, seq<SizedBlock>, Option<SubStreams>)>)
    modifies header
    ensures Follows(GetStreamsInfo(old(header.rest)), r, header.rest)
  {
    hide GetPack, GetUnpack, GetSubStreams;
    var nid :- header.ReadU8();
    var pack, blocks, sub := NO_PACK, [], None;
    if nid == K_PACK_INFO {
      pack :- ReadPackInfo(header);
      nid :- header.ReadU8();
    }
    if nid == K_UNPACK_INFO {
      blocks :- ReadUnpackInfo(header);
      nid :- header.ReadU8();
    }
    if nid == K_SUB_STREAMS_INFO {
      var bs :- ReadSubStreams(header, blocks);
      blocks, sub := bs.0, Some(bs.1);
      nid :- header.ReadU8();
    }
    if nid != K_END {
      return Err(BadTerminatedStreamsInfo(nid));
    }
    r := Ok((pack, blocks, sub));
  }

  method ReadHeader(header: Source) returns (r: Result<Archive>)
    modifies header
    ensures Follows(GetHeader(old(header.rest)), r, header.rest)
  {
    hide GetArchiveProperties, GetStreamsInfo, GetFilesInfo, MapStreams;
    var nid :- header.ReadU8();
    var a := EMPTY;
    if nid == K_ARCHIVE_PROPERTIES {
      var c :- ReadArchiveProperties(header);
      a := a.(comment := c);
      nid :- header.ReadU8();
    }
    if nid == K_ADDITIONAL_STREAMS_INFO {
      return Err(AdditionalStreams);
    }
    if nid == K_MAIN_STREAMS_INFO {
      var info :- ReadStreamsInfo(header);
      a := a.(pack := info.0, blocks := info.1, sub := info.2);
      nid :- header.ReadU8();
    }
    if nid == K_FILES_INFO {
      var files :- FileTables.ReadFilesInfo(header, a.sub);
      var streams :- CalculateStreamMap(SubCounts(a.blocks), PackedCounts(a.blocks), a.pack.sizes, HasStreams(files));
      a := a.(files := files, streams := streams);
      nid :- header.ReadU8();
    }
    if nid != K_END {
      return Err(BadTerminatedHeader(nid));
    }
    r := Ok(a);
  }
}
