/** What a reader makes of whole finished archives that do not meet the conditions on values, and
    of a caller's refusal: from calls on a new writer to the result of opening or traversing. */
module FailingArchives {
  import opened Wire
  import opened Repeats
  import opened Blocks
  import opened UnpackInfos
  import opened SubStreams
  import opened StreamMaps
  import opened FilesInfos
  import opened Headers
  import opened Codecs
  import opened Writers
  import opened Finishing
  import opened Archives
  import opened ArchiveRoundTrip
  import opened ArchiveReaders
  import opened EndToEnd
  import opened PushAndRead
  import opened Reopenings
  import opened PartialSolids
  import opened FailingInputs
  import F = FilesRoundTrip
  import H = HeaderRoundTrip
  import P = PackInfos
  import BitSets
  import VarInt

  /** A finished archive is read as its plain header says, fit or not. */
  lemma ReadsPlainHeader(c: Codecs, st: State, packer: Method)
    requires c.Inverts() && Stored(c, st) && CountsFit(st.records) && st.pos >= SIGNATURE_HEADER_SIZE && LengthsFit(c, st, packer)
    ensures ReadArchive(c, Finished(c, st, packer)) == ReadPlain(PutHeader(st.records))
  {
    hide *;
    InvParts(c, st);
    StartReads(c, st, packer);
    HeaderReads(c, st, packer);
  }

  // ----- mixed pack CRCs

  /** The bytes behind the pack section start like this, and go on with the first block. */
  lemma UnpackStarts(blocks: seq<BlockInfo>, tail: bytes)
    requires |blocks| == 2 && |blocks[0].methods| == 1
    ensures var s := PutUnpack(blocks) + tail;
            |s| > 4 && s[..4] == [K_UNPACK_INFO, K_FOLDER, 2, 0] && s[4] == 1
  {
    hide PutAll, PutBlock, VarInt.Enc;
    VarInt.EncSmall(2);
    var methods := PutAll(PutMethods, blocks);
    FirstOfAll(blocks);
    var rest := [K_CODERS_UNPACK_SIZE] + (PutAll(PutSizes, blocks) + [K_END]);
    assert PutUnpack(blocks) == [K_UNPACK_INFO] + ([K_FOLDER] + ([2] + ([0] + (methods + rest))));
  }

  lemma FirstOfAll(blocks: seq<BlockInfo>)
    requires blocks != [] && |blocks[0].methods| == 1
    ensures PutAll(PutMethods, blocks) != [] && PutAll(PutMethods, blocks)[0] == 1
  {
    hide PutMethods;
    BlockStarts(blocks[0]);
    assert PutAll(PutMethods, blocks) == PutMethods(blocks[0]) + PutAll(PutMethods, blocks[1..]);
  }

  lemma BlockStarts(b: BlockInfo)
    requires |b.methods| == 1
    ensures PutMethods(b) != [] && PutMethods(b)[0] == 1
  {
    hide VarInt.Enc, PutAll, Chain, Decodable;
    VarInt.EncSmall(1);
  }

  /** The CRC of the second stream is taken from there. */
  lemma DigestFromBehind(x: u32, four: bytes, rest: bytes)
    requires x != 0 && |four| == 4
    ensures P.GetCrcs(K_CRC, 2, P.PutCrcs([0, x]) + (four + ([K_END] + rest)))
         == Ok((([false, true], [0, FromLe(four) % 0x1_0000_0000], K_END), rest))
  {
    hide BitSets.PackBits, GetU32;
    var crcs, behind := [0, x], four + ([K_END] + rest);
    assert P.NonZero(crcs) == [false, true];
    BitSets.AllOrBitsRoundTrip(P.NonZero(crcs), behind);
    assert crcs[0] == 0 && 0 in crcs;
    FourBytes(four, [K_END] + rest);
    DefinedSecond(four, [K_END] + rest);
    GetU8Cons(K_END, rest);
  }

  lemma FourBytes(four: bytes, rest: bytes)
    requires |four| == 4
    ensures GetU32(four + rest) == Ok((FromLe(four) % 0x1_0000_0000, rest))
  {
    GetExactAppend(four, rest);
    assert Pow256(4) == 0x1_0000_0000;
  }

  lemma DefinedSecond(four: bytes, rest: bytes)
    requires GetU32(four + rest) == Ok((FromLe(four) % 0x1_0000_0000, rest))
    ensures GetDefined(GetU32, [false, true], P.Zeros(2), four + rest) == Ok(([0, FromLe(four) % 0x1_0000_0000], rest))
  {
    hide GetU32, FromLe;
    var v := FromLe(four) % 0x1_0000_0000;
    assert P.Zeros(2)[1..] == [0] && P.Zeros(2)[0] == 0 && [false, true][1..] == [true];
    assert [0][1..] == [] && [true][1..] == [];
    assert GetDefined(GetU32, [], [], rest) == Ok(([], rest));
    assert [v] + [] == [v];
    assert GetDefined(GetU32, [true], [0], four + rest) == Ok(([v], rest));
    assert [0] + [v] == [0, v];
  }

  /** The pack section swallows the start of the section behind it. */
  lemma MixedPackReads(sizes: seq<u64>, x: u32, blocks: seq<BlockInfo>, tail: bytes)
    requires |sizes| == 2 && x != 0 && |blocks| == 2 && |blocks[0].methods| == 1
    ensures var u := PutUnpack(blocks) + tail;
            && |u| > 4 && u[4] == 1
            && var r := P.GetPack(P.PutPack(0, sizes, [0, x])[1..] + u);
            r.Ok? && r.value.1 == u[4..]
  {
    hide P.PutPack, P.GetPack, P.PutCrcs, P.GetCrcs, PutUnpack, FromLe;
    var u := PutUnpack(blocks) + tail;
    UnpackStarts(blocks, tail);
    var four: bytes := [K_END, K_UNPACK_INFO, K_FOLDER, 2];
    assert u == u[..4] + u[4..];
    assert [K_END] + u == four + ([K_END] + u[4..]);
    P.PrefixReads(0, sizes, [0, x], u);
    DigestFromBehind(x, four, u[4..]);
  }

  lemma MixedTablesFail(s1: bytes, v: bytes)
    requires P.GetPack(s1).Ok? && P.GetPack(s1).value.1 == v && v != [] && v[0] == 1
    ensures GetStreamsInfo([K_PACK_INFO] + s1) == Err(BadTerminatedStreamsInfo(1))
  {
    hide P.GetPack, GetUnpack, GetSubStreams;
    GetU8Cons(K_PACK_INFO, s1);
    assert v == [1] + v[1..];
    GetU8Cons(1, v[1..]);
  }

  lemma MixedStreamsFail(r: Records, x: u32, rest: bytes)
    requires CountsFit(r) && |r.packSizes| == 2 && r.packPos == 0 && r.packCrcs == [0, x] && x != 0
    requires |r.blocks| == 2 && |r.blocks[0].methods| == 1
    ensures GetStreamsInfo(PutStreamsInfo(r) + rest) == Err(BadTerminatedStreamsInfo(1))
  {
    hide P.PutPack, PutUnpack, PutSubStreams, GetStreamsInfo, P.GetPack, PutStreamsInfo;
    var p, tail := P.PutPack(0, r.packSizes, r.packCrcs), PutSubStreams(r.blocks) + ([K_END] + rest);
    H.TaggedTables(r, rest);
    H.SectionTags(r);
    Cat2([K_UNPACK_INFO], PutUnpack(r.blocks)[1..], tail);
    MixedPackReads(r.packSizes, x, r.blocks, tail);
    MixedTablesFail(p[1..] + (PutUnpack(r.blocks) + tail), (PutUnpack(r.blocks) + tail)[4..]);
  }

  /** A header whose stream tables cannot be read cannot be read. */
  lemma HeaderFailsWithStreams(r: Records, e: Error)
    requires CountsFit(r) && r.comment == None
    requires GetStreamsInfo(PutStreamsInfo(r) + (PutFilesInfo(r.files) + [K_END])) == Err(e)
    ensures ReadPlain(PutHeader(r)) == Err(e)
  {
    hide GetStreamsInfo, PutStreamsInfo, PutFilesInfo, GetPropertiesPart, AnySolid;
    var s2 := PutStreamsInfo(r) + (PutFilesInfo(r.files) + [K_END]);
    var s1 := PutOptionalComment(None) + ([K_MAIN_STREAMS_INFO] + s2);
    assert PutHeader(r) == [K_HEADER] + s1;
    GetU8Cons(K_HEADER, s1);
    H.PropertiesPartReads(None, s2);
  }

  lemma EmptyBesideFullSized(c: Codecs)
    requires Copies(c)
    ensures RunSized(c, Fresh(COPY), EMPTY_AND_FULL)
  {
    hide Splice, Packed;
    CopyFits(c, Fresh(COPY), []);
    var st1 := Apply(c, Fresh(COPY), EMPTY_AND_FULL[0]);
    CopyPacks(c, []);
    CopyFits(c, st1, [7]);
    assert EMPTY_AND_FULL[1..][0] == EMPTY_AND_FULL[1] && EMPTY_AND_FULL[1..][1..] == [];
    assert RunSized(c, Apply(c, st1, EMPTY_AND_FULL[1]), []);
    assert RunSized(c, st1, EMPTY_AND_FULL[1..]);
  }

  lemma CopyFits(c: Codecs, st: State, x: bytes)
    requires Copies(c) && st.methods == COPY && |x| <= 1
    requires st.pos < 100 && |st.records.blocks| < 10 && |st.records.files| < 10
    ensures BlockFits(c, st, x, 1)
  {
    CopyPacks(c, x);
    assert Stage(c, COPY, x, 1) == x && Stage(c, COPY, x, 0) == x;
  }

  lemma TwoBlocksOfOne(c: Codecs)
    requires Copies(c) && AllMatched(EMPTY_AND_FULL)
    ensures var r := Run(c, Fresh(COPY), EMPTY_AND_FULL).records;
            && |r.blocks| == 2 && |r.blocks[0].methods| == 1 && r.packPos == 0 && r.comment == None
  {
    hide Splice, StageSizes, Packed;
    TwoCalls(c, Fresh(COPY), EMPTY_AND_FULL);
  }

  /** A file with no bytes and one with some, stored as they are in a new writer: the finished
      archive does not open. */
  lemma EmptyBesideFullUnreadable(c: Codecs, packer: Method)
    requires Copies(c) && c.Inverts()
    ensures AllMatched(EMPTY_AND_FULL)
    ensures var st := Run(c, Fresh(COPY), EMPTY_AND_FULL);
            && CountsFit(st.records) && st.pos >= SIGNATURE_HEADER_SIZE
            && (LengthsFit(c, st, packer) ==>
                  && ReadArchive(c, Finished(c, st, packer)) == Err(BadTerminatedStreamsInfo(1))
                  && !GivesBack(c, Finished(c, st, packer), PushedIn(EMPTY_AND_FULL), None))
  {
    hide *;
    EmptyBesideFullSized(c);
    FreshStored(COPY, c);
    RunStored(c, Fresh(COPY), EMPTY_AND_FULL);
    EmptyBesideFull(c, []);
    TwoBlocksOfOne(c);
    var st := Run(c, Fresh(COPY), EMPTY_AND_FULL);
    StoredCounts(c, st);
    if LengthsFit(c, st, packer) {
      ReadsPlainHeader(c, st, packer);
      NonZeroOfCopies(c);
      MixedStreamsFail(st.records, c.crc([7]), PutFilesInfo(st.records.files) + [K_END]);
      HeaderFailsWithStreams(st.records, BadTerminatedStreamsInfo(1));
      NotGivenBack(c, Finished(c, st, packer), PushedIn(EMPTY_AND_FULL), None);
    }
  }

  lemma NonZeroOfCopies(c: Codecs)
    requires Copies(c)
    ensures c.crc([7]) != 0
  {
  }

  lemma NotGivenBack(c: Codecs, data: bytes, pushed: seq<Pushed>, comment: Option<Comment>)
    ensures ReadArchive(c, data).Err? ==> !GivesBack(c, data, pushed, comment)
  {
    hide ReadArchive;
  }

  // ----- a bitmap that ends early

  /** The bits set, all of them. */
  function AllSet(n: nat): seq<bool> {
    seq(n, i => true)
  }

  lemma NineColumns()
    ensures NoStream(Nine()) == AllSet(9) && AntiFlags(Nine()) == AllSet(9) && Names(Nine()) == [EMPTY_FILE.name] + seq(8, i => DIRECTORY.name)
    ensures F.StreamColumn(Nine()) == Some(AllSet(9))
  {
    hide Streamless;
    AllStreamless(Nine());
    assert NoStream(Nine())[0] in NoStream(Nine());
  }

  lemma AllSetTrims()
    ensures Trim(AllSet(9)) == AllSet(9) && true in AllSet(9)
  {
    assert AllSet(9)[0] in AllSet(9);
  }

  /** A bitmap that starts with eight bits set starts with a byte of all ones. */
  lemma FirstByte()
    ensures |BitSets.PackBits(AllSet(9))| == 2 && BitSets.PackBits(AllSet(9))[0] == 0xFF
  {
    var f := AllSet(9);
    assert BitSets.Acc(f, 0, 0) == 0;
    assert BitSets.Acc(f, 0, 1) == 0x80;
    assert BitSets.Acc(f, 0, 2) == 0xC0;
    assert BitSets.Acc(f, 0, 3) == 0xE0;
    assert BitSets.Acc(f, 0, 4) == 0xF0;
    assert BitSets.Acc(f, 0, 5) == 0xF8;
    assert BitSets.Acc(f, 0, 6) == 0xFC;
    assert BitSets.Acc(f, 0, 7) == 0xFE;
    assert BitSets.Acc(f, 0, 8) == 0xFF;
    assert BitSets.PackBits(f)[0] == BitSets.Acc(f, 8 * 0, 8);
  }

  lemma {:induction false} CountAllSet(d: seq<bool>)
    requires false !in d
    ensures CountTrue(d) == |d|
  {
    if d != [] {
      assert d[0] in d;
      CountAllSet(d[1..]);
    }
  }

  /** Nine bits are read where eight were written: the first byte of the next section is lost. */
  lemma BitmapSwallows(t: Table, b: byte, next: byte, rest: bytes) returns (t': Table)
    requires t.emptyStream == Some(AllSet(9))
    ensures GetProperties(t, [K_EMPTY_FILE] + ([1] + ([b] + ([next] + rest)))) == GetProperties(t', rest)
    ensures t'.emptyStream == t.emptyStream && |t'.files| == |t.files|
  {
    hide GetProperties, VarInt.Dec, VarInt.Enc;
    var s2 := [b] + ([next] + rest);
    CountAllSet(AllSet(9));
    assert s2 == [b, next] + rest;
    GetExactAppend([b, next], rest);
    t' := t.(emptyFile := Some(BitSets.GetBits(s2, 9).value.0));
    PropertyTurn(K_EMPTY_FILE, 1, t, s2, t', rest);
  }

  /** One turn of the loop over the properties. */
  lemma PropertyTurn(tag: byte, size: nat, t: Table, body: bytes, t': Table, rest: bytes)
    requires tag != K_END && size < 0x80
    requires GetProperty(tag, size, t, body) == Ok((t', rest))
    ensures GetProperties(t, [tag] + ([size] + body)) == GetProperties(t', rest)
  {
    hide VarInt.Dec, VarInt.Enc, GetProperty;
    GetU8Cons(tag, [size] + body);
    VarInt.EncSmall(size);
    VarInt.RoundTrip(size, body);
  }

  lemma FromLeStep(b: bytes)
    requires b != []
    ensures FromLe(b) == b[0] + 0x100 * FromLe(b[1..])
  {
  }

  lemma FromLeFifth(b: bytes)
    requires |b| > 4
    ensures FromLe(b) >= (b[4] as int) * 0x1_0000_0000
  {
    hide FromLe;
    FromLeStep(b);
    FromLeStep(b[1..]);
    FromLeStep(b[2..]);
    FromLeStep(b[3..]);
    FromLeStep(b[4..]);
    assert b[1..][1..] == b[2..] && b[2..][1..] == b[3..] && b[3..][1..] == b[4..] && b[4..][0] == b[4];
  }

  /** A first byte of all ones stands for eight more. */
  lemma HugeSize(s: bytes)
    requires |s| > 8 && s[0] == 0xFF && s[5] == 97
    ensures VarInt.Dec(s).Ok? && VarInt.Dec(s).value.0 >= 97 * 0x1_0000_0000 && VarInt.Dec(s).value.1 == s[9..]
  {
    var low := s[1..][..8];
    FromLeFifth(low);
    assert low[4] == s[5];
    assert s[1..][8..] == s[9..];
  }

  /** A property nobody knows, said to be longer than all there is: nothing is left to read. */
  lemma UnknownSwallowsAll(t: Table, s: bytes)
    requires 8 < |s| < 0x1_0000_0000 && s[0] == 0xFF && s[5] == 97
    ensures GetProperties(t, [K_ARCHIVE_PROPERTIES] + s).Err?
  {
    hide VarInt.Dec;
    HugeSize(s);
    GetU8Cons(K_ARCHIVE_PROPERTIES, s);
    var size := VarInt.Dec(s).value.0;
    NothingAfter(t);
    assert GetProperty(K_ARCHIVE_PROPERTIES, size, t, s[9..]) == match GetSkip(size, s[9..])
                                                                 case Err(e) => Err(e)
                                                                 case Ok(p) => Ok((t, p.1));
  }

  lemma NothingAfter(t: Table)
    ensures GetProperties(t, []) == Err(UnexpectedEof)
  {
  }

  lemma {:induction false} UnitsOfShort(names: seq<Name>)
    requires forall n :: n in names ==> |n| == 1
    ensures F.Units(names) == 2 * |names|
  {
    if names != [] {
      assert names[0] in names;
      UnitsOfShort(names[1..]);
    }
  }

  lemma NamesBody()
    ensures var b := PutAll(PutName, Names(Nine())); |b| == 36 && b[0] == 97
  {
    hide PutName;
    NineColumns();
    var names := Names(Nine());
    UnitsOfShort(names);
    F.UnitsFit(names);
    assert PutAll(PutName, names) == PutName(names[0]) + PutAll(PutName, names[1..]);
    FirstUnit();
  }

  lemma FirstUnit()
    ensures PutName(EMPTY_FILE.name) != [] && PutName(EMPTY_FILE.name)[0] == 97
  {
    assert PutAll(PutU16, [97]) == PutU16(97) + PutAll(PutU16, [97][1..]);
    assert Le(97, 2) == [97] + Le(0, 1);
  }

  /** The names section of the nine files. */
  lemma NamesStart()
    ensures var s := PutNames(Nine()); |s| == 39 && s[3] == 97
  {
    hide PutAll, VarInt.Enc;
    NamesBody();
    VarInt.EncSmall(37);
    var b := PutAll(PutName, Names(Nine()));
    assert PutNames(Nine()) == [K_NAME] + ([37] + ([0] + b));
  }

  lemma NoColumns()
    ensures forall f: Stamp :: f != StartPos ==> PutStamps(Nine(), f) == []
    ensures PutAttributes(Nine()) == []
  {
    forall f: Stamp | f != StartPos
      ensures PutStamps(Nine(), f) == []
    {
      assert true !in HasColumn(Nine(), f);
    }
    assert true !in HasAttributes(Nine());
  }

  lemma EmptyFilesSection() returns (b: byte)
    ensures PutEmptyFiles(Nine()) == [K_EMPTY_FILE] + ([1] + [b])
  {
    hide VarInt.Enc, BitSets.PackBits, Trim, EmptyFileFlags;
    FlagsOfNine();
    VarInt.EncSmall(1);
    var d := EmptyFileFlags(Nine());
    TrimOne(d);
    assert d[0] in d;
    var one := BitSets.PackBits([true]);
    b := one[0];
    assert one == [b];
  }

  lemma AntiSection()
    ensures PutAntiItems(Nine()) == [K_ANTI] + ([2] + BitSets.PackBits(AllSet(9)))
  {
    hide VarInt.Enc, BitSets.PackBits, Trim, AntiFlags;
    NineColumns();
    AllSetTrims();
    FirstByte();
    VarInt.EncSmall(2);
  }

  lemma TailStarts(bits: bytes, names: bytes, rest: bytes)
    requires |bits| == 2 && bits[0] == 0xFF && |names| == 39 && names[3] == 97
    ensures var tail := bits + (names + rest); |tail| == |rest| + 41 && tail[0] == 0xFF && tail[5] == 97
  {
  }

  /** What follows the first bitmap, byte by byte. */
  lemma NineBytes(rest: bytes) returns (b: byte, tail: bytes)
    ensures PutProperties(Nine()) + rest
         == PutEmptyStreams(Nine()) + ([K_EMPTY_FILE] + ([1] + ([b] + ([K_ANTI] + ([K_ARCHIVE_PROPERTIES] + tail)))))
    ensures 8 < |tail| == |rest| + 42 && tail[0] == 0xFF && tail[5] == 97
  {
    hide PutEmptyStreams, PutNames, PutStamps, PutAttributes, PutEmptyFiles, PutAntiItems, PutProperties, BitSets.PackBits;
    b := EmptyFilesSection();
    AntiSection();
    FirstByte();
    NamesStart();
    NoColumns();
    var bits := BitSets.PackBits(AllSet(9));
    tail := bits + (PutNames(Nine()) + ([K_END] + rest));
    TailStarts(bits, PutNames(Nine()), [K_END] + rest);
    F.PropertiesParts(Nine(), rest);
    NineNested(PutEmptyStreams(Nine()), b, bits, PutNames(Nine()), [K_END] + rest);
  }

  lemma NineNested(streams: bytes, b: byte, bits: bytes, names: bytes, rest: bytes)
    ensures streams + (([K_EMPTY_FILE] + ([1] + [b])) + (([K_ANTI] + ([2] + bits)) + (names + ([] + ([] + ([] + ([] + rest)))))))
         == streams + ([K_EMPTY_FILE] + ([1] + ([b] + ([K_ANTI] + ([2] + (bits + (names + rest)))))))
  {
    var tail := names + rest;
    assert [] + ([] + ([] + ([] + rest))) == rest;
    assert ([K_ANTI] + ([2] + bits)) + tail == [K_ANTI] + ([2] + (bits + tail));
    var next := [K_ANTI] + ([2] + (bits + tail));
    assert ([K_EMPTY_FILE] + ([1] + [b])) + next == [K_EMPTY_FILE] + ([1] + ([b] + next));
  }

  /** The file table of the nine files cannot be read. */
  lemma NineUnreadable(sub: SubStreams, rest: bytes)
    requires |rest| < 100
    ensures GetFilesInfo(Some(sub), PutFilesInfo(Nine())[1..] + rest).Err?
  {
    hide GetProperties, PutProperties, VarInt.Enc, VarInt.Dec, PutEmptyStreams, Attach;
    var t := NewTable(9);
    VarInt.EncSmall(9);
    assert PutFilesInfo(Nine())[1..] + rest == VarInt.Enc(9) + (PutProperties(Nine()) + rest);
    VarInt.RoundTrip(9, PutProperties(Nine()) + rest);
    var b, tail := NineBytes(rest);
    var s1 := [K_EMPTY_FILE] + ([1] + ([b] + ([K_ANTI] + ([K_ARCHIVE_PROPERTIES] + tail))));
    NineColumns();
    AllSetTrims();
    F.EmptyStreamsStep(Nine(), t, s1);
    var t1 := t.(emptyStream := Some(AllSet(9)));
    var t2 := BitmapSwallows(t1, b, K_ANTI, [K_ARCHIVE_PROPERTIES] + tail);
    UnknownSwallowsAll(t2, tail);
  }

  lemma {:induction false} DirectoriesSized(c: Codecs, st: State, ops: seq<Op>)
    requires (forall op :: op in ops ==> op == PushEntry(DIRECTORY, None)) && |st.records.files| + |ops| < 100
    ensures RunSized(c, st, ops)
    ensures AllMatched(ops) && (var r := Run(c, st, ops).records;
            r.packCrcs == st.records.packCrcs && r.blocks == st.records.blocks && r.comment == st.records.comment)
    decreases |ops|
  {
    if ops != [] {
      assert ops[0] in ops && ops[0] == PushEntry(DIRECTORY, None);
      assert forall op :: op in ops[1..] ==> op in ops;
      DirectoriesSized(c, Apply(c, st, ops[0]), ops[1..]);
      assert ops == [ops[0]] + ops[1..];
    }
  }

  lemma NineSized(c: Codecs)
    ensures RunSized(c, Fresh(COPY), ONE_OF_NINE) && AllMatched(ONE_OF_NINE)
    ensures var r := Run(c, Fresh(COPY), ONE_OF_NINE).records; r.packCrcs == [] && r.comment == None
  {
    hide Run;
    var st1 := Apply(c, Fresh(COPY), ONE_OF_NINE[0]);
    assert ONE_OF_NINE[1..] == seq(8, i => PushEntry(DIRECTORY, None));
    DirectoriesSized(c, st1, ONE_OF_NINE[1..]);
    FirstCall(c, Fresh(COPY), ONE_OF_NINE);
  }

  /** One file without bytes and eight directories in a new writer: the finished archive does
      not open. */
  lemma EightDirectoriesUnreadable(c: Codecs, packer: Method)
    requires c.Inverts()
    ensures AllMatched(ONE_OF_NINE)
    ensures var st := Run(c, Fresh(COPY), ONE_OF_NINE);
            && CountsFit(st.records) && st.pos >= SIGNATURE_HEADER_SIZE
            && (LengthsFit(c, st, packer) ==>
                  && ReadArchive(c, Finished(c, st, packer)).Err?
                  && !GivesBack(c, Finished(c, st, packer), PushedIn(ONE_OF_NINE), None))
  {
    hide *;
    NineSized(c);
    NineRecorded(c);
    FreshStored(COPY, c);
    RunStored(c, Fresh(COPY), ONE_OF_NINE);
    var st := Run(c, Fresh(COPY), ONE_OF_NINE);
    StoredCounts(c, st);
    if LengthsFit(c, st, packer) {
      ReadsPlainHeader(c, st, packer);
      FilesTag(Nine());
      NineUnreadable(ExpectedSub(st.records.blocks), [K_END]);
      NothingToCheck();
      PlainFailsWithFiles(c, st, GetFilesInfo(Some(ExpectedSub(st.records.blocks)), PutFilesInfo(st.records.files)[1..] + [K_END]).error);
      NotGivenBack(c, Finished(c, st, packer), PushedIn(ONE_OF_NINE), None);
    }
  }

  lemma NothingToCheck()
    ensures P.Uniform([]) && H.CommentFits(None)
  {
  }

  // ----- a refusal that is not respected

  const TWO_FILES := [PushEntry(EMPTY_FILE, Some([7])), PushEntry(FULL, Some([8]))]

  lemma TwoRecorded(c: Codecs)
    ensures AllMatched(TWO_FILES)
    ensures var r := Run(c, Fresh(COPY), TWO_FILES).records;
            HasStreams(r.files) == [true, true] && Counts(r.blocks) == [1, 1]
  {
    hide Splice, StageSizes, Packed;
    TwoCalls(c, Fresh(COPY), TWO_FILES);
  }

  /** Two blocks of one file each start at the two files. */
  lemma TwoFirsts(counts: seq<nat>, has: seq<bool>)
    requires counts == [1, 1] && has == [true, true] && Complete(counts, AllIn(2), has)
    ensures Firsts(counts, AllIn(2), has) == [0, 1]
  {
    hide WalkTo;
    assert Streams(has, 0) == 0 && Streams(has, 1) == 1 && Streams(has, 2) == 2;
    assert Before(counts, 0) == 0 && Before(counts, 1) == 1;
    StreamMaps.FirstOf(counts, AllIn(2), has, 0);
    StreamMaps.FirstOf(counts, AllIn(2), has, 1);
    assert |Firsts(counts, AllIn(2), has)| == 2;
  }

  /** Two files pushed into a new writer one by one, and the archive finished: a caller of the
      traversal that refuses the first file is handed the second as well. */
  lemma RefusalIgnored(c: Codecs, packer: Method)
    requires c.Inverts() && RunFits(c, Fresh(COPY), TWO_FILES)
    ensures AllMatched(TWO_FILES)
    ensures var st := Run(c, Fresh(COPY), TWO_FILES);
            && CountsFit(st.records) && st.pos >= SIGNATURE_HEADER_SIZE
            && (Finishable(c, st, packer) ==>
                  var data := Finished(c, st, packer);
                  && ReadArchive(c, data).Ok?
                  && var a := ReadArchive(c, data).value;
                  && |a.blocks| == 2 && ArchiveReaders.InRange(a, 2)
                  && BlocksHanded(a, [[7], [8]], AllBut(0), 2) == [Visit(0, [7]), Visit(1, [8])])
  {
    hide Inv, Stored, RunFits, Run, Finishable, Finished, ReadArchive, H.HeaderFits, Reopened, Fresh, CountsFit, Counts, Firsts, Complete,
      AllBut, BlocksHanded, Tabled, F.AllRecovered, WalkTo;
    FreshHolds(c, COPY);
    RunKeeps(c, Fresh(COPY), TWO_FILES);
    TwoRecorded(c);
    var st := Run(c, Fresh(COPY), TWO_FILES);
    StoredParts(c, st);
    StoredCounts(c, st);
    if Finishable(c, st, packer) {
      ArchiveRoundTrip.RoundTrip(c, st, packer);
      ReopenedSeen(c, st);
      InvComplete(c, st);
      TwoFirsts(Counts(st.records.blocks), HasStreams(st.records.files));
      HandedOnRegardless(Reopened(c, st), [[7], [8]]);
    }
  }
}
