/** What the archive writer records as files are pushed, and the invariant every run keeps
    between the records, the bytes already written and the contents that were pushed. */
module Writers {
  import opened Wire
  import opened Repeats
  import opened Blocks
  import opened UnpackInfos
  import opened SubStreams
  import opened FilesInfos
  import opened StreamMaps
  import opened Headers
  import opened Codecs
  import PackInfos
  import F = FilesRoundTrip
  import H = HeaderRoundTrip

  type Methods = ms: seq<Method> | 0 < |ms| < U64_LIMIT witness [Method([0], [])]

  /** The writer. `datas` is not stored by the program: it remembers, block by block, the
      contents that were pushed. */
  datatype State = State(
    records: Records,
    out: bytes,
    pos: nat,
    methods: Methods,
    encryptHeader: bool,
    datas: seq<seq<bytes>>)

  const NO_RECORDS := Records([], 0, [], [], [], None)

  function Fresh(methods: Methods): State {
    State(NO_RECORDS, [], SIGNATURE_HEADER_SIZE, methods, true, [])
  }

  datatype Op =
    | PushEntry(entry: Entry, data: Option<bytes>)
    | PushBytes(entry: Entry, bytes: bytes)
    | PushSolid(entries: seq<Entry>, contents: seq<bytes>)
    | PushParallel(entries: seq<Entry>, contents: seq<bytes>)
    | SetMethods(methods: seq<Method>)
    | SetEncryptHeader(encrypt: bool)
    | SetComment(comment: Comment)
    | ClearComment

  /** A solid push has one content for each entry. */
  predicate Matched(op: Op) {
    op.PushSolid? || op.PushParallel? ==> |op.entries| == |op.contents|
  }

  predicate AllMatched(ops: seq<Op>) {
    forall op :: op in ops ==> Matched(op)
  }

  function Lengths(ds: seq<bytes>): (r: seq<nat>)
    ensures |r| == |ds|
  {
    seq(|ds|, i requires 0 <= i < |ds| => |ds[i]|)
  }

  function CrcOf(c: Codecs, d: bytes): u32 {
    c.crc(d)
  }

  function Crcs(c: Codecs, ds: seq<bytes>): (r: seq<u32>)
    ensures |r| == |ds|
  {
    seq(|ds|, i requires 0 <= i < |ds| => CrcOf(c, ds[i]))
  }

  function AsU64s(xs: seq<nat>): (r: seq<u64>)
    ensures |r| == |xs|
  {
    seq(|xs|, i requires 0 <= i < |xs| => AsU64(xs[i]))
  }

  /** The bytes of one more block go out, and its two table rows are added. */
  function AddBlock(c: Codecs, st: State, b: BlockInfo, x: bytes, files: seq<Entry>, ds: seq<bytes>): State {
    var packed := Packed(c, st.methods, x);
    State(st.records.(files := st.records.files + files,
                      packSizes := st.records.packSizes + [AsU64(|packed|)],
                      packCrcs := st.records.packCrcs + [c.crc(packed)],
                      blocks := st.records.blocks + [b]),
          Splice(st.out, st.pos, packed), st.pos + |packed|, st.methods, st.encryptHeader, st.datas + [ds])
  }

  function WithFile(st: State, e: Entry): State {
    st.(records := st.records.(files := st.records.files + [e]))
  }

  function Streamed(c: Codecs, e: Entry, data: bytes): Entry {
    e.(hasStream := true, size := AsU64(|data|), crc := c.crc(data), hasCrc := true)
  }

  function SingleBlock(c: Codecs, ms: Methods, x: bytes): BlockInfo {
    BlockInfo(ms, AsU64s(StageSizes(c, ms, x)), c.crc(x), 1, [], [])
  }

  function SolidBlock(c: Codecs, ms: Methods, ds: seq<bytes>): BlockInfo {
    BlockInfo(ms, AsU64s(StageSizes(c, ms, Flatten(ds))), c.crc(Flatten(ds)), AsU64(|ds|), AsU64s(Lengths(ds)), Crcs(c, ds))
  }

  /** The solid push leaves `has_stream` as the caller set it. */
  function SolidEntries(c: Codecs, es: seq<Entry>, ds: seq<bytes>): (r: seq<Entry>)
    requires |es| == |ds|
    ensures |r| == |es|
  {
    seq(|es|, i requires 0 <= i < |es| => es[i].(size := AsU64(|ds[i]|), crc := c.crc(ds[i]), hasCrc := true))
  }

  /** The parallel solid push sets it itself. */
  function Flagged(es: seq<Entry>): (r: seq<Entry>)
    ensures |r| == |es|
  {
    seq(|es|, i requires 0 <= i < |es| => es[i].(hasStream := true))
  }

  /** All contents end to end in one block. */
  function AddSolid(c: Codecs, st: State, es: seq<Entry>, ds: seq<bytes>): State
    requires |es| == |ds|
  {
    AddBlock(c, st, SolidBlock(c, st.methods, ds), Flatten(ds), SolidEntries(c, es, ds), ds)
  }

  /** What each call does to the writer, when it succeeds. */
  function Apply(c: Codecs, st: State, op: Op): State
    requires Matched(op)
  {
    match op
    case PushEntry(e, data) =>
      if !e.isDirectory && data.Some? then
        AddBlock(c, st, SingleBlock(c, st.methods, data.value), data.value, [Streamed(c, e, data.value)], [data.value])
      else WithFile(st, e.(hasStream := false, size := 0, hasCrc := false))
    case PushBytes(e, data) =>
      if e.isDirectory || data == [] then
        WithFile(st, e.(hasStream := !e.isDirectory && data == [], size := 0, hasCrc := false))
      else AddBlock(c, st, SingleBlock(c, st.methods, data), data, [Streamed(c, e, data)], [data])
    case PushSolid(es, ds) => AddSolid(c, st, es, ds)
    case PushParallel(es, ds) => if es == [] then st else AddSolid(c, st, Flagged(es), ds)
    case SetMethods(ms) => if 0 < |ms| < U64_LIMIT then st.(methods := ms) else st
    case SetEncryptHeader(e) => st.(encryptHeader := e)
    case SetComment(text) => st.(records := st.records.(comment := Some(text)))
    case ClearComment => st.(records := st.records.(comment := None))
  }

  // ----- the invariant

  /** Block record `b` with its pack row describes the contents `ds`. */
  predicate BlockHolds(c: Codecs, b: BlockInfo, ds: seq<bytes>, packSize: u64, packCrc: u32) {
    var x := Flatten(ds);
    && b.sizes == StageSizes(c, b.methods, x)
    && b.numSub == |ds|
    && packSize == |Packed(c, b.methods, x)|
    && packCrc == c.crc(Packed(c, b.methods, x))
    && (|| (b.numSub == 1 && b.subSizes == [] && b.subCrcs == [] && b.crc == c.crc(x))
        || (b.subSizes == Lengths(ds) && b.subCrcs == Crcs(c, ds)))
  }

  function PackedBlocks(c: Codecs, blocks: seq<BlockInfo>, datas: seq<seq<bytes>>): (r: seq<bytes>)
    requires |blocks| == |datas|
    ensures |r| == |blocks|
  {
    seq(|blocks|, i requires 0 <= i < |blocks| => Packed(c, blocks[i].methods, Flatten(datas[i])))
  }

  /** The bytes written after the room left for the start header. */
  function Body(st: State): bytes {
    if |st.out| <= SIGNATURE_HEADER_SIZE then [] else st.out[SIGNATURE_HEADER_SIZE..]
  }

  predicate TablesHold(c: Codecs, st: State) {
    var r := st.records;
    && r.packPos == 0
    && |r.packSizes| == |r.packCrcs| == |r.blocks| == |st.datas| < U64_LIMIT
    && forall i :: 0 <= i < |r.blocks| ==> BlockHolds(c, r.blocks[i], st.datas[i], r.packSizes[i], r.packCrcs[i])
  }

  predicate BytesHold(c: Codecs, st: State)
    requires |st.records.blocks| == |st.datas|
  {
    && (|st.out| == st.pos >= SIGNATURE_HEADER_SIZE || (st.out == [] && st.pos == SIGNATURE_HEADER_SIZE))
    && st.pos < U64_LIMIT
    && Body(st) == Flatten(PackedBlocks(c, st.records.blocks, st.datas))
  }

  /** The files with data are, in order, the contents pushed. */
  predicate FilesHold(c: Codecs, files: seq<Entry>, datas: seq<seq<bytes>>) {
    && |files| < U64_LIMIT
    && F.StreamSizes(files) == Lengths(Flatten(datas))
    && F.StreamCrcs(files) == Crcs(c, Flatten(datas))
  }

  ghost predicate Inv(c: Codecs, st: State) {
    && TablesHold(c, st)
    && BytesHold(c, st)
    && FilesHold(c, st.records.files, st.datas)
    && Settled(Counts(st.records.blocks), HasStreams(st.records.files))
  }

  /** What holds of the tables and the bytes even when entries are flagged wrongly. */
  ghost predicate Stored(c: Codecs, st: State) {
    && TablesHold(c, st) && BytesHold(c, st)
    && |Flatten(st.datas)| <= |st.records.files| < U64_LIMIT
  }

  /** Lengths stay within the machine's 64 bits. */
  predicate BlockFits(c: Codecs, st: State, x: bytes, files: nat) {
    && (forall i :: 0 <= i <= |st.methods| ==> |Stage(c, st.methods, x, i)| < U64_LIMIT)
    && st.pos + |Packed(c, st.methods, x)| < U64_LIMIT
    && |st.records.blocks| + 1 < U64_LIMIT
    && |st.records.files| + files < U64_LIMIT
  }

  predicate OpFits(c: Codecs, st: State, op: Op) {
    match op
    case PushEntry(e, data) =>
      if !e.isDirectory && data.Some? then BlockFits(c, st, data.value, 1) else |st.records.files| + 1 < U64_LIMIT
    case PushBytes(e, data) =>
      if e.isDirectory || data == [] then |st.records.files| + 1 < U64_LIMIT else BlockFits(c, st, data, 1)
    case PushSolid(es, ds) => |es| == |ds| && BlockFits(c, st, Flatten(ds), |es|)
    case PushParallel(es, ds) =>
      |es| == |ds| && |es| <= 0x1_0000_0000 && (es != [] ==> BlockFits(c, st, Flatten(ds), |es|))
    case _ => true
  }

  /** What the caller has to see to: bytes pushed for a file are not empty, and entries of
      a solid push are flagged as having data. */
  predicate Proper(op: Op) {
    match op
    case PushBytes(e, data) => e.isDirectory || data != []
    case PushSolid(es, ds) => forall e :: e in es ==> e.hasStream
    case _ => true
  }

  // ----- the invariant is kept

  /** A block's contents are the files its record announces. */
  lemma BlockContents(c: Codecs, b: BlockInfo, ds: seq<bytes>, packSize: u64, packCrc: u32)
    requires BlockHolds(c, b, ds, packSize, packCrc)
    ensures SubOk(b) && FileSizes(b) == Lengths(ds) && BlockCrcs(b) == Crcs(c, ds)
  {
    hide StageSizes, Packed;
    SumOfLengths(ds);
    assert TotalSize(b) == |Flatten(ds)| by {
      hide *;
      LastStage(c, b.methods, Flatten(ds));
    }
    if |ds| == 1 {
      assert Flatten(ds) == ds[0] + Flatten(ds[1..]) == ds[0];
    }
  }

  lemma LastStage(c: Codecs, ms: seq<Method>, x: bytes)
    requires 0 < |ms|
    ensures StageSizes(c, ms, x)[|ms| - 1] == |x|
  {
  }

  lemma {:induction false} SumOfLengths(ds: seq<bytes>)
    ensures Sum(Lengths(ds)) == |Flatten(ds)|
  {
    if ds != [] {
      SumOfLengths(ds[1..]);
      assert Lengths(ds)[1..] == Lengths(ds[1..]);
    }
  }

  lemma {:induction false} CountsOfContents(c: Codecs, r: Records, datas: seq<seq<bytes>>, n: nat)
    requires |r.packSizes| == |r.packCrcs| == |r.blocks| == |datas| && n <= |datas|
    requires forall i :: 0 <= i < |r.blocks| ==> BlockHolds(c, r.blocks[i], datas[i], r.packSizes[i], r.packCrcs[i])
    ensures Before(Counts(r.blocks), n) == |Flatten(datas[..n])|
  {
    hide BlockHolds;
    if n > 0 {
      CountsOfContents(c, r, datas, n - 1);
      FlattenSnoc(datas[..n - 1], datas[n - 1]);
      assert datas[..n] == datas[..n - 1] + [datas[n - 1]];
      CountOfBlock(c, r.blocks[n - 1], datas[n - 1], r.packSizes[n - 1], r.packCrcs[n - 1]);
    }
  }

  lemma CountOfBlock(c: Codecs, b: BlockInfo, ds: seq<bytes>, packSize: u64, packCrc: u32)
    requires BlockHolds(c, b, ds, packSize, packCrc)
    ensures b.numSub == |ds|
  {
  }

  /** Sub-stream counts add up to the number of files with data. */
  lemma StreamsCounted(c: Codecs, st: State)
    requires TablesHold(c, st) && FilesHold(c, st.records.files, st.datas)
    ensures Streams(HasStreams(st.records.files), |st.records.files|) == Before(Counts(st.records.blocks), |st.records.blocks|)
  {
    hide BlockHolds, Counts;
    var r := st.records;
    CountsOfContents(c, r, st.datas, |st.datas|);
    assert st.datas[..|st.datas|] == st.datas;
    H.StreamsOfFiles(r.files, |r.files|);
    assert r.files[..|r.files|] == r.files;
  }

  lemma {:induction false} StreamsOfPrefix(has: seq<bool>, more: seq<bool>, k: nat)
    requires k <= |has|
    ensures Streams(has + more, k) == Streams(has, k)
  {
    if k > 0 {
      StreamsOfPrefix(has, more, k - 1);
    }
  }

  lemma {:induction false} BeforeOfPrefix(counts: seq<nat>, more: seq<nat>, b: nat)
    requires b <= |counts|
    ensures Before(counts + more, b) == Before(counts, b)
  {
    if b > 0 {
      BeforeOfPrefix(counts, more, b - 1);
    }
  }

  /** Appending blocks, and files that all have data, keeps the list settled; so does
      appending a file without data once all blocks are full. */
  lemma SettledGrows(counts: seq<nat>, more: seq<nat>, has: seq<bool>, added: seq<bool>)
    requires Settled(counts, has)
    requires false !in added || (added == [false] && Streams(has, |has|) == Before(counts, |counts|))
    ensures Settled(counts + more, has + added)
  {
    hide Streams, Before;
    forall i | 0 <= i < |has + added| && !(has + added)[i]
      ensures exists b :: 0 <= b <= |counts + more| && Before(counts + more, b) == Streams(has + added, i)
    {
      StreamsOfPrefix(has, added, Min(i, |has|));
      var b: nat := if i < |has| then var b: nat :| b <= |counts| && Before(counts, b) == Streams(has, i); b else |counts|;
      if i >= |has| {
        assert added[i - |has|] in added;
      }
      BeforeOfPrefix(counts, more, b);
    }
  }

  lemma FreshHolds(c: Codecs, methods: Methods)
    ensures Inv(c, Fresh(methods))
  {
    assert Flatten<bytes>([]) == [];
  }

  /** One more file without data. */
  lemma WithFileHolds(c: Codecs, st: State, e: Entry)
    requires Inv(c, st) && |st.records.files| + 1 < U64_LIMIT
    ensures Inv(c, WithFile(st, e)) <==> !e.hasStream
  {
    hide BlockHolds, Counts, PackedBlocks, Settled;
    var r := st.records;
    var n := |r.files|;
    F.FilterSplit(r.files + [e], n);
    assert (r.files + [e])[..n] == r.files && (r.files + [e])[n..] == [e];
    assert F.WithStreams([e]) == (if e.hasStream then [e] else []) + F.WithStreams([]);
    if !e.hasStream {
      assert F.WithStreams(r.files + [e]) == F.WithStreams(r.files);
      StreamsCounted(c, st);
      SettledGrows(Counts(r.blocks), [], HasStreams(r.files), [false]);
      assert Counts(r.blocks) + [] == Counts(r.blocks);
      assert HasStreams(r.files + [e]) == HasStreams(r.files) + [false];
    } else {
      assert |F.StreamSizes(r.files + [e])| == |F.StreamSizes(r.files)| + 1;
    }
  }

  /** `es` are the file records of one block with the contents `ds`. */
  predicate EntriesHold(c: Codecs, es: seq<Entry>, ds: seq<bytes>) {
    && |es| == |ds|
    && forall i :: 0 <= i < |es| ==> es[i].size == |ds[i]| && es[i].crc == c.crc(ds[i])
  }

  lemma {:induction false} AllStreams(es: seq<Entry>)
    ensures |F.WithStreams(es)| <= |es|
    ensures (forall e :: e in es ==> e.hasStream) <==> |F.WithStreams(es)| == |es|
    ensures (forall e :: e in es ==> e.hasStream) ==> F.WithStreams(es) == es
  {
    if es != [] {
      AllStreams(es[1..]);
      assert es == [es[0]] + es[1..];
    }
  }

  /** The size and CRC columns of a longer list. */
  lemma ColumnsGrow(files: seq<Entry>, es: seq<Entry>)
    ensures F.StreamSizes(files + es) == F.StreamSizes(files) + F.StreamSizes(es)
    ensures F.StreamCrcs(files + es) == F.StreamCrcs(files) + F.StreamCrcs(es)
  {
    hide F.WithStreams;
    F.FilterSplit(files + es, |files|);
    assert (files + es)[..|files|] == files && (files + es)[|files|..] == es;
  }

  lemma ColumnsOfBlock(c: Codecs, es: seq<Entry>, ds: seq<bytes>)
    requires EntriesHold(c, es, ds)
    ensures |F.StreamSizes(es)| == |Lengths(ds)| <==> forall e :: e in es ==> e.hasStream
    ensures (forall e :: e in es ==> e.hasStream) ==> F.StreamSizes(es) == Lengths(ds) && F.StreamCrcs(es) == Crcs(c, ds)
  {
    hide F.WithStreams;
    AllStreams(es);
  }

  lemma RowsConcat(c: Codecs, a: seq<bytes>, b: seq<bytes>)
    ensures Lengths(a + b) == Lengths(a) + Lengths(b) && Crcs(c, a + b) == Crcs(c, a) + Crcs(c, b)
  {
  }

  lemma FilesGrow(c: Codecs, files: seq<Entry>, datas: seq<seq<bytes>>, es: seq<Entry>, ds: seq<bytes>)
    requires FilesHold(c, files, datas) && EntriesHold(c, es, ds) && |files| + |es| < U64_LIMIT
    ensures FilesHold(c, files + es, datas + [ds]) <==> forall e :: e in es ==> e.hasStream
  {
    hide F.StreamSizes, F.StreamCrcs, Lengths, Crcs, EntriesHold;
    ColumnsGrow(files, es);
    ColumnsOfBlock(c, es, ds);
    RowsConcat(c, Flatten(datas), ds);
    FlattenSnoc(datas, ds);
    assert |F.StreamSizes(files + es)| == |F.StreamSizes(files)| + |F.StreamSizes(es)|;
  }

  /** Writing at the end appends. */
  lemma SpliceAppends(out: bytes, pos: nat, b: bytes)
    requires |out| == pos
    ensures Splice(out, pos, b) == out + b
  {
  }

  lemma BodyGrows(st: State, st': State, b: bytes)
    requires |st.out| == st.pos >= SIGNATURE_HEADER_SIZE || (st.out == [] && st.pos == SIGNATURE_HEADER_SIZE)
    requires st'.out == Splice(st.out, st.pos, b) && st'.pos == st.pos + |b|
    ensures |st'.out| == st'.pos >= SIGNATURE_HEADER_SIZE || (st'.out == [] && st'.pos == SIGNATURE_HEADER_SIZE)
    ensures Body(st') == Body(st) + b
  {
    if |st.out| == st.pos {
      hide Splice;
      SpliceAppends(st.out, st.pos, b);
    }
  }

  lemma BytesGrow(c: Codecs, st: State, b: BlockInfo, x: bytes, files: seq<Entry>, ds: seq<bytes>)
    requires |st.records.blocks| == |st.datas| && BytesHold(c, st)
    requires b.methods == st.methods && x == Flatten(ds)
    requires st.pos + |Packed(c, st.methods, x)| < U64_LIMIT
    ensures BytesHold(c, AddBlock(c, st, b, x, files, ds))
  {
    hide Packed, Splice, Body;
    var packed := Packed(c, st.methods, x);
    var st' := AddBlock(c, st, b, x, files, ds);
    var was := PackedBlocks(c, st.records.blocks, st.datas);
    assert PackedBlocks(c, st'.records.blocks, st'.datas) == was + [packed];
    FlattenSnoc(was, packed);
    BodyGrows(st, st', packed);
  }

  lemma TablesGrow(c: Codecs, st: State, b: BlockInfo, x: bytes, files: seq<Entry>, ds: seq<bytes>)
    requires TablesHold(c, st) && b.methods == st.methods && x == Flatten(ds)
    requires |Packed(c, st.methods, x)| < U64_LIMIT && |st.records.blocks| + 1 < U64_LIMIT
    requires BlockHolds(c, b, ds, AsU64(|Packed(c, st.methods, x)|), c.crc(Packed(c, st.methods, x)))
    ensures TablesHold(c, AddBlock(c, st, b, x, files, ds))
  {
    hide Packed, BlockHolds;
  }

  lemma StageFits(c: Codecs, st: State, x: bytes, files: nat)
    requires BlockFits(c, st, x, files)
    ensures |Packed(c, st.methods, x)| < U64_LIMIT && st.pos + |Packed(c, st.methods, x)| < U64_LIMIT
  {
  }

  lemma CountsSnoc(blocks: seq<BlockInfo>, b: BlockInfo)
    ensures Counts(blocks + [b]) == Counts(blocks) + [b.numSub]
  {
  }

  lemma RowCounts(c: Codecs, st: State)
    requires TablesHold(c, st)
    ensures |st.records.packSizes| == |st.records.packCrcs| == |st.records.blocks| == |st.datas|
  {
  }

  /** One more block. Nothing breaks exactly when all its entries are flagged as having data. */
  lemma AddBlockHolds(c: Codecs, st: State, b: BlockInfo, es: seq<Entry>, ds: seq<bytes>)
    requires Inv(c, st) && BlockFits(c, st, Flatten(ds), |es|)
    requires b.methods == st.methods && EntriesHold(c, es, ds)
    requires BlockHolds(c, b, ds, AsU64(|Packed(c, st.methods, Flatten(ds))|), c.crc(Packed(c, st.methods, Flatten(ds))))
    ensures Inv(c, AddBlock(c, st, b, Flatten(ds), es, ds)) <==> forall e :: e in es ==> e.hasStream
  {
    hide BlockHolds, EntriesHold, FilesHold, BytesHold, TablesHold, Packed, Stage, Settled, Splice, Counts;
    var x := Flatten(ds);
    var r := st.records;
    var st' := AddBlock(c, st, b, x, es, ds);
    StageFits(c, st, x, |es|);
    RowCounts(c, st);
    TablesGrow(c, st, b, x, es, ds);
    BytesGrow(c, st, b, x, es, ds);
    FilesGrow(c, r.files, st.datas, es, ds);
    if forall e :: e in es ==> e.hasStream {
      SettledGrows(Counts(r.blocks), [b.numSub], HasStreams(r.files), HasStreams(es));
      CountsSnoc(r.blocks, b);
      assert HasStreams(r.files + es) == HasStreams(r.files) + HasStreams(es);
    }
  }

  lemma AsU64sSame(xs: seq<nat>)
    requires forall i :: 0 <= i < |xs| ==> xs[i] < U64_LIMIT
    ensures AsU64s(xs) == xs
  {
  }

  lemma SizesFit(c: Codecs, st: State, x: bytes, files: nat)
    requires BlockFits(c, st, x, files)
    ensures AsU64s(StageSizes(c, st.methods, x)) == StageSizes(c, st.methods, x)
    ensures |x| < U64_LIMIT && files < U64_LIMIT
  {
    assert Stage(c, st.methods, x, |st.methods|) == x;
    AsU64sSame(StageSizes(c, st.methods, x));
  }

  lemma {:induction false} PartsFit(ds: seq<bytes>)
    ensures forall i :: 0 <= i < |ds| ==> |ds[i]| <= |Flatten(ds)|
  {
    if ds != [] {
      PartsFit(ds[1..]);
      forall i | 0 <= i < |ds|
        ensures |ds[i]| <= |Flatten(ds)|
      {
        if i > 0 {
          assert ds[i] == ds[1..][i - 1];
        }
      }
    }
  }

  lemma FlattenOne(x: bytes)
    ensures Flatten([x]) == x
  {
    FlattenSnoc<byte>([], x);
    assert [] + [x] == [x];
  }

  lemma SingleHolds(c: Codecs, st: State, e: Entry, x: bytes)
    requires BlockFits(c, st, x, 1)
    ensures BlockHolds(c, SingleBlock(c, st.methods, x), [x], AsU64(|Packed(c, st.methods, x)|), c.crc(Packed(c, st.methods, x)))
    ensures EntriesHold(c, [Streamed(c, e, x)], [x])
  {
    FlattenOne(x);
    SizesFit(c, st, x, 1);
    StageFits(c, st, x, 1);
  }

  lemma SolidHolds(c: Codecs, st: State, es: seq<Entry>, ds: seq<bytes>)
    requires |es| == |ds| && BlockFits(c, st, Flatten(ds), |es|)
    ensures BlockHolds(c, SolidBlock(c, st.methods, ds), ds, AsU64(|Packed(c, st.methods, Flatten(ds))|),
                       c.crc(Packed(c, st.methods, Flatten(ds))))
    ensures EntriesHold(c, SolidEntries(c, es, ds), ds)
    ensures (forall e :: e in SolidEntries(c, es, ds) ==> e.hasStream) <==> (forall e :: e in es ==> e.hasStream)
  {
    hide Packed, StageSizes, BlockFits;
    PartsFit(ds);
    SizesFit(c, st, Flatten(ds), |es|);
    StageFits(c, st, Flatten(ds), |es|);
    AsU64sSame(Lengths(ds));
    SameFlags(c, es, ds);
  }

  lemma SameFlags(c: Codecs, es: seq<Entry>, ds: seq<bytes>)
    requires |es| == |ds|
    ensures (forall e :: e in SolidEntries(c, es, ds) ==> e.hasStream) <==> (forall e :: e in es ==> e.hasStream)
  {
    var rs := SolidEntries(c, es, ds);
    if forall e :: e in es ==> e.hasStream {
      forall e | e in rs
        ensures e.hasStream
      {
        var i :| 0 <= i < |rs| && rs[i] == e;
        assert es[i] in es;
      }
    }
    if forall e :: e in rs ==> e.hasStream {
      forall e | e in es
        ensures e.hasStream
      {
        var i :| 0 <= i < |es| && es[i] == e;
        assert rs[i] in rs;
      }
    }
  }

  /** A call keeps the invariant if and only if its caller met the two conditions. */
  lemma StepKeepsIffProper(c: Codecs, st: State, op: Op)
    requires Inv(c, st) && OpFits(c, st, op)
    ensures Inv(c, Apply(c, st, op)) <==> Proper(op)
  {
    hide Inv, BlockFits, BlockHolds, SingleBlock, AddSolid, AddBlock, EntriesHold;
    match op
    case PushEntry(e, data) =>
      if !e.isDirectory && data.Some? {
        SingleStep(c, st, e, data.value);
      } else {
        WithFileHolds(c, st, e.(hasStream := false, size := 0, hasCrc := false));
      }
    case PushBytes(e, data) =>
      if e.isDirectory || data == [] {
        WithFileHolds(c, st, e.(hasStream := !e.isDirectory && data == [], size := 0, hasCrc := false));
      } else {
        SingleStep(c, st, e, data);
      }
    case PushSolid(es, ds) => SolidStep(c, st, es, ds);
    case PushParallel(es, ds) =>
      if es == [] {
        SettingsHold(c, st, Apply(c, st, op));
      } else {
        SolidStep(c, st, Flagged(es), ds);
      }
    case SetMethods(ms) => SettingsHold(c, st, Apply(c, st, op));
    case SetEncryptHeader(_) => SettingsHold(c, st, Apply(c, st, op));
    case SetComment(_) => SettingsHold(c, st, Apply(c, st, op));
    case ClearComment => SettingsHold(c, st, Apply(c, st, op));
  }

  lemma SingleStep(c: Codecs, st: State, e: Entry, x: bytes)
    requires Inv(c, st) && BlockFits(c, st, x, 1)
    ensures Inv(c, AddBlock(c, st, SingleBlock(c, st.methods, x), x, [Streamed(c, e, x)], [x]))
  {
    hide Inv, BlockFits, BlockHolds, AddBlock, EntriesHold;
    FlattenOne(x);
    SingleHolds(c, st, e, x);
    AddBlockHolds(c, st, SingleBlock(c, st.methods, x), [Streamed(c, e, x)], [x]);
  }

  lemma SolidStep(c: Codecs, st: State, es: seq<Entry>, ds: seq<bytes>)
    requires Inv(c, st) && |es| == |ds| && BlockFits(c, st, Flatten(ds), |es|)
    ensures Inv(c, AddSolid(c, st, es, ds)) <==> forall e :: e in es ==> e.hasStream
  {
    hide Inv, BlockFits, BlockHolds, AddBlock, EntriesHold;
    SolidHolds(c, st, es, ds);
    AddBlockHolds(c, st, SolidBlock(c, st.methods, ds), SolidEntries(c, es, ds), ds);
  }

  /** Both solid pushes leave the same records if and only if there are entries and all of them
      are flagged as having data. */
  lemma ParallelIsPlainIff(c: Codecs, st: State, es: seq<Entry>, ds: seq<bytes>)
    requires |es| == |ds|
    ensures Apply(c, st, PushParallel(es, ds)) == Apply(c, st, PushSolid(es, ds))
       <==> es != [] && forall e :: e in es ==> e.hasStream
  {
    hide Packed, SolidBlock, Splice;
    var plain := Apply(c, st, PushSolid(es, ds));
    if es == [] {
      assert |plain.records.blocks| == |st.records.blocks| + 1;
    } else if forall e :: e in es ==> e.hasStream {
      AllFlagged(es);
    } else {
      var e :| e in es && !e.hasStream;
      var i :| 0 <= i < |es| && es[i] == e;
      var n := |st.records.files|;
      assert plain.records.files[n + i] == SolidEntries(c, es, ds)[i];
      assert Apply(c, st, PushParallel(es, ds)).records.files[n + i] == SolidEntries(c, Flagged(es), ds)[i];
    }
  }

  lemma AllFlagged(es: seq<Entry>)
    requires forall e :: e in es ==> e.hasStream
    ensures Flagged(es) == es
  {
    forall i | 0 <= i < |es|
      ensures Flagged(es)[i] == es[i]
    {
      assert es[i] in es;
    }
  }

  lemma SettingsHold(c: Codecs, st: State, st': State)
    requires Inv(c, st)
    requires st'.records.(comment := None) == st.records.(comment := None)
    requires st'.out == st.out && st'.pos == st.pos && st'.datas == st.datas
    ensures Inv(c, st')
  {
    hide BlockHolds, PackedBlocks, Settled, F.StreamSizes, F.StreamCrcs;
  }

  // ----- whole runs

  function Run(c: Codecs, st: State, ops: seq<Op>): State
    requires AllMatched(ops)
    decreases |ops|
  {
    if ops == [] then st else Run(c, Apply(c, st, ops[0]), ops[1..])
  }

  /** Every call of the run meets its conditions where it is made. */
  predicate RunFits(c: Codecs, st: State, ops: seq<Op>)
    decreases |ops|
  {
    ops != [] ==>
      && OpFits(c, st, ops[0]) && Proper(ops[0])
      && RunFits(c, Apply(c, st, ops[0]), ops[1..])
  }

  lemma {:induction false} SolidSizes(c: Codecs, st: State, ops: seq<Op>)
    requires RunFits(c, st, ops)
    ensures AllMatched(ops)
    decreases |ops|
  {
    if ops != [] {
      SolidSizes(c, Apply(c, st, ops[0]), ops[1..]);
    }
  }

  /** The invariant holds after every run of successful pushes and settings. */
  lemma {:induction false} RunKeeps(c: Codecs, st: State, ops: seq<Op>)
    requires Inv(c, st) && RunFits(c, st, ops)
    ensures AllMatched(ops)
    ensures Inv(c, Run(c, st, ops))
    decreases |ops|
  {
    hide Inv, OpFits, Proper, Apply;
    SolidSizes(c, st, ops);
    if ops != [] {
      StepKeepsIffProper(c, st, ops[0]);
      RunKeeps(c, Apply(c, st, ops[0]), ops[1..]);
    }
  }

  // ----- what the invariant says of the bytes

  lemma SliceBehind(a: bytes, b: bytes, off: nat, n: nat)
    requires off + n <= |b|
    ensures (a + b)[|a| + off..|a| + off + n] == b[off..off + n]
  {
  }

  lemma FirstLength(parts: seq<bytes>, i: nat)
    requires 0 < i <= |parts|
    ensures Sum(Lengths(parts)[..i]) == |parts[0]| + Sum(Lengths(parts[1..])[..i - 1])
  {
    assert Lengths(parts)[..i][1..] == Lengths(parts[1..])[..i - 1];
  }

  lemma {:induction false} SliceOfFlat(parts: seq<bytes>, i: nat)
    requires i < |parts|
    ensures var off := Sum(Lengths(parts)[..i]);
            off + |parts[i]| <= |Flatten(parts)| && Flatten(parts)[off..off + |parts[i]|] == parts[i]
  {
    hide Sum, Lengths;
    var rest := Flatten(parts[1..]);
    assert Flatten(parts) == parts[0] + rest;
    if i == 0 {
      assert Sum(Lengths(parts)[..0]) == 0 by {
        NothingBefore(Lengths(parts));
      }
    } else {
      SliceOfFlat(parts[1..], i - 1);
      FirstLength(parts, i);
      SliceBehind(parts[0], rest, Sum(Lengths(parts[1..])[..i - 1]), |parts[i]|);
    }
  }

  lemma NothingBefore(xs: seq<nat>)
    ensures Sum(xs[..0]) == 0
  {
  }

  lemma PackSizesAreLengths(c: Codecs, st: State)
    requires TablesHold(c, st)
    ensures st.records.packSizes == Lengths(PackedBlocks(c, st.records.blocks, st.datas))
  {
    var r := st.records;
    forall i | 0 <= i < |r.blocks|
      ensures r.packSizes[i] == |PackedBlocks(c, r.blocks, st.datas)[i]|
    {
      PackSizeOf(c, r.blocks[i], st.datas[i], r.packSizes[i], r.packCrcs[i]);
    }
  }

  lemma PackSizeOf(c: Codecs, b: BlockInfo, ds: seq<bytes>, packSize: u64, packCrc: u32)
    requires BlockHolds(c, b, ds, packSize, packCrc)
    ensures packSize == |Packed(c, b.methods, Flatten(ds))|
  {
  }

  /** The pack sizes add up to the bytes written, and the sizes before block `b` say where
      its bytes start: exactly the ones its coder chain emitted. */
  lemma PackedBytes(c: Codecs, st: State, b: nat)
    requires Stored(c, st) && b < |st.records.blocks|
    ensures |st.records.packSizes| == |st.records.blocks| == |st.datas|
    ensures Sum(st.records.packSizes) == st.pos - SIGNATURE_HEADER_SIZE == |Body(st)|
    ensures var from := Sum(st.records.packSizes[..b]);
            && from + st.records.packSizes[b] <= |Body(st)|
            && Body(st)[from..from + st.records.packSizes[b]]
               == Packed(c, st.records.blocks[b].methods, Flatten(st.datas[b]))
  {
    hide BlockHolds, Packed, Sum;
    var parts := PackedBlocks(c, st.records.blocks, st.datas);
    PackSizesAreLengths(c, st);
    SumOfLengths(parts);
    SliceOfFlat(parts, b);
  }
}
