/** The block table of the header: written from the encoder configurations, read back as
    coder graphs with their unpacked sizes. */
module UnpackInfos {
  import opened Wire
  import opened Repeats
  import opened Blocks
  import opened PackInfos
  import VarInt

  datatype RawBlockInfo = BlockInfo(
    methods: seq<Method>,
    sizes: seq<u64>,
    crc: u32,
    numSub: u64,
    subSizes: seq<u64>,
    subCrcs: seq<u32>)

  /** One block as the writer records it: at least one method, one size for each. */
  type BlockInfo = b: RawBlockInfo | 0 < |b.methods| == |b.sizes| < U64_LIMIT
    witness BlockInfo([Method([0], [])], [0], 0, 1, [], [])

  type SizedBlock = b: Block | b.Sized()
    witness Block([], false, 0, 0, 0, [], [], [], 0)

  /** The unpacked size of the whole block. */
  function TotalSize(b: BlockInfo): u64 {
    b.sizes[|b.sizes| - 1]
  }

  // ----- the writer

  function PutMethods(b: BlockInfo): bytes {
    PutBlock(b.methods)
  }

  function PutSizes(b: BlockInfo): bytes {
    PutAll(VarInt.Enc, b.sizes)
  }

  function PutUnpack(blocks: seq<BlockInfo>): bytes
    requires |blocks| < U64_LIMIT
  {
    [K_UNPACK_INFO] + ([K_FOLDER] + (VarInt.Enc(|blocks|) + ([0] + (PutAll(PutMethods, blocks)
      + ([K_CODERS_UNPACK_SIZE] + (PutAll(PutSizes, blocks) + [K_END]))))))
  }

  method WriteSingleCodec(out: Sink, m: RawMethod)
    modifies out
    ensures out.data == old(out.data) + PutAnyCoder(m)
  {
    var flags: byte := |m.id| % 0x100;
    if m.props != [] && (flags / 0x20) % 2 == 0 {
      flags := flags + 0x20;
    }
    out.WriteU8(flags);
    out.WriteAll(m.id);
    if m.props != [] {
      out.WriteU8(|m.props| % 0x100);
      out.WriteAll(m.props);
      Cat4(old(out.data), [flags], m.id, [|m.props| % 0x100], m.props);
      Cat2([flags], m.id, [|m.props| % 0x100] + m.props);
    } else {
      Cat2(old(out.data), [flags], m.id);
    }
  }

  method WriteBlock(header: Sink, ms: seq<Method>)
    requires 0 < |ms| < U64_LIMIT
    modifies header
    ensures header.data == old(header.data) + PutBlock(ms)
  {
    hide VarInt.Enc, PutCoder, PutAnyCoder;
    var cache := new Sink();
    var numCoders := 0;
    for i := 0 to |ms|
      invariant fresh(cache) && numCoders == i && header.data == old(header.data)
      invariant cache.data == PutAll(PutCoder, ms[..i])
    {
      numCoders := numCoders + 1;
      WriteSingleCodec(cache, ms[i]);
      PutSnoc(PutCoder, ms, i);
    }
    assert ms[..|ms|] == ms;
    VarInt.WriteVar(header, numCoders);
    header.WriteAll(cache.data);
    WriteChain(header, numCoders);
    Cat3(old(header.data), VarInt.Enc(|ms|), PutAll(PutCoder, ms), PutAll(PutBindPair, Chain(|ms|)));
  }

  method WriteChain(header: Sink, numCoders: nat)
    requires 0 < numCoders < U64_LIMIT
    modifies header
    ensures header.data == old(header.data) + PutAll(PutBindPair, Chain(numCoders))
  {
    hide VarInt.Enc;
    ghost var bps := Chain(numCoders);
    for i := 0 to numCoders - 1
      invariant header.data == old(header.data) + PutAll(PutBindPair, bps[..i])
    {
      ghost var before := header.data;
      VarInt.WriteVar(header, i + 1);
      VarInt.WriteVar(header, i);
      Cat2(before, VarInt.Enc(i + 1), VarInt.Enc(i));
      PutSnoc(PutBindPair, bps, i);
      Cat2(old(header.data), PutAll(PutBindPair, bps[..i]), PutBindPair(bps[i]));
    }
    assert bps[..numCoders - 1] == bps;
  }

  class UnpackInfo {
    var blocks: seq<BlockInfo>

    constructor ()
      ensures blocks == []
    {
      blocks := [];
    }

    method Add(methods: seq<Method>, sizes: seq<u64>, crc: u32)
      requires 0 < |methods| == |sizes| < U64_LIMIT
      modifies this
      ensures blocks == old(blocks) + [BlockInfo(methods, sizes, crc, 1, [], [])]
    {
      blocks := blocks + [BlockInfo(methods, sizes, crc, 1, [], [])];
    }

    method AddMultiple(methods: seq<Method>, sizes: seq<u64>, crc: u32, numSub: u64, subSizes: seq<u64>, subCrcs: seq<u32>)
      requires 0 < |methods| == |sizes| < U64_LIMIT
      modifies this
      ensures blocks == old(blocks) + [BlockInfo(methods, sizes, crc, numSub, subSizes, subCrcs)]
    {
      blocks := blocks + [BlockInfo(methods, sizes, crc, numSub, subSizes, subCrcs)];
    }

    method WriteTo(header: Sink)
      requires |blocks| < U64_LIMIT
      modifies header
      ensures header.data == old(header.data) + PutUnpack(blocks)
    {
      hide VarInt.Enc, PutAll;
      header.WriteU8(K_UNPACK_INFO);
      header.WriteU8(K_FOLDER);
      VarInt.WriteVar(header, |blocks|);
      header.WriteU8(0);
      WriteBlockRecords(header);
      header.WriteU8(K_CODERS_UNPACK_SIZE);
      WriteBlockSizes(header);
      header.WriteU8(K_END);
      Cat8(old(header.data), [K_UNPACK_INFO], [K_FOLDER], VarInt.Enc(|blocks|), [0],
           PutAll(PutMethods, blocks), [K_CODERS_UNPACK_SIZE], PutAll(PutSizes, blocks), [K_END]);
    }

    method WriteBlockRecords(header: Sink)
      modifies header
      ensures header.data == old(header.data) + PutAll(PutMethods, blocks)
    {
      hide PutBlock;
      for i := 0 to |blocks|
        invariant header.data == old(header.data) + PutAll(PutMethods, blocks[..i])
      {
        WriteBlock(header, blocks[i].methods);
        PutSnoc(PutMethods, blocks, i);
        Cat2(old(header.data), PutAll(PutMethods, blocks[..i]), PutMethods(blocks[i]));
      }
      assert blocks[..|blocks|] == blocks;
    }

    method WriteBlockSizes(header: Sink)
      modifies header
      ensures header.data == old(header.data) + PutAll(PutSizes, blocks)
    {
      hide VarInt.Enc;
      for i := 0 to |blocks|
        invariant header.data == old(header.data) + PutAll(PutSizes, blocks[..i])
      {
        WriteVars(header, blocks[i].sizes);
        PutSnoc(PutSizes, blocks, i);
        Cat2(old(header.data), PutAll(PutSizes, blocks[..i]), PutSizes(blocks[i]));
      }
      assert blocks[..|blocks|] == blocks;
    }
  }

  // ----- the reader

  function GetBlockSizes(b: Block, s: bytes): Parsed<SizedBlock> {
    var (sizes, s1) :- GetMany(VarInt.Dec, b.totalOut, s);
    Ok((b.(unpackSizes := sizes), s1))
  }

  function WithCrcs(blocks: seq<SizedBlock>, d: seq<bool>, crcs: seq<u32>): (r: seq<SizedBlock>)
    requires |blocks| == |d| == |crcs|
  {
    seq(|blocks|, i requires 0 <= i < |blocks| => blocks[i].(hasCrc := d[i], crc := crcs[i]))
  }

  /** The optional block CRCs, and the tag after them. */
  function GetBlockCrcs(nid: byte, blocks: seq<SizedBlock>, s: bytes): Parsed<(seq<SizedBlock>, byte)> {
    if nid != K_CRC then Ok(((blocks, nid), s))
    else
      var (dc, s1) :- GetDigests(|blocks|, s);
      var (next, s2) :- GetU8(s1);
      Ok(((WithCrcs(blocks, dc.0, dc.1), next), s2))
  }

  function GetBlocks(n: nat, s: bytes): Parsed<seq<SizedBlock>> {
    var (blocks, s1) :- GetMany(GetBlock, n, s);
    var (nid, s2) :- GetU8(s1);
    if nid != K_CODERS_UNPACK_SIZE then Err(ExpectedUnpackSize(nid))
    else GetEach(GetBlockSizes, blocks, s2)
  }

  /** `read_unpack_info`, after its tag. */
  function GetUnpack(s: bytes): Parsed<seq<SizedBlock>> {
    var (nid, s1) :- GetU8(s);
    if nid != K_FOLDER then Err(ExpectedFolder(nid))
    else
      var (n, s2) :- VarInt.Dec(s1);
      var (external, s3) :- GetU8(s2);
      if external != 0 then Err(External)
      else
        var (blocks, s4) :- GetBlocks(n, s3);
        var (nid2, s5) :- GetU8(s4);
        var (done, s6) :- GetBlockCrcs(nid2, blocks, s5);
        if done.1 != K_END then Err(BadTerminatedUnpackInfo) else Ok((done.0, s6))
  }

  method ReadCoder(header: Source) returns (r: Result<Coder>)
    modifies header
    ensures Follows(GetCoder(old(header.rest)), r, header.rest)
  {
    hide VarInt.Dec;
    var bits :- header.ReadU8();
    var isSimple := (bits / 0x10) % 2 == 0;
    var hasAttributes := (bits / 0x20) % 2 != 0;
    var id :- header.ReadExact(bits % 0x10);
    var numIn, numOut, props := 1, 1, [];
    if !isSimple {
      numIn :- VarInt.ReadVar(header);
      numOut :- VarInt.ReadVar(header);
    }
    if hasAttributes {
      var size :- VarInt.ReadVar(header);
      props :- header.ReadExact(size);
    }
    if bits >= 0x80 {
      return Err(AlternativeMethods);
    }
    r := Ok(Coder(id, numIn, numOut, props));
  }

  method ReadCoders(header: Source, n: nat) returns (r: Result<seq<Coder>>, totalIn: nat, totalOut: nat)
    modifies header
    ensures Follows(GetMany(GetCoder, n, old(header.rest)), r, header.rest)
    ensures r.Ok? ==> totalIn == SumIn(r.value) && totalOut == SumOut(r.value)
  {
    hide GetCoder, GetMany;
    NoneYet(GetCoder, old(header.rest));
    var coders: seq<Coder> := [];
    totalIn, totalOut := 0, 0;
    for i := 0 to n
      invariant GetMany(GetCoder, i, old(header.rest)) == Ok((coders, header.rest))
      invariant totalIn == SumIn(coders) && totalOut == SumOut(coders)
    {
      ManySnoc(GetCoder, i, old(header.rest));
      var x := ReadCoder(header);
      if x.Err? {
        ManyFails(GetCoder, i + 1, n, old(header.rest));
        r := Err(x.error);
        return;
      }
      totalIn := totalIn + x.value.numIn;
      totalOut := totalOut + x.value.numOut;
      assert (coders + [x.value])[..i] == coders;
      coders := coders + [x.value];
    }
    r := Ok(coders);
  }

  lemma NoneYet<T>(p: bytes -> Parsed<T>, s: bytes)
    ensures GetMany(p, 0, s) == Ok(([], s))
  {
  }

  method ReadBindPairs(header: Source, n: nat) returns (r: Result<seq<BindPair>>)
    modifies header
    ensures Follows(GetMany(GetBindPair, n, old(header.rest)), r, header.rest)
  {
    hide VarInt.Dec, GetMany;
    NoneYet(GetBindPair, old(header.rest));
    var bps: seq<BindPair> := [];
    for i := 0 to n
      invariant GetMany(GetBindPair, i, old(header.rest)) == Ok((bps, header.rest))
    {
      ManySnoc(GetBindPair, i, old(header.rest));
      ghost var s := header.rest;
      var inIndex := VarInt.ReadVar(header);
      if inIndex.Err? {
        ManyFails(GetBindPair, i + 1, n, old(header.rest));
        return Err(inIndex.error);
      }
      var outIndex := VarInt.ReadVar(header);
      if outIndex.Err? {
        ManyFails(GetBindPair, i + 1, n, old(header.rest));
        return Err(outIndex.error);
      }
      assert GetBindPair(s) == Ok((BindPair(inIndex.value, outIndex.value), header.rest));
      bps := bps + [BindPair(inIndex.value, outIndex.value)];
    }
    r := Ok(bps);
  }

  method FindUnbound(bps: seq<BindPair>, n: nat) returns (r: Option<nat>)
    ensures r == FirstUnbound(bps, 0, n)
  {
    for i := 0 to n
      invariant FirstUnbound(bps, 0, n) == FirstUnbound(bps, i, n)
    {
      if FindIn(bps, i).None? {
        return Some(i);
      }
    }
    r := None;
  }

  method ReadBlock(header: Source) returns (r: Result<Block>)
    modifies header
    ensures Follows(GetBlock(old(header.rest)), r, header.rest)
  {
    hide VarInt.Dec, GetCoder, GetBindPair, GetMany, SumIn, SumOut;
    var n :- VarInt.ReadVar(header);
    var coderRun, totalIn, totalOut := ReadCoders(header, n);
    var coders :- coderRun;
    if totalIn >= U64_LIMIT || totalOut >= U64_LIMIT {
      return Err(Panic);
    }
    if totalOut == 0 {
      return Err(NoOutputStreams);
    }
    var bps :- ReadBindPairs(header, totalOut - 1);
    if totalIn < totalOut - 1 {
      return Err(TooFewInputStreams);
    }
    var packed: seq<u64> := [];
    if totalIn - (totalOut - 1) == 1 {
      var index := FindUnbound(bps, totalIn);
      if index.None? {
        return Err(NoUnboundInput);
      }
      packed := [index.value];
    } else {
      packed :- ReadVars(header, totalIn - (totalOut - 1));
    }
    r := Ok(Block(coders, false, 0, totalIn, totalOut, bps, packed, [], 0));
  }

  method ReadBlocks(header: Source, n: nat) returns (r: Result<seq<SizedBlock>>)
    modifies header
    ensures Follows(GetBlocks(n, old(header.rest)), r, header.rest)
  {
    hide GetBlock, GetBlockSizes;
    var blocks: seq<Block> := [];
    for i := 0 to n
      invariant GetMany(GetBlock, i, old(header.rest)) == Ok((blocks, header.rest))
    {
      ManySnoc(GetBlock, i, old(header.rest));
      var x := ReadBlock(header);
      if x.Err? {
        ManyFails(GetBlock, i + 1, n, old(header.rest));
        return Err(x.error);
      }
      blocks := blocks + [x.value];
    }
    var nid :- header.ReadU8();
    if nid != K_CODERS_UNPACK_SIZE {
      return Err(ExpectedUnpackSize(nid));
    }
    r := ReadBlockSizes(header, blocks);
  }

  method ReadBlockSizes(header: Source, blocks: seq<Block>) returns (r: Result<seq<SizedBlock>>)
    modifies header
    ensures Follows(GetEach(GetBlockSizes, blocks, old(header.rest)), r, header.rest)
  {
    var sized: seq<SizedBlock> := [];
    for i := 0 to |blocks|
      invariant GetEach(GetBlockSizes, blocks[..i], old(header.rest)) == Ok((sized, header.rest))
    {
      EachSnoc(GetBlockSizes, blocks, i, old(header.rest));
      var sizes := ReadVars(header, blocks[i].totalOut);
      if sizes.Err? {
        EachFails(GetBlockSizes, blocks, i + 1, old(header.rest));
        return Err(sizes.error);
      }
      sized := sized + [blocks[i].(unpackSizes := sizes.value)];
    }
    assert blocks[..|blocks|] == blocks;
    r := Ok(sized);
  }

  method SetCrcs(sized: seq<SizedBlock>, d: seq<bool>, crcs: seq<u32>) returns (blocks: seq<SizedBlock>)
    requires |sized| == |d| == |crcs|
    ensures blocks == WithCrcs(sized, d, crcs)
  {
    blocks := sized;
    for i := 0 to |sized|
      invariant |blocks| == |sized|
      invariant forall k :: 0 <= k < |sized| ==>
        blocks[k] == if k < i then sized[k].(hasCrc := d[k], crc := crcs[k]) else sized[k]
    {
      blocks := blocks[i := blocks[i].(hasCrc := d[i], crc := crcs[i])];
    }
  }

  method ReadUnpackInfo(header: Source) returns (r: Result<seq<SizedBlock>>)
    modifies header
    ensures Follows(GetUnpack(old(header.rest)), r, header.rest)
  {
    hide VarInt.Dec, GetBlocks, GetDigests;
    var nid :- header.ReadU8();
    if nid != K_FOLDER {
      return Err(ExpectedFolder(nid));
    }
    var n :- VarInt.ReadVar(header);
    var external :- header.ReadU8();
    if external != 0 {
      return Err(External);
    }
    var blocks :- ReadBlocks(header, n);
    nid :- header.ReadU8();
    if nid == K_CRC {
      var dc :- ReadDigests(header, |blocks|);
      blocks := SetCrcs(blocks, dc.0, dc.1);
      nid :- header.ReadU8();
    }
    if nid != K_END {
      return Err(BadTerminatedUnpackInfo);
    }
    r := Ok(blocks);
  }

  // ----- the two agree

  /** The block the reader ends up with. */
  function AsBlock(b: BlockInfo): SizedBlock {
    ChainBlock(b.methods).(unpackSizes := b.sizes)
  }

  function AsBlocks(blocks: seq<BlockInfo>): (r: seq<SizedBlock>) {
    seq(|blocks|, i requires 0 <= i < |blocks| => AsBlock(blocks[i]))
  }

  function AsChains(blocks: seq<BlockInfo>): (r: seq<Block>) {
    seq(|blocks|, i requires 0 <= i < |blocks| => ChainBlock(blocks[i].methods))
  }

  lemma RecordsRead(blocks: seq<BlockInfo>, rest: bytes)
    ensures GetMany(GetBlock, |blocks|, PutAll(PutMethods, blocks) + rest) == Ok((AsChains(blocks), rest))
  {
    forall i | 0 <= i < |blocks|
      ensures Reads(GetBlock, PutMethods(blocks[i]), AsChains(blocks)[i])
    {
      BlockReads(blocks[i].methods);
    }
    ManyReads(PutMethods, GetBlock, blocks, AsChains(blocks), rest);
  }

  lemma SizesRead(blocks: seq<BlockInfo>, rest: bytes)
    ensures GetEach(GetBlockSizes, AsChains(blocks), PutAll(PutSizes, blocks) + rest) == Ok((AsBlocks(blocks), rest))
  {
    forall i | 0 <= i < |blocks|
      ensures ReadsFor(GetBlockSizes, AsChains(blocks)[i], PutSizes(blocks[i]), AsBlocks(blocks)[i])
    {
      forall rest: bytes
        ensures GetBlockSizes(AsChains(blocks)[i], PutSizes(blocks[i]) + rest) == Ok((AsBlocks(blocks)[i], rest))
      {
        VarsRead(blocks[i].sizes, rest);
      }
    }
    EachReads(PutSizes, GetBlockSizes, blocks, AsChains(blocks), AsBlocks(blocks), rest);
  }

  /** Reading the block table gives every block back and stops right after the section. */
  lemma RoundTrip(blocks: seq<BlockInfo>, rest: bytes)
    requires |blocks| < U64_LIMIT
    ensures GetUnpack(PutUnpack(blocks)[1..] + rest) == Ok((AsBlocks(blocks), rest))
  {
    hide VarInt.Enc, VarInt.Dec, GetBlock, GetBlockSizes, GetMany, GetEach, PutAll;
    var s7 := [K_END] + rest;
    var s6 := PutAll(PutSizes, blocks) + s7;
    var s5 := [K_CODERS_UNPACK_SIZE] + s6;
    var s4 := PutAll(PutMethods, blocks) + s5;
    var s3 := [0] + s4;
    var s2 := VarInt.Enc(|blocks|) + s3;
    assert PutUnpack(blocks)[1..] + rest == [K_FOLDER] + s2;
    GetU8Cons(K_FOLDER, s2);
    VarInt.RoundTrip(|blocks|, s3);
    GetU8Cons(0, s4);
    RecordsRead(blocks, s5);
    GetU8Cons(K_CODERS_UNPACK_SIZE, s6);
    SizesRead(blocks, s7);
    GetU8Cons(K_END, rest);
  }
}
