/** How many files each block holds, how long each is and what its CRC is. Counts are left
    out when they are all one, and each block's last size is implied by its total. */
module SubStreams {
  import opened Wire
  import opened Repeats
  import opened Blocks
  import opened PackInfos
  import opened UnpackInfos
  import VarInt

  /** What the reader keeps, flattened over all blocks. */
  datatype SubStreams = SubStreams(unpackSizes: seq<u64>, hasCrc: seq<bool>, crcs: seq<u32>)

  // ----- the writer

  predicate NeedsCounts(blocks: seq<BlockInfo>) {
    exists b :: b in blocks && b.numSub != 1
  }

  predicate NeedsSizes(blocks: seq<BlockInfo>) {
    exists b :: b in blocks && |b.subSizes| > 1
  }

  function PutCount(b: BlockInfo): bytes {
    VarInt.Enc(b.numSub)
  }

  /** All sizes but the last, for a block of several files. */
  function PutFrontSizes(b: BlockInfo): bytes {
    if |b.subSizes| > 1 then PutAll(VarInt.Enc, b.subSizes[..|b.subSizes| - 1]) else []
  }

  function BlockCrcs(b: BlockInfo): seq<u32> {
    if b.numSub > 1 then b.subCrcs
    else if b.numSub == 1 then (if b.subCrcs == [] then [b.crc] else [b.subCrcs[0]])
    else []
  }

  function EachBlockCrcs(blocks: seq<BlockInfo>): (r: seq<seq<u32>>)
    ensures |r| == |blocks|
  {
    seq(|blocks|, i requires 0 <= i < |blocks| => BlockCrcs(blocks[i]))
  }

  function FlatCrcs(blocks: seq<BlockInfo>): seq<u32> {
    Flatten(EachBlockCrcs(blocks))
  }

  function PutCounts(blocks: seq<BlockInfo>): bytes {
    if NeedsCounts(blocks) then [K_NUM_UNPACK_STREAM] + PutAll(PutCount, blocks) else []
  }

  function PutSubSizes(blocks: seq<BlockInfo>): bytes {
    if NeedsSizes(blocks) then [K_SIZE] + PutAll(PutFrontSizes, blocks) else []
  }

  function PutSubCrcs(blocks: seq<BlockInfo>): bytes {
    if FlatCrcs(blocks) != [] then [K_CRC] + ([1] + PutAll(PutU32, FlatCrcs(blocks))) else []
  }

  function PutSubStreams(blocks: seq<BlockInfo>): bytes {
    [K_SUB_STREAMS_INFO] + (PutCounts(blocks) + (PutSubSizes(blocks) + (PutSubCrcs(blocks) + [K_END])))
  }

  /** `write_substreams`. */
  method WriteSubStreams(header: Sink, blocks: seq<BlockInfo>)
    modifies header
    ensures header.data == old(header.data) + PutSubStreams(blocks)
  {
    hide PutCounts, PutSubSizes, PutSubCrcs;
    header.WriteU8(K_SUB_STREAMS_INFO);
    WriteCounts(header, blocks);
    WriteSubSizes(header, blocks);
    WriteSubCrcs(header, blocks);
    header.WriteU8(K_END);
    Cat5(old(header.data), [K_SUB_STREAMS_INFO], PutCounts(blocks), PutSubSizes(blocks), PutSubCrcs(blocks), [K_END]);
  }

  method WriteCounts(header: Sink, blocks: seq<BlockInfo>)
    modifies header
    ensures header.data == old(header.data) + PutCounts(blocks)
  {
    hide VarInt.Enc;
    if NeedsCounts(blocks) {
      header.WriteU8(K_NUM_UNPACK_STREAM);
      ghost var start := header.data;
      for i := 0 to |blocks|
        invariant header.data == start + PutAll(PutCount, blocks[..i])
      {
        VarInt.WriteVar(header, blocks[i].numSub);
        PutSnoc(PutCount, blocks, i);
        Cat2(start, PutAll(PutCount, blocks[..i]), PutCount(blocks[i]));
      }
      assert blocks[..|blocks|] == blocks;
      Cat2(old(header.data), [K_NUM_UNPACK_STREAM], PutAll(PutCount, blocks));
    }
  }

  method WriteSubSizes(header: Sink, blocks: seq<BlockInfo>)
    modifies header
    ensures header.data == old(header.data) + PutSubSizes(blocks)
  {
    hide VarInt.Enc;
    if NeedsSizes(blocks) {
      header.WriteU8(K_SIZE);
      ghost var start := header.data;
      for i := 0 to |blocks|
        invariant header.data == start + PutAll(PutFrontSizes, blocks[..i])
      {
        if |blocks[i].subSizes| > 1 {
          WriteVars(header, blocks[i].subSizes[..|blocks[i].subSizes| - 1]);
        }
        PutSnoc(PutFrontSizes, blocks, i);
        Cat2(start, PutAll(PutFrontSizes, blocks[..i]), PutFrontSizes(blocks[i]));
      }
      assert blocks[..|blocks|] == blocks;
      Cat2(old(header.data), [K_SIZE], PutAll(PutFrontSizes, blocks));
    }
  }

  method WriteSubCrcs(header: Sink, blocks: seq<BlockInfo>)
    modifies header
    ensures header.data == old(header.data) + PutSubCrcs(blocks)
  {
    var crcs: seq<u32> := [];
    for i := 0 to |blocks|
      invariant header.data == old(header.data)
      invariant crcs == Flatten(EachBlockCrcs(blocks)[..i])
    {
      var b := blocks[i];
      ghost var was := crcs;
      if b.numSub > 1 {
        crcs := crcs + b.subCrcs;
      } else if b.numSub == 1 {
        if b.subCrcs == [] {
          crcs := crcs + [b.crc];
        } else {
          crcs := crcs + [b.subCrcs[0]];
        }
      }
      assert crcs == was + BlockCrcs(b);
      FlattenSnoc(EachBlockCrcs(blocks)[..i], BlockCrcs(b));
      assert EachBlockCrcs(blocks)[..i + 1] == EachBlockCrcs(blocks)[..i] + [BlockCrcs(b)];
    }
    assert EachBlockCrcs(blocks)[..|blocks|] == EachBlockCrcs(blocks);
    if crcs != [] {
      header.WriteU8(K_CRC);
      header.WriteU8(1);
      WriteU32s(header, crcs);
      Cat3(old(header.data), [K_CRC], [1], PutAll(PutU32, crcs));
    }
  }

  // ----- the reader

  function WithCounts(blocks: seq<SizedBlock>, counts: seq<u64>): (r: seq<SizedBlock>)
    requires |blocks| == |counts|
  {
    seq(|blocks|, i requires 0 <= i < |blocks| => blocks[i].(numSub := counts[i]))
  }

  function Ones(n: nat): seq<u64> {
    seq(n, i => 1)
  }

  /** The counts, one for each block unless a section says otherwise, and the next tag. */
  function GetCounts(nid: byte, n: nat, s: bytes): (r: Parsed<(seq<u64>, byte)>)
    ensures r.Ok? ==> |r.value.0.0| == n
  {
    if nid != K_NUM_UNPACK_STREAM then Ok(((Ones(n), nid), s))
    else
      var (counts, s1) :- GetMany(VarInt.Dec, n, s);
      if Sum(counts) >= U64_LIMIT then Err(Panic)
      else
        var (next, s2) :- GetU8(s1);
        Ok(((counts, next), s2))
  }

  /** What is left for a block's last file. */
  function LastSize(b: SizedBlock, front: seq<u64>): Result<seq<u64>> {
    if Sum(front) >= U64_LIMIT then Err(Panic)
    else if Sum(front) > UnpackSize(b) then Err(SubStreamSum)
    else Ok(front + [UnpackSize(b) - Sum(front)])
  }

  function PartListed(b: SizedBlock, s: bytes): Parsed<seq<u64>> {
    if b.numSub == 0 then Ok(([], s))
    else
      var (front, s1) :- GetMany(VarInt.Dec, b.numSub - 1, s);
      var sizes :- LastSize(b, front);
      Ok((sizes, s1))
  }

  function PartImplied(b: SizedBlock, s: bytes): Parsed<seq<u64>> {
    if b.numSub == 0 then Ok(([], s))
    else
      var sizes :- LastSize(b, []);
      Ok((sizes, s))
  }

  function SumSub(blocks: seq<SizedBlock>): nat {
    if blocks == [] then 0 else blocks[0].numSub + SumSub(blocks[1..])
  }

  /** The sizes filled in from the front of a list of `total` zeros. */
  function Fill(sizes: seq<u64>, total: nat): seq<u64> {
    sizes + seq(if |sizes| <= total then total - |sizes| else 0, i => 0)
  }

  function GetSubSizes(nid: byte, blocks: seq<SizedBlock>, s: bytes): Parsed<(seq<u64>, byte)> {
    if nid == K_SIZE then
      var (parts, s1) :- GetEach(PartListed, blocks, s);
      var (next, s2) :- GetU8(s1);
      Ok(((Fill(Flatten(parts), SumSub(blocks)), next), s2))
    else
      var (parts, s1) :- GetEach(PartImplied, blocks, s);
      Ok(((Fill(Flatten(parts), SumSub(blocks)), nid), s1))
  }

  /** A block of one file whose CRC is already known needs no digest here. */
  predicate KnowsCrc(b: SizedBlock) {
    b.numSub == 1 && b.hasCrc
  }

  function DigestCount(blocks: seq<SizedBlock>): nat {
    if blocks == [] then 0
    else (if KnowsCrc(blocks[0]) then 0 else blocks[0].numSub) + DigestCount(blocks[1..])
  }

  /** Each file's digest: its block's own, or the next one listed. */
  function Distribute<T>(blocks: seq<SizedBlock>, own: SizedBlock -> T, listed: seq<T>): seq<T>
    requires |listed| == DigestCount(blocks)
  {
    if blocks == [] then []
    else if KnowsCrc(blocks[0]) then [own(blocks[0])] + Distribute(blocks[1..], own, listed)
    else listed[..blocks[0].numSub] + Distribute(blocks[1..], own, listed[blocks[0].numSub..])
  }

  function OwnsCrc(b: SizedBlock): bool {
    true
  }

  function OwnCrc(b: SizedBlock): u32 {
    b.crc
  }

  function GetSubCrcs(nid: byte, blocks: seq<SizedBlock>, s: bytes): Parsed<(seq<bool>, seq<u32>, byte)> {
    if nid != K_CRC then Ok(((seq(SumSub(blocks), i => false), Zeros(SumSub(blocks)), nid), s))
    else
      var (dc, s1) :- GetDigests(DigestCount(blocks), s);
      var (next, s2) :- GetU8(s1);
      Ok(((Distribute(blocks, OwnsCrc, dc.0), Distribute(blocks, OwnCrc, dc.1), next), s2))
  }

  /** `read_sub_streams_info`, after its tag. */
  function GetSubStreams(blocks: seq<SizedBlock>, s: bytes): Parsed<(seq<SizedBlock>, SubStreams)> {
    var (nid, s1) :- GetU8(s);
    var (counts, s2) :- GetCounts(nid, |blocks|, s1);
    var counted := WithCounts(blocks, counts.0);
    var (sizes, s3) :- GetSubSizes(counts.1, counted, s2);
    var (crcs, s4) :- GetSubCrcs(sizes.1, counted, s3);
    if crcs.2 != K_END then Err(BadTerminatedSubStreamsInfo)
    else Ok(((counted, SubStreams(sizes.0, crcs.0, crcs.1)), s4))
  }

  method ReadPart(header: Source, b: SizedBlock, listed: bool) returns (r: Result<seq<u64>>)
    modifies header
    ensures Follows(if listed then PartListed(b, old(header.rest)) else PartImplied(b, old(header.rest)), r, header.rest)
  {
    hide VarInt.Dec;
    if b.numSub == 0 {
      return Ok([]);
    }
    var sizes: seq<u64>, sum := [], 0;
    if listed {
      for i := 0 to b.numSub - 1
        invariant GetMany(VarInt.Dec, i, old(header.rest)) == Ok((sizes, header.rest))
        invariant sum == Sum(sizes)
      {
        ManySnoc(VarInt.Dec, i, old(header.rest));
        var size := VarInt.ReadVar(header);
        if size.Err? {
          ManyFails(VarInt.Dec, i + 1, b.numSub - 1, old(header.rest));
          return Err(size.error);
        }
        SumSnoc(sizes, size.value);
        sizes := sizes + [size.value];
        sum := sum + size.value;
      }
    }
    if sum >= U64_LIMIT {
      return Err(Panic);
    }
    if sum > UnpackSize(b) {
      return Err(SubStreamSum);
    }
    r := Ok(sizes + [UnpackSize(b) - sum]);
  }

  method ReadParts(header: Source, blocks: seq<SizedBlock>, listed: bool) returns (r: Result<seq<u64>>)
    modifies header
    ensures match GetEach(if listed then PartListed else PartImplied, blocks, old(header.rest))
            case Ok(p) => r == Ok(Flatten(p.0)) && header.rest == p.1
            case Err(e) => r == Err(e)
  {
    hide PartListed, PartImplied;
    ghost var part := if listed then PartListed else PartImplied;
    ghost var parts: seq<seq<u64>> := [];
    var sizes: seq<u64> := [];
    for i := 0 to |blocks|
      invariant GetEach(part, blocks[..i], old(header.rest)) == Ok((parts, header.rest))
      invariant sizes == Flatten(parts)
    {
      EachSnoc(part, blocks, i, old(header.rest));
      var x := ReadPart(header, blocks[i], listed);
      if x.Err? {
        EachFails(part, blocks, i + 1, old(header.rest));
        return Err(x.error);
      }
      FlattenSnoc(parts, x.value);
      sizes, parts := sizes + x.value, parts + [x.value];
    }
    assert blocks[..|blocks|] == blocks;
    r := Ok(sizes);
  }

  method TotalSub(blocks: seq<SizedBlock>) returns (total: nat)
    ensures total == SumSub(blocks)
  {
    total := 0;
    for i := |blocks| downto 0
      invariant total == SumSub(blocks[i..])
    {
      total := total + blocks[i].numSub;
    }
  }

  method CountDigests(blocks: seq<SizedBlock>) returns (n: nat)
    ensures n == DigestCount(blocks)
  {
    n := 0;
    for i := |blocks| downto 0
      invariant n == DigestCount(blocks[i..])
    {
      if blocks[i].numSub != 1 || !blocks[i].hasCrc {
        n := n + blocks[i].numSub;
      }
    }
  }

  /** Hands the digests out to the files, block by block. */
  method HandOut(blocks: seq<SizedBlock>, d: seq<bool>, missing: seq<u32>) returns (hasCrc: seq<bool>, crcs: seq<u32>)
    requires |d| == |missing| == DigestCount(blocks)
    ensures hasCrc == Distribute(blocks, OwnsCrc, d) && crcs == Distribute(blocks, OwnCrc, missing)
  {
    hide Distribute;
    hasCrc, crcs := [], [];
    var nextMissing := 0;
    assert d[0..] == d && missing[0..] == missing;
    for i := 0 to |blocks|
      invariant nextMissing <= |d| && |d| - nextMissing == DigestCount(blocks[i..])
      invariant hasCrc + Distribute(blocks[i..], OwnsCrc, d[nextMissing..]) == Distribute(blocks, OwnsCrc, d)
      invariant crcs + Distribute(blocks[i..], OwnCrc, missing[nextMissing..]) == Distribute(blocks, OwnCrc, missing)
    {
      DistributeStep(hasCrc, blocks, i, OwnsCrc, d, nextMissing);
      DistributeStep(crcs, blocks, i, OwnCrc, missing, nextMissing);
      var b := blocks[i];
      if b.numSub == 1 && b.hasCrc {
        hasCrc, crcs := hasCrc + [true], crcs + [b.crc];
      } else {
        var next := nextMissing + b.numSub;
        hasCrc, crcs := hasCrc + d[nextMissing..next], crcs + missing[nextMissing..next];
        nextMissing := next;
      }
    }
    NoneLeft(OwnsCrc, d[nextMissing..]);
    NoneLeft(OwnCrc, missing[nextMissing..]);
  }

  lemma NoneLeft<T>(own: SizedBlock -> T, listed: seq<T>)
    requires listed == []
    ensures Distribute([], own, listed) == []
  {
  }

  /** The digests of block `i` come first, those of the blocks after it follow. */
  lemma DistributeStep<T>(acc: seq<T>, blocks: seq<SizedBlock>, i: nat, own: SizedBlock -> T, listed: seq<T>, k: nat)
    requires i < |blocks| && k <= |listed| && |listed| - k == DigestCount(blocks[i..])
    ensures var next := if KnowsCrc(blocks[i]) then k else k + blocks[i].numSub;
            && next <= |listed| && |listed| - next == DigestCount(blocks[i + 1..])
            && acc + Distribute(blocks[i..], own, listed[k..])
               == acc + (if KnowsCrc(blocks[i]) then [own(blocks[i])] else listed[k..next])
                + Distribute(blocks[i + 1..], own, listed[next..])
  {
    hide Distribute, DigestCount;
    assert blocks[i..] == [blocks[i]] + blocks[i + 1..];
    DistributeCons(blocks[i], blocks[i + 1..], own, listed[k..]);
    var next := if KnowsCrc(blocks[i]) then k else k + blocks[i].numSub;
    var head := if KnowsCrc(blocks[i]) then [own(blocks[i])] else listed[k..next];
    if !KnowsCrc(blocks[i]) {
      assert listed[k..][..next - k] == listed[k..next] && listed[k..][next - k..] == listed[next..];
    }
    CatSeq(acc, head, Distribute(blocks[i + 1..], own, listed[next..]));
  }

  lemma DistributeCons<T>(b: SizedBlock, blocks: seq<SizedBlock>, own: SizedBlock -> T, listed: seq<T>)
    requires |listed| == DigestCount([b] + blocks)
    ensures DigestCount([b] + blocks) == (if KnowsCrc(b) then 0 else b.numSub) + DigestCount(blocks)
    ensures Distribute([b] + blocks, own, listed)
         == if KnowsCrc(b) then [own(b)] + Distribute(blocks, own, listed)
            else listed[..b.numSub] + Distribute(blocks, own, listed[b.numSub..])
  {
    assert ([b] + blocks)[1..] == blocks;
  }

  lemma CatSeq<T>(a: seq<T>, b: seq<T>, c: seq<T>)
    ensures a + (b + c) == a + b + c
  {
  }

  method ReadSubStreams(header: Source, blocks: seq<SizedBlock>) returns (r: Result<(seq<SizedBlock>, SubStreams)>)
    modifies header
    ensures Follows(GetSubStreams(blocks, old(header.rest)), r, header.rest)
  {
    hide VarInt.Dec, GetDigests, PartListed, PartImplied, Distribute, Fill;
    var nid :- header.ReadU8();
    var counts := Ones(|blocks|);
    if nid == K_NUM_UNPACK_STREAM {
      counts :- ReadVars(header, |blocks|);
      var sum := TotalOf(counts);
      if sum >= U64_LIMIT {
        return Err(Panic);
      }
      nid :- header.ReadU8();
    }
    var counted := WithCounts(blocks, counts);
    var total := TotalSub(counted);
    var listed := nid == K_SIZE;
    var sizes :- ReadParts(header, counted, listed);
    if listed {
      nid :- header.ReadU8();
    }
    var hasCrc, crcs := seq(total, i => false), Zeros(total);
    if nid == K_CRC {
      var n := CountDigests(counted);
      var dc :- ReadDigests(header, n);
      hasCrc, crcs := HandOut(counted, dc.0, dc.1);
      nid :- header.ReadU8();
    }
    if nid != K_END {
      return Err(BadTerminatedSubStreamsInfo);
    }
    r := Ok((counted, SubStreams(Fill(sizes, total), hasCrc, crcs)));
  }

  method TotalOf(counts: seq<u64>) returns (sum: nat)
    ensures sum == Sum(counts)
  {
    sum := 0;
    for i := |counts| downto 0
      invariant sum == Sum(counts[i..])
    {
      sum := sum + counts[i];
    }
  }

  // ----- the two agree

  /** A block record whose file counts, sizes and CRCs fit together. */
  predicate SubOk(b: BlockInfo) {
    if b.numSub == 1 then
      || (b.subSizes == [] && b.subCrcs == [])
      || (b.subSizes == [TotalSize(b)] && |b.subCrcs| == 1)
    else
      && b.numSub == |b.subSizes| == |b.subCrcs|
      && (b.numSub > 0 ==> Sum(b.subSizes) == TotalSize(b))
  }

  /** The sizes of a block's files. */
  function FileSizes(b: BlockInfo): seq<u64> {
    if b.numSub == 1 then [TotalSize(b)] else b.subSizes
  }

  function EachFileSizes(blocks: seq<BlockInfo>): (r: seq<seq<u64>>)
    ensures |r| == |blocks|
  {
    seq(|blocks|, i requires 0 <= i < |blocks| => FileSizes(blocks[i]))
  }

  function FlatSizes(blocks: seq<BlockInfo>): seq<u64> {
    Flatten(EachFileSizes(blocks))
  }

  function Counts(blocks: seq<BlockInfo>): (r: seq<u64>)
    ensures |r| == |blocks|
  {
    seq(|blocks|, i requires 0 <= i < |blocks| => blocks[i].numSub)
  }

  predicate AllSubOk(blocks: seq<BlockInfo>) {
    && (forall b :: b in blocks ==> SubOk(b))
    && Sum(Counts(blocks)) < U64_LIMIT
  }

  /** The blocks with their file counts, as the reader keeps them. */
  function CountedBlocks(blocks: seq<BlockInfo>): seq<SizedBlock> {
    WithCounts(AsBlocks(blocks), Counts(blocks))
  }

  /** What the section for these blocks reads back as. */
  function ExpectedSub(blocks: seq<BlockInfo>): SubStreams {
    SubStreams(FlatSizes(blocks), seq(|FlatCrcs(blocks)|, i => true), FlatCrcs(blocks))
  }

  lemma CountsRead(blocks: seq<BlockInfo>, tail: bytes)
    requires Sum(Counts(blocks)) < U64_LIMIT
    requires tail != [] && tail[0] != K_NUM_UNPACK_STREAM
    ensures var s := PutCounts(blocks) + tail;
            s != [] && GetCounts(s[0], |blocks|, s[1..]) == Ok(((Counts(blocks), tail[0]), tail[1..]))
  {
    hide VarInt.Enc, VarInt.Dec, Counts, Sum, PutAll;
    var s := PutCounts(blocks) + tail;
    if NeedsCounts(blocks) {
      assert s[1..] == PutAll(PutCount, blocks) + tail;
      CountListReads(blocks, tail);
    } else {
      assert s == tail;
      CountsAllOne(blocks);
    }
  }

  lemma CountListReads(blocks: seq<BlockInfo>, tail: bytes)
    ensures GetMany(VarInt.Dec, |blocks|, PutAll(PutCount, blocks) + tail) == Ok((Counts(blocks), tail))
  {
    hide VarInt.Enc, VarInt.Dec;
    forall i | 0 <= i < |blocks|
      ensures Reads(VarInt.Dec, PutCount(blocks[i]), Counts(blocks)[i])
    {
      VarReads(blocks[i].numSub);
    }
    ManyReads(PutCount, VarInt.Dec, blocks, Counts(blocks), tail);
  }

  lemma CountsAllOne(blocks: seq<BlockInfo>)
    requires !NeedsCounts(blocks)
    ensures Counts(blocks) == Ones(|blocks|)
  {
    forall i | 0 <= i < |blocks|
      ensures Counts(blocks)[i] == 1
    {
      assert blocks[i] in blocks;
    }
  }

  lemma {:induction false} FrontAndLast(xs: seq<u64>)
    requires xs != []
    ensures Sum(xs[..|xs| - 1]) + xs[|xs| - 1] == Sum(xs)
  {
    assert xs == xs[..|xs| - 1] + [xs[|xs| - 1]];
    SumSnoc(xs[..|xs| - 1], xs[|xs| - 1]);
  }

  lemma CountedSize(b: BlockInfo)
    ensures UnpackSize(AsBlock(b).(numSub := b.numSub)) == TotalSize(b)
  {
    ChainUnpackSize(b.methods, b.sizes, b.numSub);
  }

  lemma PartReads(b: BlockInfo, rest: bytes)
    requires SubOk(b)
    ensures PartListed(AsBlock(b).(numSub := b.numSub), PutFrontSizes(b) + rest) == Ok((FileSizes(b), rest))
    ensures b.numSub <= 1 ==> PartImplied(AsBlock(b).(numSub := b.numSub), rest) == Ok((FileSizes(b), rest))
  {
    hide VarInt.Enc, VarInt.Dec, UnpackSize;
    CountedSize(b);
    if b.numSub > 1 {
      var front := b.subSizes[..|b.subSizes| - 1];
      VarsRead(front, rest);
      FrontAndLast(b.subSizes);
      assert front + [b.subSizes[|b.subSizes| - 1]] == b.subSizes;
    } else {
      assert PutFrontSizes(b) + rest == rest;
      assert [] + [TotalSize(b)] == [TotalSize(b)];
    }
  }

  function PutNothing(b: BlockInfo): bytes {
    []
  }

  lemma {:induction false} NothingPut(blocks: seq<BlockInfo>)
    ensures PutAll(PutNothing, blocks) == []
  {
    if blocks != [] {
      NothingPut(blocks[1..]);
    }
  }

  lemma ListedPartsRead(blocks: seq<BlockInfo>, rest: bytes)
    requires forall b :: b in blocks ==> SubOk(b)
    ensures GetEach(PartListed, CountedBlocks(blocks), PutAll(PutFrontSizes, blocks) + rest) == Ok((EachFileSizes(blocks), rest))
  {
    hide PartListed, PutFrontSizes, FileSizes;
    forall i | 0 <= i < |blocks|
      ensures ReadsFor(PartListed, CountedBlocks(blocks)[i], PutFrontSizes(blocks[i]), EachFileSizes(blocks)[i])
    {
      assert blocks[i] in blocks;
      forall tail: bytes
        ensures PartListed(CountedBlocks(blocks)[i], PutFrontSizes(blocks[i]) + tail) == Ok((EachFileSizes(blocks)[i], tail))
      {
        PartReads(blocks[i], tail);
      }
    }
    EachReads(PutFrontSizes, PartListed, blocks, CountedBlocks(blocks), EachFileSizes(blocks), rest);
  }

  lemma ImpliedPartsRead(blocks: seq<BlockInfo>, rest: bytes)
    requires forall b :: b in blocks ==> SubOk(b) && b.numSub <= 1
    ensures GetEach(PartImplied, CountedBlocks(blocks), rest) == Ok((EachFileSizes(blocks), rest))
  {
    hide PartImplied, FileSizes;
    forall i | 0 <= i < |blocks|
      ensures ReadsFor(PartImplied, CountedBlocks(blocks)[i], PutNothing(blocks[i]), EachFileSizes(blocks)[i])
    {
      assert blocks[i] in blocks;
      forall tail: bytes
        ensures PartImplied(CountedBlocks(blocks)[i], PutNothing(blocks[i]) + tail) == Ok((EachFileSizes(blocks)[i], tail))
      {
        PartReads(blocks[i], tail);
        assert [] + tail == tail;
      }
    }
    EachReads(PutNothing, PartImplied, blocks, CountedBlocks(blocks), EachFileSizes(blocks), rest);
    NothingPut(blocks);
    assert [] + rest == rest;
  }

  /** As many sizes, and as many CRCs, as there are files. */
  lemma {:induction false} FlatLengths(blocks: seq<BlockInfo>)
    requires forall b :: b in blocks ==> SubOk(b)
    ensures |FlatSizes(blocks)| == |FlatCrcs(blocks)| == SumSub(CountedBlocks(blocks)) == Sum(Counts(blocks))
    ensures DigestCount(CountedBlocks(blocks)) == |FlatCrcs(blocks)|
  {
    if blocks != [] {
      FlatLengths(blocks[1..]);
      assert blocks[0] in blocks;
      assert EachFileSizes(blocks)[1..] == EachFileSizes(blocks[1..]);
      assert EachBlockCrcs(blocks)[1..] == EachBlockCrcs(blocks[1..]);
      assert CountedBlocks(blocks)[1..] == CountedBlocks(blocks[1..]);
      assert Counts(blocks)[1..] == Counts(blocks[1..]);
    }
  }

  lemma AtMostOne(blocks: seq<BlockInfo>)
    requires (forall b :: b in blocks ==> SubOk(b)) && !NeedsSizes(blocks)
    ensures forall b :: b in blocks ==> b.numSub <= 1
  {
  }

  lemma SubSizesRead(blocks: seq<BlockInfo>, tail: bytes)
    requires forall b :: b in blocks ==> SubOk(b)
    requires tail != [] && tail[0] != K_SIZE
    ensures var s := PutSubSizes(blocks) + tail;
            s != [] && GetSubSizes(s[0], CountedBlocks(blocks), s[1..]) == Ok(((FlatSizes(blocks), tail[0]), tail[1..]))
  {
    hide PartListed, PartImplied, EachFileSizes, CountedBlocks, PutFrontSizes, SumSub, Flatten, SubOk, PutAll;
    var s := PutSubSizes(blocks) + tail;
    FlatLengths(blocks);
    assert Fill(FlatSizes(blocks), SumSub(CountedBlocks(blocks))) == FlatSizes(blocks);
    if NeedsSizes(blocks) {
      assert s[1..] == PutAll(PutFrontSizes, blocks) + tail;
      ListedPartsRead(blocks, tail);
    } else {
      assert s == tail;
      AtMostOne(blocks);
      ImpliedPartsRead(blocks, tail[1..]);
    }
  }

  lemma {:induction false} NoneKnown<T>(blocks: seq<SizedBlock>, own: SizedBlock -> T, listed: seq<T>)
    requires forall b :: b in blocks ==> !b.hasCrc
    requires |listed| == DigestCount(blocks)
    ensures Distribute(blocks, own, listed) == listed
  {
    if blocks != [] {
      assert blocks[0] in blocks;
      var n := blocks[0].numSub;
      NoneKnown(blocks[1..], own, listed[n..]);
      assert listed == listed[..n] + listed[n..];
    }
  }

  lemma NoOwnCrcs(blocks: seq<BlockInfo>)
    ensures forall b :: b in CountedBlocks(blocks) ==> !b.hasCrc
  {
  }

  lemma SubCrcsRead(blocks: seq<BlockInfo>, rest: bytes)
    requires forall b :: b in blocks ==> SubOk(b)
    ensures var s := PutSubCrcs(blocks) + ([K_END] + rest);
            var crcs := FlatCrcs(blocks);
            GetSubCrcs(s[0], CountedBlocks(blocks), s[1..]) == Ok(((seq(|crcs|, i => true), crcs, K_END), rest))
  {
    hide GetDigests, FlatCrcs, PutAll, CountedBlocks, Distribute, SubOk;
    var s := PutSubCrcs(blocks) + ([K_END] + rest);
    var crcs, counted := FlatCrcs(blocks), CountedBlocks(blocks);
    FlatLengths(blocks);
    NoOwnCrcs(blocks);
    if crcs != [] {
      assert s[1..] == [1] + PutAll(PutU32, crcs) + ([K_END] + rest);
      AllDigestsRead(crcs, [K_END] + rest);
      GetU8Cons(K_END, rest);
      NoneKnown(counted, OwnsCrc, seq(|crcs|, i => true));
      NoneKnown(counted, OwnCrc, crcs);
    } else {
      assert s == [K_END] + rest && s[1..] == rest;
      assert Zeros(0) == crcs && seq(0, i => false) == seq(|crcs|, i => true);
    }
  }

  /** The section gives back every block's file count and every file's size and CRC,
      and nothing after it is touched. */
  lemma RoundTrip(blocks: seq<BlockInfo>, rest: bytes)
    requires AllSubOk(blocks)
    ensures GetSubStreams(AsBlocks(blocks), PutSubStreams(blocks)[1..] + rest)
         == Ok(((CountedBlocks(blocks), ExpectedSub(blocks)), rest))
  {
    hide PutCounts, PutSubSizes, PutSubCrcs, GetCounts, GetSubSizes, GetSubCrcs, FlatCrcs, FlatSizes;
    var s3 := PutSubCrcs(blocks) + ([K_END] + rest);
    var s2 := PutSubSizes(blocks) + s3;
    var s1 := PutCounts(blocks) + s2;
    assert PutSubStreams(blocks)[1..] + rest == s1;
    FirstTags(blocks, rest);
    CountsRead(blocks, s2);
    SubSizesRead(blocks, s3);
    SubCrcsRead(blocks, rest);
  }

  /** The tag each optional part starts with tells it from the ones before it. */
  lemma FirstTags(blocks: seq<BlockInfo>, rest: bytes)
    ensures var s3 := PutSubCrcs(blocks) + ([K_END] + rest);
            var s2 := PutSubSizes(blocks) + s3;
            && s3 != [] && s3[0] in {K_CRC, K_END}
            && s2 != [] && s2[0] in {K_SIZE, K_CRC, K_END}
  {
  }

  // ----- what any accepted section guarantees

  /** The section carries a list of sizes. */
  predicate ListsSizes(blocks: seq<SizedBlock>, s: bytes) {
    s != [] && var r := GetCounts(s[0], |blocks|, s[1..]);
    r.Ok? && r.value.0.1 == K_SIZE
  }

  /** The sizes a block's files got. */
  predicate PartFits(b: SizedBlock, part: seq<u64>) {
    |part| == b.numSub && (b.numSub > 0 ==> Sum(part) == UnpackSize(b))
  }

  lemma PartShape(b: SizedBlock, s: bytes)
    ensures PartListed(b, s).Ok? ==> PartFits(b, PartListed(b, s).value.0)
    ensures PartImplied(b, s).Ok? && b.numSub <= 1 ==> PartFits(b, PartImplied(b, s).value.0)
  {
    hide UnpackSize, VarInt.Dec;
    if b.numSub > 0 {
      var front := GetMany(VarInt.Dec, b.numSub - 1, s);
      if front.Ok? && LastSize(b, front.value.0).Ok? {
        SumSnoc(front.value.0, UnpackSize(b) - Sum(front.value.0));
      }
      assert [] + [UnpackSize(b)] == [UnpackSize(b)];
    }
  }

  lemma {:induction false} PartsShape(blocks: seq<SizedBlock>, listed: bool, s: bytes)
    requires listed || forall b :: b in blocks ==> b.numSub <= 1
    ensures var r := GetEach(if listed then PartListed else PartImplied, blocks, s);
            r.Ok? ==> forall i :: 0 <= i < |blocks| ==> PartFits(blocks[i], r.value.0[i])
  {
    hide PartListed, PartImplied, PartFits;
    if blocks != [] {
      PartShape(blocks[0], s);
      assert blocks[0] in blocks;
      var first := if listed then PartListed(blocks[0], s) else PartImplied(blocks[0], s);
      if first.Ok? {
        PartsShape(blocks[1..], listed, first.value.1);
      }
    }
  }

  lemma {:induction false} PartSlice(blocks: seq<SizedBlock>, parts: seq<seq<u64>>, b: nat)
    requires b < |blocks| == |parts|
    requires forall i :: 0 <= i < |blocks| ==> |parts[i]| == blocks[i].numSub
    ensures |Flatten(parts)| == SumSub(blocks)
    ensures SumSub(blocks[..b]) + blocks[b].numSub <= SumSub(blocks)
    ensures Flatten(parts)[SumSub(blocks[..b])..SumSub(blocks[..b]) + blocks[b].numSub] == parts[b]
  {
    if b > 0 {
      PartSlice(blocks[1..], parts[1..], b - 1);
      assert blocks[..b][1..] == blocks[1..][..b - 1];
    } else if |blocks| > 1 {
      PartSlice(blocks[1..], parts[1..], 0);
    } else {
      assert Flatten(parts[1..]) == [] && SumSub(blocks[1..]) == 0;
    }
  }

  /** In any section the reader accepts, if it lists sizes or no block holds two files,
      the sizes of each non-empty block's files add up to the block's unpacked size. */
  lemma SlicesSum(blocks: seq<SizedBlock>, s: bytes, b: nat)
    requires GetSubStreams(blocks, s).Ok? && b < |blocks|
    requires var counted := GetSubStreams(blocks, s).value.0.0;
             && counted[b].numSub > 0
             && (ListsSizes(blocks, s) || forall c :: c in counted ==> c.numSub <= 1)
    ensures var (counted, ss) := GetSubStreams(blocks, s).value.0;
            var start := SumSub(counted[..b]);
            && start + counted[b].numSub <= |ss.unpackSizes| == SumSub(counted)
            && Sum(ss.unpackSizes[start..start + counted[b].numSub]) == UnpackSize(counted[b])
  {
    hide GetSubCrcs, GetDigests, UnpackSize, PartListed, PartImplied, SumSub, Flatten, Sum, GetMany;
    var counts := GetCounts(s[0], |blocks|, s[1..]).value;
    var counted, listed := WithCounts(blocks, counts.0.0), counts.0.1 == K_SIZE;
    PartsShape(counted, listed, counts.1);
    var parts := GetEach(if listed then PartListed else PartImplied, counted, counts.1).value.0;
    assert forall i :: 0 <= i < |counted| ==> PartFits(counted[i], parts[i]);
    PartSlice(counted, parts, b);
    assert Fill(Flatten(parts), SumSub(counted)) == Flatten(parts);
  }
}
