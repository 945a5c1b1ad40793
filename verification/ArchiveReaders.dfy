/** Getting the files out of an open archive: decoding a block, handing out its files one by
    one, going through the whole archive, and reading one file by name. */
module ArchiveReaders {
  import opened Wire
  import opened Repeats
  import opened Blocks
  import opened UnpackInfos
  import opened SubStreams
  import opened FilesInfos
  import opened StreamMaps
  import opened Headers
  import opened Chains
  import opened Codecs
  import opened SeqReaders
  import opened Archives
  import opened EntryReaders

  /** A block as decoded: at least its declared size if the archive is sound, and the CRC
      its reader checks. */
  datatype BlockStream = BlockStream(decoded: bytes, hasCrc: bool, crc: u32, size: nat)

  /** The CRC of a block: its own, or that of its only file. */
  function BlockCrc(a: Archive, b: nat): Result<(bool, u32)>
    requires b < |a.blocks|
  {
    var block := a.blocks[b];
    if !block.hasCrc && block.numSub == 1 && a.sub.Some? then
      var k := SumSub(a.blocks[..b]);
      if k < |a.sub.value.hasCrc| && a.sub.value.hasCrc[k] then
        if k < |a.sub.value.crcs| then Ok((true, a.sub.value.crcs[k])) else Err(Panic)
      else Ok((false, block.crc))
    else Ok((block.hasCrc, block.crc))
  }

  /** `build_decode_stack`, for blocks whose coders have one input and one output. */
  function OpenBlock(c: Codecs, data: bytes, a: Archive, b: nat): Result<BlockStream>
    requires b < |a.blocks|
  {
    var block := a.blocks[b];
    if block.totalIn > block.totalOut then Err(UnsupportedMethod)
    else if b >= |a.streams.blockFirstPack| then Err(Panic)
    else
      var first := a.streams.blockFirstPack[b];
      if first >= |a.streams.packOffsets| then Err(Panic)
      else if SIGNATURE_HEADER_SIZE + a.pack.pos + a.streams.packOffsets[first] >= U64_LIMIT then Err(Panic)
      else
        var crc :- BlockCrc(a, b);
        if first >= |a.pack.sizes| then Err(Panic)
        else
          var packed := Window(data, SIGNATURE_HEADER_SIZE + a.pack.pos + a.streams.packOffsets[first], a.pack.sizes[first]);
          var decoded :- DecodeBlock(c, block, packed);
          Ok(BlockStream(decoded, crc.0, crc.1, UnpackSize(block)))
  }

  method CountBefore(a: Archive, b: nat) returns (k: nat)
    requires b <= |a.blocks|
    ensures k == SumSub(a.blocks[..b])
  {
    k := 0;
    for i := 0 to b
      invariant k == SumSub(a.blocks[..i])
    {
      assert a.blocks[..i + 1] == a.blocks[..i] + [a.blocks[i]];
      SumSubSnoc(a.blocks[..i], a.blocks[i]);
      k := k + a.blocks[i].numSub;
    }
  }

  lemma {:induction false} SumSubSnoc(blocks: seq<SizedBlock>, b: SizedBlock)
    ensures SumSub(blocks + [b]) == SumSub(blocks) + b.numSub
  {
    if blocks == [] {
      assert SumSub([b]) == b.numSub + SumSub([b][1..]);
    } else {
      SumSubSnoc(blocks[1..], b);
      assert (blocks + [b])[1..] == blocks[1..] + [b];
    }
  }

  method BuildDecodeStack(c: Codecs, source: SeekableInput, a: Archive, b: nat) returns (r: Result<BlockReader>)
    requires b < |a.blocks|
    modifies source
    ensures match OpenBlock(c, source.data, a, b)
            case Err(e) => r == Err(e)
            case Ok(s) => r.Ok? && fresh(r.value) && AtStart(c, r.value, s)
    ensures r.Ok? ==> fresh(r.value.input) && fresh(r.value.Guards())
  {
    hide UnpackSize, Unpack, OrderedCoders, SumSub;
    var block := a.blocks[b];
    if block.totalIn > block.totalOut {
      return Err(UnsupportedMethod);
    }
    if b >= |a.streams.blockFirstPack| || a.streams.blockFirstPack[b] >= |a.streams.packOffsets| {
      return Err(Panic);
    }
    var first := a.streams.blockFirstPack[b];
    var offset := SIGNATURE_HEADER_SIZE + a.pack.pos + a.streams.packOffsets[first];
    if offset >= U64_LIMIT {
      return Err(Panic);
    }
    var hasCrc, crc := block.hasCrc, block.crc;
    if !hasCrc && block.numSub == 1 {
      if a.sub.Some? {
        var k := CountBefore(a, b);
        if k < |a.sub.value.hasCrc| && a.sub.value.hasCrc[k] {
          if k >= |a.sub.value.crcs| {
            return Err(Panic);
          }
          hasCrc, crc := true, a.sub.value.crcs[k];
        }
      }
    }
    source.SeekTo(offset);
    if first >= |a.pack.sizes| {
      return Err(Panic);
    }
    var decoder := Window(source.data, source.pos, a.pack.sizes[first]);
    decoder :- DecodeChain(c, block, decoder);
    var input := new Input(decoder);
    var guard: Option<CrcGuard> := None;
    if hasCrc {
      var g := new CrcGuard(c, UnpackSize(block), crc);
      guard := Some(g);
    }
    var reader := new BlockReader(input, guard);
    r := Ok(reader);
  }

  /** A reader at the start of the block. */
  ghost predicate AtStart(c: Codecs, reader: BlockReader, s: BlockStream)
    reads reader, reader.input, reader.Guards()
  {
    && reader.input.rest == s.decoded
    && (reader.guard.Some? <==> s.hasCrc)
    && (reader.guard.Some? ==>
        var g := reader.guard.value; g.c == c && g.hashed == [] && g.remaining == s.size && g.expected == s.crc)
  }

  // ----- one block

  /** A file as handed to the caller, read to its end. */
  datatype Visit = Visit(file: nat, data: bytes)

  /** What every visit guarantees, whatever the archive: no more data than recorded, and if
      all of it is there and a CRC is recorded, that CRC. */
  predicate Genuine(c: Codecs, a: Archive, v: Visit) {
    && v.file < |a.files|
    && var f := a.files[v.file];
    && |v.data| <= f.size
    && (!f.hasStream ==> v.data == [])
    && (f.hasStream && f.hasCrc && |v.data| == f.size > 0 ==> c.crc(v.data) == f.crc)
  }

  predicate FileDescribes(c: Codecs, f: Entry, content: bytes) {
    if f.hasStream then f.size == |content| && (f.hasCrc && content != [] ==> f.crc == c.crc(content))
    else content == []
  }

  /** Block `b` decodes to the contents of its files and its records agree with them. */
  predicate BlockDelivers(c: Codecs, data: bytes, a: Archive, b: nat, contents: seq<bytes>)
    requires b < |a.blocks|
  {
    && |contents| == |a.files|
    && b < |a.streams.blockFirstFile|
    && var start, end := a.streams.blockFirstFile[b], a.streams.blockFirstFile[b] + a.blocks[b].numSub;
    && end <= |a.files|
    && (forall i :: start <= i < end ==> FileDescribes(c, a.files[i], contents[i]))
    && OpenBlock(c, data, a, b).Ok?
    && var s := OpenBlock(c, data, a, b).value;
    && var all := Flatten(contents[start..end]);
    && all <= s.decoded
    && (s.hasCrc ==> s.size == |all| && (all != [] ==> s.crc == c.crc(all)))
  }

  function Visits(contents: seq<bytes>, from: nat, to: nat): (r: seq<Visit>)
    requires from <= to <= |contents|
    ensures |r| == to - from
  {
    seq(to - from, k requires 0 <= k < to - from => Visit(from + k, contents[from + k]))
  }

  lemma VisitsSnoc(contents: seq<bytes>, from: nat, to: nat)
    requires from <= to < |contents|
    ensures Visits(contents, from, to + 1) == Visits(contents, from, to) + [Visit(to, contents[to])]
  {
  }

  lemma FlattenNext(contents: seq<bytes>, from: nat, to: nat)
    requires from < to <= |contents|
    ensures Flatten(contents[from..to]) == contents[from] + Flatten(contents[from + 1..to])
  {
    assert contents[from..to][1..] == contents[from + 1..to];
  }

  lemma AtStartHolds(c: Codecs, reader: BlockReader, s: BlockStream, all: bytes)
    requires AtStart(c, reader, s) && all <= s.decoded
    requires s.hasCrc ==> s.size == |all| && (all != [] ==> s.crc == c.crc(all))
    ensures reader.Holds(all)
  {
    assert [] + all == all;
  }

  /** Reads one file of a block to its end. */
  method ReadEntry(c: Codecs, reader: BlockReader, f: Entry, ghost content: bytes, ghost after: bytes) returns (r: Result<bytes>)
    modifies reader.input, reader.Guards()
    ensures r.Ok? ==>
      && |r.value| <= f.size && (!f.hasStream ==> r.value == [])
      && (f.hasStream && f.hasCrc && |r.value| == f.size > 0 ==> c.crc(r.value) == f.crc)
    ensures old(reader.Holds(content + after)) && FileDescribes(c, f, content) ==> r == Ok(content) && reader.Holds(after)
  {
    if f.hasStream && f.size > 0 {
      var e := new EntryReader(c, reader, f.size, f.hasCrc, f.crc);
      assert [] + content == content;
      r := Drain(e, f.size, content, after);
    } else {
      assert [] + after == after;
      r := Ok([]);
    }
  }

  /** A caller's answer to being handed file `i`: whether to go on. */
  type Answer = nat -> bool

  /** The end of what a caller lets pass of the files `from..to`: behind the first one it
      answers with a refusal, or at `to`. */
  function Until(goOn: Answer, from: nat, to: nat): (r: nat)
    requires from <= to
    ensures from <= r <= to
    ensures forall i :: from <= i < r - 1 ==> goOn(i)
    ensures (r > from && !goOn(r - 1)) || (r == to && forall i :: from <= i < to ==> goOn(i))
    decreases if from <= to then to - from else 0
  {
    if from == to then to else if !goOn(from) then from + 1 else Until(goOn, from + 1, to)
  }

  predicate Refuses(goOn: Answer, from: nat, to: nat) {
    exists i :: from <= i < to && !goOn(i)
  }

  lemma {:induction false} UntilPrefix(goOn: Answer, from: nat, i: nat, to: nat)
    requires from <= i < to && forall k :: from <= k < i ==> goOn(k)
    ensures Until(goOn, from, to) == if goOn(i) then Until(goOn, i + 1, to) else i + 1
    decreases i - from
  {
    if from < i {
      UntilPrefix(goOn, from + 1, i, to);
    }
  }

  /** `BlockDecoder::for_each_entries` with a caller that drains every file it is handed. The
      flag says whether the caller let all of them pass. */
  method EachOfBlock(c: Codecs, source: SeekableInput, a: Archive, b: nat, goOn: Answer, ghost contents: seq<bytes>)
    returns (r: Result<(seq<Visit>, bool)>)
    requires b < |a.blocks|
    modifies source
    ensures r.Ok? ==> forall v :: v in r.value.0 ==> Genuine(c, a, v)
    ensures BlockDelivers(c, source.data, a, b, contents) ==>
      var start, end := a.streams.blockFirstFile[b], a.streams.blockFirstFile[b] + a.blocks[b].numSub;
      r == Ok((Visits(contents, start, Until(goOn, start, end)), !Refuses(goOn, start, end)))
  {
    hide OpenBlock, Flatten, BlockReader.Holds, FileDescribes, Until;
    ghost var delivers := BlockDelivers(c, source.data, a, b, contents);
    var reader :- BuildDecodeStack(c, source, a, b);
    if b >= |a.streams.blockFirstFile| {
      return Err(Panic);
    }
    var start, end := a.streams.blockFirstFile[b], a.streams.blockFirstFile[b] + a.blocks[b].numSub;
    var visits: seq<Visit> := [];
    if delivers {
      AtStartHolds(c, reader, OpenBlock(c, source.data, a, b).value, Flatten(contents[start..end]));
    }
    for i := start to end
      invariant fresh(reader.input) && fresh(reader.Guards())
      invariant forall v :: v in visits ==> Genuine(c, a, v)
      invariant forall k :: start <= k < i ==> goOn(k)
      invariant delivers ==> visits == Visits(contents, start, i) && reader.Holds(Flatten(contents[i..end]))
    {
      if i >= |a.files| {
        return Err(Panic);
      }
      ghost var content := if delivers then contents[i] else [];
      ghost var after := if delivers then Flatten(contents[i + 1..end]) else [];
      if delivers {
        FlattenNext(contents, i, end);
        VisitsSnoc(contents, start, i);
      }
      var x :- ReadEntry(c, reader, a.files[i], content, after);
      visits := visits + [Visit(i, x)];
      if !goOn(i) {
        UntilPrefix(goOn, start, i, end);
        return Ok((visits, false));
      }
    }
    r := Ok((visits, true));
  }

  // ----- the whole archive

  /** Every block delivers, and the map covers the files. */
  predicate Delivers(c: Codecs, data: bytes, a: Archive, contents: seq<bytes>) {
    && |contents| == |a.files| == |a.streams.fileBlock|
    && (forall i :: 0 <= i < |a.files| && !a.files[i].hasStream ==> contents[i] == [])
    && forall b :: 0 <= b < |a.blocks| ==> BlockDelivers(c, data, a, b, contents)
  }

  function BlockVisits(a: Archive, contents: seq<bytes>, b: nat): seq<Visit>
    requires b < |a.blocks| <= |a.streams.blockFirstFile|
    requires a.streams.blockFirstFile[b] + a.blocks[b].numSub <= |contents|
  {
    Visits(contents, a.streams.blockFirstFile[b], a.streams.blockFirstFile[b] + a.blocks[b].numSub)
  }

  predicate InRange(a: Archive, n: nat) {
    |a.blocks| <= |a.streams.blockFirstFile|
    && forall b :: 0 <= b < |a.blocks| ==> a.streams.blockFirstFile[b] + a.blocks[b].numSub <= n
  }

  /** The visits of the first `n` blocks. */
  function AllBlockVisits(a: Archive, contents: seq<bytes>, n: nat): seq<Visit>
    requires n <= |a.blocks| && InRange(a, |contents|)
  {
    if n == 0 then [] else AllBlockVisits(a, contents, n - 1) + BlockVisits(a, contents, n - 1)
  }

  /** The visits of the files among the first `n` that are in no block. */
  function EmptyVisits(a: Archive, n: nat): seq<Visit>
    requires n <= |a.streams.fileBlock|
  {
    if n == 0 then []
    else EmptyVisits(a, n - 1) + (if a.streams.fileBlock[n - 1].None? then [Visit(n - 1, [])] else [])
  }

  /** What is handed out of block `b`. */
  function BlockHanded(a: Archive, contents: seq<bytes>, goOn: Answer, b: nat): seq<Visit>
    requires b < |a.blocks| && InRange(a, |contents|)
  {
    var start := a.streams.blockFirstFile[b];
    Visits(contents, start, Until(goOn, start, start + a.blocks[b].numSub))
  }

  /** What is handed out of the first `n` blocks: a refusal in one block does not keep the next
      one from being handed out. */
  function BlocksHanded(a: Archive, contents: seq<bytes>, goOn: Answer, n: nat): seq<Visit>
    requires n <= |a.blocks| && InRange(a, |contents|)
  {
    if n == 0 then [] else BlocksHanded(a, contents, goOn, n - 1) + BlockHanded(a, contents, goOn, n - 1)
  }

  /** The files in no block from `i` on, up to the first refusal. */
  function EmptyHanded(a: Archive, goOn: Answer, i: nat): seq<Visit>
    requires |a.files| <= |a.streams.fileBlock|
    decreases if i <= |a.files| then |a.files| - i else 0
  {
    if i >= |a.files| then []
    else if a.streams.fileBlock[i].Some? then EmptyHanded(a, goOn, i + 1)
    else if !goOn(i) then [Visit(i, [])]
    else [Visit(i, [])] + EmptyHanded(a, goOn, i + 1)
  }

  /** `for_each_entries` with a caller that drains every file it is handed. */
  method ForEachEntries(c: Codecs, source: SeekableInput, a: Archive, goOn: Answer, ghost contents: seq<bytes>)
    returns (r: Result<seq<Visit>>)
    modifies source
    ensures r.Ok? ==> forall v :: v in r.value ==> Genuine(c, a, v)
    ensures Delivers(c, source.data, a, contents) ==>
      InRange(a, |contents|) && r == Ok(BlocksHanded(a, contents, goOn, |a.blocks|) + EmptyHanded(a, goOn, 0))
  {
    hide BlockDelivers, Genuine, Until;
    ghost var delivers := Delivers(c, source.data, a, contents);
    DeliversInRange(c, source.data, a, contents);
    var visits: seq<Visit> := [];
    for b := 0 to |a.blocks|
      invariant forall v :: v in visits ==> Genuine(c, a, v)
      invariant delivers ==> visits == BlocksHanded(a, contents, goOn, b)
    {
      if delivers {
        EachGives(c, source.data, a, b, contents);
      }
      var more :- EachOfBlock(c, source, a, b, goOn, contents);
      visits := visits + more.0;
    }
    var rest :- EachEmpty(c, a, goOn);
    r := Ok(visits + rest);
  }

  /** The last pass, over the files in no block. */
  method EachEmpty(c: Codecs, a: Archive, goOn: Answer) returns (r: Result<seq<Visit>>)
    ensures r.Ok? ==> forall v :: v in r.value ==> Genuine(c, a, v)
    ensures |a.files| <= |a.streams.fileBlock| ==> r == Ok(EmptyHanded(a, goOn, 0))
  {
    hide Genuine;
    var visits: seq<Visit> := [];
    ghost var complete := |a.files| <= |a.streams.fileBlock|;
    assert complete ==> [] + EmptyHanded(a, goOn, 0) == EmptyHanded(a, goOn, 0);
    for i := 0 to |a.files|
      invariant forall v :: v in visits ==> Genuine(c, a, v)
      invariant complete ==> EmptyHanded(a, goOn, 0) == visits + EmptyHanded(a, goOn, i)
    {
      if i >= |a.streams.fileBlock| {
        return Err(Panic);
      }
      if a.streams.fileBlock[i].None? {
        if complete && goOn(i) {
          CatVisits(visits, [Visit(i, [])], EmptyHanded(a, goOn, i + 1));
        }
        visits := visits + [Visit(i, [])];
        NothingIsGenuine(c, a, i);
        if !goOn(i) {
          return Ok(visits);
        }
      }
    }
    assert visits + [] == visits;
    r := Ok(visits);
  }

  lemma CatVisits(u: seq<Visit>, v: seq<Visit>, w: seq<Visit>)
    ensures (u + v) + w == u + (v + w)
  {
  }

  // ----- when a refusal ends it

  /** The caller that takes everything. */
  function Always(): Answer {
    (i: nat) => true
  }

  lemma {:induction false} EmptySplit(a: Archive, i: nat)
    requires |a.files| <= |a.streams.fileBlock| && i <= |a.files|
    ensures EmptyVisits(a, |a.files|) == EmptyVisits(a, i) + EmptyHanded(a, Always(), i)
    decreases |a.files| - i
  {
    if i == |a.files| {
      assert EmptyVisits(a, i) + [] == EmptyVisits(a, i);
    } else {
      EmptySplit(a, i + 1);
      if a.streams.fileBlock[i].None? {
        CatVisits(EmptyVisits(a, i), [Visit(i, [])], EmptyHanded(a, Always(), i + 1));
      } else {
        assert EmptyVisits(a, i) + [] == EmptyVisits(a, i);
      }
    }
  }

  lemma {:induction false} AlwaysAllBlocks(a: Archive, contents: seq<bytes>, n: nat)
    requires n <= |a.blocks| && InRange(a, |contents|)
    ensures BlocksHanded(a, contents, Always(), n) == AllBlockVisits(a, contents, n)
  {
    if n > 0 {
      AlwaysAllBlocks(a, contents, n - 1);
    }
  }

  /** A caller that takes everything is handed everything. */
  lemma AlwaysHanded(a: Archive, contents: seq<bytes>)
    requires InRange(a, |contents|) && |a.files| <= |a.streams.fileBlock|
    ensures BlocksHanded(a, contents, Always(), |a.blocks|) + EmptyHanded(a, Always(), 0)
         == AllBlockVisits(a, contents, |a.blocks|) + EmptyVisits(a, |a.files|)
  {
    AlwaysAllBlocks(a, contents, |a.blocks|);
    EmptySplit(a, 0);
    assert EmptyVisits(a, 0) + EmptyHanded(a, Always(), 0) == EmptyHanded(a, Always(), 0);
  }

  predicate AllTaken(visits: seq<Visit>, goOn: Answer) {
    forall k :: 0 <= k < |visits| ==> goOn(visits[k].file)
  }

  /** Nothing is handed to the caller after a refusal. */
  predicate StopsAsAsked(visits: seq<Visit>, goOn: Answer) {
    forall k :: 0 <= k < |visits| - 1 ==> goOn(visits[k].file)
  }

  lemma StopsConcat(u: seq<Visit>, v: seq<Visit>, goOn: Answer)
    ensures StopsAsAsked(u + v, goOn) <==> if v == [] then StopsAsAsked(u, goOn) else AllTaken(u, goOn) && StopsAsAsked(v, goOn)
    ensures AllTaken(u + v, goOn) <==> AllTaken(u, goOn) && AllTaken(v, goOn)
  {
    var all := u + v;
    assert forall k :: 0 <= k < |u| ==> all[k] == u[k];
    assert forall k :: 0 <= k < |v| ==> all[|u| + k] == v[k];
    if v == [] {
      assert all == u;
    }
  }

  /** The caller refuses one of block `b`'s files. */
  predicate RefusesIn(a: Archive, goOn: Answer, b: nat)
    requires b < |a.blocks| <= |a.streams.blockFirstFile|
  {
    Refuses(goOn, a.streams.blockFirstFile[b], a.streams.blockFirstFile[b] + a.blocks[b].numSub)
  }

  lemma BlockStops(a: Archive, contents: seq<bytes>, goOn: Answer, b: nat)
    requires b < |a.blocks| && InRange(a, |contents|)
    ensures StopsAsAsked(BlockHanded(a, contents, goOn, b), goOn)
    ensures AllTaken(BlockHanded(a, contents, goOn, b), goOn) <==> !RefusesIn(a, goOn, b)
    ensures BlockHanded(a, contents, goOn, b) == [] <==> a.blocks[b].numSub == 0
  {
    hide Until;
    var start := a.streams.blockFirstFile[b];
    var end := Until(goOn, start, start + a.blocks[b].numSub);
    var vs := BlockHanded(a, contents, goOn, b);
    assert forall k :: 0 <= k < |vs| ==> vs[k].file == start + k;
    if AllTaken(vs, goOn) {
      forall i | start <= i < end
        ensures goOn(i)
      {
        assert vs[i - start].file == i;
      }
    }
    if a.blocks[b].numSub > 0 {
      assert end > start;
    }
  }

  lemma {:induction false} BlocksStop(a: Archive, contents: seq<bytes>, goOn: Answer, n: nat)
    requires n <= |a.blocks| && InRange(a, |contents|)
    ensures AllTaken(BlocksHanded(a, contents, goOn, n), goOn) <==> forall b :: 0 <= b < n ==> !RefusesIn(a, goOn, b)
    ensures StopsAsAsked(BlocksHanded(a, contents, goOn, n), goOn)
       <==> forall b, later :: 0 <= b < later < n && RefusesIn(a, goOn, b) ==> a.blocks[later].numSub == 0
  {
    hide RefusesIn, AllTaken, StopsAsAsked, BlockHanded;
    if n > 0 {
      BlocksStop(a, contents, goOn, n - 1);
      BlockStops(a, contents, goOn, n - 1);
      StopsConcat(BlocksHanded(a, contents, goOn, n - 1), BlockHanded(a, contents, goOn, n - 1), goOn);
    } else {
      NothingHanded(goOn);
    }
  }

  lemma NothingHanded(goOn: Answer)
    ensures AllTaken([], goOn) && StopsAsAsked([], goOn)
  {
  }

  lemma {:induction false} EmptyStops(a: Archive, goOn: Answer, i: nat)
    requires |a.files| <= |a.streams.fileBlock|
    ensures StopsAsAsked(EmptyHanded(a, goOn, i), goOn)
    ensures EmptyHanded(a, goOn, i) == [] <==> forall j :: i <= j < |a.files| ==> a.streams.fileBlock[j].Some?
    decreases if i <= |a.files| then |a.files| - i else 0
  {
    if i < |a.files| {
      EmptyStops(a, goOn, i + 1);
      if a.streams.fileBlock[i].None? && goOn(i) {
        StopsConcat([Visit(i, [])], EmptyHanded(a, goOn, i + 1), goOn);
      }
    }
  }

  /** A caller's refusal is respected if and only if it comes outside the blocks, or no later
      block has files and no file is outside the blocks. */
  lemma StopsIff(a: Archive, contents: seq<bytes>, goOn: Answer)
    requires InRange(a, |contents|) && |a.files| <= |a.streams.fileBlock|
    ensures StopsAsAsked(BlocksHanded(a, contents, goOn, |a.blocks|) + EmptyHanded(a, goOn, 0), goOn)
       <==> forall b :: 0 <= b < |a.blocks| && RefusesIn(a, goOn, b) ==>
              && (forall later :: b < later < |a.blocks| ==> a.blocks[later].numSub == 0)
              && forall i :: 0 <= i < |a.files| ==> a.streams.fileBlock[i].Some?
  {
    hide RefusesIn, AllTaken, StopsAsAsked, BlocksHanded, EmptyHanded;
    BlocksStop(a, contents, goOn, |a.blocks|);
    EmptyStops(a, goOn, 0);
    StopsConcat(BlocksHanded(a, contents, goOn, |a.blocks|), EmptyHanded(a, goOn, 0), goOn);
  }

  /** Two files in a block each: a caller that refuses the first is handed the second as well. */
  lemma HandedOnRegardless(a: Archive, contents: seq<bytes>)
    requires |a.blocks| == 2 == |contents| && a.streams.blockFirstFile == [0, 1]
    requires a.blocks[0].numSub == 1 == a.blocks[1].numSub
    ensures InRange(a, |contents|)
    ensures BlocksHanded(a, contents, AllBut(0), 2) == [Visit(0, contents[0]), Visit(1, contents[1])]
  {
    assert BlocksHanded(a, contents, AllBut(0), 0) == [];
    assert Until(AllBut(0), 0, 1) == 1 && Until(AllBut(0), 1, 2) == 2;
    assert BlocksHanded(a, contents, AllBut(0), 1) == [Visit(0, contents[0])];
  }

  lemma NothingIsGenuine(c: Codecs, a: Archive, i: nat)
    requires i < |a.files|
    ensures Genuine(c, a, Visit(i, []))
  {
  }

  lemma BlockInRange(c: Codecs, data: bytes, a: Archive, b: nat, contents: seq<bytes>)
    requires b < |a.blocks| && BlockDelivers(c, data, a, b, contents)
    ensures b < |a.streams.blockFirstFile| && a.streams.blockFirstFile[b] + a.blocks[b].numSub <= |contents|
  {
  }

  lemma DeliversInRange(c: Codecs, data: bytes, a: Archive, contents: seq<bytes>)
    ensures Delivers(c, data, a, contents) ==> InRange(a, |contents|)
  {
    hide BlockDelivers;
    if Delivers(c, data, a, contents) {
      forall b | 0 <= b < |a.blocks|
        ensures b < |a.streams.blockFirstFile| && a.streams.blockFirstFile[b] + a.blocks[b].numSub <= |contents|
      {
        BlockInRange(c, data, a, b, contents);
      }
      if |a.blocks| > 0 {
        BlockInRange(c, data, a, |a.blocks| - 1, contents);
      }
    }
  }

  lemma EachGives(c: Codecs, data: bytes, a: Archive, b: nat, contents: seq<bytes>)
    requires Delivers(c, data, a, contents) && b < |a.blocks|
    ensures BlockDelivers(c, data, a, b, contents) && InRange(a, |contents|)
    ensures BlockVisits(a, contents, b)
         == Visits(contents, a.streams.blockFirstFile[b], a.streams.blockFirstFile[b] + a.blocks[b].numSub)
  {
    DeliversInRange(c, data, a, contents);
  }

  // ----- one file by name

  /** The file the name index finds: the last one of that name. */
  function LastNamed(files: seq<Entry>, name: Name): (r: Option<nat>)
    ensures r.Some? ==> r.value < |files| && files[r.value].name == name
    ensures r.Some? ==> forall j :: r.value < j < |files| ==> files[j].name != name
    ensures r.None? ==> forall j :: 0 <= j < |files| ==> files[j].name != name
  {
    if files == [] then None
    else if files[|files| - 1].name == name then Some(|files| - 1)
    else LastNamed(files[..|files| - 1], name)
  }

  datatype IndexEntry = IndexEntry(block: Option<nat>, file: nat)

  ghost predicate IndexOf(index: map<Name, IndexEntry>, a: Archive, n: nat) {
    && n <= |a.files| && n <= |a.streams.fileBlock|
    && forall name: Name ::
      (match LastNamed(a.files[..n], name)
       case None => name !in index
       case Some(i) => name in index && index[name] == IndexEntry(a.streams.fileBlock[i], i))
  }

  /** `fill_index`. */
  method FillIndex(a: Archive) returns (r: Result<map<Name, IndexEntry>>)
    ensures |a.files| <= |a.streams.fileBlock| ==> r.Ok?
    ensures r.Ok? ==> IndexOf(r.value, a, |a.files|)
  {
    var index: map<Name, IndexEntry> := map[];
    for i := 0 to |a.files|
      invariant IndexOf(index, a, i)
    {
      if i >= |a.streams.fileBlock| {
        return Err(Panic);
      }
      index := index[a.files[i].name := IndexEntry(a.streams.fileBlock[i], i)];
      assert a.files[..i + 1][..i] == a.files[..i];
    }
    r := Ok(index);
  }

  /** The map leads from each file with data into the range of its block, and to the front of
      the block if no block holds two files. */
  predicate MapLeads(a: Archive) {
    && |a.files| == |a.streams.fileBlock| && |a.blocks| <= |a.streams.blockFirstFile|
    && forall i :: 0 <= i < |a.files| && a.files[i].hasStream ==>
      a.streams.fileBlock[i].Some? && Leads(a, i, a.streams.fileBlock[i].value)
  }

  predicate Leads(a: Archive, i: nat, b: nat)
    requires |a.blocks| <= |a.streams.blockFirstFile|
  {
    && b < |a.blocks|
    && a.streams.blockFirstFile[b] <= i < a.streams.blockFirstFile[b] + a.blocks[b].numSub
    && (!a.isSolid ==> i == a.streams.blockFirstFile[b])
  }

  /** `read_file`. */
  method ReadFile(c: Codecs, source: SeekableInput, a: Archive, index: map<Name, IndexEntry>, name: Name, ghost contents: seq<bytes>)
    returns (r: Result<bytes>)
    requires IndexOf(index, a, |a.files|)
    modifies source
    ensures LastNamed(a.files, name).None? ==> r == Err(FileNotFound)
    ensures r.Ok? ==>
      var i := LastNamed(a.files, name); i.Some? && Genuine(c, a, Visit(i.value, r.value))
    ensures LastNamed(a.files, name).Some? && MapLeads(a) && Delivers(c, source.data, a, contents) ==>
      r == Ok(contents[LastNamed(a.files, name).value])
  {
    hide BlockDelivers, LastNamed;
    assert a.files[..|a.files|] == a.files;
    if name !in index {
      return Err(FileNotFound);
    }
    var entry := index[name];
    var i := entry.file;
    assert LastNamed(a.files, name) == Some(i);
    if !a.files[i].hasStream {
      return Ok([]);
    }
    if entry.block.None? {
      return Err(NoBlockForFile);
    }
    var b := entry.block.value;
    if b >= |a.blocks| {
      return Err(Panic);
    }
    if a.isSolid {
      r := ReadSolid(c, source, a, b, i, contents);
    } else {
      r := ReadSingle(c, source, a, b, i, contents);
    }
  }

  /** The caller that looks for one file. */
  function AllBut(target: nat): Answer {
    (i: nat) => i != target
  }

  lemma StopsAt(target: nat, from: nat, to: nat)
    requires from <= to
    ensures from <= target < to ==> Until(AllBut(target), from, to) == target + 1
  {
    hide Until;
    if from <= target < to {
      assert !AllBut(target)(target);
    }
  }

  /** In a solid block everything in front of the file is decoded too. */
  method ReadSolid(c: Codecs, source: SeekableInput, a: Archive, b: nat, i: nat, ghost contents: seq<bytes>) returns (r: Result<bytes>)
    requires b < |a.blocks| && i < |a.files| && a.files[i].hasStream
    modifies source
    ensures r.Ok? ==> Genuine(c, a, Visit(i, r.value))
    ensures BlockDelivers(c, source.data, a, b, contents) ==>
      a.streams.blockFirstFile[b] <= i < a.streams.blockFirstFile[b] + a.blocks[b].numSub ==> r == Ok(contents[i])
  {
    hide OpenBlock, Genuine, FileDescribes;
    if BlockDelivers(c, source.data, a, b, contents) {
      StopsAt(i, a.streams.blockFirstFile[b], a.streams.blockFirstFile[b] + a.blocks[b].numSub);
    }
    var handed :- EachOfBlock(c, source, a, b, AllBut(i), contents);
    var visits := handed.0;
    if visits != [] && visits[|visits| - 1].file == i {
      assert visits[|visits| - 1] in visits;
      return Ok(visits[|visits| - 1].data);
    }
    r := Err(FileNotFound);
  }

  method ReadSingle(c: Codecs, source: SeekableInput, a: Archive, b: nat, i: nat, ghost contents: seq<bytes>) returns (r: Result<bytes>)
    requires b < |a.blocks| && i < |a.files| && a.files[i].hasStream
    modifies source
    ensures r.Ok? ==> Genuine(c, a, Visit(i, r.value))
    ensures BlockDelivers(c, source.data, a, b, contents) ==>
      i == a.streams.blockFirstFile[b] && a.blocks[b].numSub > 0 ==> r == Ok(contents[i])
  {
    hide OpenBlock, Flatten, BlockReader.Holds;
    ghost var delivers := BlockDelivers(c, source.data, a, b, contents)
      && i == a.streams.blockFirstFile[b] && a.blocks[b].numSub > 0;
    var reader :- BuildDecodeStack(c, source, a, b);
    var f := a.files[i];
    ghost var content, after: bytes := [], [];
    if delivers {
      var end := i + a.blocks[b].numSub;
      AtStartHolds(c, reader, OpenBlock(c, source.data, a, b).value, Flatten(contents[i..end]));
      FlattenNext(contents, i, end);
      content, after := contents[i], Flatten(contents[i + 1..end]);
    }
    var e := new EntryReader(c, reader, f.size, f.hasCrc, f.crc);
    assert [] + content == content;
    r := Drain(e, f.size, content, after);
  }
}
