/** Solid pushes whose entries are not all flagged as having data, and pushes of nothing: when
    the finished archive gives back what was pushed, and when it does not. */
module PartialSolids {
  import opened Wire
  import opened Repeats
  import opened Blocks
  import opened UnpackInfos
  import opened SubStreams
  import opened FilesInfos
  import opened StreamMaps
  import opened Stretches
  import opened Headers
  import opened Codecs
  import opened Writers
  import opened Finishing
  import opened Archives
  import opened ArchiveRoundTrip
  import opened ArchiveReaders
  import opened EndToEnd
  import opened PushAndRead
  import opened Reopenings
  import PackInfos
  import F = FilesRoundTrip
  import H = HeaderRoundTrip

  // ----- pushes of nothing

  /** For every run of calls within the limits whose solid entries are flagged as having data:
      the finished archive opens, and gives back what was pushed, if and only if nothing was
      pushed for no file through the call for bytes. */
  lemma ReadsBackIffNoEmptyPush(c: Codecs, methods: Methods, ops: seq<Op>, packer: Method)
    requires c.Inverts() && RunSized(c, Fresh(methods), ops) && forall op :: op in ops ==> SolidFlagged(op)
    ensures AllMatched(ops)
    ensures var st := Run(c, Fresh(methods), ops);
            && CountsFit(st.records) && st.pos >= SIGNATURE_HEADER_SIZE
            && (Finishable(c, st, packer) ==>
                  var data, proper := Finished(c, st, packer), forall op :: op in ops ==> !EmptyPush(op);
                  && (ReadArchive(c, data).Ok? <==> proper)
                  && (GivesBack(c, data, PushedIn(ops), CommentAfter(ops, None)) <==> proper))
  {
    hide *;
    RunOpensIff(c, methods, ops, packer);
    SurplusOfFlagged(ops);
    if Finishable(c, Run(c, Fresh(methods), ops), packer) {
      if forall op :: op in ops ==> !EmptyPush(op) {
        SizedAndProper(c, Fresh(methods), ops);
        PushFinishRead(c, methods, ops, packer);
      } else {
        GivesBackOpens(c, Finished(c, Run(c, Fresh(methods), ops), packer), PushedIn(ops), CommentAfter(ops, None));
      }
    }
  }

  lemma GivesBackOpens(c: Codecs, data: bytes, pushed: seq<Pushed>, comment: Option<Comment>)
    ensures GivesBack(c, data, pushed, comment) ==> ReadArchive(c, data).Ok?
  {
  }

  // ----- a solid push with some entries not flagged

  /** The first entry is flagged, and from the first one that is not on there is nothing left
      to store. */
  predicate FrontHoldsAll(es: seq<Entry>, ds: seq<bytes>)
    requires |es| == |ds|
  {
    es == [] || (es[0].hasStream && forall i, j :: 0 <= j <= i < |es| && !es[j].hasStream ==> ds[i] == [])
  }

  /** The counts of all blocks and the flags of all files after the push. */
  lemma AfterPush(c: Codecs, st: State, es: seq<Entry>, ds: seq<bytes>)
    requires Inv(c, st) && OpFits(c, st, PushSolid(es, ds))
    ensures var st' := AddSolid(c, st, es, ds);
            && Stored(c, st') && Covered(st')
            && Counts(st'.records.blocks) == Counts(st.records.blocks) + [|es|]
            && HasStreams(st'.records.files) == HasStreams(st.records.files) + HasStreams(es)
            && Flatten(st'.datas) == Flatten(st.datas) + ds
  {
    hide Inv, Stored, Owed, BlockFits, Packed, Splice, Flatten, F.WithStreams, SolidBlock, SolidEntries;
    StoredParts(c, st);
    SolidStored(c, st, es, ds);
    NothingOwed(c, st);
    AllStreams(es);
    OwedIsUncovered(AddSolid(c, st, es, ds));
    CountsSnoc(st.records.blocks, SolidBlock(c, st.methods, ds));
    SizesFit(c, st, Flatten(ds), |es|);
    SolidCount(c, st.methods, ds);
    SameFlagColumn(c, st.records.files, es, ds);
    FlattenSnoc(st.datas, ds);
  }

  lemma NothingOwed(c: Codecs, st: State)
    requires Inv(c, st)
    ensures Owed(st) == 0
  {
    hide TablesHold, BytesHold, Settled;
    StreamsBound(st.records.files);
    assert |F.StreamSizes(st.records.files)| == |Flatten(st.datas)|;
  }

  lemma SolidCount(c: Codecs, ms: Methods, ds: seq<bytes>)
    requires |ds| < U64_LIMIT
    ensures SolidBlock(c, ms, ds).numSub == |ds|
  {
  }

  lemma SameFlagColumn(c: Codecs, files: seq<Entry>, es: seq<Entry>, ds: seq<bytes>)
    requires |es| == |ds|
    ensures HasStreams(files + SolidEntries(c, es, ds)) == HasStreams(files) + HasStreams(es)
  {
  }

  lemma InvComplete(c: Codecs, st: State)
    requires Inv(c, st)
    ensures var counts := Counts(st.records.blocks); Complete(counts, AllIn(|counts|), HasStreams(st.records.files))
  {
    hide BlockHolds, BytesHold, Settled, WalkTo, Counts;
    StreamsCounted(c, st);
    var counts := Counts(st.records.blocks);
    FailsIffTooMany(counts, AllIn(|counts|), HasStreams(st.records.files), |st.records.files|);
  }

  /** The files in front fill the blocks in front. */
  lemma FrontFull(c: Codecs, st: State, m: nat)
    requires Inv(c, st)
    ensures var counts, has := Counts(st.records.blocks) + [m], HasStreams(st.records.files);
            && Streams(has, |has|) == Before(counts, |counts| - 1)
            && WalkTo(counts, AllIn(|counts|), has, |has|).Ok?
  {
    hide BlockHolds, BytesHold, Settled, WalkTo, Counts;
    StreamsCounted(c, st);
    var counts, has := Counts(st.records.blocks) + [m], HasStreams(st.records.files);
    BeforeOfPrefix(Counts(st.records.blocks), [m], |counts| - 1);
    FailsIffTooMany(counts, AllIn(|counts|), has, |has|);
  }

  /** Archive `a` is the one recorded in `st`, its files where the walk over them puts them. */
  predicate SeenAs(st: State, a: Archive) {
    var counts, has := Counts(st.records.blocks), HasStreams(st.records.files);
    && Tabled(st, a) && |counts| == |a.blocks|
    && (forall b :: 0 <= b < |counts| ==> counts[b] == a.blocks[b].numSub)
    && a.isSolid == AnySolid(a.blocks) && a.comment == st.records.comment
    && |a.files| == |st.records.files|
    && WalkTo(counts, AllIn(|counts|), has, |has|).Ok?
    && a.streams.blockFirstFile == Firsts(counts, AllIn(|counts|), has)
    && a.streams.fileBlock == WalkTo(counts, AllIn(|counts|), has, |has|).value.map0
  }

  lemma ReopenedSeen(c: Codecs, st: State)
    requires Stored(c, st) && H.HeaderFits(st.records)
    ensures SeenAs(st, Reopened(c, st)) && Reopened(c, st).files == F.AllRecovered(st.records.files)
  {
    hide Stored, H.HeaderFits, Reopened, CountedBlocks, WalkTo, MapOf, F.AllRecovered, Counts, Firsts, ExpectedSub, Tabled;
    Parts(c, st);
    MapIs(c, st);
    ReopenedTabled(c, st);
    CommentOf(c, st);
    assert AllIn(|Counts(st.records.blocks)|) == seq(|Counts(st.records.blocks)|, i => true);
    forall b | 0 <= b < |st.records.blocks|
      ensures Counts(st.records.blocks)[b] == Reopened(c, st).blocks[b].numSub
    {
      CountedIs(st.records.blocks, b);
    }
  }

  lemma SameSeen(st: State, s: State, a: Archive)
    requires SeenAs(s, a) && s == st.(records := st.records.(files := s.records.files))
    requires HasStreams(s.records.files) == HasStreams(st.records.files)
    ensures SeenAs(st, a)
  {
    hide WalkTo, Counts, CountedBlocks, ExpectedSub;
    assert |HasStreams(s.records.files)| == |s.records.files|;
  }

  /** Where the reader sees the files of the archive. */
  lemma SeenMap(c: Codecs, st: State, packer: Method)
    requires c.Inverts() && Stored(c, st) && Covered(st) && CountsFit(st.records) && st.pos >= SIGNATURE_HEADER_SIZE
    requires Finishable(c, st, packer)
    ensures ReadArchive(c, Finished(c, st, packer)).Ok?
    ensures var a := ReadArchive(c, Finished(c, st, packer)).value;
            SeenAs(st, a) && a.files == F.AllRecovered(Seen(c, st).records.files)
  {
    hide Stored, Covered, Finishable, Finished, ReadArchive, H.HeaderFits, Reopened, F.AllRecovered, SameTable, F.Describes,
      F.WithStreams, Seen, SeenAs;
    OpensCovered(c, st, packer);
    SeenIs(c, st);
    ReopenedSeen(c, Seen(c, st));
    SameColumns(st.records.files, Seen(c, st).records.files);
    SameSeen(st, Seen(c, st), Reopened(c, Seen(c, st)));
  }

  lemma CommentOf(c: Codecs, st: State)
    requires H.HeaderFits(st.records)
    ensures Reopened(c, st).comment == st.records.comment
  {
    hide MapOf, AnySolid, F.AllRecovered, ExpectedSub;
    H.MapSucceeds(st.records);
  }

  // ----- why it fails otherwise

  lemma TraversalOf(st: State, a: Archive, contents: seq<bytes>, i: nat)
    requires SeenAs(st, a) && |contents| == |a.files| && i < |a.files| && InRange(a, |contents|)
    ensures |a.files| <= |a.streams.fileBlock|
    ensures var counts, has := Counts(st.records.blocks), HasStreams(st.records.files);
            Met(Traversal(a, contents), i) == StreamMaps.Visits(counts, WalkTo(counts, AllIn(|counts|), has, |has|).value, i)
  {
    hide WalkTo, Counts, Tabled, Traversal, Met, CoveringBlocks;
    var counts, has := Counts(st.records.blocks), HasStreams(st.records.files);
    MetAsMapped(a, contents, counts, WalkTo(counts, AllIn(|counts|), has, |has|).value, i);
  }

  /** With none of the entries flagged, the block is taken for one of the archive's first files. */
  lemma NoneFlaggedMetTwice(c: Codecs, st: State, es: seq<Entry>, ds: seq<bytes>, a: Archive, contents: seq<bytes>)
    requires Inv(c, st) && OpFits(c, st, PushSolid(es, ds)) && es != [] && forall e :: e in es ==> !e.hasStream
    requires SeenAs(AddSolid(c, st, es, ds), a) && |contents| == |a.files| && InRange(a, |contents|)
    ensures |a.files| > 0 && |a.files| <= |a.streams.fileBlock| && Met(Traversal(a, contents), 0) >= 2
  {
    hide Inv, BlockFits, AddSolid, WalkTo, Counts, Traversal, Met, CoveringBlocks, Before, Streams, Tabled;
    AfterPush(c, st, es, ds);
    FrontFull(c, st, |es|);
    var st' := AddSolid(c, st, es, ds);
    var counts, has := Counts(st'.records.blocks), HasStreams(st'.records.files);
    NoStreamsAdded(HasStreams(st.records.files), HasStreams(es));
    FirstMetTwice(counts, AllIn(|counts|), has, |counts| - 1);
    TraversalOf(st', a, contents, 0);
  }

  lemma {:induction false} NoStreamsAdded(has: seq<bool>, flags: seq<bool>)
    requires true !in flags
    ensures Streams(has + flags, |has + flags|) == Streams(has, |has|)
    decreases |flags|
  {
    if flags == [] {
      assert has + flags == has;
    } else {
      var front := flags[..|flags| - 1];
      assert has + flags == (has + front) + [flags[|flags| - 1]];
      assert flags[|flags| - 1] in flags;
      StreamsOnPrefix(has + front, [flags[|flags| - 1]], |has + front|);
      NoStreamsAdded(has, front);
    }
  }

  lemma {:induction false} SomeStreamAdded(has: seq<bool>, flags: seq<bool>, j: nat)
    requires j < |flags| && flags[j]
    ensures Streams(has + flags, |has + flags|) > Streams(has, |has|)
  {
    StreamsOnPrefix(has, flags, |has|);
    assert (has + flags)[|has| + j] == flags[j];
    CountUpTo(has + flags, |has|, |has| + j);
    CountPasses(has + flags, |has| + j, |has + flags|);
  }

  /** With the first entry not flagged and another one flagged, the block's range runs past the
      end of the files. */
  lemma FirstMissingPastEnd(c: Codecs, st: State, es: seq<Entry>, ds: seq<bytes>, a: Archive)
    requires Inv(c, st) && OpFits(c, st, PushSolid(es, ds)) && es != [] && !es[0].hasStream && exists e :: e in es && e.hasStream
    requires SeenAs(AddSolid(c, st, es, ds), a)
    ensures !InRange(a, |a.files|)
  {
    hide Inv, BlockFits, AddSolid, WalkTo, Counts, Before, Streams, Tabled;
    AfterPush(c, st, es, ds);
    FrontFull(c, st, |es|);
    var st' := AddSolid(c, st, es, ds);
    var counts := Counts(st'.records.blocks);
    var e :| e in es && e.hasStream;
    var j :| 0 <= j < |es| && es[j] == e;
    SomeStreamAdded(HasStreams(st.records.files), HasStreams(es), j);
    ReachesPastEnd(counts, AllIn(|counts|), HasStreams(st.records.files), HasStreams(es));
  }

  // ----- the sizes the reader takes

  lemma CorrectedAt(files: seq<Entry>, sizes: seq<u64>, crcs: seq<u32>, i: nat)
    requires |sizes| == |crcs| && |F.WithStreams(files)| <= |sizes| && i < |files| && files[i].hasStream
    ensures var r, k := Corrected(files, sizes, crcs, 0), Streams(HasStreams(files), i);
            k < |sizes| && r[i].hasStream && r[i].size == sizes[k] && r[i].crc == crcs[k]
  {
    hide F.WithStreams, Corrected;
    var r := Corrected(files, sizes, crcs, 0);
    CorrectedIs(files, sizes, crcs, 0);
    SameColumns(files, r);
    H.StreamsOfFiles(r, i);
    F.NthFiltered(r, i);
    var k := Streams(HasStreams(r), i);
    assert F.StreamSizes(r)[k] == r[i].size && F.StreamCrcs(r)[k] == r[i].crc;
  }

  /** A flagged file is given the size of the content that comes in its turn. */
  lemma SizeSeen(c: Codecs, st: State, i: nat)
    requires Stored(c, st) && Covered(st) && i < |st.records.files| && st.records.files[i].hasStream
    ensures var f, k := F.Recovered(Seen(c, st).records.files[i]), Streams(HasStreams(st.records.files), i);
            k < |Flatten(st.datas)| && f.hasStream && f.size == |Flatten(st.datas)[k]|
  {
    hide Stored, FlatSizes, FlatCrcs, F.WithStreams, Crcs, Corrected, AllSubOk;
    TableIs(c, st);
    CorrectedAt(st.records.files, FlatSizes(st.records.blocks), FlatCrcs(st.records.blocks), i);
  }

  lemma {:induction false} StreamsAdd(has: seq<bool>, flags: seq<bool>, j: nat)
    requires j <= |flags|
    ensures Streams(has + flags, |has| + j) == Streams(has, |has|) + Streams(flags, j)
  {
    if j == 0 {
      StreamsOnPrefix(has, flags, |has|);
    } else {
      StreamsAdd(has, flags, j - 1);
    }
  }

  /** Entry `i` of the push, if flagged, gets the size of content number `Streams(flags, i)`. */
  lemma SizeOfPushed(c: Codecs, st: State, es: seq<Entry>, ds: seq<bytes>, i: nat)
    requires Inv(c, st) && OpFits(c, st, PushSolid(es, ds)) && i < |es| && es[i].hasStream
    ensures var st', k := AddSolid(c, st, es, ds), Streams(HasStreams(es), i);
            && Stored(c, st') && Covered(st') && k <= i && |st'.records.files| == |st.records.files| + |es|
            && var f := F.Recovered(Seen(c, st').records.files[|st.records.files| + i]);
            f.hasStream && f.size == |ds[k]|
  {
    hide Inv, Stored, BlockFits, F.WithStreams, Seen, Flatten, AddSolid, Covered, Streams, Counts, F.Recovered;
    AfterPush(c, st, es, ds);
    var st', n := AddSolid(c, st, es, ds), |st.records.files|;
    assert |HasStreams(st'.records.files)| == n + |es| && HasStreams(st'.records.files)[n + i] == es[i].hasStream;
    SizeSeen(c, st', n + i);
    StreamsAdd(HasStreams(st.records.files), HasStreams(es), i);
    StreamsUpTo(HasStreams(es), i);
    AllStreamedInv(c, st);
  }

  lemma StreamsUpTo(has: seq<bool>, i: nat)
    requires i <= |has|
    ensures Streams(has, i) <= i
  {
    StreamsMonotone(has, 0, i);
  }

  lemma AllStreamedInv(c: Codecs, st: State)
    requires Inv(c, st)
    ensures Streams(HasStreams(st.records.files), |st.records.files|) == |Flatten(st.datas)|
  {
    hide BlockHolds, BytesHold, Settled;
    AllStreamed(c, st);
  }

  /** Behind an unflagged entry with all in front flagged, fewer are flagged than there are entries. */
  lemma FewerFlagged(flags: seq<bool>, u: nat, i: nat)
    requires u < i <= |flags| && !flags[u] && forall k :: 0 <= k < u ==> flags[k]
    ensures u <= Streams(flags, i) < i
  {
    hide Streams;
    StreamsUpTo(flags, u);
    AllBefore(flags, u);
    StreamsMonotone(flags, u, i);
  }

  lemma {:induction false} AllBefore(flags: seq<bool>, u: nat)
    requires u <= |flags| && forall k :: 0 <= k < u ==> flags[k]
    ensures Streams(flags, u) == u
  {
    if u > 0 {
      AllBefore(flags, u - 1);
    }
  }

  /** From the first unflagged entry on, contents that are given back are empty. */
  lemma {:induction false} GivenBackEmpty(flags: seq<bool>, ds: seq<bytes>, u: nat, i: nat)
    requires u <= i < |flags| == |ds| && !flags[u] && forall k :: 0 <= k < u ==> flags[k]
    requires forall k :: 0 <= k < |flags| && !flags[k] ==> ds[k] == []
    requires forall k :: 0 <= k < |flags| && flags[k] ==> Streams(flags, k) <= k && |ds[k]| == |ds[Streams(flags, k)]|
    ensures ds[i] == []
    decreases i
  {
    hide Streams;
    if flags[i] {
      FewerFlagged(flags, u, i);
      GivenBackEmpty(flags, ds, u, Streams(flags, i));
    }
  }

  lemma {:induction false} FirstUnflagged(flags: seq<bool>, j: nat) returns (u: nat)
    requires j < |flags| && !flags[j]
    ensures u <= j && !flags[u] && forall k :: 0 <= k < u ==> flags[k]
  {
    u := j;
    if k :| 0 <= k < j && !flags[k] {
      u := FirstUnflagged(flags, k);
    }
  }

  /** What giving back says of file `i`. */
  lemma GivenBackFile(c: Codecs, data: bytes, pushed: seq<Pushed>, comment: Option<Comment>, i: nat)
    requires GivesBack(c, data, pushed, comment) && i < |pushed|
    ensures ReadArchive(c, data).Ok? && |ReadArchive(c, data).value.files| == |pushed|
    ensures var f := ReadArchive(c, data).value.files[i];
            if f.hasStream then f.size == |pushed[i].data| else pushed[i].data == []
  {
    hide ReadArchive, BlockDelivers, MapLeads, Met, Traversal, AllRight, SameMetadata, InRange;
    assert Datas(pushed)[i] == pushed[i].data;
  }

  lemma GivenBackParts(c: Codecs, data: bytes, pushed: seq<Pushed>, comment: Option<Comment>)
    requires GivesBack(c, data, pushed, comment)
    ensures ReadArchive(c, data).Ok?
    ensures var a, contents := ReadArchive(c, data).value, Datas(pushed);
            && |contents| == |a.files| && InRange(a, |contents|) && |a.files| <= |a.streams.fileBlock|
            && forall i :: 0 <= i < |a.files| ==> Met(Traversal(a, contents), i) == 1
  {
    hide ReadArchive, BlockDelivers, MapLeads, Met, Traversal, AllRight, SameMetadata, InRange;
  }

  /** What giving back says of the files of a solid push. */
  lemma GivenBackFiles(c: Codecs, data: bytes, before: seq<Pushed>, es: seq<Entry>, ds: seq<bytes>, comment: Option<Comment>)
    requires |es| == |ds| && GivesBack(c, data, before + Zip(es, ds), comment)
    ensures ReadArchive(c, data).Ok?
    ensures var a, contents, n := ReadArchive(c, data).value, Datas(before + Zip(es, ds)), |before|;
            && |contents| == |a.files| == n + |es| && InRange(a, |contents|) && |a.files| <= |a.streams.fileBlock|
            && (forall i :: 0 <= i < |a.files| ==> Met(Traversal(a, contents), i) == 1)
            && forall k :: 0 <= k < |es| ==> if a.files[n + k].hasStream then a.files[n + k].size == |ds[k]| else ds[k] == []
  {
    hide ReadArchive, GivesBack, Met, Traversal, InRange;
    var pushed, n := before + Zip(es, ds), |before|;
    GivenBackParts(c, data, pushed, comment);
    var a := ReadArchive(c, data).value;
    forall k | 0 <= k < |es|
      ensures if a.files[n + k].hasStream then a.files[n + k].size == |ds[k]| else ds[k] == []
    {
      assert pushed[n + k] == Pushed(es[k], ds[k]);
      GivenBackFile(c, data, pushed, comment, n + k);
    }
  }

  lemma UnflaggedSeen(c: Codecs, st: State, es: seq<Entry>, ds: seq<bytes>, i: nat)
    requires Inv(c, st) && OpFits(c, st, PushSolid(es, ds)) && i < |es| && !es[i].hasStream
    ensures var st' := AddSolid(c, st, es, ds);
            && Stored(c, st') && Covered(st') && |st'.records.files| == |st.records.files| + |es|
            && !F.Recovered(Seen(c, st').records.files[|st.records.files| + i]).hasStream
  {
    hide Inv, Stored, BlockFits, F.WithStreams, Seen, Flatten, AddSolid, Covered, Streams, Counts;
    AfterPush(c, st, es, ds);
    var st' := AddSolid(c, st, es, ds);
    assert |HasStreams(st'.records.files)| == |st.records.files| + |es|;
    SeenIs(c, st');
    SameColumns(st'.records.files, Seen(c, st').records.files);
    assert HasStreams(Seen(c, st').records.files)[|st.records.files| + i] == es[i].hasStream;
  }

  lemma GivesBackOnlyIf(c: Codecs, st: State, es: seq<Entry>, ds: seq<bytes>, packer: Method, before: seq<Pushed>)
    requires c.Inverts() && Inv(c, st) && |st.records.files| == |before| && OpFits(c, st, PushSolid(es, ds))
    requires var st' := AddSolid(c, st, es, ds);
             && CountsFit(st'.records) && st'.pos >= SIGNATURE_HEADER_SIZE && Finishable(c, st', packer)
             && GivesBack(c, Finished(c, st', packer), before + Zip(es, ds), st'.records.comment)
    ensures FrontHoldsAll(es, ds)
  {
    hide Inv, Stored, BlockFits, AddSolid, Finishable, Finished, ReadArchive, GivesBack, F.AllRecovered, F.Recovered, Seen, SeenAs, InRange,
      Met, Traversal, Covered, Streams, CountsFit;
    var st' := AddSolid(c, st, es, ds);
    var n, data := |before|, Finished(c, st', packer);
    AfterPush(c, st, es, ds);
    SeenMap(c, st', packer);
    GivenBackFiles(c, data, before, es, ds, st'.records.comment);
    var a, contents := ReadArchive(c, data).value, Datas(before + Zip(es, ds));
    if es != [] {
      if forall e :: e in es ==> !e.hasStream {
        NoneFlaggedMetTwice(c, st, es, ds, a, contents);
      } else if !es[0].hasStream {
        FirstMissingPastEnd(c, st, es, ds, a);
      } else {
        forall i, j | 0 <= j <= i < |es| && !es[j].hasStream
          ensures ds[i] == []
        {
          AllSizesSeen(c, st, es, ds, a, n);
          var u := FirstUnflagged(HasStreams(es), j);
          GivenBackEmpty(HasStreams(es), ds, u, i);
        }
      }
    }
  }

  lemma AllSizesSeen(c: Codecs, st: State, es: seq<Entry>, ds: seq<bytes>, a: Archive, n: nat)
    requires Inv(c, st) && |st.records.files| == n && OpFits(c, st, PushSolid(es, ds))
    requires var st' := AddSolid(c, st, es, ds); Stored(c, st') && Covered(st') && a.files == F.AllRecovered(Seen(c, st').records.files)
    requires |a.files| == n + |es|
    requires forall k :: 0 <= k < |es| ==> if a.files[n + k].hasStream then a.files[n + k].size == |ds[k]| else ds[k] == []
    ensures forall k :: 0 <= k < |es| && !HasStreams(es)[k] ==> ds[k] == []
    ensures forall k :: 0 <= k < |es| && HasStreams(es)[k] ==>
      Streams(HasStreams(es), k) <= k && |ds[k]| == |ds[Streams(HasStreams(es), k)]|
  {
    hide Inv, Stored, BlockFits, AddSolid, F.Recovered, Seen, Covered, Streams;
    forall k | 0 <= k < |es| && !HasStreams(es)[k]
      ensures ds[k] == []
    {
      UnflaggedSeen(c, st, es, ds, k);
      assert !a.files[n + k].hasStream;
    }
    forall k | 0 <= k < |es| && HasStreams(es)[k]
      ensures Streams(HasStreams(es), k) <= k && |ds[k]| == |ds[Streams(HasStreams(es), k)]|
    {
      SizeOfPushed(c, st, es, ds, k);
      assert a.files[n + k].hasStream;
    }
  }

  // ----- why it succeeds then

  /** Where nothing needs correcting nothing is corrected. */
  lemma {:induction false} CorrectedNothing(files: seq<Entry>, sizes: seq<u64>, crcs: seq<u32>, k: nat)
    requires |sizes| == |crcs| && k + |F.WithStreams(files)| <= |sizes|
    requires var m := k + |F.WithStreams(files)|; F.StreamSizes(files) == sizes[k..m] && F.StreamCrcs(files) == crcs[k..m]
    ensures Corrected(files, sizes, crcs, k) == files
  {
    hide F.WithStreams, Corrected, F.StreamSizes, F.StreamCrcs;
    if files == [] {
      NoFiles(sizes, crcs, k);
    } else {
      var r, m := Corrected(files, sizes, crcs, k), k + |F.WithStreams(files)|;
      CorrectedStep(files, sizes, crcs, k);
      ColumnsStep(files);
      if files[0].hasStream {
        SliceStep(sizes, k, m);
        SliceStep(crcs, k, m);
        SameTail(files[0].size, F.StreamSizes(files[1..]), sizes[k], sizes[k + 1..m]);
        SameTail(files[0].crc, F.StreamCrcs(files[1..]), crcs[k], crcs[k + 1..m]);
        CorrectedNothing(files[1..], sizes, crcs, k + 1);
      } else {
        CorrectedNothing(files[1..], sizes, crcs, k);
      }
      assert r == [r[0]] + r[1..] && files == [files[0]] + files[1..];
    }
  }

  lemma NoFiles(sizes: seq<u64>, crcs: seq<u32>, k: nat)
    requires |sizes| == |crcs| && k + |F.WithStreams([])| <= |sizes|
    ensures Corrected([], sizes, crcs, k) == []
  {
  }

  lemma SameTail<T>(x: T, xs: seq<T>, y: T, ys: seq<T>)
    requires [x] + xs == [y] + ys
    ensures x == y && xs == ys
  {
    assert ([x] + xs)[0] == x && ([y] + ys)[0] == y && ([x] + xs)[1..] == xs && ([y] + ys)[1..] == ys;
  }

  /** File number `k` with data, where all in front of `u` have data. */
  lemma {:induction false} NthWithData(es: seq<Entry>, u: nat, k: nat) returns (i: nat)
    requires u <= |es| && k < |F.WithStreams(es)| && forall j :: 0 <= j < u ==> es[j].hasStream
    ensures i < |es| && F.WithStreams(es)[k] == es[i] && es[i].hasStream && k <= i && (k < u ==> i == k) && (k >= u ==> i >= u)
    decreases es
  {
    FilterStep(es);
    if es[0].hasStream {
      if k == 0 {
        i := 0;
      } else {
        var j := NthWithData(es[1..], if u > 0 then u - 1 else 0, k - 1);
        i := j + 1;
      }
    } else {
      var j := NthWithData(es[1..], 0, k);
      i := j + 1;
    }
  }

  /** If the front holds all, the sizes and CRCs that come in turn are the files' own. */
  lemma RowsInTurn(c: Codecs, es: seq<Entry>, ds: seq<bytes>)
    requires |es| == |ds| && FrontHoldsAll(es, ds) && forall i :: 0 <= i < |ds| ==> |ds[i]| < U64_LIMIT
    ensures |F.WithStreams(SolidEntries(c, es, ds))| <= |ds|
    ensures F.StreamSizes(SolidEntries(c, es, ds)) == Lengths(ds)[..|F.WithStreams(SolidEntries(c, es, ds))|]
    ensures F.StreamCrcs(SolidEntries(c, es, ds)) == Crcs(c, ds)[..|F.WithStreams(SolidEntries(c, es, ds))|]
  {
    hide F.WithStreams;
    var rs := SolidEntries(c, es, ds);
    AllStreams(rs);
    var u: nat := |es|;
    if j: nat :| j < |es| && !es[j].hasStream {
      u := FirstUnflagged(HasStreams(es), j);
    }
    forall k | 0 <= k < |F.WithStreams(rs)|
      ensures F.WithStreams(rs)[k].size == |ds[k]| && F.WithStreams(rs)[k].crc == c.crc(ds[k])
    {
      assert forall j :: 0 <= j < u ==> HasStreams(es)[j] == es[j].hasStream;
      var i := NthWithData(rs, u, k);
      if k >= u {
        assert !es[u].hasStream;
        assert ds[i] == [] && ds[k] == [];
      }
    }
  }

  /** Then the reader sees the records as they were made. */
  lemma SeenAsMade(c: Codecs, st: State, es: seq<Entry>, ds: seq<bytes>)
    requires Inv(c, st) && OpFits(c, st, PushSolid(es, ds)) && FrontHoldsAll(es, ds)
    ensures var st' := AddSolid(c, st, es, ds); Stored(c, st') && Covered(st') && Seen(c, st') == st'
  {
    hide TablesHold, BytesHold, Settled, FlatSizes, FlatCrcs, F.WithStreams, AllSubOk, Corrected, BlockFits, AddBlock, SolidBlock,
      SolidEntries, FrontHoldsAll, Lengths, Crcs, F.StreamSizes, F.StreamCrcs, Flatten;
    var st' := AddSolid(c, st, es, ds);
    AfterPush(c, st, es, ds);
    TableIs(c, st');
    PartsFitIn(c, st, ds, |es|);
    RowsInTurn(c, es, ds);
    FilesAre(c, st, es, ds);
    ColumnsGrow(st.records.files, SolidEntries(c, es, ds));
    RowsConcat(c, Flatten(st.datas), ds);
    WithStreamsGrow(st.records.files, SolidEntries(c, es, ds));
    var m := |F.WithStreams(SolidEntries(c, es, ds))|;
    FrontOf(Lengths(Flatten(st.datas)), Lengths(ds), m);
    FrontOf(Crcs(c, Flatten(st.datas)), Crcs(c, ds), m);
    StreamsBound(st.records.files);
    CorrectedNothing(st'.records.files, FlatSizes(st'.records.blocks), FlatCrcs(st'.records.blocks), 0);
  }

  lemma PartsFitIn(c: Codecs, st: State, ds: seq<bytes>, n: nat)
    requires BlockFits(c, st, Flatten(ds), n)
    ensures forall i :: 0 <= i < |ds| ==> |ds[i]| < U64_LIMIT
  {
    hide BlockFits, Flatten;
    PartsFit(ds);
    SizesFit(c, st, Flatten(ds), n);
  }

  lemma FilesAre(c: Codecs, st: State, es: seq<Entry>, ds: seq<bytes>)
    requires |es| == |ds|
    ensures AddSolid(c, st, es, ds).records.files == st.records.files + SolidEntries(c, es, ds)
  {
  }

  lemma WithStreamsGrow(files: seq<Entry>, es: seq<Entry>)
    ensures |F.WithStreams(files + es)| == |F.WithStreams(files)| + |F.WithStreams(es)|
  {
    hide F.WithStreams;
    F.FilterSplit(files + es, |files|);
    assert (files + es)[..|files|] == files && (files + es)[|files|..] == es;
  }

  lemma FrontOf<T>(a: seq<T>, b: seq<T>, m: nat)
    requires m <= |b|
    ensures a + b[..m] == (a + b)[0..|a| + m]
  {
  }

  /** The push with all entries flagged: a twin that keeps the invariant. */
  function Twin(c: Codecs, st: State, es: seq<Entry>, ds: seq<bytes>): State
    requires |es| == |ds|
  {
    AddSolid(c, st, Flagged(es), ds)
  }

  lemma TwinHolds(c: Codecs, st: State, es: seq<Entry>, ds: seq<bytes>, before: seq<Pushed>)
    requires Inv(c, st) && Mirrors(st, before) && OpFits(c, st, PushSolid(es, ds))
    ensures Inv(c, Twin(c, st, es, ds)) && Mirrors(Twin(c, st, es, ds), before + Zip(es, ds))
  {
    hide Inv, FilesHold, Mirrors, BlockFits, AddSolid;
    SolidStep(c, st, Flagged(es), ds);
    InvFiles(c, st);
    SolidGrows(c, st, Flagged(es), ds, Zip(es, ds), before);
  }

  /** Both have the same tables but for the files. */
  lemma TwinTables(c: Codecs, st: State, es: seq<Entry>, ds: seq<bytes>)
    requires |es| == |ds|
    ensures var r, t := AddSolid(c, st, es, ds), Twin(c, st, es, ds);
            && t == r.(records := r.records.(files := t.records.files))
            && |t.records.files| == |r.records.files| == |st.records.files| + |es|
            && forall i :: 0 <= i < |r.records.files| && r.records.files[i].hasStream ==> t.records.files[i] == r.records.files[i]
    ensures var r, t := AddSolid(c, st, es, ds), Twin(c, st, es, ds);
            forall i :: 0 <= i < |st.records.files| ==> t.records.files[i] == r.records.files[i] == st.records.files[i]
    ensures var r := AddSolid(c, st, es, ds);
            forall j :: 0 <= j < |es| ==> r.records.files[|st.records.files| + j].hasStream == es[j].hasStream
  {
    hide Packed, Splice, SolidBlock;
    var r, t, n := AddSolid(c, st, es, ds), Twin(c, st, es, ds), |st.records.files|;
    forall i | 0 <= i < n + |es|
      ensures i >= n ==> r.records.files[i] == SolidEntries(c, es, ds)[i - n] && t.records.files[i] == SolidEntries(c, Flagged(es), ds)[i - n]
    {
    }
  }

  /** And the same stream map, if the first entry is flagged. */
  lemma TwinMap(c: Codecs, st: State, es: seq<Entry>, ds: seq<bytes>)
    requires Inv(c, st) && OpFits(c, st, PushSolid(es, ds)) && es != [] && es[0].hasStream
    ensures var r, t := AddSolid(c, st, es, ds), Twin(c, st, es, ds);
            var counts, has, all := Counts(r.records.blocks), HasStreams(r.records.files), HasStreams(t.records.files);
            && t.records.blocks == r.records.blocks
            && WalkTo(counts, AllIn(|counts|), has, |has|).Ok? && WalkTo(counts, AllIn(|counts|), all, |all|).Ok?
            && Firsts(counts, AllIn(|counts|), has) == Firsts(counts, AllIn(|counts|), all)
            && WalkTo(counts, AllIn(|counts|), has, |has|).value.map0 == WalkTo(counts, AllIn(|counts|), all, |all|).value.map0
  {
    hide Inv, Stored, Covered, BlockFits, AddSolid, WalkTo, Counts, Before, Streams, Flatten;
    AfterPush(c, st, es, ds);
    AfterPush(c, st, Flagged(es), ds);
    FrontFull(c, st, |es|);
    TwinTables(c, st, es, ds);
    var counts := Counts(st.records.blocks) + [|es|];
    SameMap(counts, AllIn(|counts|), HasStreams(st.records.files), HasStreams(es), HasStreams(Flagged(es)));
  }

  lemma DataAt(before: seq<Pushed>, es: seq<Entry>, ds: seq<bytes>, j: nat)
    requires |es| == |ds| && j < |es|
    ensures Datas(before + Zip(es, ds))[|before| + j] == ds[j]
  {
  }

  /** From an unflagged entry on, the contents are empty. */
  lemma UnflaggedEmpty(es: seq<Entry>, ds: seq<bytes>, j: nat)
    requires |es| == |ds| && FrontHoldsAll(es, ds) && j < |es| && !es[j].hasStream
    ensures ds[j] == []
  {
  }

  /** What the reader sees of each file describes what was pushed for it. */
  lemma AllDescribed(c: Codecs, st: State, es: seq<Entry>, ds: seq<bytes>, before: seq<Pushed>)
    requires Inv(c, st) && Mirrors(st, before) && OpFits(c, st, PushSolid(es, ds)) && FrontHoldsAll(es, ds)
    ensures var r, contents := AddSolid(c, st, es, ds), Datas(before + Zip(es, ds));
            |contents| == |r.records.files| && forall i :: 0 <= i < |contents| ==> FileDescribes(c, F.Recovered(r.records.files[i]), contents[i])
    ensures ContentsOf(Twin(c, st, es, ds)) == Datas(before + Zip(es, ds))
  {
    hide Inv, BlockFits, AddSolid, Twin, FileDescribes, F.Recovered, Mirrors, Datas, FrontHoldsAll, ContentsOf;
    var r, t, contents, n := AddSolid(c, st, es, ds), Twin(c, st, es, ds), Datas(before + Zip(es, ds)), |st.records.files|;
    TwinHolds(c, st, es, ds, before);
    TwinTables(c, st, es, ds);
    MirroredContents(t, before + Zip(es, ds));
    MirroredContents(st, before);
    FilesDescribed(c, t);
    forall i | 0 <= i < |contents|
      ensures FileDescribes(c, F.Recovered(r.records.files[i]), contents[i])
    {
      assert F.AllRecovered(t.records.files)[i] == F.Recovered(t.records.files[i]);
      if !r.records.files[i].hasStream && i >= n {
        DataAt(before, es, ds, i - n);
        UnflaggedEmpty(es, ds, i - n);
        NothingDescribed(c, r.records.files[i]);
      }
    }
  }

  lemma NothingDescribed(c: Codecs, f: Entry)
    requires !f.hasStream
    ensures FileDescribes(c, F.Recovered(f), [])
  {
  }

  lemma MirroredContents(st: State, pushed: seq<Pushed>)
    requires Mirrors(st, pushed)
    ensures ContentsOf(st) == Datas(pushed) && |st.records.files| == |pushed|
  {
    hide ContentOf, Untouched;
  }

  /** Block `b` has its files where the map says. */
  lemma BlockHeld(c: Codecs, t: State, a: Archive, contents: seq<bytes>, b: nat)
    requires Inv(c, t) && b < |t.records.blocks| == |t.datas|
    requires var counts := Counts(t.records.blocks);
             Complete(counts, AllIn(|counts|), HasStreams(t.records.files))
             && a.streams.blockFirstFile == Firsts(counts, AllIn(|counts|), HasStreams(t.records.files))
    requires contents == ContentsOf(t) && |contents| == |a.files|
    requires forall i :: 0 <= i < |a.files| ==> FileDescribes(c, a.files[i], contents[i])
    ensures HoldsFiles(c, t, a, b, contents)
  {
    hide Inv, FileDescribes, WalkTo, Counts, Firsts, Complete, ContentsOf;
    BlockRange(c, t, b);
    assert |Counts(t.records.blocks)| == |t.records.blocks|;
  }

  /** The archive is read as if it were its twin. */
  predicate ReadAsTwin(c: Codecs, st: State, es: seq<Entry>, ds: seq<bytes>, a: Archive, contents: seq<bytes>)
    requires |es| == |ds|
  {
    var t := Twin(c, st, es, ds);
    var counts, has := Counts(t.records.blocks), HasStreams(t.records.files);
    && Complete(counts, AllIn(|counts|), has)
    && a.streams.blockFirstFile == Firsts(counts, AllIn(|counts|), has)
    && a.streams.fileBlock == WalkTo(counts, AllIn(|counts|), has, |has|).value.map0
    && contents == ContentsOf(t) && |contents| == |a.files| == |t.records.files|
    && (forall i :: 0 <= i < |a.files| ==> FileDescribes(c, a.files[i], contents[i]))
    && forall i :: 0 <= i < |a.files| && a.files[i].hasStream ==> t.records.files[i].hasStream
  }

  lemma ReadsAsTwin(c: Codecs, st: State, es: seq<Entry>, ds: seq<bytes>, before: seq<Pushed>, a: Archive)
    requires Inv(c, st) && Mirrors(st, before) && OpFits(c, st, PushSolid(es, ds)) && FrontHoldsAll(es, ds) && es != []
    requires var r := AddSolid(c, st, es, ds); SeenAs(r, a) && a.files == F.AllRecovered(r.records.files)
    ensures ReadAsTwin(c, st, es, ds, a, Datas(before + Zip(es, ds)))
  {
    hide Inv, Mirrors, BlockFits, AddSolid, Twin, FileDescribes, WalkTo, Counts, Firsts, Tabled, Complete, FrontHoldsAll, ContentsOf,
      F.Recovered, Datas;
    var r, t := AddSolid(c, st, es, ds), Twin(c, st, es, ds);
    StartsFlagged(es, ds);
    TwinHolds(c, st, es, ds, before);
    TwinTables(c, st, es, ds);
    TwinMap(c, st, es, ds);
    AllDescribed(c, st, es, ds, before);
    InvComplete(c, t);
    forall i | 0 <= i < |a.files|
      ensures a.files[i] == F.Recovered(r.records.files[i]) && (a.files[i].hasStream ==> t.records.files[i].hasStream)
    {
      StreamFlag(r.records.files[i]);
    }
  }

  lemma BlocksDeliver(c: Codecs, st: State, es: seq<Entry>, ds: seq<bytes>, packer: Method, before: seq<Pushed>, a: Archive,
                      contents: seq<bytes>)
    requires c.Inverts() && Inv(c, st) && Mirrors(st, before) && OpFits(c, st, PushSolid(es, ds))
    requires var r := AddSolid(c, st, es, ds); CountsFit(r.records) && r.pos >= SIGNATURE_HEADER_SIZE && SeenAs(r, a)
    requires ReadAsTwin(c, st, es, ds, a, contents)
    ensures Delivers(c, Finished(c, AddSolid(c, st, es, ds), packer), a, contents)
  {
    hide Inv, Stored, Covered, Mirrors, BlockFits, AddSolid, Twin, Finished, FileDescribes, PackedAt, BlockDelivers, WalkTo, Counts,
      CountsFit, Firsts, Tabled, Complete, ContentsOf, HoldsFiles;
    var r, t := AddSolid(c, st, es, ds), Twin(c, st, es, ds);
    var data := Finished(c, r, packer);
    AfterPush(c, st, es, ds);
    TwinHolds(c, st, es, ds, before);
    TwinTables(c, st, es, ds);
    RowsOf(c, t);
    assert |Counts(r.records.blocks)| == |r.records.blocks|;
    forall b | 0 <= b < |a.blocks|
      ensures BlockDelivers(c, data, a, b, contents)
    {
      BlockHeld(c, t, a, contents, b);
      SameHeld(c, t, r, a, b, contents);
      PackedFound(c, r, packer, b);
      DeliversFiles(c, r, a, b, data, contents);
    }
    forall i | 0 <= i < |a.files| && !a.files[i].hasStream
      ensures contents[i] == []
    {
      DescribedEmpty(c, a.files[i], contents[i]);
    }
  }

  lemma SameHeld(c: Codecs, t: State, r: State, a: Archive, b: nat, contents: seq<bytes>)
    requires t.datas == r.datas && b < |t.datas| && HoldsFiles(c, t, a, b, contents)
    ensures HoldsFiles(c, r, a, b, contents)
  {
  }

  lemma StartsFlagged(es: seq<Entry>, ds: seq<bytes>)
    requires |es| == |ds| && FrontHoldsAll(es, ds) && es != []
    ensures es[0].hasStream
  {
  }

  lemma DescribedEmpty(c: Codecs, f: Entry, content: bytes)
    requires FileDescribes(c, f, content) && !f.hasStream
    ensures content == []
  {
  }

  /** The map leads to each file with data. */
  lemma TwinLeads(c: Codecs, st: State, es: seq<Entry>, ds: seq<bytes>, a: Archive, contents: seq<bytes>)
    requires |es| == |ds| && Inv(c, Twin(c, st, es, ds)) && SeenAs(AddSolid(c, st, es, ds), a)
    requires ReadAsTwin(c, st, es, ds, a, contents)
    ensures MapLeads(a)
  {
    hide Inv, AddSolid, Twin, FileDescribes, WalkTo, Counts, Firsts, Tabled, Complete, ContentsOf;
    var r, t := AddSolid(c, st, es, ds), Twin(c, st, es, ds);
    TwinTables(c, st, es, ds);
    forall i | 0 <= i < |a.files| && a.files[i].hasStream
      ensures a.streams.fileBlock[i].Some? && Leads(a, i, a.streams.fileBlock[i].value)
    {
      WalkLeads(c, t, i);
      NotSolid(a.blocks, a.streams.fileBlock[i].value);
    }
  }

  /** A full traversal meets each file once, with its content. */
  lemma TwinTraversal(c: Codecs, st: State, es: seq<Entry>, ds: seq<bytes>, a: Archive, contents: seq<bytes>)
    requires |es| == |ds| && Inv(c, Twin(c, st, es, ds)) && SeenAs(AddSolid(c, st, es, ds), a)
    requires ReadAsTwin(c, st, es, ds, a, contents) && InRange(a, |contents|)
    ensures |a.files| <= |a.streams.fileBlock| && AllRight(Traversal(a, contents), contents)
    ensures forall i :: 0 <= i < |a.files| ==> Met(Traversal(a, contents), i) == 1
  {
    hide Inv, AddSolid, Twin, FileDescribes, WalkTo, Counts, Firsts, Tabled, Complete, ContentsOf, Met, AllBlockVisits, EmptyVisits,
      CoveringBlocks;
    var r, t := AddSolid(c, st, es, ds), Twin(c, st, es, ds);
    var counts, has := Counts(t.records.blocks), HasStreams(t.records.files);
    TwinTables(c, st, es, ds);
    CompleteWalk(counts, AllIn(|counts|), has);
    InvSettled(c, t);
    VisitedOnceIffSettled(counts, AllIn(|counts|), has);
    forall i | 0 <= i < |a.files|
      ensures Met(Traversal(a, contents), i) == 1
    {
      MetAsMapped(a, contents, counts, WalkTo(counts, AllIn(|counts|), has, |has|).value, i);
    }
    forall i | 0 <= i < |contents| && a.streams.fileBlock[i].None?
      ensures contents[i] == []
    {
      MapAt(counts, AllIn(|counts|), has, i);
      DescribedEmpty(c, a.files[i], contents[i]);
    }
    BlockVisitsRight(a, contents, |a.blocks|);
    EmptyVisitsRight(a, contents, |a.files|);
  }

  lemma InvSettled(c: Codecs, st: State)
    requires Inv(c, st)
    ensures Settled(Counts(st.records.blocks), HasStreams(st.records.files))
  {
  }

  /** Metadata, sizes and CRCs. */
  lemma RecordsGivenBack(c: Codecs, st: State, es: seq<Entry>, ds: seq<bytes>, before: seq<Pushed>)
    requires Inv(c, st) && Mirrors(st, before) && OpFits(c, st, PushSolid(es, ds))
    ensures var files, pushed := F.AllRecovered(AddSolid(c, st, es, ds).records.files), before + Zip(es, ds);
            && |files| == |pushed|
            && (forall i :: 0 <= i < |pushed| ==> SameMetadata(files[i], pushed[i].entry))
            && forall i :: 0 <= i < |pushed| && files[i].hasStream ==>
              files[i].size == |pushed[i].data| && files[i].hasCrc && files[i].crc == c.crc(pushed[i].data)
  {
    hide Inv, BlockFits, AddSolid, Twin, F.Recovered, SameMetadata, FilesHold, Untouched;
    var r, t, pushed := AddSolid(c, st, es, ds), Twin(c, st, es, ds), before + Zip(es, ds);
    TwinHolds(c, st, es, ds, before);
    TwinTables(c, st, es, ds);
    InvFiles(c, t);
    forall i | 0 <= i < |pushed|
      ensures SameMetadata(F.Recovered(r.records.files[i]), pushed[i].entry)
      ensures r.records.files[i].hasStream ==>
        var f := F.Recovered(r.records.files[i]);
        f.size == |pushed[i].data| && f.hasCrc && f.crc == c.crc(pushed[i].data)
    {
      UntouchedTwin(c, st, es, ds, i);
      KeepsMetadata(r.records.files[i], pushed[i].entry);
      if r.records.files[i].hasStream {
        SizeAndCrc(c, t, i);
      }
    }
    forall i | 0 <= i < |pushed|
      ensures F.AllRecovered(r.records.files)[i].hasStream == r.records.files[i].hasStream
    {
      StreamFlag(r.records.files[i]);
    }
  }

  lemma UntouchedTwin(c: Codecs, st: State, es: seq<Entry>, ds: seq<bytes>, i: nat)
    requires |es| == |ds| && i < |st.records.files| + |es|
    ensures var r, t := AddSolid(c, st, es, ds), Twin(c, st, es, ds);
            && |r.records.files| == |t.records.files| == |st.records.files| + |es|
            && Untouched(t.records.files[i]) == Untouched(r.records.files[i])
  {
    hide Packed, Splice, SolidBlock;
    var r, t, n := AddSolid(c, st, es, ds), Twin(c, st, es, ds), |st.records.files|;
    if i >= n {
      assert r.records.files[i] == SolidEntries(c, es, ds)[i - n] && t.records.files[i] == SolidEntries(c, Flagged(es), ds)[i - n];
    }
  }

  lemma GivesBackIf(c: Codecs, st: State, es: seq<Entry>, ds: seq<bytes>, packer: Method, before: seq<Pushed>)
    requires c.Inverts() && Inv(c, st) && Mirrors(st, before) && OpFits(c, st, PushSolid(es, ds))
    requires var r := AddSolid(c, st, es, ds);
             CountsFit(r.records) && r.pos >= SIGNATURE_HEADER_SIZE && Finishable(c, r, packer)
    requires FrontHoldsAll(es, ds) && es != []
    ensures var r := AddSolid(c, st, es, ds);
            GivesBack(c, Finished(c, r, packer), before + Zip(es, ds), r.records.comment)
  {
    hide Inv, Stored, Covered, Mirrors, BlockFits, AddSolid, Twin, Finishable, Finished, ReadArchive, SeenAs, ReadAsTwin, Delivers,
      MapLeads, Traversal, Met, AllRight, SameMetadata, FrontHoldsAll, Datas, F.AllRecovered, CountsFit;
    var r, pushed := AddSolid(c, st, es, ds), before + Zip(es, ds);
    var data := Finished(c, r, packer);
    SeenAsMade(c, st, es, ds);
    SeenMap(c, r, packer);
    var a := ReadArchive(c, data).value;
    TwinHolds(c, st, es, ds, before);
    ReadsAsTwin(c, st, es, ds, before, a);
    BlocksDeliver(c, st, es, ds, packer, before, a, Datas(pushed));
    DeliversInRange(c, data, a, Datas(pushed));
    TwinLeads(c, st, es, ds, a, Datas(pushed));
    TwinTraversal(c, st, es, ds, a, Datas(pushed));
    RecordsGivenBack(c, st, es, ds, before);
    SeenComment(r, a);
  }

  lemma SeenComment(st: State, a: Archive)
    requires SeenAs(st, a)
    ensures a.comment == st.records.comment
  {
  }

  lemma EmptySolidGivesBack(c: Codecs, st: State, packer: Method, before: seq<Pushed>)
    requires c.Inverts() && Inv(c, st) && Mirrors(st, before) && OpFits(c, st, PushSolid([], []))
    requires var r := AddSolid(c, st, [], []);
             CountsFit(r.records) && r.pos >= SIGNATURE_HEADER_SIZE && Finishable(c, r, packer)
    ensures var r := AddSolid(c, st, [], []);
            GivesBack(c, Finished(c, r, packer), before + Zip([], []), r.records.comment)
  {
    hide Inv, Mirrors, BlockFits, AddSolid, Finishable, Finished, GivesBack, ReadsBack, CountsFit;
    TwinHolds(c, st, [], [], before);
    AllFlagged([]);
    FinishedReadsBack(c, AddSolid(c, st, [], []), packer);
    MirroredReadsBack(c, AddSolid(c, st, [], []), Finished(c, AddSolid(c, st, [], []), packer), before + Zip([], []));
  }

  /** An archive finished right after a solid push gives back what was pushed if and only if
      there are no entries, or the first one is flagged as having data and there is nothing to
      store from the first one on that is not. */
  lemma SolidReadsBackIff(c: Codecs, st: State, es: seq<Entry>, ds: seq<bytes>, packer: Method, before: seq<Pushed>)
    requires c.Inverts() && Inv(c, st) && Mirrors(st, before) && OpFits(c, st, PushSolid(es, ds))
    requires var r := Apply(c, st, PushSolid(es, ds));
             CountsFit(r.records) && r.pos >= SIGNATURE_HEADER_SIZE && Finishable(c, r, packer)
    ensures var r := Apply(c, st, PushSolid(es, ds));
            GivesBack(c, Finished(c, r, packer), before + Zip(es, ds), r.records.comment) <==> FrontHoldsAll(es, ds)
  {
    hide Inv, BlockFits, AddSolid, Finishable, Finished, GivesBack, FrontHoldsAll, CountsFit;
    if FrontHoldsAll(es, ds) {
      if es == [] {
        EmptySolidGivesBack(c, st, packer, before);
      } else {
        GivesBackIf(c, st, es, ds, packer, before);
      }
    }
    if GivesBack(c, Finished(c, AddSolid(c, st, es, ds), packer), before + Zip(es, ds), AddSolid(c, st, es, ds).records.comment) {
      MirroredContents(st, before);
      GivesBackOnlyIf(c, st, es, ds, packer, before);
    }
  }

  /** The same from the start: a run whose calls meet their conditions, and one more solid push. */
  lemma RunThenSolidIff(c: Codecs, methods: Methods, ops: seq<Op>, es: seq<Entry>, ds: seq<bytes>, packer: Method)
    requires c.Inverts() && RunFits(c, Fresh(methods), ops)
    ensures AllMatched(ops)
    ensures var st := Run(c, Fresh(methods), ops);
            OpFits(c, st, PushSolid(es, ds)) ==>
              var r := Apply(c, st, PushSolid(es, ds));
              && CountsFit(r.records) && r.pos >= SIGNATURE_HEADER_SIZE
              && (Finishable(c, r, packer) ==>
                    (GivesBack(c, Finished(c, r, packer), PushedIn(ops) + Zip(es, ds), CommentAfter(ops, None))
                     <==> FrontHoldsAll(es, ds)))
  {
    hide Inv, Stored, Covered, BlockFits, RunFits, Run, AddSolid, Finishable, Finished, GivesBack, FrontHoldsAll, Mirrors, PushedIn, CommentAfter,
      CountsFit, Fresh, Counts;
    FreshHolds(c, methods);
    NothingPushed(methods);
    RunKeeps(c, Fresh(methods), ops);
    RunMirrors(c, Fresh(methods), ops, []);
    CommentOfRun(c, Fresh(methods), ops);
    NoComment(methods);
    assert [] + PushedIn(ops) == PushedIn(ops);
    var st := Run(c, Fresh(methods), ops);
    if OpFits(c, st, PushSolid(es, ds)) {
      var r := Apply(c, st, PushSolid(es, ds));
      AfterPush(c, st, es, ds);
      StoredCounts(c, r);
      CommentOfStep(c, st, PushSolid(es, ds));
      if Finishable(c, r, packer) {
        SolidReadsBackIff(c, st, es, ds, packer, PushedIn(ops));
      }
    }
  }

  lemma NoComment(methods: Methods)
    ensures Fresh(methods).records.comment == None
  {
  }

  // ----- inputs on which it fails, and one on which it does not

  const LETTER := NO_ENTRY.(name := [97])

  lemma OneBlockInRange(st: State, a: Archive, n: nat)
    requires SeenAs(st, a) && Counts(st.records.blocks) == [n]
    requires Firsts([n], AllIn(1), HasStreams(st.records.files)) == [0]
    ensures InRange(a, n) && |a.blocks| == 1
  {
    hide WalkTo, Firsts, Counts, Tabled;
  }

  /** The archive after one unflagged entry in a new writer, as it is read. */
  lemma OneUnflaggedSeen(c: Codecs, methods: Methods, x: bytes, a: Archive)
    requires OpFits(c, Fresh(methods), PushSolid([LETTER], [x]))
    requires SeenAs(AddSolid(c, Fresh(methods), [LETTER], [x]), a)
    ensures |a.files| == 1 && InRange(a, 1) && |a.streams.fileBlock| == 1 && Met(Traversal(a, [x]), 0) == 2
  {
    hide Inv, Stored, Covered, BlockFits, AddSolid, Fresh, Tabled, WalkTo, Traversal, Met, CoveringBlocks;
    var r := AddSolid(c, Fresh(methods), [LETTER], [x]);
    FreshHolds(c, methods);
    FreshRecords(methods);
    AfterPush(c, Fresh(methods), [LETTER], [x]);
    var counts, has := Counts(r.records.blocks), HasStreams(r.records.files);
    assert counts == [1] && has == [false];
    OneUnflagged(counts, has);
    OneBlockInRange(r, a, 1);
    TraversalOf(r, a, [x], 0);
  }

  /** One entry not flagged, pushed into a new writer: a traversal meets the file twice. */
  lemma UnflaggedMetTwice(c: Codecs, methods: Methods, x: bytes, packer: Method)
    requires c.Inverts() && OpFits(c, Fresh(methods), PushSolid([LETTER], [x]))
    requires var r := Apply(c, Fresh(methods), PushSolid([LETTER], [x]));
             CountsFit(r.records) && r.pos >= SIGNATURE_HEADER_SIZE && Finishable(c, r, packer)
    ensures var data := Finished(c, Apply(c, Fresh(methods), PushSolid([LETTER], [x])), packer);
            && ReadArchive(c, data).Ok?
            && var a := ReadArchive(c, data).value;
            && |a.files| == 1 && InRange(a, 1) && |a.streams.fileBlock| == 1
            && Met(Traversal(a, [x]), 0) == 2
            && !GivesBack(c, data, [Pushed(LETTER, x)], None)
  {
    hide Inv, Stored, Covered, BlockFits, AddSolid, Finishable, Finished, ReadArchive, Fresh, CountsFit, GivesBack, Seen, SeenAs,
      F.AllRecovered, Met, Traversal, Mirrors, Counts;
    var st := Fresh(methods);
    var r := Apply(c, st, PushSolid([LETTER], [x]));
    FreshHolds(c, methods);
    NothingPushed(methods);
    AfterPush(c, st, [LETTER], [x]);
    SeenMap(c, r, packer);
    OneUnflaggedSeen(c, methods, x, ReadArchive(c, Finished(c, r, packer)).value);
    SolidReadsBackIff(c, st, [LETTER], [x], packer, []);
    assert [] + Zip([LETTER], [x]) == [Pushed(LETTER, x)];
    NoComment(methods);
    CommentOfStep(c, st, PushSolid([LETTER], [x]));
  }

  lemma FreshRecords(methods: Methods)
    ensures var r := Fresh(methods).records;
            r.comment == None && r.files == [] && r.blocks == [] && HasStreams(r.files) == [] && Counts(r.blocks) == []
  {
  }

  lemma OneUnflagged(counts: seq<nat>, has: seq<bool>)
    requires counts == [1] && has == [false]
    ensures WalkTo(counts, AllIn(1), has, 1).Ok? && Firsts(counts, AllIn(1), has) == [0]
    ensures StreamMaps.Visits(counts, WalkTo(counts, AllIn(1), has, 1).value, 0) == 2
  {
    assert WalkTo(counts, AllIn(1), has, 0) == Ok(Start(1));
    var w := WalkTo(counts, AllIn(1), has, 1).value;
    assert w.map0 == [] + [None] && w.first == seq(1, i => 0);
    assert Covers(counts, w.first, 0, 0);
    CoveredByOnly(counts, w.first, 1, 0, 0);
  }

  /** The flagged entries need not be a front of the list: a flagged one with nothing to store
      may follow an unflagged one. */
  lemma FlaggedBehindUnflagged(e: Entry, x: bytes)
    ensures var on, off := e.(hasStream := true), e.(hasStream := false);
            FrontHoldsAll([on, off, on], [x, [], []]) && !FrontHoldsAll([off], [[]]) && !FrontHoldsAll([on, off, on], [x, [], [1]])
  {
    var on, off := e.(hasStream := true), e.(hasStream := false);
    assert ![on, off, on][1].hasStream && [x, [], [1]][2] == [1];
    assert ![off][0].hasStream;
  }
}
