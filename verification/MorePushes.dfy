/** What comes after a solid push of which only a front is flagged as having data: as soon as one
    more file is pushed, the archive does not give everything back. */
module MorePushes {
  import opened Wire
  import opened Repeats
  import opened Blocks
  import opened UnpackInfos
  import opened SubStreams
  import opened FilesInfos
  import opened StreamMaps
  import opened Stretches
  import opened Headers
  import opened Codecs
  import opened Writers
  import opened Finishing
  import opened Archives
  import opened ArchiveReaders
  import opened EndToEnd
  import opened PushAndRead
  import opened Reopenings
  import opened PartialSolids
  import F = FilesRoundTrip

  // ----- in the stream map

  /** The block's room is not used up by the files pushed for it. */
  predicate Unfilled(counts: seq<nat>, packs: seq<bool>, has: seq<bool>, n: nat, b: nat) {
    && |counts| == |packs| && b < |counts| && packs[b] && counts[b] > 0
    && n + counts[b] < |has| && has[n]
    && Streams(has, n) == Before(counts, b)
    && Streams(has, n + counts[b]) - Streams(has, n) < counts[b]
    && WalkTo(counts, packs, has, |has|).Ok?
  }

  /** The next file is put into the block as well. */
  lemma NextIsMapped(counts: seq<nat>, packs: seq<bool>, has: seq<bool>, n: nat, b: nat)
    requires Unfilled(counts, packs, has, n, b)
    ensures WalkTo(counts, packs, has, |has|).value.map0[n + counts[b]] == Some(b)
  {
    hide WalkTo, Before, Streams, NextBlock;
    var k := n + counts[b];
    WalkPrefix(counts, packs, has, n, |has|);
    WalkPrefix(counts, packs, has, k + 1, |has|);
    Stretch(counts, packs, has, n, b, counts[b]);
    WalkStep(counts, packs, has, k);
    var w := WalkTo(counts, packs, has, k).value;
    assert WalkTo(counts, packs, has, k + 1).value.map0[k] == Some(b);
    assert WalkTo(counts, packs, has, |has|).value.map0[..k + 1][k] == Some(b);
  }

  /** The ranges of the blocks in front end where the files in front do. */
  predicate FrontEnds(counts: seq<nat>, first: seq<nat>, n: nat, b: nat) {
    b <= |counts| == |first| && forall a :: 0 <= a < b && counts[a] > 0 ==> first[a] + counts[a] <= n
  }

  /** And the ranges of the blocks behind start behind it, if files come to them. */
  lemma NextNotCovered(counts: seq<nat>, packs: seq<bool>, has: seq<bool>, n: nat, b: nat, a: nat)
    requires Unfilled(counts, packs, has, n, b) && FrontEnds(counts, Firsts(counts, packs, has), n, b) && a < |counts|
    requires counts[a] > 0 ==> Before(counts, a) < Streams(has, |has|)
    ensures !Covers(counts, Firsts(counts, packs, has), a, n + counts[b])
  {
    hide WalkTo, Before, Streams;
    var k := n + counts[b];
    if counts[a] > 0 && a >= b {
      FirstAt(counts, packs, has, |has|, a);
      var i := Firsts(counts, packs, has)[a];
      if a == b {
        SameFile(has, i, n);
      } else {
        BlockEnds(counts, b, a);
        CountUpTo(has, i, k);
      }
    }
  }

  /** Files come to all blocks with room. */
  predicate AllReached(counts: seq<nat>, has: seq<bool>) {
    forall a :: 0 <= a < |counts| && counts[a] > 0 ==> Before(counts, a) < Streams(has, |has|)
  }

  /** A traversal does not meet the next file, or it meets the first one twice. */
  lemma NextNeverMet(counts: seq<nat>, packs: seq<bool>, has: seq<bool>, n: nat, b: nat)
    requires Unfilled(counts, packs, has, n, b) && FrontEnds(counts, Firsts(counts, packs, has), n, b)
    ensures var w := WalkTo(counts, packs, has, |has|).value;
            StreamMaps.Visits(counts, w, n + counts[b]) == 0 || StreamMaps.Visits(counts, w, 0) >= 2
  {
    hide WalkTo, Before, Streams, FrontEnds, CoveringBlocks;
    var w := WalkTo(counts, packs, has, |has|).value;
    if !AllReached(counts, has) {
      var a :| 0 <= a < |counts| && counts[a] > 0 && Before(counts, a) >= Streams(has, |has|);
      FirstMetTwice(counts, packs, has, a);
    } else {
      var next := n + counts[b];
      forall a | 0 <= a < |counts|
        ensures !Covers(counts, w.first, a, next)
      {
        NextNotCovered(counts, packs, has, n, b, a);
      }
      NextIsMapped(counts, packs, has, n, b);
      CoveredByNone(counts, w.first, |counts|, next);
    }
  }

  // In front, blocks and files are those of a state that keeps the invariant.

  lemma FrontSums(counts0: seq<nat>, has0: seq<bool>, more: seq<nat>, rest: seq<bool>)
    requires Complete(counts0, AllIn(|counts0|), has0)
    ensures Streams(has0 + rest, |has0|) == Before(counts0 + more, |counts0|)
  {
    hide WalkTo, Before, Streams;
    BeforeOfPrefix(counts0, more, |counts0|);
    StreamsOnPrefix(has0, rest, |has0|);
  }

  lemma SameFirst(counts0: seq<nat>, has0: seq<bool>, more: seq<nat>, rest: seq<bool>, a: nat)
    requires a < |counts0| && counts0[a] > 0 && Complete(counts0, AllIn(|counts0|), has0)
    requires WalkTo(counts0 + more, AllIn(|counts0 + more|), has0 + rest, |has0 + rest|).Ok?
    ensures Firsts(counts0 + more, AllIn(|counts0 + more|), has0 + rest)[a] == Firsts(counts0, AllIn(|counts0|), has0)[a]
  {
    hide WalkTo, Before, Streams;
    var counts, has := counts0 + more, has0 + rest;
    BeforeOfPrefix(counts0, more, a);
    FirstOf(counts0, AllIn(|counts0|), has0, a);
    var i := Firsts(counts0, AllIn(|counts0|), has0)[a];
    StreamsOnPrefix(has0, rest, i);
    assert has[i] == has0[i];
    CountPasses(has, i, |has|);
    FirstAt(counts, AllIn(|counts|), has, |has|, a);
    SameFile(has, i, Firsts(counts, AllIn(|counts|), has)[a]);
  }

  lemma FrontBlockEnds(counts0: seq<nat>, has0: seq<bool>, more: seq<nat>, rest: seq<bool>, a: nat)
    requires a < |counts0| && counts0[a] > 0
    requires Complete(counts0, AllIn(|counts0|), has0) && Settled(counts0, has0)
    requires WalkTo(counts0 + more, AllIn(|counts0 + more|), has0 + rest, |has0 + rest|).Ok?
    ensures Firsts(counts0 + more, AllIn(|counts0 + more|), has0 + rest)[a] + counts0[a] <= |has0|
  {
    hide WalkTo, Before, Streams, Settled, Firsts, Complete;
    SameFirst(counts0, has0, more, rest, a);
    RangeIsBlock(counts0, AllIn(|counts0|), has0, a, counts0[a] - 1);
  }

  lemma FrontOfRun(counts0: seq<nat>, has0: seq<bool>, more: seq<nat>, rest: seq<bool>)
    requires Complete(counts0, AllIn(|counts0|), has0) && Settled(counts0, has0)
    requires WalkTo(counts0 + more, AllIn(|counts0 + more|), has0 + rest, |has0 + rest|).Ok?
    ensures FrontEnds(counts0 + more, Firsts(counts0 + more, AllIn(|counts0 + more|), has0 + rest), |has0|, |counts0|)
  {
    hide WalkTo, Settled, Firsts, Complete, Before, Streams;
    var first := Firsts(counts0 + more, AllIn(|counts0 + more|), has0 + rest);
    forall a | 0 <= a < |counts0| && (counts0 + more)[a] > 0
      ensures first[a] + (counts0 + more)[a] <= |has0|
    {
      assert (counts0 + more)[a] == counts0[a];
      FrontBlockEnds(counts0, has0, more, rest, a);
    }
  }

  // ----- in runs

  /** What a run adds to the records. */
  predicate Extends(st: State, st': State, files: nat) {
    && st.records.files <= st'.records.files && |st'.records.files| == |st.records.files| + files
    && st.records.blocks <= st'.records.blocks
  }

  lemma StepExtends(c: Codecs, st: State, op: Op)
    requires Matched(op)
    ensures Extends(st, Apply(c, st, op), |PushedBy(op)|)
  {
    hide Splice, Packed, SingleBlock, SolidBlock, Streamed;
  }

  lemma {:induction false} RunExtends(c: Codecs, st: State, ops: seq<Op>)
    requires AllMatched(ops)
    ensures Extends(st, Run(c, st, ops), |PushedIn(ops)|)
    decreases |ops|
  {
    hide Apply, PushedBy, Matched;
    if ops != [] {
      assert ops[0] in ops;
      StepExtends(c, st, ops[0]);
      RunExtends(c, Apply(c, st, ops[0]), ops[1..]);
    }
  }

  /** The first entry is flagged, and another one is not. */
  predicate PartlyFlagged(es: seq<Entry>) {
    es != [] && es[0].hasStream && exists e :: e in es && !e.hasStream
  }

  lemma FewerThanAll(flags: seq<bool>, j: nat)
    requires j < |flags| && !flags[j]
    ensures Streams(flags, |flags|) < |flags|
  {
    StreamsMonotone(flags, 0, |flags|);
  }

  lemma StreamsBetween(has0: seq<bool>, flags: seq<bool>, rest: seq<bool>)
    ensures Streams(has0 + (flags + rest), |has0|) == Streams(has0, |has0|)
    ensures Streams(has0 + (flags + rest), |has0| + |flags|) == Streams(has0, |has0|) + Streams(flags, |flags|)
  {
    hide Streams;
    StreamsOnPrefix(has0, flags + rest, |has0|);
    StreamsAdd(has0, flags + rest, |flags|);
    StreamsOnPrefix(flags, rest, |flags|);
  }

  lemma SomeUnflagged(es: seq<Entry>)
    requires PartlyFlagged(es)
    ensures |HasStreams(es)| == |es| > 0 && HasStreams(es)[0] && Streams(HasStreams(es), |es|) < |es|
  {
    var e :| e in es && !e.hasStream;
    var j :| 0 <= j < |es| && es[j] == e;
    FewerThanAll(HasStreams(es), j);
  }

  /** The block of a partly flagged push is left with room, whatever comes after. */
  lemma LeftUnfilled(c: Codecs, st: State, es: seq<Entry>, more: seq<nat>, rest: seq<bool>)
    requires Inv(c, st) && PartlyFlagged(es) && rest != []
    requires var counts, has := Counts(st.records.blocks) + ([|es|] + more), HasStreams(st.records.files) + (HasStreams(es) + rest);
             WalkTo(counts, AllIn(|counts|), has, |has|).Ok?
    ensures var counts, has := Counts(st.records.blocks) + ([|es|] + more), HasStreams(st.records.files) + (HasStreams(es) + rest);
            var n, b := |st.records.files|, |st.records.blocks|;
            && Unfilled(counts, AllIn(|counts|), has, n, b) && counts[b] == |es|
            && FrontEnds(counts, Firsts(counts, AllIn(|counts|), has), n, b)
  {
    hide Inv, WalkTo, Before, Streams, Settled, Counts, Complete, Firsts, FrontEnds, PartlyFlagged;
    var counts0, has0, flags := Counts(st.records.blocks), HasStreams(st.records.files), HasStreams(es);
    InvComplete(c, st);
    InvSettled(c, st);
    SomeUnflagged(es);
    FrontOfRun(counts0, has0, [|es|] + more, flags + rest);
    FrontSums(counts0, has0, [|es|] + more, flags + rest);
    StreamsBetween(has0, flags, rest);
  }

  /** What the run adds behind the push, in the columns. */
  lemma AfterMore(c: Codecs, st: State, es: seq<Entry>, ds: seq<bytes>, st2: State, k: nat) returns (more: seq<nat>, rest: seq<bool>)
    requires Inv(c, st) && OpFits(c, st, PushSolid(es, ds)) && Extends(AddSolid(c, st, es, ds), st2, k)
    ensures Counts(st2.records.blocks) == Counts(st.records.blocks) + ([|es|] + more)
    ensures HasStreams(st2.records.files) == HasStreams(st.records.files) + (HasStreams(es) + rest) && |rest| == k
  {
    hide Inv, BlockFits, AddSolid, Stored, Covered, Flatten, Counts;
    AfterPush(c, st, es, ds);
    var st1 := AddSolid(c, st, es, ds);
    var blocks, files := st2.records.blocks[|st1.records.blocks|..], st2.records.files[|st1.records.files|..];
    assert st2.records.blocks == st1.records.blocks + blocks && st2.records.files == st1.records.files + files;
    more, rest := Counts(blocks), HasStreams(files);
    CountsConcat(st1.records.blocks, blocks);
    FlagsConcat(st1.records.files, files);
    Cat(Counts(st.records.blocks), [|es|], more);
    Cat(HasStreams(st.records.files), HasStreams(es), rest);
  }

  lemma CountsConcat(a: seq<BlockInfo>, b: seq<BlockInfo>)
    ensures Counts(a + b) == Counts(a) + Counts(b)
  {
  }

  lemma FlagsConcat(a: seq<Entry>, b: seq<Entry>)
    ensures HasStreams(a + b) == HasStreams(a) + HasStreams(b)
  {
  }

  /** Once more files are recorded behind a partly flagged push, the archive does not give back
      any list of files. */
  lemma MoreFilesFail(c: Codecs, st: State, es: seq<Entry>, ds: seq<bytes>, st2: State, k: nat, packer: Method,
                      pushed: seq<Pushed>, comment: Option<Comment>)
    requires c.Inverts() && Inv(c, st) && OpFits(c, st, PushSolid(es, ds)) && PartlyFlagged(es)
    requires Extends(AddSolid(c, st, es, ds), st2, k) && k > 0
    requires Stored(c, st2) && CountsFit(st2.records) && st2.pos >= SIGNATURE_HEADER_SIZE && Finishable(c, st2, packer)
    ensures !GivesBack(c, Finished(c, st2, packer), pushed, comment)
  {
    hide Inv, Stored, Covered, BlockFits, AddSolid, Finishable, Finished, ReadArchive, GivesBack, Tabled, WalkTo, Counts, CountsFit, Extends,
      Unfilled, FrontEnds, Met, Traversal, CoveringBlocks, ArchiveReaders.InRange, Seen, F.AllRecovered;
    if !Covered(st2) {
      FailsUncovered(c, st2, packer);
      GivesBackOpens(c, Finished(c, st2, packer), pushed, comment);
    } else if GivesBack(c, Finished(c, st2, packer), pushed, comment) {
      GivenBackParts(c, Finished(c, st2, packer), pushed, comment);
      SeenMap(c, st2, packer);
      var more, rest := AfterMore(c, st, es, ds, st2, k);
      var a, contents := ReadArchive(c, Finished(c, st2, packer)).value, Datas(pushed);
      var counts, has := Counts(st2.records.blocks), HasStreams(st2.records.files);
      LeftUnfilled(c, st, es, more, rest);
      NextNeverMet(counts, AllIn(|counts|), has, |st.records.files|, |st.records.blocks|);
      TraversalOf(st2, a, contents, |st.records.files| + |es|);
      TraversalOf(st2, a, contents, 0);
      assert false;
    }
  }

  /** A run whose calls meet their conditions, a solid push of which a front is flagged and some
      entry is not, and a run that adds at least one more file, however flagged: the archive does
      not give back what was pushed. */
  lemma PartialThenMoreFails(c: Codecs, methods: Methods, ops: seq<Op>, es: seq<Entry>, ds: seq<bytes>, more: seq<Op>, packer: Method)
    requires c.Inverts() && RunFits(c, Fresh(methods), ops) && PartlyFlagged(es) && |es| == |ds|
    requires AllMatched(ops)
    requires var st := Run(c, Fresh(methods), ops);
             OpFits(c, st, PushSolid(es, ds)) && RunSized(c, Apply(c, st, PushSolid(es, ds)), more)
    ensures AllMatched(more)
    ensures var st2 := Run(c, Apply(c, Run(c, Fresh(methods), ops), PushSolid(es, ds)), more);
            && CountsFit(st2.records) && st2.pos >= SIGNATURE_HEADER_SIZE
            && (PushedIn(more) != [] && Finishable(c, st2, packer) ==>
                  forall comment :: !GivesBack(c, Finished(c, st2, packer), PushedIn(ops) + Zip(es, ds) + PushedIn(more), comment))
  {
    hide Inv, Stored, Covered, BlockFits, RunFits, RunSized, Run, AddSolid, Finishable, Finished, GivesBack, PushedIn, CountsFit, Fresh,
      Extends, PartlyFlagged, Owed, TotalSurplus, Counts;
    FreshHolds(c, methods);
    RunKeeps(c, Fresh(methods), ops);
    var st := Run(c, Fresh(methods), ops);
    var st1 := Apply(c, st, PushSolid(es, ds));
    AfterPush(c, st, es, ds);
    RunStored(c, st1, more);
    RunExtends(c, st1, more);
    var st2 := Run(c, st1, more);
    StoredCounts(c, st2);
    if PushedIn(more) != [] && Finishable(c, st2, packer) {
      forall comment
        ensures !GivesBack(c, Finished(c, st2, packer), PushedIn(ops) + Zip(es, ds) + PushedIn(more), comment)
      {
        MoreFilesFail(c, st, es, ds, st2, |PushedIn(more)|, packer, PushedIn(ops) + Zip(es, ds) + PushedIn(more), comment);
      }
    }
  }
}
