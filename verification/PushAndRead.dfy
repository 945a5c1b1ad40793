/** The promise of the library in one place: after any run of pushes and a finish, the files
    read back are the files pushed, in order, with the bytes pushed for each. */
module PushAndRead {
  import opened Wire
  import opened Repeats
  import opened Blocks
  import opened FilesInfos
  import opened StreamMaps
  import opened SubStreams
  import opened Headers
  import opened Codecs
  import opened Writers
  import opened Finishing
  import opened Archives
  import opened ArchiveReaders
  import opened EndToEnd
  import F = FilesRoundTrip
  import H = HeaderRoundTrip

  /** A file the caller asked to be stored: its entry and its bytes. */
  datatype Pushed = Pushed(entry: Entry, data: bytes)

  function Zip(es: seq<Entry>, ds: seq<bytes>): (r: seq<Pushed>)
    requires |es| == |ds|
    ensures |r| == |es|
  {
    seq(|es|, i requires 0 <= i < |es| => Pushed(es[i], ds[i]))
  }

  /** What one call asks for. A directory has no bytes, whatever is passed with it. */
  function PushedBy(op: Op): seq<Pushed>
    requires Matched(op)
  {
    match op
    case PushEntry(e, data) => [Pushed(e, if e.isDirectory || data.None? then [] else data.value)]
    case PushBytes(e, data) => [Pushed(e, if e.isDirectory then [] else data)]
    case PushSolid(es, ds) => Zip(es, ds)
    case PushParallel(es, ds) => Zip(es, ds)
    case _ => []
  }

  function PushedIn(ops: seq<Op>): seq<Pushed>
    requires AllMatched(ops)
    decreases |ops|
  {
    if ops == [] then [] else PushedBy(ops[0]) + PushedIn(ops[1..])
  }

  /** The comment in force after a run. */
  function CommentAfter(ops: seq<Op>, before: Option<Comment>): Option<Comment>
    decreases |ops|
  {
    if ops == [] then before
    else
      CommentAfter(ops[1..], match ops[0] case SetComment(text) => Some(text) case ClearComment => None case _ => before)
  }

  lemma {:induction false} CommentOfRun(c: Codecs, st: State, ops: seq<Op>)
    requires AllMatched(ops)
    ensures Run(c, st, ops).records.comment == CommentAfter(ops, st.records.comment)
    decreases |ops|
  {
    hide AddBlock, AddSolid;
    if ops != [] {
      assert Matched(ops[0]);
      CommentOfStep(c, st, ops[0]);
      CommentOfRun(c, Apply(c, st, ops[0]), ops[1..]);
    }
  }

  lemma CommentOfStep(c: Codecs, st: State, op: Op)
    requires Matched(op)
    ensures Apply(c, st, op).records.comment
         == match op case SetComment(text) => Some(text) case ClearComment => None case _ => st.records.comment
  {
  }

  /** A call can change these four fields of an entry, and no other. */
  function Untouched(e: Entry): Entry {
    e.(hasStream := false, size := 0, crc := 0, hasCrc := false)
  }

  /** The records are of these files, in this order, with these contents. */
  predicate Mirrors(st: State, pushed: seq<Pushed>) {
    && |st.records.files| == |pushed|
    && forall i :: 0 <= i < |pushed| ==>
      Untouched(st.records.files[i]) == Untouched(pushed[i].entry) && ContentOf(st, i) == pushed[i].data
  }

  /** With all its contents in place, the content of a file does not depend on later pushes. */
  lemma ContentStays(c: Codecs, st: State, st': State, i: nat, more: seq<Entry>, ds: seq<bytes>)
    requires FilesHold(c, st.records.files, st.datas) && i < |st.records.files|
    requires st'.records.files == st.records.files + more && Flatten(st'.datas) == Flatten(st.datas) + ds
    ensures ContentOf(st', i) == ContentOf(st, i)
  {
    hide FilesHold;
    RecordOf(c, st, i);
    assert HasStreams(st'.records.files) == HasStreams(st.records.files) + HasStreams(more);
    StreamsOfPrefix(HasStreams(st.records.files), HasStreams(more), i);
  }

  lemma AllStreamed(c: Codecs, st: State)
    requires FilesHold(c, st.records.files, st.datas)
    ensures Streams(HasStreams(st.records.files), |st.records.files|) == |Flatten(st.datas)|
  {
    var files := st.records.files;
    H.StreamsOfFiles(files, |files|);
    assert files[..|files|] == files;
    assert |F.StreamSizes(files)| == |F.WithStreams(files)|;
  }

  lemma {:induction false} StreamsOfAll(has: seq<bool>, n: nat, j: nat)
    requires n + j <= |has| && forall i :: n <= i < n + j ==> has[i]
    ensures Streams(has, n + j) == Streams(has, n) + j
  {
    if j > 0 {
      StreamsOfAll(has, n, j - 1);
    }
  }

  /** The content of a file just pushed. */
  lemma ContentNew(c: Codecs, st: State, st': State, j: nat, more: seq<Entry>, ds: seq<bytes>)
    requires FilesHold(c, st.records.files, st.datas) && j < |more|
    requires st'.records.files == st.records.files + more && Flatten(st'.datas) == Flatten(st.datas) + ds
    requires !more[j].hasStream || (|more| == |ds| && forall k :: 0 <= k < |more| ==> more[k].hasStream)
    ensures ContentOf(st', |st.records.files| + j) == if more[j].hasStream then ds[j] else []
  {
    hide FilesHold;
    var n, has := |st.records.files|, HasStreams(st.records.files);
    if more[j].hasStream {
      AllStreamed(c, st);
      assert HasStreams(st'.records.files) == has + HasStreams(more);
      StreamsOfPrefix(has, HasStreams(more), n);
      StreamsOfAll(has + HasStreams(more), n, j);
    }
  }

  lemma Grows(c: Codecs, st: State, st': State, more: seq<Entry>, ds: seq<bytes>, before: seq<Pushed>, added: seq<Pushed>)
    requires FilesHold(c, st.records.files, st.datas) && Mirrors(st, before)
    requires st'.records.files == st.records.files + more && Flatten(st'.datas) == Flatten(st.datas) + ds
    requires |added| == |more| && forall j :: 0 <= j < |more| ==> Untouched(more[j]) == Untouched(added[j].entry)
    requires || (ds == [] && forall j :: 0 <= j < |more| ==> !more[j].hasStream && added[j].data == [])
             || (|more| == |ds| && forall j :: 0 <= j < |more| ==> more[j].hasStream && added[j].data == ds[j])
    ensures Mirrors(st', before + added)
  {
    hide FilesHold, ContentOf, Untouched, Flatten;
    var all := before + added;
    forall i | 0 <= i < |all|
      ensures Untouched(st'.records.files[i]) == Untouched(all[i].entry) && ContentOf(st', i) == all[i].data
    {
      if i < |before| {
        assert all[i] == before[i] && st'.records.files[i] == st.records.files[i];
        ContentStays(c, st, st', i, more, ds);
      } else {
        var j := i - |before|;
        assert all[i] == added[j] && st'.records.files[i] == more[j];
        ContentNew(c, st, st', j, more, ds);
      }
    }
  }

  /** One call adds exactly what it was asked to. */
  lemma StepMirrors(c: Codecs, st: State, op: Op, before: seq<Pushed>)
    requires FilesHold(c, st.records.files, st.datas) && OpFits(c, st, op) && Proper(op) && Mirrors(st, before)
    ensures Mirrors(Apply(c, st, op), before + PushedBy(op))
  {
    hide FilesHold, Mirrors, BlockFits, AddBlock, AddSolid, WithFile, SingleBlock, Streamed;
    match op
    case PushEntry(e, data) =>
      if !e.isDirectory && data.Some? {
        StreamedGrows(c, st, e, data.value, before);
      } else {
        StreamlessGrows(c, st, e, before);
      }
    case PushBytes(e, data) =>
      if e.isDirectory {
        StreamlessGrows(c, st, e, before);
      } else {
        StreamedGrows(c, st, e, data, before);
      }
    case PushSolid(es, ds) => SolidGrows(c, st, es, ds, Zip(es, ds), before);
    case PushParallel(es, ds) =>
      if es == [] {
        assert Zip(es, ds) == [];
        NothingAdded(st, st, before);
      } else {
        SolidGrows(c, st, Flagged(es), ds, Zip(es, ds), before);
      }
    case SetMethods(_) => NothingAdded(st, Apply(c, st, op), before);
    case SetEncryptHeader(_) => NothingAdded(st, Apply(c, st, op), before);
    case SetComment(_) => NothingAdded(st, Apply(c, st, op), before);
    case ClearComment => NothingAdded(st, Apply(c, st, op), before);
  }

  lemma StreamedGrows(c: Codecs, st: State, e: Entry, x: bytes, before: seq<Pushed>)
    requires FilesHold(c, st.records.files, st.datas) && Mirrors(st, before)
    ensures Mirrors(AddBlock(c, st, SingleBlock(c, st.methods, x), x, [Streamed(c, e, x)], [x]), before + [Pushed(e, x)])
  {
    hide FilesHold, Mirrors, Splice, Packed, SingleBlock, Flatten;
    AddedOne(st.datas, x);
    Grows(c, st, AddBlock(c, st, SingleBlock(c, st.methods, x), x, [Streamed(c, e, x)], [x]), [Streamed(c, e, x)], [x],
          before, [Pushed(e, x)]);
  }

  lemma StreamlessGrows(c: Codecs, st: State, e: Entry, before: seq<Pushed>)
    requires FilesHold(c, st.records.files, st.datas) && Mirrors(st, before)
    ensures Mirrors(WithFile(st, e.(hasStream := false, size := 0, hasCrc := false)), before + [Pushed(e, [])])
  {
    hide FilesHold, Mirrors, Flatten;
    var plain := e.(hasStream := false, size := 0, hasCrc := false);
    assert Flatten(st.datas) == Flatten(st.datas) + [];
    Grows(c, st, WithFile(st, plain), [plain], [], before, [Pushed(e, [])]);
  }

  lemma SolidGrows(c: Codecs, st: State, es: seq<Entry>, ds: seq<bytes>, added: seq<Pushed>, before: seq<Pushed>)
    requires FilesHold(c, st.records.files, st.datas) && Mirrors(st, before)
    requires |es| == |ds| == |added| && forall e :: e in es ==> e.hasStream
    requires forall i :: 0 <= i < |es| ==> added[i].data == ds[i] && Untouched(added[i].entry) == Untouched(es[i])
    ensures Mirrors(AddSolid(c, st, es, ds), before + added)
  {
    hide FilesHold, Mirrors, Splice, Packed, SolidBlock, Flatten;
    var more := SolidEntries(c, es, ds);
    forall j | 0 <= j < |more|
      ensures more[j].hasStream && Untouched(more[j]) == Untouched(es[j])
    {
      assert es[j] in es;
    }
    FlattenSnoc(st.datas, ds);
    Grows(c, st, AddSolid(c, st, es, ds), more, ds, before, added);
  }

  lemma AddedOne(datas: seq<seq<bytes>>, data: bytes)
    ensures Flatten(datas + [[data]]) == Flatten(datas) + [data]
  {
    FlattenSnoc(datas, [data]);
  }

  lemma NothingAdded(st: State, st': State, before: seq<Pushed>)
    requires Mirrors(st, before) && st'.records.files == st.records.files && st'.datas == st.datas
    ensures Mirrors(st', before + [])
  {
    assert before + [] == before;
    forall i | 0 <= i < |before|
      ensures ContentOf(st', i) == ContentOf(st, i)
    {
    }
  }

  lemma {:induction false} RunMirrors(c: Codecs, st: State, ops: seq<Op>, before: seq<Pushed>)
    requires Inv(c, st) && RunFits(c, st, ops) && Mirrors(st, before)
    ensures AllMatched(ops)
    ensures Mirrors(Run(c, st, ops), before + PushedIn(ops))
    decreases |ops|
  {
    hide Inv, OpFits, Proper, Apply, Mirrors, PushedBy;
    SolidSizes(c, st, ops);
    if ops == [] {
      assert before + [] == before;
    } else {
      InvFiles(c, st);
      FirstOpFits(c, st, ops);
      StepKeepsIffProper(c, st, ops[0]);
      StepMirrors(c, st, ops[0], before);
      RunMirrors(c, Apply(c, st, ops[0]), ops[1..], before + PushedBy(ops[0]));
      assert before + PushedBy(ops[0]) + PushedIn(ops[1..]) == before + (PushedBy(ops[0]) + PushedIn(ops[1..]));
    }
  }

  lemma FirstOpFits(c: Codecs, st: State, ops: seq<Op>)
    requires RunFits(c, st, ops) && ops != []
    ensures OpFits(c, st, ops[0]) && Proper(ops[0]) && RunFits(c, Apply(c, st, ops[0]), ops[1..])
  {
  }

  lemma InvFiles(c: Codecs, st: State)
    requires Inv(c, st)
    ensures FilesHold(c, st.records.files, st.datas)
  {
  }

  // ----- the results

  /** What a file's record must keep of the entry pushed: its name, the time stamps and
      attributes it has, whether it is a directory (unless it was pushed with data). */
  predicate SameMetadata(f: Entry, e: Entry) {
    && f.name == e.name
    && (forall t: Stamp :: t != StartPos ==> Has(f, t) == Has(e, t) && (Has(e, t) ==> Value(f, t) == Value(e, t)))
    && f.hasAttributes == e.hasAttributes && (e.hasAttributes ==> f.attributes == e.attributes)
    && (!f.hasStream ==> f.isDirectory == e.isDirectory)
  }

  function Datas(pushed: seq<Pushed>): (r: seq<bytes>)
    ensures |r| == |pushed|
  {
    seq(|pushed|, i requires 0 <= i < |pushed| => pushed[i].data)
  }

  /** Reading the archive in `data` gives the comment and these files back: the list of files
      with their metadata, sizes and CRCs; their contents, each handed out once by a full
      traversal; and the means to find each by name. */
  ghost predicate GivesBack(c: Codecs, data: bytes, pushed: seq<Pushed>, comment: Option<Comment>) {
    && ReadArchive(c, data).Ok?
    && var a, contents := ReadArchive(c, data).value, Datas(pushed);
    && a.comment == comment && |a.files| == |pushed|
    && (forall i :: 0 <= i < |pushed| ==> SameMetadata(a.files[i], pushed[i].entry))
    && (forall i :: 0 <= i < |pushed| && a.files[i].hasStream ==>
          a.files[i].size == |pushed[i].data| && a.files[i].hasCrc && a.files[i].crc == c.crc(pushed[i].data))
    && Delivers(c, data, a, contents) && MapLeads(a)
    && InRange(a, |contents|)
    && AllRight(Traversal(a, contents), contents)
    && forall i :: 0 <= i < |a.files| ==> Met(Traversal(a, contents), i) == 1
  }

  lemma KeepsMetadata(f: Entry, e: Entry)
    requires Untouched(f) == Untouched(e)
    ensures SameMetadata(F.Recovered(f), e)
  {
    assert f.name == Untouched(f).name && f.isDirectory == Untouched(f).isDirectory;
    assert f.hasCTime == Untouched(f).hasCTime && f.cTime == Untouched(f).cTime;
    assert f.hasATime == Untouched(f).hasATime && f.aTime == Untouched(f).aTime;
    assert f.hasMTime == Untouched(f).hasMTime && f.mTime == Untouched(f).mTime;
    assert f.hasAttributes == Untouched(f).hasAttributes && f.attributes == Untouched(f).attributes;
  }

  lemma SizeAndCrc(c: Codecs, st: State, i: nat)
    requires FilesHold(c, st.records.files, st.datas) && i < |st.records.files| && st.records.files[i].hasStream
    ensures var f := F.Recovered(st.records.files[i]);
            f.size == |ContentOf(st, i)| && f.hasCrc && f.crc == c.crc(ContentOf(st, i))
  {
    hide F.WithStreams;
    var files := st.records.files;
    H.StreamsOfFiles(files, i);
    F.NthFiltered(files, i);
    var k := Streams(HasStreams(files), i);
    assert k < |F.StreamSizes(files)| && F.StreamSizes(files)[k] == files[i].size;
    assert F.StreamCrcs(files)[k] == files[i].crc;
  }

  lemma MirroredReadsBack(c: Codecs, st: State, data: bytes, pushed: seq<Pushed>)
    requires Inv(c, st) && Mirrors(st, pushed) && ReadsBack(c, st, data)
    ensures GivesBack(c, data, pushed, st.records.comment)
  {
    hide Inv, ContentOf, SameMetadata, F.Recovered, Delivers, MapLeads, AllRight, Met, EmptyVisits, AllBlockVisits, ReadArchive, Untouched;
    assert ContentsOf(st) == Datas(pushed);
    InvFiles(c, st);
    var a := ReadArchive(c, data).value;
    forall i | 0 <= i < |pushed|
      ensures SameMetadata(a.files[i], pushed[i].entry)
      ensures a.files[i].hasStream ==>
        a.files[i].size == |pushed[i].data| && a.files[i].hasCrc && a.files[i].crc == c.crc(pushed[i].data)
    {
      KeepsMetadata(st.records.files[i], pushed[i].entry);
      StreamFlag(st.records.files[i]);
      if st.records.files[i].hasStream {
        SizeAndCrc(c, st, i);
      }
    }
  }

  lemma StreamFlag(f: Entry)
    ensures F.Recovered(f).hasStream == f.hasStream
  {
  }

  /** Push, finish, read: for every run of calls that meet their conditions, with either form
      of header, the archive gives back exactly the files pushed. */
  lemma PushFinishRead(c: Codecs, methods: Methods, ops: seq<Op>, packer: Method)
    requires c.Inverts() && RunFits(c, Fresh(methods), ops)
    ensures AllMatched(ops)
    ensures var st := Run(c, Fresh(methods), ops);
            && CountsFit(st.records) && st.pos >= SIGNATURE_HEADER_SIZE
            && (Finishable(c, st, packer) ==> GivesBack(c, Finished(c, st, packer), PushedIn(ops), CommentAfter(ops, None)))
  {
    hide Inv, RunFits, Finishable, Finished, GivesBack, ReadsBack, Mirrors;
    FreshHolds(c, methods);
    NothingPushed(methods);
    RunKeeps(c, Fresh(methods), ops);
    RunMirrors(c, Fresh(methods), ops, []);
    CommentOfRun(c, Fresh(methods), ops);
    assert [] + PushedIn(ops) == PushedIn(ops);
    var st := Run(c, Fresh(methods), ops);
    ArchiveParts(c, st);
    if Finishable(c, st, packer) {
      FinishedReadsBack(c, st, packer);
      MirroredReadsBack(c, st, Finished(c, st, packer), PushedIn(ops));
    }
  }

  lemma NothingPushed(methods: Methods)
    ensures Mirrors(Fresh(methods), [])
  {
  }

  lemma ArchiveParts(c: Codecs, st: State)
    requires Inv(c, st)
    ensures CountsFit(st.records) && st.pos >= SIGNATURE_HEADER_SIZE
  {
  }

  /** A reader's session: open the archive and drain every file. */
  method ReadEverything(c: Codecs, source: SeekableInput, ghost pushed: seq<Pushed>, ghost comment: Option<Comment>) returns (r: Result<(Archive, seq<Visit>)>)
    modifies source
    ensures r.Ok? ==> Ok(r.value.0) == ReadArchive(c, source.data) && forall v :: v in r.value.1 ==> Genuine(c, r.value.0, v)
    ensures GivesBack(c, source.data, pushed, comment) ==>
      && r.Ok? && r.value.0.comment == comment && AllRight(r.value.1, Datas(pushed))
      && forall i :: 0 <= i < |pushed| ==> Met(r.value.1, i) == 1
  {
    hide ReadArchive, Delivers, MapLeads, Genuine, AllRight, Met, SameMetadata, EmptyVisits, AllBlockVisits;
    var a :- Open(c, source);
    if GivesBack(c, source.data, pushed, comment) {
      DeliversLengths(c, source.data, a, Datas(pushed));
      AlwaysHanded(a, Datas(pushed));
    }
    var visits :- ForEachEntries(c, source, a, Always(), Datas(pushed));
    r := Ok((a, visits));
  }

  lemma LastNamedIs(files: seq<Entry>, name: Name, i: nat)
    requires i < |files| && files[i].name == name && forall j :: i < j < |files| ==> files[j].name != name
    ensures LastNamed(files, name) == Some(i)
  {
  }

  /** Nothing was pushed under this name after `i`. */
  predicate LastUnder(pushed: seq<Pushed>, name: Name, i: nat)
    requires i < |pushed|
  {
    pushed[i].entry.name == name && forall j :: i < j < |pushed| ==> pushed[j].entry.name != name
  }

  /** Another: read one file by name. The last file pushed under the name is the one found. */
  method ReadByName(c: Codecs, source: SeekableInput, name: Name, ghost pushed: seq<Pushed>, ghost comment: Option<Comment>)
    returns (r: Result<bytes>)
    modifies source
    ensures GivesBack(c, source.data, pushed, comment) ==>
      forall i :: 0 <= i < |pushed| && LastUnder(pushed, name, i) ==> r == Ok(pushed[i].data)
    ensures GivesBack(c, source.data, pushed, comment) && (forall i :: 0 <= i < |pushed| ==> pushed[i].entry.name != name) ==>
      r == Err(FileNotFound)
  {
    hide ReadArchive, Delivers, MapLeads, AllRight, Met, EmptyVisits, AllBlockVisits, LastNamed, IndexOf;
    ghost var gives := GivesBack(c, source.data, pushed, comment);
    var a :- Open(c, source);
    if gives {
      DeliversLengths(c, source.data, a, Datas(pushed));
      forall i | 0 <= i < |pushed| && LastUnder(pushed, name, i)
        ensures LastNamed(a.files, name) == Some(i)
      {
        LastNamedIs(a.files, name, i);
      }
    }
    var index :- FillIndex(a);
    r := ReadFile(c, source, a, index, name, Datas(pushed));
  }
}
