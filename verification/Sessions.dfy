/** The writer and the reader at work together: a list of calls carried out on an archive
    writer, the archive finished, and everything read back from the file it made. */
module Sessions {
  import opened Wire
  import opened Repeats
  import opened Blocks
  import opened FilesInfos
  import opened Headers
  import opened Codecs
  import opened Writers
  import opened Finishing
  import opened SeqReaders
  import opened ParallelProviders
  import opened ArchiveWriters
  import opened Archives
  import opened ArchiveReaders
  import opened EndToEnd
  import opened PushAndRead

  /** One source reader for each of the contents. */
  method OpenSources(c: Codecs, contents: seq<bytes>) returns (r: SeqReader)
    ensures fresh(r) && fresh(r.readers)
    ensures r.Valid() && r.current == 0 && |r.readers| == |contents| && r.Rests() == contents
    ensures forall i :: 0 <= i < |contents| ==> r.readers[i].c == c && r.readers[i].rest == r.readers[i].content
  {
    var readers: seq<SourceReader> := [];
    for i := 0 to |contents|
      invariant |readers| == i
      invariant forall k :: 0 <= k < i ==> fresh(readers[k]) && readers[k].Reading() && readers[k].c == c
      invariant forall k :: 0 <= k < i ==> readers[k].rest == readers[k].content == contents[k]
      invariant forall j, k :: 0 <= j < k < i ==> readers[j] != readers[k]
    {
      var s := new SourceReader(c, contents[i]);
      readers := readers + [s];
    }
    r := new SeqReader(readers);
    assert r.Rests() == contents;
  }

  /** The parallel solid push, with any parallelism, batch and buffer. */
  method PerformParallel(w: ArchiveWriter, es: seq<Entry>, ds: seq<bytes>)
    requires |es| == |ds| <= 0x1_0000_0000
    modifies w, w.output, w.packInfo, w.unpackInfo
    ensures w.State() == Apply(w.c, old(w.State()), PushParallel(es, ds))
  {
    hide AddSolid;
    var parallelism: nat, batchSize: nat, bufferSize: nat := *, *, *;
    var provider := new VecParallelStreamProvider.WithParallelism(ds, parallelism);
    assert Values(provider.data[..|es|]) == ds;
    var _ := w.PushSolidEntriesParallel(es, provider, batchSize, bufferSize + 1);
  }

  /** One call on the writer. */
  method Perform(w: ArchiveWriter, op: Op)
    requires Matched(op)
    requires op.SetMethods? ==> |op.methods| < U64_LIMIT
    requires op.PushParallel? ==> |op.entries| <= 0x1_0000_0000
    modifies w, w.output, w.packInfo, w.unpackInfo
    ensures w.State() == Apply(w.c, old(w.State()), op)
  {
    hide Apply;
    match op
    case PushEntry(e, data) =>
      if data.Some? {
        var input := new Input(data.value);
        w.PushArchiveEntry(e, input);
      } else {
        w.PushArchiveEntry(e, null);
      }
    case PushBytes(e, data) =>
      w.PushArchiveEntryBytes(e, data);
    case PushSolid(es, ds) =>
      var r := OpenSources(w.c, ds);
      w.PushArchiveEntries(es, r);
    case PushParallel(es, ds) =>
      PerformParallel(w, es, ds);
    case SetMethods(ms) =>
      w.SetContentMethods(ms);
    case SetEncryptHeader(encrypt) =>
      w.SetEncryptHeaderFlag(encrypt);
    case SetComment(text) =>
      w.SetCommentText(text);
    case ClearComment =>
      w.ClearCommentText();
  }

  /** The methods handed to the writer can be counted. */
  predicate Countable(ops: seq<Op>) {
    forall op :: op in ops && op.SetMethods? ==> |op.methods| < U64_LIMIT
  }

  lemma RunFirst(c: Codecs, st: State, ops: seq<Op>)
    requires RunFits(c, st, ops) && ops != []
    ensures AllMatched(ops) && OpFits(c, st, ops[0])
    ensures RunFits(c, Apply(c, st, ops[0]), ops[1..]) && Run(c, st, ops) == Run(c, Apply(c, st, ops[0]), ops[1..])
  {
    SolidSizes(c, st, ops);
  }

  lemma CountableParallel(c: Codecs, st: State, op: Op)
    requires OpFits(c, st, op)
    ensures op.PushParallel? ==> |op.entries| <= 0x1_0000_0000
  {
  }

  method PerformAll(w: ArchiveWriter, ops: seq<Op>)
    requires RunFits(w.c, w.State(), ops) && Countable(ops)
    modifies w, w.output, w.packInfo, w.unpackInfo
    ensures AllMatched(ops)
    ensures w.State() == Run(w.c, old(w.State()), ops)
  {
    hide RunFits, Apply, Run;
    ghost var start := w.State();
    assert ops[0..] == ops;
    SolidSizes(w.c, start, ops);
    for i := 0 to |ops|
      invariant RunFits(w.c, w.State(), ops[i..])
      invariant AllMatched(ops[i..])
      invariant Run(w.c, start, ops) == Run(w.c, w.State(), ops[i..])
    {
      RunFirst(w.c, w.State(), ops[i..]);
      assert ops[i..][0] == ops[i] && ops[i..][1..] == ops[i + 1..];
      assert ops[i] in ops;
      CountableParallel(w.c, w.State(), ops[i]);
      Perform(w, ops[i]);
    }
    NoMoreCalls(w.c, w.State(), ops[|ops|..]);
  }

  lemma NoMoreCalls(c: Codecs, st: State, ops: seq<Op>)
    requires ops == []
    ensures Run(c, st, ops) == st
  {
  }

  /** Store and read back: every file pushed is handed out once, with its bytes, and it can be
      read by its name. */
  method StoreAndReadBack(c: Codecs, methods: Methods, ops: seq<Op>, packer: Method, name: Name)
    returns (everything: Result<(Archive, seq<Visit>)>, one: Result<bytes>)
    requires c.Inverts() && RunFits(c, Fresh(methods), ops) && Countable(ops)
    ensures AllMatched(ops)
    ensures var st := Run(c, Fresh(methods), ops);
            CountsFit(st.records) && st.pos >= SIGNATURE_HEADER_SIZE
    ensures Finishable(c, Run(c, Fresh(methods), ops), packer) ==>
      var pushed := PushedIn(ops);
      && everything.Ok? && everything.value.0.comment == CommentAfter(ops, None)
      && AllRight(everything.value.1, Datas(pushed))
      && (forall i :: 0 <= i < |pushed| ==> Met(everything.value.1, i) == 1)
      && (forall i :: 0 <= i < |pushed| && LastUnder(pushed, name, i) ==> one == Ok(pushed[i].data))
  {
    hide RunFits, Apply, Run, Finishable, Finished, GivesBack, AllRight, Met, PushedIn, Fresh;
    var output := new Output();
    var w := new ArchiveWriter(c, output, methods);
    PerformAll(w, ops);
    PushFinishRead(c, methods, ops, packer);
    w.Finish(packer);
    var source := new SeekableInput(output.data);
    everything := ReadEverything(c, source, PushedIn(ops), CommentAfter(ops, None));
    one := ReadByName(c, source, name, PushedIn(ops), CommentAfter(ops, None));
  }
}
