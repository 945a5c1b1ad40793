/** The archive writer as an object: each call leaves exactly the state that `Writers.Apply`
    gives for it. */
module ArchiveWriters {
  import opened Wire
  import opened Repeats
  import opened Blocks
  import opened UnpackInfos
  import opened FilesInfos
  import opened Headers
  import opened Codecs
  import opened Writers
  import opened StartHeaders
  import opened Finishing
  import opened SeqReaders
  import opened ParallelProviders
  import PackInfos

  const BUFFER_SIZE := 0x1_0000
  const MAX_STACK_CODERS := 4

  /** The file being written. */
  class Output {
    var data: bytes
    var pos: nat

    constructor ()
      ensures data == [] && pos == 0
    {
      data, pos := [], 0;
    }

    method SeekTo(p: nat)
      modifies this`pos
      ensures pos == p
    {
      pos := p;
    }

    method WriteAll(b: bytes)
      modifies this
      ensures data == Splice(old(data), old(pos), b) && pos == old(pos) + |b|
    {
      data := Splice(data, pos, b);
      pos := pos + |b|;
    }
  }

  /** What `CompressWrapWriter` keeps of the bytes that pass through it. */
  class Meter {
    const c: Codecs
    var hashed: bytes
    var written: nat

    constructor (c: Codecs)
      ensures this.c == c && hashed == [] && written == 0
    {
      this.c := c;
      hashed, written := [], 0;
    }

    method Update(b: bytes)
      modifies this
      ensures hashed == old(hashed) + b && written == old(written) + |b|
    {
      hashed := hashed + b;
      written := written + |b|;
    }

    method CrcValue() returns (crc: u32)
      modifies this
      ensures crc == c.crc(old(hashed)) && hashed == [] && written == old(written)
    {
      crc := c.crc(hashed);
      hashed := [];
    }
  }

  /** The encoders of `create_writer`, nested so that the last one sees the data first, with
      a counter in front of each but the last. They emit when they are finished. */
  class EncoderChain {
    const c: Codecs
    const methods: Methods
    var input: bytes

    constructor (c: Codecs, methods: Methods)
      ensures this.c == c && this.methods == methods && input == []
    {
      this.c, this.methods := c, methods;
      input := [];
    }

    method WriteAll(b: bytes)
      modifies this
      ensures input == old(input) + b
    {
      input := input + b;
    }

    method Finish() returns (packed: bytes, counts: seq<nat>)
      ensures packed == Packed(c, methods, input)
      ensures counts == StageSizes(c, methods, input)[..|methods| - 1]
    {
      hide Stage, StageSizes, Decodable;
      ghost var sizes := StageSizes(c, methods, input);
      StageStep(c, methods, input, 0);
      packed, counts := input, [];
      for i := |methods| downto 0
        invariant packed == Stage(c, methods, input, i)
        invariant counts == if i == |methods| then [] else sizes[i..|methods| - 1]
      {
        StageStep(c, methods, input, i);
        if i + 1 < |methods| {
          assert sizes[i..|methods| - 1] == [sizes[i]] + sizes[i + 1..|methods| - 1];
          counts := [|packed|] + counts;
        }
        packed := c.enc(methods[i], packed);
      }
      assert sizes[0..|methods| - 1] == sizes[..|methods| - 1];
      if |methods| == 1 {
        assert sizes[..0] == [];
      }
      WholeChain(c, methods, input);
    }
  }

  /** `collect_sizes`: up to four sizes go through a fixed array. */
  method CollectSizes(more: seq<nat>, finalSize: u64) returns (sizes: seq<u64>)
    ensures sizes == AsU64s(more) + [finalSize]
  {
    var total := |more| + 1;
    if total <= MAX_STACK_CODERS {
      var stack := new u64[MAX_STACK_CODERS](i => 0);
      for i := 0 to |more|
        invariant stack[..i] == AsU64s(more)[..i]
      {
        stack[i] := AsU64(more[i]);
        assert stack[..i + 1] == stack[..i] + [stack[i]];
      }
      stack[total - 1] := finalSize;
      assert stack[..total] == stack[..total - 1] + [finalSize];
      sizes := stack[..total];
    } else {
      sizes := [];
      for i := 0 to |more|
        invariant sizes == AsU64s(more)[..i]
      {
        sizes := sizes + [AsU64(more[i])];
      }
      sizes := sizes + [finalSize];
    }
  }

  class ArchiveWriter {
    const c: Codecs
    const output: Output
    const packInfo: PackInfos.PackInfo
    const unpackInfo: UnpackInfo
    var files: seq<Entry>
    var contentMethods: Methods
    var encryptHeader: bool
    var comment: Option<Comment>
    ghost var datas: seq<seq<bytes>>

    constructor (c: Codecs, output: Output, methods: Methods)
      requires output.data == []
      modifies output
      ensures this.c == c && this.output == output
      ensures fresh(packInfo) && fresh(unpackInfo)
      ensures State() == Fresh(methods)
    {
      this.c, this.output := c, output;
      packInfo := new PackInfos.PackInfo();
      unpackInfo := new UnpackInfo();
      files, contentMethods, encryptHeader, comment, datas := [], methods, true, None, [];
      new;
      output.SeekTo(SIGNATURE_HEADER_SIZE);
    }

    ghost function State(): State
      reads this, output, packInfo, unpackInfo
    {
      Writers.State(Records(files, packInfo.pos, packInfo.sizes, packInfo.crcs, unpackInfo.blocks, comment),
                    output.data, output.pos, contentMethods, encryptHeader, datas)
    }

    /** `finish`: the header goes after the blocks, the start header into the room in front. */
    method Finish(packer: Method)
      requires CountsFit(State().records) && output.pos >= SIGNATURE_HEADER_SIZE
      modifies output
      ensures output.data == Finished(c, old(State()), packer)
    {
      hide Splice, EncodedHeader, EncodedData, PutHeader, PutSignatureHeader, HeaderMethods;
      var header := WriteEncodedHeader(packer);
      var headerPos := output.pos;
      output.WriteAll(header);
      var front := PutSignatureHeader(c.crc, AsU64(headerPos - SIGNATURE_HEADER_SIZE), |header|, c.crc(header));
      output.SeekTo(0);
      output.WriteAll(front);
    }

    method ChooseHeaderMethods(packer: Method) returns (ms: Methods)
      ensures ms == HeaderMethods(State(), packer)
    {
      var methods: seq<Method> := [];
      if encryptHeader {
        for i := 0 to |contentMethods|
          invariant methods == [] && Encrypting(contentMethods) == Encrypting(contentMethods[i..])
        {
          if contentMethods[i].id == AES_ID {
            methods := [contentMethods[i]];
            break;
          }
        }
      }
      ms := methods + [packer];
    }

    method WriteEncodedHeader(packer: Method) returns (header: bytes)
      requires CountsFit(State().records) && output.pos >= SIGNATURE_HEADER_SIZE
      modifies output
      ensures var st := old(State());
              var ms, raw := HeaderMethods(st, packer), PutHeader(st.records);
              var data := EncodedData(c, ms, raw);
              && header == EncodedHeader(c, ms, AsU64(st.pos - SIGNATURE_HEADER_SIZE), raw)
              && output.data == Splice(st.out, st.pos, data) && output.pos == st.pos + |data|
    {
      hide Splice, PutHeader, HeaderMethods, StageSizes, Packed, PutStreamsInfo;
      ghost var r := State().records;
      var sink := new Sink();
      WriteHeader(sink, packInfo, unpackInfo, files, comment, r);
      var raw := sink.data;
      assert [] + PutHeader(r) == PutHeader(r);
      var position := output.pos;
      var ms := ChooseHeaderMethods(packer);
      var w := new EncoderChain(c, ms);
      w.WriteAll(raw);
      assert [] + raw == raw;
      var packed, counts := w.Finish();
      if |packed| + 20 >= |raw| {
        SpliceNothing(output.data, output.pos);
        return raw;
      }
      output.WriteAll(packed);
      header := WritePackedRecords(ms, AsU64(position - SIGNATURE_HEADER_SIZE), raw, packed, counts);
    }

    /** The tables that describe the packed header. */
    method WritePackedRecords(ms: Methods, at: u64, raw: bytes, packed: bytes, counts: seq<nat>) returns (header: bytes)
      requires packed == Packed(c, ms, raw) && counts == StageSizes(c, ms, raw)[..|ms| - 1]
      ensures header == [K_ENCODED_HEADER] + PutStreamsInfo(PackedHeaderRecords(c, ms, at, raw))
    {
      hide StageSizes, Packed, PutStreamsInfo;
      ghost var r := PackedHeaderRecords(c, ms, at, raw);
      var pack := new PackInfos.PackInfo();
      pack.pos := at;
      pack.AddStream(AsU64(|packed|), c.crc(packed));
      StageSizesSplit(c, ms, raw);
      var unpack := new UnpackInfo();
      unpack.Add(ms, AsU64s(counts) + [AsU64(|raw|)], c.crc(raw));
      var sink := new Sink();
      sink.WriteU8(K_ENCODED_HEADER);
      assert [] + [AsU64(|packed|)] == [AsU64(|packed|)] && [] + [c.crc(packed)] == [c.crc(packed)];
      WriteStreamsInfo(sink, pack, unpack, r);
      header := sink.data;
    }

    method SetContentMethods(ms: seq<Method>)
      requires |ms| < U64_LIMIT
      modifies this
      ensures State() == Apply(c, old(State()), SetMethods(ms))
    {
      if ms == [] {
        return;
      }
      contentMethods := ms;
    }

    method SetEncryptHeaderFlag(enabled: bool)
      modifies this
      ensures State() == Apply(c, old(State()), SetEncryptHeader(enabled))
    {
      encryptHeader := enabled;
    }

    method SetCommentText(text: Comment)
      modifies this
      ensures State() == Apply(c, old(State()), SetComment(text))
    {
      comment := Some(text);
    }

    method ClearCommentText()
      modifies this
      ensures State() == Apply(c, old(State()), Op.ClearComment)
    {
      comment := None;
    }

    /** The end of every push: finishing the chain sends what it emits to the output,
        through a meter, and its length and CRC go into the pack table. */
    method FinishBlock(w: EncoderChain, meter: Meter) returns (sizes: seq<u64>, crc: u32)
      requires w.c == c == meter.c && meter.hashed == w.input && meter.written == |w.input|
      modifies output, packInfo, meter
      ensures sizes == AsU64s(StageSizes(c, w.methods, w.input)) && crc == c.crc(w.input)
      ensures meter.written == old(meter.written)
      ensures var packed := Packed(c, w.methods, w.input);
              && output.data == Splice(old(output.data), old(output.pos), packed)
              && output.pos == old(output.pos) + |packed|
              && packInfo.sizes == old(packInfo.sizes) + [AsU64(|packed|)]
              && packInfo.crcs == old(packInfo.crcs) + [c.crc(packed)]
              && packInfo.pos == old(packInfo.pos)
    {
      hide Splice, StageSizes, Packed;
      var compressed := new Meter(c);
      var packed, more := w.Finish();
      output.WriteAll(packed);
      compressed.Update(packed);
      crc := meter.CrcValue();
      assert [] + packed == packed;
      var compressedCrc := compressed.CrcValue();
      packInfo.AddStream(AsU64(compressed.written), compressedCrc);
      sizes := CollectSizes(more, AsU64(meter.written));
      StageSizesSplit(c, w.methods, w.input);
    }

    method PushArchiveEntry(e: Entry, reader: Input?)
      modifies this, output, packInfo, unpackInfo, reader
      ensures State() == Apply(c, old(State()), PushEntry(e, if reader != null then Some(old(reader.rest)) else None))
    {
      hide AddBlock;
      if !e.isDirectory {
        if reader != null {
          PushStream(e, reader);
          return;
        }
      }
      files := files + [e.(hasStream := false, size := 0, hasCrc := false)];
    }

    /** The part of `push_archive_entry` for an entry with data. */
    method PushStream(e: Entry, reader: Input)
      modifies this, output, packInfo, unpackInfo, reader
      ensures var data := old(reader.rest);
              State() == AddBlock(c, old(State()), SingleBlock(c, old(contentMethods), data), data, [Streamed(c, e, data)], [data])
    {
      hide Splice, StageSizes, Packed;
      ghost var data := reader.rest;
      var w := new EncoderChain(c, contentMethods);
      var meter := new Meter(c);
      CopyInput(reader, w, meter);
      assert [] + data == data;
      var sizes, crc := FinishBlock(w, meter);
      unpackInfo.Add(contentMethods, sizes, crc);
      files := files + [e.(hasStream := true, size := AsU64(meter.written), crc := crc, hasCrc := true)];
      datas := datas + [[data]];
    }

    method PushArchiveEntryBytes(e: Entry, data: bytes)
      modifies this, output, packInfo, unpackInfo
      ensures State() == Apply(c, old(State()), PushBytes(e, data))
    {
      hide Splice, StageSizes, Packed;
      if e.isDirectory || data == [] {
        files := files + [e.(hasStream := !e.isDirectory && data == [], size := 0, hasCrc := false)];
        return;
      }
      var w := new EncoderChain(c, contentMethods);
      var meter := new Meter(c);
      w.WriteAll(data);
      meter.Update(data);
      assert [] + data == data;
      var sizes, crc := FinishBlock(w, meter);
      unpackInfo.Add(contentMethods, sizes, crc);
      files := files + [e.(hasStream := true, size := AsU64(|data|), crc := crc, hasCrc := true)];
      datas := datas + [[data]];
    }

    /** The solid push. */
    method PushArchiveEntries(es: seq<Entry>, r: SeqReader)
      requires r.Valid() && r.current == 0 && |r.readers| == |es|
      requires forall i :: 0 <= i < |es| ==> r.readers[i].c == c && r.readers[i].rest == r.readers[i].content
      modifies this, output, packInfo, unpackInfo, r, r.readers
      ensures State() == Apply(c, old(State()), PushSolid(es, old(r.Rests())))
    {
      hide AddBlock, SolidBlock, SolidEntries, Lengths, Crcs, AsU64s, Flatten, StageSizes;
      ghost var ds := r.Rests();
      var w, meter := EncodeAll(r);
      assert Contents(r) == ds;
      var entries, subSizes, subCrcs := SolidColumns(es, r);
      RecordSolid(es, ds, entries, subSizes, subCrcs, w, meter);
    }

    method EncodeAll(r: SeqReader) returns (w: EncoderChain, meter: Meter)
      requires r.Valid() && r.current == 0
      modifies r, r.readers
      ensures r.Valid() && r.current == |r.readers|
      ensures fresh(w) && w.c == c && w.methods == contentMethods && w.input == Flatten(old(r.Rests()))
      ensures fresh(meter) && meter.c == c && meter.hashed == w.input && meter.written == |w.input|
    {
      assert r.Rests()[0..] == r.Rests();
      assert [] + r.Rest() == r.Rest();
      w := new EncoderChain(c, contentMethods);
      meter := new Meter(c);
      CopySeq(r, w, meter);
    }

    /** The records of one solid block. */
    method RecordSolid(ghost es: seq<Entry>, ghost ds: seq<bytes>, entries: seq<Entry>, subSizes: seq<u64>, subCrcs: seq<u32>,
                       w: EncoderChain, meter: Meter)
      requires |es| == |ds| == |entries|
      requires entries == SolidEntries(c, es, ds) && subSizes == AsU64s(Lengths(ds)) && subCrcs == Crcs(c, ds)
      requires w.c == c == meter.c && w.methods == contentMethods && w.input == Flatten(ds)
      requires meter.hashed == w.input && meter.written == |w.input|
      modifies this, output, packInfo, unpackInfo, meter
      ensures State() == AddBlock(c, old(State()), SolidBlock(c, old(contentMethods), ds), Flatten(ds), entries, ds)
    {
      hide Splice, StageSizes, Packed, Lengths, Crcs, AsU64s, SolidEntries, Flatten;
      var sizes, crc := FinishBlock(w, meter);
      unpackInfo.AddMultiple(contentMethods, sizes, crc, AsU64(|entries|), subSizes, subCrcs);
      files := files + entries;
      datas := datas + [ds];
    }

    /** The solid push over announced streams. It succeeds if and only if the provider still
        has a stream for every entry; then it leaves the records of `push_archive_entries`
        for the same data, after asking for each stream exactly once and in order. */
    method PushSolidEntriesParallel(es: seq<Entry>, provider: VecParallelStreamProvider, batchSize: nat, bufferSize: nat)
      returns (r: Result<()>)
      requires |es| <= 0x1_0000_0000
      modifies this, output, packInfo, unpackInfo, provider
      ensures r.Ok? <==> |es| == 0 || (|es| <= |old(provider.data)| && None !in old(provider.data)[..|es|])
      ensures |es| == 0 ==> State() == old(State()) && provider.log == old(provider.log)
      ensures r.Err? ==> State().records == old(State()).records
      ensures r.Ok? && |es| > 0 ==>
        && State() == Apply(c, old(State()), PushParallel(es, Through(Values(old(provider.data)[..|es|]), bufferSize)))
        && AsksOnce(old(provider.log), provider.log, |es|, BatchOf(batchSize, provider.maxParallelism))
    {
      hide AddBlock, SolidBlock, SolidEntries, Lengths, Crcs, AsU64s, Flatten, Values;
      if |es| == 0 {
        return Ok(());
      }
      if |provider.data| < |es| {
        return Err(BrokenPipe);
      }
      ghost var ds := Through(Values(provider.data[..|es|]), bufferSize);
      var w := new EncoderChain(c, contentMethods);
      var meter := new Meter(c);
      var stats :- EncodeStreams(|es|, provider, BatchOf(batchSize, provider.maxParallelism), bufferSize, w, meter);
      var entries := FillEntries(es, stats.0, stats.1, ds);
      RecordSolid(Flagged(es), ds, entries, stats.0, stats.1, w, meter);
      r := Ok(());
    }

    /** The entries with the measured sizes and CRCs, all flagged as having data. */
    method FillEntries(es: seq<Entry>, sizes: seq<u64>, crcs: seq<u32>, ghost ds: seq<bytes>) returns (entries: seq<Entry>)
      requires |es| == |ds| && sizes == AsU64s(Lengths(ds)) && crcs == Crcs(c, ds)
      ensures entries == SolidEntries(c, Flagged(es), ds)
    {
      hide Crcs, AsU64s, Lengths, SolidEntries;
      entries := es;
      for i := 0 to |es|
        invariant |entries| == |es| && entries[i..] == es[i..]
        invariant entries[..i] == SolidEntries(c, Flagged(es), ds)[..i]
      {
        SolidRow(c, Flagged(es), ds, i);
        assert entries[i] == entries[i..][0] == es[i];
        entries := Replace(entries, i, entries[i].(crc := crcs[i], size := sizes[i], hasCrc := true, hasStream := true));
        assert es[i + 1..] == es[i..][1..];
      }
    }

    /** Batch by batch: announce, then take each stream of the batch in turn. */
    method EncodeStreams(n: nat, provider: VecParallelStreamProvider, batch: nat, bufferSize: nat, w: EncoderChain, meter: Meter)
      returns (r: Result<(seq<u64>, seq<u32>)>)
      requires batch > 0 && n <= |provider.data|
      requires w.c == c == meter.c && w.input == [] == meter.hashed && meter.written == 0
      modifies provider, w, meter
      ensures r.Ok? <==> None !in old(provider.data)[..n]
      ensures r.Ok? ==> (
                var ds := Through(Values(old(provider.data)[..n]), bufferSize);
                && r.value == (AsU64s(Lengths(ds)), Crcs(c, ds))
                && w.input == meter.hashed == Flatten(ds) && meter.written == |w.input|
                && AsksOnce(old(provider.log), provider.log, n, batch))
    {
      hide Lengths, Crcs, AsU64s, Flatten, Orderly, Announced, Taken;
      ghost var data, ds := provider.data, Through(Values(provider.data[..n]), bufferSize);
      ghost var log: seq<Event> := [];
      var sizes: seq<u64>, crcs: seq<u32>, current := [], [], 0;
      NothingAsked(batch);
      NothingRead(c, ds);
      while current < n
        invariant 0 <= current <= n && None !in data[..current]
        invariant provider.data == Emptied(data, current) && provider.log == old(provider.log) + log
        invariant Orderly(log, batch) && Announced(log) == Taken(log) == UpTo(current)
        invariant Progress(c, ds, current, sizes, crcs, w, meter)
      {
        var end := Min(current + batch, n);
        provider.PrepareStreams(Range(current, end));
        OrderlyPrepare(log, batch, end);
        log := log + [Prepared(Range(current, end))];
        ghost var log0 := provider.log;
        for idx := current to end
          invariant None !in data[..idx]
          invariant provider.data == Emptied(data, idx) && provider.log == old(provider.log) + log
          invariant Orderly(log, batch) && Announced(log) == UpTo(end) && Taken(log) == UpTo(idx)
          invariant Progress(c, ds, idx, sizes, crcs, w, meter)
        {
          var stream := provider.GetStream(idx);
          OrderlyFetch(log, batch);
          log := log + [Fetched(idx)];
          if stream.None? {
            assert data[idx] in data[..n];
            return Err(BrokenPipe);
          }
          assert data[..idx + 1] == data[..idx] + [data[idx]];
          var size, crc := CopyStream(stream.value, bufferSize, w, meter);
          ProgressStep(c, ds, idx, sizes, crcs);
          sizes, crcs := sizes + [AsU64(size)], crcs + [crc];
        }
        current := end;
      }
      AllRead(c, ds);
      r := Ok((sizes, crcs));
    }

    /** Reads one stream to its end, measuring it on the way. */
    method CopyStream(stream: bytes, bufferSize: nat, w: EncoderChain, meter: Meter) returns (size: nat, crc: u32)
      modifies w, meter
      ensures var got := if bufferSize > 0 then stream else [];
              && w.input == old(w.input) + got && meter.hashed == old(meter.hashed) + got
              && meter.written == old(meter.written) + |got|
              && size == |got| && crc == c.crc(got)
    {
      var rest, hashed: bytes := stream, [];
      size := 0;
      while true
        invariant hashed + rest == stream && size == |hashed|
        invariant w.input + rest == old(w.input) + stream && meter.hashed + rest == old(meter.hashed) + stream
        invariant meter.written + |rest| == old(meter.written) + |stream|
        invariant bufferSize == 0 ==>
          hashed == [] && w.input == old(w.input) && meter.hashed == old(meter.hashed) && meter.written == old(meter.written)
        decreases |rest|
      {
        var n := ReadSome(|rest|, bufferSize);
        if n == 0 {
          assert forall s: bytes :: s + [] == s;
          break;
        }
        TakeFront(w.input, rest, n);
        TakeFront(meter.hashed, rest, n);
        TakeFront(hashed, rest, n);
        hashed, size := hashed + rest[..n], size + n;
        w.WriteAll(rest[..n]);
        meter.Update(rest[..n]);
        rest := rest[n..];
      }
      crc := c.crc(hashed);
    }

    /** Each entry and the two columns get what its own reader measured. */
    method SolidColumns(es: seq<Entry>, r: SeqReader) returns (entries: seq<Entry>, sizes: seq<u64>, crcs: seq<u32>)
      requires r.Valid() && r.current == |r.readers| == |es|
      requires forall i :: 0 <= i < |es| ==> r.readers[i].c == c
      ensures var ds := Contents(r);
              entries == SolidEntries(c, es, ds) && sizes == AsU64s(Lengths(ds)) && crcs == Crcs(c, ds)
    {
      hide Crcs, AsU64s, Lengths, SolidEntries, SeqReader.Valid, Contents;
      entries, sizes, crcs := es, [], [];
      ghost var ds := Contents(r);
      for i := 0 to |es|
        invariant |sizes| == |crcs| == i
        invariant entries == SolidEntries(c, es, ds)[..i] + es[i..]
        invariant sizes == AsU64s(Lengths(ds))[..i] && crcs == Crcs(c, ds)[..i]
      {
        var ri := r.readers[i];
        Measured(r, i);
        SolidRow(c, es, ds, i);
        PutInPlace(SolidEntries(c, es, ds), es, i);
        NextRow(AsU64s(Lengths(ds)), i);
        NextRow(Crcs(c, ds), i);
        var entry := entries[i].(crc := ri.crcValue, size := AsU64(ri.size));
        sizes, crcs := sizes + [entry.size], crcs + [entry.crc];
        entries := entries[i := entry.(hasCrc := true)];
      }
    }
  }

  lemma NextRow<T>(xs: seq<T>, i: nat)
    requires i < |xs|
    ensures xs[..i + 1] == xs[..i] + [xs[i]]
  {
  }

  /** One more place filled in. */
  lemma PutInPlace<T>(done: seq<T>, todo: seq<T>, i: nat)
    requires i < |done| == |todo|
    ensures (done[..i] + todo[i..])[i] == todo[i]
    ensures (done[..i] + todo[i..])[i := done[i]] == done[..i + 1] + todo[i + 1..]
  {
  }

  /** A reader that was read to its end has measured its content. */
  lemma Measured(r: SeqReader, i: nat)
    requires r.Valid() && r.current == |r.readers| && i < |r.readers|
    ensures r.readers[i].size == |Contents(r)[i]| && r.readers[i].crcValue == r.readers[i].c.crc(Contents(r)[i])
  {
  }

  /** Assigning to one place of a vector. */
  function Replace<T>(xs: seq<T>, i: nat, x: T): (r: seq<T>)
    requires i < |xs|
    ensures |r| == |xs| && r[..i + 1] == xs[..i] + [x] && r[i + 1..] == xs[i..][1..]
  {
    xs[i := x]
  }

  lemma SolidRow(c: Codecs, es: seq<Entry>, ds: seq<bytes>, i: nat)
    requires i < |es| == |ds|
    ensures SolidEntries(c, es, ds)[i] == es[i].(size := AsU64(|ds[i]|), crc := c.crc(ds[i]), hasCrc := true)
    ensures AsU64s(Lengths(ds))[i] == AsU64(|ds[i]|) && Crcs(c, ds)[i] == c.crc(ds[i])
  {
  }

  // ----- what a parallel push relies on

  /** What comes of the streams through a buffer of some size: nothing through an empty one,
      because reading nothing is taken for the end. */
  function Through(ds: seq<bytes>, bufferSize: nat): (r: seq<bytes>)
    ensures |r| == |ds|
    ensures bufferSize > 0 ==> r == ds
  {
    if bufferSize > 0 then ds else seq(|ds|, i => [])
  }

  function Values(data: seq<Option<bytes>>): (r: seq<bytes>)
    ensures |r| == |data|
  {
    seq(|data|, i requires 0 <= i < |data| => if data[i].Some? then data[i].value else [])
  }

  function BatchOf(batchSize: nat, parallelism: nat): nat {
    var m := Min(batchSize, parallelism);
    if m < 1 then 1 else m
  }

  function Emptied(data: seq<Option<bytes>>, n: nat): (r: seq<Option<bytes>>) {
    seq(|data|, i requires 0 <= i < |data| => if i < n then None else data[i])
  }

  /** The calls between two logs announce and take 0, 1, ..., n-1, in that order, each once. */
  predicate AsksOnce(before: seq<Event>, after: seq<Event>, n: nat, batch: nat) {
    && before <= after
    && Orderly(after[|before|..], batch)
    && Announced(after[|before|..]) == Taken(after[|before|..]) == UpTo(n)
  }

  lemma TakeFront(a: bytes, rest: bytes, n: nat)
    requires n <= |rest|
    ensures a + rest[..n] + rest[n..] == a + rest
  {
  }

  lemma NothingAsked(batch: nat)
    ensures Orderly([], batch) && Announced([]) == Taken([]) == UpTo(0)
  {
  }

  ghost predicate Progress(c: Codecs, ds: seq<bytes>, n: nat, sizes: seq<u64>, crcs: seq<u32>, w: EncoderChain, meter: Meter)
    reads w, meter
  {
    && n <= |ds|
    && sizes == AsU64s(Lengths(ds))[..n] && crcs == Crcs(c, ds)[..n]
    && w.input == meter.hashed == Flatten(ds[..n]) && meter.written == |w.input|
  }

  lemma NothingRead(c: Codecs, ds: seq<bytes>)
    ensures AsU64s(Lengths(ds))[..0] == [] && Crcs(c, ds)[..0] == [] && Flatten(ds[..0]) == []
  {
  }

  lemma AllRead(c: Codecs, ds: seq<bytes>)
    ensures AsU64s(Lengths(ds))[..|ds|] == AsU64s(Lengths(ds)) && Crcs(c, ds)[..|ds|] == Crcs(c, ds) && ds[..|ds|] == ds
  {
  }

  lemma ProgressStep(c: Codecs, ds: seq<bytes>, i: nat, sizes: seq<u64>, crcs: seq<u32>)
    requires i < |ds| && sizes == AsU64s(Lengths(ds))[..i] && crcs == Crcs(c, ds)[..i]
    ensures AsU64s(Lengths(ds))[..i + 1] == sizes + [AsU64(|ds[i]|)] && Crcs(c, ds)[..i + 1] == crcs + [c.crc(ds[i])]
    ensures Flatten(ds[..i + 1]) == Flatten(ds[..i]) + ds[i]
  {
    FlattenSnoc(ds[..i], ds[i]);
    assert ds[..i + 1] == ds[..i] + [ds[i]];
  }

  ghost function Contents(r: SeqReader): (ds: seq<bytes>)
    ensures |ds| == |r.readers|
  {
    seq(|r.readers|, i requires 0 <= i < |r.readers| => r.readers[i].content)
  }

  /** The same loop, over all readers end to end. */
  method CopySeq(r: SeqReader, w: EncoderChain, meter: Meter)
    requires r.Valid()
    modifies r, r.readers, w, meter
    ensures r.Valid() && r.current == |r.readers|
    ensures w.input == old(w.input) + old(r.Rest())
    ensures meter.hashed == old(meter.hashed) + old(r.Rest())
    ensures meter.written == old(meter.written) + |old(r.Rest())|
  {
    hide SeqReader.Valid, SeqReader.Rest;
    r.ValidRange();
    while true
      invariant r.Valid() && r.Sound()
      invariant w.input + r.Rest() == old(w.input) + old(r.Rest())
      invariant meter.hashed + r.Rest() == old(meter.hashed) + old(r.Rest())
      invariant meter.written + |r.Rest()| == old(meter.written) + |old(r.Rest())|
      decreases |r.Rest()|
    {
      ghost var before := r.Rest();
      var chunk := r.Read(BUFFER_SIZE);
      r.ValidRange();
      if chunk == [] {
        r.NothingLeft();
        assert before == [] + r.Rest() == [];
        assert w.input + [] == w.input && meter.hashed + [] == meter.hashed;
        break;
      }
      Cat2(w.input, chunk, r.Rest());
      Cat2(meter.hashed, chunk, r.Rest());
      w.WriteAll(chunk);
      meter.Update(chunk);
    }
  }

  /** The copy loop of a push: whatever the reader gives at a time, all of it goes in. */
  method CopyInput(reader: Input, w: EncoderChain, meter: Meter)
    modifies reader, w, meter
    ensures w.input == old(w.input) + old(reader.rest)
    ensures meter.hashed == old(meter.hashed) + old(reader.rest)
    ensures meter.written == old(meter.written) + |old(reader.rest)|
  {
    while true
      invariant w.input + reader.rest == old(w.input) + old(reader.rest)
      invariant meter.hashed + reader.rest == old(meter.hashed) + old(reader.rest)
      invariant meter.written + |reader.rest| == old(meter.written) + |old(reader.rest)|
      decreases |reader.rest|
    {
      ghost var before := reader.rest;
      var chunk := reader.Read(BUFFER_SIZE);
      assert before == chunk + reader.rest;
      if chunk == [] {
        assert w.input + [] == w.input && meter.hashed + [] == meter.hashed;
        break;
      }
      Cat2(w.input, chunk, reader.rest);
      Cat2(meter.hashed, chunk, reader.rest);
      w.WriteAll(chunk);
      meter.Update(chunk);
    }
  }

  lemma SpliceNothing(out: bytes, pos: nat)
    ensures Splice(out, pos, []) == out
  {
  }

  lemma StageSizesSplit(c: Codecs, ms: Methods, x: bytes)
    ensures AsU64s(StageSizes(c, ms, x)[..|ms| - 1]) + [AsU64(|x|)] == AsU64s(StageSizes(c, ms, x))
  {
  }
}
