/** Calls on a new writer that break the two conditions on values, each in its own section of the
    header: pack CRCs that are partly zero, and a bitmap of empty files that ends early. */
module FailingInputs {
  import opened Wire
  import opened Blocks
  import opened FilesInfos
  import opened Headers
  import opened Codecs
  import opened Writers
  import F = FilesRoundTrip
  import P = PackInfos
  import BitSets

  const COPY: Methods := [Method([0], [])]
  const EMPTY_FILE := NO_ENTRY.(name := [97])
  const FULL := NO_ENTRY.(name := [98])
  const DIRECTORY := NO_ENTRY.(name := [99], isDirectory := true)

  /** The coder that copies, and a checksum that is zero of nothing but not of the byte 7. */
  ghost predicate Copies(c: Codecs) {
    && (forall x: bytes :: c.enc(COPY[0], x) == x)
    && c.crc([]) == 0 && c.crc([7]) != 0
  }

  lemma CopyPacks(c: Codecs, x: bytes)
    requires Copies(c)
    ensures Packed(c, COPY, x) == x
  {
    assert Stage(c, COPY, x, 1) == x;
  }

  const EMPTY_AND_FULL := [PushEntry(EMPTY_FILE, Some([])), PushEntry(FULL, Some([7]))]

  /** A file with no bytes and one with some, stored as they are: the pack CRCs are mixed, and
      the pack section does not read back. */
  lemma EmptyBesideFull(c: Codecs, rest: bytes)
    requires Copies(c)
    ensures AllMatched(EMPTY_AND_FULL)
    ensures var r := Run(c, Fresh(COPY), EMPTY_AND_FULL).records;
            && r.packSizes == [0, 1] && r.packCrcs == [0, c.crc([7])] && !P.Uniform(r.packCrcs)
            && P.GetPack(P.PutPack(0, r.packSizes, r.packCrcs)[1..] + rest) != Ok((P.Expected(0, r.packSizes, r.packCrcs), rest))
  {
    hide Splice, StageSizes, P.GetPack, P.PutPack, P.Expected, Packed;
    CopyPacks(c, []);
    CopyPacks(c, [7]);
    var st := Fresh(COPY);
    var st1 := Apply(c, st, EMPTY_AND_FULL[0]);
    var st2 := Apply(c, st1, EMPTY_AND_FULL[1]);
    TwoCalls(c, st, EMPTY_AND_FULL);
    assert st1.records.packCrcs == [0] && st1.records.packSizes == [0];
    assert st2.records.packCrcs == [0, c.crc([7])] && st2.records.packSizes == [0, 1];
    P.RoundTripIffUniform(0, st2.records.packSizes, st2.records.packCrcs, rest);
    assert st2.records.packCrcs[0] == 0 && st2.records.packCrcs[1] != 0;
    assert 0 in st2.records.packCrcs && st2.records.packCrcs[1] in st2.records.packCrcs;
  }

  lemma TwoCalls(c: Codecs, st: State, ops: seq<Op>)
    requires |ops| == 2 && AllMatched(ops)
    ensures Matched(ops[0]) && Matched(ops[1])
    ensures Run(c, st, ops) == Apply(c, Apply(c, st, ops[0]), ops[1])
  {
    hide Apply;
    assert ops[0] in ops && ops[1] in ops;
    assert ops[1..][0] == ops[1] && ops[1..][1..] == [];
    var st1 := Apply(c, st, ops[0]);
    assert Run(c, st1, ops[1..]) == Run(c, Apply(c, st1, ops[1]), []);
  }

  /** One file without bytes, then eight directories. */
  const ONE_OF_NINE := [PushEntry(EMPTY_FILE, None)] + seq(8, i => PushEntry(DIRECTORY, None))

  function Nine(): (r: seq<Entry>) {
    [EMPTY_FILE] + seq(8, i => DIRECTORY)
  }

  lemma {:induction false} DirectoriesRecorded(c: Codecs, st: State, ops: seq<Op>)
    requires forall op :: op in ops ==> op == PushEntry(DIRECTORY, None)
    ensures AllMatched(ops) && Run(c, st, ops).records.files == st.records.files + seq(|ops|, i => DIRECTORY)
    decreases |ops|
  {
    if ops == [] {
      assert st.records.files + [] == st.records.files;
    } else {
      assert ops[0] in ops && ops[0] == PushEntry(DIRECTORY, None);
      var st1 := Apply(c, st, ops[0]);
      assert forall op :: op in ops[1..] ==> op in ops;
      DirectoriesRecorded(c, st1, ops[1..]);
      assert [DIRECTORY] + seq(|ops| - 1, i => DIRECTORY) == seq(|ops|, i => DIRECTORY);
      assert ops == [ops[0]] + ops[1..];
      assert st.records.files + [DIRECTORY] + seq(|ops| - 1, i => DIRECTORY)
          == st.records.files + ([DIRECTORY] + seq(|ops| - 1, i => DIRECTORY));
    }
  }

  lemma {:induction false} AllStreamless(files: seq<Entry>)
    requires forall e :: e in files ==> !e.hasStream
    ensures Streamless(files) == files
  {
    if files != [] {
      assert files[0] in files;
      AllStreamless(files[1..]);
      assert [files[0]] + files[1..] == files;
    }
  }

  lemma {:induction false} TrimOne(f: seq<bool>)
    requires f != [] && f[0] && forall i :: 0 < i < |f| ==> !f[i]
    ensures Trim(f) == [true]
  {
    if |f| > 1 {
      TrimOne(f[..|f| - 1]);
    }
  }

  lemma NineRecorded(c: Codecs)
    ensures AllMatched(ONE_OF_NINE) && Run(c, Fresh(COPY), ONE_OF_NINE).records.files == Nine()
  {
    hide Run;
    var st1 := Apply(c, Fresh(COPY), ONE_OF_NINE[0]);
    assert ONE_OF_NINE[1..] == seq(8, i => PushEntry(DIRECTORY, None));
    DirectoriesRecorded(c, st1, ONE_OF_NINE[1..]);
    assert st1.records.files == [EMPTY_FILE];
    FirstCall(c, Fresh(COPY), ONE_OF_NINE);
  }

  lemma FirstCall(c: Codecs, st: State, ops: seq<Op>)
    requires ops != [] && Matched(ops[0]) && AllMatched(ops[1..])
    ensures AllMatched(ops) && Run(c, st, ops) == Run(c, Apply(c, st, ops[0]), ops[1..])
  {
    hide Matched, Apply;
    assert ops == [ops[0]] + ops[1..];
  }

  lemma FlagsOfNine()
    ensures |EmptyFileFlags(Nine())| == 9 && EmptyFileFlags(Nine())[0]
    ensures forall i :: 0 < i < 9 ==> !EmptyFileFlags(Nine())[i]
  {
    hide Streamless;
    AllStreamless(Nine());
  }

  /** Nine flags of which only the first is set take one byte, and nine bits take two. */
  lemma OutOfStep(d: seq<bool>)
    requires |d| == 9 && Trim(d) == [true] && true in d
    ensures !F.InStep(d)
  {
    hide Trim;
  }

  /** Nine entries without data of which only the first is a file: its bitmap takes one byte where
      the reader takes two, and the parser loses its place. */
  lemma EightDirectories(c: Codecs, t: Table, rest: bytes)
    requires t.emptyStream == F.StreamColumn(Nine())
    ensures AllMatched(ONE_OF_NINE) && Run(c, Fresh(COPY), ONE_OF_NINE).records.files == Nine()
    ensures var d := EmptyFileFlags(Nine());
            && |d| == 9 && Trim(d) == [true] && !F.InStep(d)
            && var r := GetProperty(K_EMPTY_FILE, AsU64(|BitSets.PackBits(Trim(d))|), t, BitSets.PackBits(Trim(d)) + rest);
               !(r.Ok? && r.value.1 == rest)
  {
    hide *;
    NineRecorded(c);
    FlagsOfNine();
    var d := EmptyFileFlags(Nine());
    TrimOne(d);
    assert d[0] in d;
    OutOfStep(d);
    F.EmptyFilesInStepIff(Nine(), t, rest);
  }
}
