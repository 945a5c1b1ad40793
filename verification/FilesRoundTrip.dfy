/** The file table read back is the file table written. */
module FilesRoundTrip {
  import opened Wire
  import opened Repeats
  import opened BitSets
  import opened SubStreams
  import opened FilesInfos
  import PackInfos
  import VarInt

  // ----- one section at a time

  /** A property the parser understands takes one turn of its loop. */
  lemma SectionStep(tag: byte, body: bytes, t: Table, t': Table, rest: bytes)
    requires tag != K_END
    requires GetProperty(tag, AsU64(|body|), t, body + rest) == Ok((t', rest))
    ensures GetProperties(t, PutSection(tag, body) + rest) == GetProperties(t', rest)
  {
    hide VarInt.Enc, VarInt.Dec, GetProperty;
    var s2 := body + rest;
    var s1 := VarInt.Enc(AsU64(|body|)) + s2;
    assert PutSection(tag, body) + rest == [tag] + s1;
    GetU8Cons(tag, s1);
    VarInt.RoundTrip(AsU64(|body|), s2);
  }

  lemma {:induction false} CountStreamless(files: seq<Entry>)
    ensures CountTrue(NoStream(files)) == |Streamless(files)|
  {
    if files != [] {
      CountStreamless(files[1..]);
      assert NoStream(files)[1..] == NoStream(files[1..]);
    }
  }

  lemma {:induction false} NoneSetCount(d: seq<bool>)
    requires true !in d
    ensures CountTrue(d) == 0
  {
    if d != [] {
      assert d[0] in d;
      NoneSetCount(d[1..]);
    }
  }

  /** The bitmap the writer grew by insertions fills as many bytes as the reader takes. */
  predicate InStep(d: seq<bool>) {
    true in d ==> BytesFor(|Trim(d)|) == BytesFor(|d|)
  }

  lemma TrimPads(d: seq<bool>)
    ensures Padded(Trim(d), |d|) == d
  {
  }

  lemma EmptyStreamsStep(files: seq<Entry>, t: Table, rest: bytes)
    requires |t.files| == |files| && t.emptyStream.None?
    ensures GetProperties(t, PutEmptyStreams(files) + rest)
         == GetProperties(t.(emptyStream := if true in NoStream(files) then Some(NoStream(files)) else None), rest)
  {
    hide GetProperties, PackBits, GetBits;
    var d := NoStream(files);
    if true in d {
      BitsRoundTrip(d, rest);
      SectionStep(K_EMPTY_STREAM, PackBits(d), t, t.(emptyStream := Some(d)), rest);
    } else {
      assert PutEmptyStreams(files) + rest == rest;
    }
  }

  /** The reader's `emptyStream` after the first section. */
  function StreamColumn(files: seq<Entry>): Option<seq<bool>> {
    if true in NoStream(files) then Some(NoStream(files)) else None
  }

  function Recorded(d: seq<bool>): Option<seq<bool>> {
    if true in d then Some(d) else None
  }

  lemma StreamlessKnown(files: seq<Entry>, d: seq<bool>)
    requires |d| == |Streamless(files)| && true in d
    ensures StreamColumn(files).Some? && CountTrue(StreamColumn(files).value) == |d|
  {
    CountStreamless(files);
    if true !in NoStream(files) {
      NoneSetCount(NoStream(files));
    }
  }

  /** The two bitmaps over streamless files. `tag` is the empty-file or the anti-item tag. */
  lemma TrimmedStep(files: seq<Entry>, tag: byte, d: seq<bool>, t: Table, rest: bytes)
    requires tag == K_EMPTY_FILE || tag == K_ANTI
    requires |t.files| == |files| && t.emptyStream == StreamColumn(files)
    requires |d| == |Streamless(files)| && InStep(d) && true in d
    ensures GetProperties(t, PutSection(tag, PackBits(Trim(d))) + rest)
         == GetProperties(if tag == K_EMPTY_FILE then t.(emptyFile := Some(d)) else t.(anti := Some(d)), rest)
  {
    hide GetProperties, PackBits, GetBits, CountTrue, StreamColumn, Trim;
    StreamlessKnown(files, d);
    PaddedRoundTrip(Trim(d), |d|, rest);
    TrimPads(d);
    SectionStep(tag, PackBits(Trim(d)), t,
                if tag == K_EMPTY_FILE then t.(emptyFile := Some(d)) else t.(anti := Some(d)), rest);
  }

  lemma EmptyFilesStep(files: seq<Entry>, t: Table, rest: bytes)
    requires |t.files| == |files| && t.emptyStream == StreamColumn(files)
    requires t.emptyFile.None? && InStep(EmptyFileFlags(files))
    ensures GetProperties(t, PutEmptyFiles(files) + rest)
         == GetProperties(t.(emptyFile := Recorded(EmptyFileFlags(files))), rest)
  {
    hide GetProperties, PackBits, Trim;
    if true in EmptyFileFlags(files) {
      TrimmedStep(files, K_EMPTY_FILE, EmptyFileFlags(files), t, rest);
    } else {
      assert PutEmptyFiles(files) + rest == rest;
    }
  }

  lemma AntiItemsStep(files: seq<Entry>, t: Table, rest: bytes)
    requires |t.files| == |files| && t.emptyStream == StreamColumn(files)
    requires t.anti.None? && InStep(AntiFlags(files))
    ensures GetProperties(t, PutAntiItems(files) + rest)
         == GetProperties(t.(anti := Recorded(AntiFlags(files))), rest)
  {
    hide GetProperties, PackBits, Trim;
    if true in AntiFlags(files) {
      TrimmedStep(files, K_ANTI, AntiFlags(files), t, rest);
    } else {
      assert PutAntiItems(files) + rest == rest;
    }
  }

  /** Outside that condition the reader does not stop where the empty-file bitmap ends:
      it stops there exactly when the two byte counts agree. */
  lemma EmptyFilesInStepIff(files: seq<Entry>, t: Table, rest: bytes)
    requires t.emptyStream == StreamColumn(files) && true in EmptyFileFlags(files)
    ensures var d := EmptyFileFlags(files);
            var r := GetProperty(K_EMPTY_FILE, AsU64(|PackBits(Trim(d))|), t, PackBits(Trim(d)) + rest);
            (r.Ok? && r.value.1 == rest) <==> InStep(d)
  {
    hide PackBits, GetBits, Trim, CountTrue;
    var d := EmptyFileFlags(files);
    StreamlessKnown(files, d);
    BitsInStep(Trim(d), |d|, rest);
  }

  /** The same of the anti-item bitmap, which the writer trims in the same way. */
  lemma AntiItemsInStepIff(files: seq<Entry>, t: Table, rest: bytes)
    requires t.emptyStream == StreamColumn(files) && true in AntiFlags(files)
    ensures var d := AntiFlags(files);
            var r := GetProperty(K_ANTI, AsU64(|PackBits(Trim(d))|), t, PackBits(Trim(d)) + rest);
            (r.Ok? && r.value.1 == rest) <==> InStep(d)
  {
    hide PackBits, GetBits, Trim, CountTrue;
    var d := AntiFlags(files);
    StreamlessKnown(files, d);
    BitsInStep(Trim(d), |d|, rest);
  }

  // ----- names

  /** A name can be stored when none of its units is zero. */
  predicate Storable(name: Name) {
    0 !in name
  }

  lemma U16RoundTrip(u: u16, rest: bytes)
    ensures GetU16(PutU16(u) + rest) == Ok((u, rest))
  {
    GetExactAppend(Le(u, 2), rest);
    assert Pow256(2) == 0x1_0000;
    LeSmall(u, 2);
  }

  lemma {:induction false} NameReads(name: Name, units: nat, rest: bytes)
    requires Storable(name) && units > |name|
    ensures GetName(units, PutName(name) + rest) == Ok((name, |name| + 1, rest))
  {
    hide GetU16, PutU16;
    if name == [] {
      EndReads(rest);
      assert PutName(name) == [0, 0];
    } else {
      var s1 := PutName(name[1..]) + rest;
      assert PutName(name) + rest == PutU16(name[0]) + s1;
      U16RoundTrip(name[0], s1);
      assert name[0] in name;
      NameReads(name[1..], units - 1, rest);
      assert [name[0]] + name[1..] == name;
    }
  }

  lemma EndReads(rest: bytes)
    ensures GetU16([0, 0] + rest) == Ok((0, rest))
  {
    assert Le(0, 2) == [0, 0];
    U16RoundTrip(0, rest);
  }

  function Units(names: seq<Name>): nat {
    if names == [] then 0 else |names[0]| + 1 + Units(names[1..])
  }

  lemma {:induction false} UnitsFit(names: seq<Name>)
    ensures |PutAll(PutName, names)| == 2 * Units(names)
  {
    if names != [] {
      NameLength(names[0]);
      UnitsFit(names[1..]);
    }
  }

  lemma {:induction false} NameLength(name: Name)
    ensures |PutAll(PutU16, name)| == 2 * |name|
  {
    if name != [] {
      NameLength(name[1..]);
    }
  }

  lemma NextName(count: nat, units: nat, s: bytes, name: Name, s1: bytes)
    requires count > 0 && units > |name| && GetName(units, s) == Ok((name, |name| + 1, s1))
    ensures GetNames(count, units, s) == match GetNames(count - 1, units - (|name| + 1), s1)
                                         case Err(e) => Err(e)
                                         case Ok(p) => Ok(([name] + p.0, p.1))
  {
    hide GetName;
  }

  lemma NamesStart(names: seq<Name>, rest: bytes)
    requires names != []
    ensures PutAll(PutName, names) + rest == PutName(names[0]) + (PutAll(PutName, names[1..]) + rest)
    ensures Units(names) == |names[0]| + 1 + Units(names[1..])
  {
    hide PutName;
    Cat2(PutName(names[0]), PutAll(PutName, names[1..]), rest);
  }

  lemma NoNames(rest: bytes)
    ensures GetNames(0, Units([]), PutAll(PutName, []) + rest) == Ok(([], rest))
  {
    assert PutAll(PutName, []) + rest == rest;
  }

  lemma {:induction false} NamesRead(names: seq<Name>, rest: bytes)
    requires forall n :: n in names ==> Storable(n)
    ensures GetNames(|names|, Units(names), PutAll(PutName, names) + rest) == Ok((names, rest))
  {
    hide GetName, PutName, Storable, GetNames, PutAll, Units;
    if names == [] {
      NoNames(rest);
    } else {
      var s1 := PutAll(PutName, names[1..]) + rest;
      NamesStart(names, rest);
      assert names[0] in names;
      NameReads(names[0], Units(names), s1);
      NextName(|names|, Units(names), PutName(names[0]) + s1, names[0], s1);
      NamesRead(names[1..], rest);
      assert [names[0]] + names[1..] == names;
    }
  }

  predicate NamesFit(files: seq<Entry>) {
    && (forall e :: e in files ==> Storable(e.name))
    && 1 + 2 * Units(Names(files)) < U64_LIMIT
  }

  lemma NamesStep(files: seq<Entry>, t: Table, rest: bytes)
    requires |t.files| == |files| && NamesFit(files)
    ensures GetProperties(t, PutNames(files) + rest)
         == GetProperties(t.(files := WithNames(t.files, Names(files))), rest)
  {
    hide GetProperties, GetNames, PutAll, Units, WithNames;
    var names := Names(files);
    var body := [0] + PutAll(PutName, names);
    UnitsFit(names);
    forall n | n in names
      ensures Storable(n)
    {
      var i :| 0 <= i < |names| && names[i] == n;
      assert files[i] in files;
    }
    NamesRead(names, rest);
    assert body + rest == [0] + (PutAll(PutName, names) + rest);
    GetU8Cons(0, PutAll(PutName, names) + rest);
    SectionStep(K_NAME, body, t, t.(files := WithNames(t.files, names)), rest);
  }

  // ----- times and attributes

  lemma ColumnReads<T(!new)>(e: T -> bytes, p: bytes -> Parsed<T>, d: seq<bool>, vs: seq<T>, olds: seq<T>, rest: bytes)
    requires |d| == |vs| == |olds|
    requires forall x :: x in vs ==> Reads(p, e(x), x)
    ensures GetColumn(p, |d|, olds, PutAllOrBits(d) + ([0] + PutDefined(e, d, vs)) + rest)
         == Ok(((d, Merged(d, vs, olds)), rest))
  {
    hide PutDefined, GetDefined, PackBits, GetBits;
    var s2 := PutDefined(e, d, vs) + rest;
    var s1 := [0] + s2;
    assert PutAllOrBits(d) + ([0] + PutDefined(e, d, vs)) + rest == PutAllOrBits(d) + s1;
    AllOrBitsRoundTrip(d, s1);
    GetU8Cons(0, s2);
    DefinedReads(e, p, d, vs, olds, rest);
  }

  lemma U64sRead(vs: seq<u64>)
    ensures forall x :: x in vs ==> Reads(GetU64, PutU64(x), x)
  {
    forall x | x in vs
      ensures Reads(GetU64, PutU64(x), x)
    {
      forall rest: bytes
        ensures GetU64(PutU64(x) + rest) == Ok((x, rest))
      {
        U64RoundTrip(x, rest);
      }
    }
  }

  /** The files with one stamp read from a column of `src`. */
  function Stamped(files: seq<Entry>, src: seq<Entry>, f: Stamp): (r: seq<Entry>)
    requires |files| == |src|
    ensures |r| == |files|
  {
    seq(|files|, i requires 0 <= i < |files| =>
      WithStamp(files[i], f, Has(src[i], f), if Has(src[i], f) then Value(src[i], f) else Value(files[i], f)))
  }

  /** No file has a value for `f`. */
  predicate Unstamped(files: seq<Entry>, f: Stamp) {
    forall i :: 0 <= i < |files| ==> !Has(files[i], f)
  }

  lemma StampsStep(src: seq<Entry>, f: Stamp, t: Table, rest: bytes)
    requires |t.files| == |src| && Unstamped(t.files, f)
    ensures GetProperties(t, PutStamps(src, f) + rest)
         == GetProperties(t.(files := Stamped(t.files, src, f)), rest)
  {
    hide GetProperties, GetColumn, PutAllOrBits, PutDefined;
    var d, vs, olds := HasColumn(src, f), ValueColumn(src, f), ValueColumn(t.files, f);
    if true in d {
      U64sRead(vs);
      ColumnReads(PutU64, GetU64, d, vs, olds, rest);
      var body := PutAllOrBits(d) + ([0] + PutDefined(PutU64, d, vs));
      assert WithStamps(t.files, f, d, Merged(d, vs, olds)) == Stamped(t.files, src, f);
      SectionStep(StampTag(f), body, t, t.(files := Stamped(t.files, src, f)), rest);
    } else {
      NothingStamped(t.files, src, f);
      assert PutStamps(src, f) + rest == rest;
    }
  }

  lemma NothingStamped(files: seq<Entry>, src: seq<Entry>, f: Stamp)
    requires |files| == |src| && Unstamped(files, f) && true !in HasColumn(src, f)
    ensures Stamped(files, src, f) == files
  {
    forall i | 0 <= i < |files|
      ensures Stamped(files, src, f)[i] == files[i]
    {
      assert HasColumn(src, f)[i] in HasColumn(src, f);
    }
  }

  function Attributed(files: seq<Entry>, src: seq<Entry>): (r: seq<Entry>)
    requires |files| == |src|
    ensures |r| == |files|
  {
    seq(|files|, i requires 0 <= i < |files| =>
      files[i].(hasAttributes := src[i].hasAttributes,
                attributes := if src[i].hasAttributes then src[i].attributes else files[i].attributes))
  }

  lemma AttributesStep(src: seq<Entry>, t: Table, rest: bytes)
    requires |t.files| == |src| && forall i :: 0 <= i < |src| ==> !t.files[i].hasAttributes
    ensures GetProperties(t, PutAttributes(src) + rest)
         == GetProperties(t.(files := Attributed(t.files, src)), rest)
  {
    hide GetProperties, GetColumn, PutAllOrBits, PutDefined;
    var d, vs, olds := HasAttributes(src), Attributes(src), Attributes(t.files);
    if true in d {
      forall x | x in vs
        ensures Reads(GetU32, PackInfos.PutU32(x), x)
      {
        PackInfos.U32Reads(x);
      }
      ColumnReads(PackInfos.PutU32, GetU32, d, vs, olds, rest);
      var body := PutAllOrBits(d) + ([0] + PutDefined(PackInfos.PutU32, d, vs));
      assert WithAttributes(t.files, d, Merged(d, vs, olds)) == Attributed(t.files, src);
      SectionStep(K_WIN_ATTRIBUTES, body, t, t.(files := Attributed(t.files, src)), rest);
    } else {
      NothingAttributed(t.files, src);
      assert PutAttributes(src) + rest == rest;
    }
  }

  lemma NothingAttributed(files: seq<Entry>, src: seq<Entry>)
    requires |files| == |src| && true !in HasAttributes(src)
    requires forall i :: 0 <= i < |src| ==> !files[i].hasAttributes
    ensures Attributed(files, src) == files
  {
    forall i | 0 <= i < |files|
      ensures Attributed(files, src)[i] == files[i]
    {
      assert HasAttributes(src)[i] in HasAttributes(src);
    }
  }

  // ----- all sections together

  /** What the properties alone say about a file. */
  function Plain(e: Entry): Entry {
    NO_ENTRY.(name := e.name,
              hasCTime := e.hasCTime, cTime := if e.hasCTime then e.cTime else 0,
              hasATime := e.hasATime, aTime := if e.hasATime then e.aTime else 0,
              hasMTime := e.hasMTime, mTime := if e.hasMTime then e.mTime else 0,
              hasAttributes := e.hasAttributes, attributes := if e.hasAttributes then e.attributes else 0)
  }

  function Plains(files: seq<Entry>): (r: seq<Entry>)
    ensures |r| == |files|
  {
    seq(|files|, i requires 0 <= i < |files| => Plain(files[i]))
  }

  function FinalTable(files: seq<Entry>): Table {
    Table(Plains(files), StreamColumn(files), Recorded(EmptyFileFlags(files)), Recorded(AntiFlags(files)))
  }

  function Named(files: seq<Entry>): (r: seq<Entry>)
    ensures |r| == |files|
  {
    seq(|files|, i requires 0 <= i < |files| => NO_ENTRY.(name := files[i].name))
  }

  lemma ColumnsMakePlain(files: seq<Entry>)
    ensures WithNames(NewTable(|files|).files, Names(files)) == Named(files)
    ensures Unstamped(Named(files), CTime)
    ensures Unstamped(Stamped(Named(files), files, CTime), ATime)
    ensures Unstamped(Stamped(Stamped(Named(files), files, CTime), files, ATime), MTime)
    ensures var fs := Stamped(Stamped(Stamped(Named(files), files, CTime), files, ATime), files, MTime);
            (forall i :: 0 <= i < |fs| ==> !fs[i].hasAttributes) && Attributed(fs, files) == Plains(files)
  {
  }

  /** The three bitmaps over streamless files, in the order they are written. */
  lemma BitmapsRead(files: seq<Entry>, rest: bytes)
    requires InStep(EmptyFileFlags(files)) && InStep(AntiFlags(files))
    ensures GetProperties(NewTable(|files|), PutEmptyStreams(files) + (PutEmptyFiles(files) + (PutAntiItems(files) + rest)))
         == GetProperties(Table(NewTable(|files|).files, StreamColumn(files), Recorded(EmptyFileFlags(files)),
                                Recorded(AntiFlags(files))), rest)
  {
    hide GetProperties, PutEmptyStreams, PutEmptyFiles, PutAntiItems, InStep;
    var t := NewTable(|files|);
    var s2 := PutAntiItems(files) + rest;
    EmptyStreamsStep(files, t, PutEmptyFiles(files) + s2);
    EmptyFilesStep(files, t.(emptyStream := StreamColumn(files)), s2);
    AntiItemsStep(files, t.(emptyStream := StreamColumn(files), emptyFile := Recorded(EmptyFileFlags(files))), rest);
  }

  /** Names, times and attributes, in the order they are written. */
  lemma ColumnsRead(files: seq<Entry>, t: Table, rest: bytes)
    requires NamesFit(files) && t.files == NewTable(|files|).files
    ensures GetProperties(t, PutNames(files) + (PutStamps(files, CTime) + (PutStamps(files, ATime)
              + (PutStamps(files, MTime) + (PutAttributes(files) + rest)))))
         == GetProperties(t.(files := Plains(files)), rest)
  {
    hide GetProperties, PutNames, PutStamps, PutAttributes, Stamped, Attributed, Plains, NamesFit, Unstamped;
    ColumnsMakePlain(files);
    var s5 := PutAttributes(files) + rest;
    var s4 := PutStamps(files, MTime) + s5;
    var s3 := PutStamps(files, ATime) + s4;
    var f1 := Stamped(Named(files), files, CTime);
    var f2 := Stamped(f1, files, ATime);
    var f3 := Stamped(f2, files, MTime);
    NamesStep(files, t, PutStamps(files, CTime) + s3);
    StampsStep(files, CTime, t.(files := Named(files)), s3);
    StampsStep(files, ATime, t.(files := f1), s4);
    StampsStep(files, MTime, t.(files := f2), s5);
    AttributesStep(files, t.(files := f3), rest);
  }

  predicate TableFits(files: seq<Entry>) {
    && |files| < U64_LIMIT
    && NamesFit(files)
    && InStep(EmptyFileFlags(files))
    && InStep(AntiFlags(files))
  }

  lemma PropertiesRead(files: seq<Entry>, rest: bytes)
    requires TableFits(files)
    ensures GetProperties(NewTable(|files|), PutProperties(files) + rest) == Ok((FinalTable(files), rest))
  {
    hide GetProperties, PutEmptyStreams, PutEmptyFiles, PutAntiItems, PutNames, PutStamps, PutAttributes, NamesFit, InStep, NewTable;
    var end := [K_END] + rest;
    var cols := PutNames(files) + (PutStamps(files, CTime) + (PutStamps(files, ATime)
                  + (PutStamps(files, MTime) + (PutAttributes(files) + end))));
    PropertiesParts(files, rest);
    BitmapsRead(files, cols);
    ColumnsRead(files, Table(NewTable(|files|).files, StreamColumn(files), Recorded(EmptyFileFlags(files)),
                             Recorded(AntiFlags(files))), end);
    EndOfProperties(FinalTable(files), rest);
  }

  lemma EndOfProperties(t: Table, rest: bytes)
    ensures GetProperties(t, [K_END] + rest) == Ok((t, rest))
  {
    GetU8Cons(K_END, rest);
  }

  lemma PropertiesParts(files: seq<Entry>, rest: bytes)
    ensures PutProperties(files) + rest
         == PutEmptyStreams(files) + (PutEmptyFiles(files) + (PutAntiItems(files) + (PutNames(files)
              + (PutStamps(files, CTime) + (PutStamps(files, ATime) + (PutStamps(files, MTime)
              + (PutAttributes(files) + ([K_END] + rest))))))))
  {
    hide PutEmptyStreams, PutEmptyFiles, PutAntiItems, PutNames, PutStamps, PutAttributes;
    Cat8([], PutEmptyStreams(files), PutEmptyFiles(files), PutAntiItems(files), PutNames(files),
         PutStamps(files, CTime), PutStamps(files, ATime), PutStamps(files, MTime), PutAttributes(files) + [K_END]);
    var a, b, c, d := PutEmptyStreams(files), PutEmptyFiles(files), PutAntiItems(files), PutNames(files);
    var e, f, g, h := PutStamps(files, CTime), PutStamps(files, ATime), PutStamps(files, MTime), PutAttributes(files);
    Nest8(a, b, c, d, e, f, g, h, [K_END], rest);
  }

  lemma Nest8(a: bytes, b: bytes, c: bytes, d: bytes, e: bytes, f: bytes, g: bytes, h: bytes, k: bytes, rest: bytes)
    ensures (a + (b + (c + (d + (e + (f + (g + (h + k)))))))) + rest
         == a + (b + (c + (d + (e + (f + (g + (h + (k + rest))))))))
  {
    Cat2(h, k, rest);
    Cat2(g, h + k, rest);
    Cat2(f, g + (h + k), rest);
    Cat2(e, f + (g + (h + k)), rest);
    Cat2(d, e + (f + (g + (h + k))), rest);
    Cat2(c, d + (e + (f + (g + (h + k)))), rest);
    Cat2(b, c + (d + (e + (f + (g + (h + k))))), rest);
    Cat2(a, b + (c + (d + (e + (f + (g + (h + k)))))), rest);
  }

  // ----- sizes and CRCs

  function WithStreams(files: seq<Entry>): seq<Entry> {
    if files == [] then []
    else (if files[0].hasStream then [files[0]] else []) + WithStreams(files[1..])
  }

  function StreamSizes(files: seq<Entry>): seq<u64> {
    var es := WithStreams(files);
    seq(|es|, i requires 0 <= i < |es| => es[i].size)
  }

  function StreamCrcs(files: seq<Entry>): seq<u32> {
    var es := WithStreams(files);
    seq(|es|, i requires 0 <= i < |es| => es[i].crc)
  }

  /** The sub-stream table starts with the files that have data, in order. */
  predicate Describes(sub: SubStreams, files: seq<Entry>) {
    && StreamSizes(files) <= sub.unpackSizes
    && StreamCrcs(files) <= sub.crcs
    && |sub.hasCrc| == |sub.crcs| == |sub.unpackSizes| && false !in sub.hasCrc
  }

  /** A file as the reader gets it back. Its anti-item flag comes back inverted when it has
      no data, because the writer marks the files that are not anti-items. */
  function Recovered(e: Entry): Entry {
    if e.hasStream then Plain(e).(hasStream := true, hasCrc := true, crc := e.crc, size := e.size)
    else Plain(e).(isDirectory := e.isDirectory, isAnti := !e.isAnti)
  }

  function AllRecovered(files: seq<Entry>): (r: seq<Entry>)
    ensures |r| == |files|
  {
    seq(|files|, i requires 0 <= i < |files| => Recovered(files[i]))
  }

  lemma {:induction false} FilterSplit(files: seq<Entry>, i: nat)
    requires i <= |files|
    ensures Streamless(files) == Streamless(files[..i]) + Streamless(files[i..])
    ensures WithStreams(files) == WithStreams(files[..i]) + WithStreams(files[i..])
  {
    if i > 0 {
      FilterSplit(files[1..], i - 1);
      assert files[..i][1..] == files[1..][..i - 1] && files[1..][i - 1..] == files[i..];
    } else {
      assert files[i..] == files;
    }
  }

  lemma CountSnoc(files: seq<Entry>, i: nat)
    requires i < |files|
    ensures |WithStreams(files[..i + 1])| == |WithStreams(files[..i])| + (if files[i].hasStream then 1 else 0)
    ensures |Streamless(files[..i + 1])| == |Streamless(files[..i])| + (if files[i].hasStream then 0 else 1)
  {
    FilterSplit(files[..i + 1], i);
    assert files[..i + 1][..i] == files[..i] && files[..i + 1][i..] == [files[i]];
    assert Streamless([files[i]]) == (if files[i].hasStream then [] else [files[i]]) + Streamless([]);
    assert WithStreams([files[i]]) == (if files[i].hasStream then [files[i]] else []) + WithStreams([]);
  }

  lemma NthFiltered(files: seq<Entry>, i: nat)
    requires i < |files|
    ensures var k := |WithStreams(files[..i])|;
            files[i].hasStream ==> k < |WithStreams(files)| && WithStreams(files)[k] == files[i]
    ensures var k := |Streamless(files[..i])|;
            !files[i].hasStream ==> k < |Streamless(files)| && Streamless(files)[k] == files[i]
  {
    FilterSplit(files, i);
    assert files[i..][0] == files[i];
  }

  lemma RecordedFlag(d: seq<bool>, k: nat)
    requires k < |d|
    ensures IsSet(Recorded(d), k) == d[k]
  {
    if d[k] {
      assert d[k] in d;
    }
  }

  lemma AttachOne(files: seq<Entry>, sub: SubStreams, i: nat)
    requires i < |files| && Describes(sub, files)
    ensures IsSet(FinalTable(files).emptyStream, i) == !files[i].hasStream
    ensures files[i].hasStream ==> WithData(Plain(files[i]), sub, |WithStreams(files[..i])|) == Ok(Recovered(files[i]))
    ensures !files[i].hasStream ==>
      WithoutData(Plain(files[i]), FinalTable(files), |Streamless(files[..i])|) == Recovered(files[i])
  {
    hide Streamless, WithStreams;
    RecordedFlag(NoStream(files), i);
    NthFiltered(files, i);
    if files[i].hasStream {
      var k := |WithStreams(files[..i])|;
      assert sub.hasCrc[k] in sub.hasCrc;
    } else {
      var k := |Streamless(files[..i])|;
      RecordedFlag(EmptyFileFlags(files), k);
      RecordedFlag(AntiFlags(files), k);
    }
  }

  lemma {:induction false} AttachFrom(files: seq<Entry>, sub: SubStreams, i: nat)
    requires i <= |files| && Describes(sub, files)
    ensures Attach(FinalTable(files), Some(sub), i, |WithStreams(files[..i])|, |Streamless(files[..i])|)
         == Ok(AllRecovered(files)[i..])
    decreases |files| - i
  {
    hide Streamless, WithStreams, WithData, WithoutData, Recovered, Plain, IsSet, Describes, Recorded, StreamColumn;
    if i == |files| {
      assert AllRecovered(files)[i..] == [];
    } else {
      AttachFrom(files, sub, i + 1);
      CountSnoc(files, i);
      AttachOne(files, sub, i);
      assert AllRecovered(files)[i..] == [Recovered(files[i])] + AllRecovered(files)[i + 1..];
    }
  }

  /** Reading the file table gives back every file, and nothing after it is touched. */
  lemma RoundTrip(files: seq<Entry>, sub: SubStreams, rest: bytes)
    requires TableFits(files) && Describes(sub, files)
    ensures GetFilesInfo(Some(sub), PutFilesInfo(files)[1..] + rest) == Ok((AllRecovered(files), rest))
  {
    hide GetProperties, PutProperties, VarInt.Enc, VarInt.Dec, NamesFit, InStep, Attach, Describes, AllRecovered, NewTable, FinalTable;
    var n := |files|;
    assert PutFilesInfo(files)[1..] + rest == VarInt.Enc(n) + (PutProperties(files) + rest);
    VarInt.RoundTrip(n, PutProperties(files) + rest);
    PropertiesRead(files, rest);
    AttachFrom(files, sub, 0);
    assert files[..0] == [] && AllRecovered(files)[0..] == AllRecovered(files);
  }

  // ----- when the sub-stream table does not cover the files

  lemma FlagKept(files: seq<Entry>, i: nat)
    requires i < |files|
    ensures IsSet(FinalTable(files).emptyStream, i) == !files[i].hasStream
  {
    RecordedFlag(NoStream(files), i);
  }

  lemma {:induction false} AttachesIff(files: seq<Entry>, sub: SubStreams, i: nat)
    requires i <= |files| && |sub.crcs| == |sub.unpackSizes|
    requires |WithStreams(files[..i])| <= |sub.unpackSizes|
    ensures var r := Attach(FinalTable(files), Some(sub), i, |WithStreams(files[..i])|, |Streamless(files[..i])|);
            (r.Ok? <==> |WithStreams(files)| <= |sub.unpackSizes|) && (r.Err? ==> r == Err(Panic))
    decreases |files| - i
  {
    hide Streamless, WithStreams, IsSet, Recorded, StreamColumn;
    if i == |files| {
      assert files[..i] == files;
    } else {
      FlagKept(files, i);
      CountSnoc(files, i);
      if |WithStreams(files[..i + 1])| <= |sub.unpackSizes| {
        AttachesIff(files, sub, i + 1);
      } else {
        StreamsGrow(files, i + 1);
      }
    }
  }

  lemma StreamsGrow(files: seq<Entry>, i: nat)
    requires i <= |files|
    ensures |WithStreams(files[..i])| <= |WithStreams(files)|
  {
    FilterSplit(files, i);
  }

  /** A file table can be read if and only if there is a sub-stream for every file that is
      flagged as having data; if not, the program stops on an index out of range. */
  lemma ReadsIffCovered(files: seq<Entry>, sub: SubStreams, rest: bytes)
    requires TableFits(files) && |sub.crcs| == |sub.unpackSizes|
    ensures var r := GetFilesInfo(Some(sub), PutFilesInfo(files)[1..] + rest);
            (r.Ok? <==> |WithStreams(files)| <= |sub.unpackSizes|) && (r.Err? ==> r == Err(Panic))
  {
    hide GetProperties, PutProperties, VarInt.Enc, VarInt.Dec, NamesFit, InStep, Attach, NewTable, FinalTable;
    var n := |files|;
    assert PutFilesInfo(files)[1..] + rest == VarInt.Enc(n) + (PutProperties(files) + rest);
    VarInt.RoundTrip(n, PutProperties(files) + rest);
    PropertiesRead(files, rest);
    assert files[..0] == [];
    AttachesIff(files, sub, 0);
  }
}
