/** The file table of the header: a list of tagged properties, each holding one attribute
    of all the files. */
module FilesInfos {
  import opened Wire
  import opened Repeats
  import opened BitSets
  import opened SubStreams
  import PackInfos
  import VarInt

  type Name = seq<u16>

  datatype Entry = Entry(
    name: Name,
    hasStream: bool,
    isDirectory: bool,
    isAnti: bool,
    hasCTime: bool, cTime: u64,
    hasATime: bool, aTime: u64,
    hasMTime: bool, mTime: u64,
    hasStartPos: bool, startPos: u64,
    hasAttributes: bool, attributes: u32,
    hasCrc: bool, crc: u32,
    size: u64)

  const NO_ENTRY := Entry([], false, false, false, false, 0, false, 0, false, 0, false, 0, false, 0, false, 0, 0)

  /** The 64-bit values a file may or may not have. */
  datatype Stamp = CTime | ATime | MTime | StartPos

  function Has(e: Entry, f: Stamp): bool {
    match f
    case CTime => e.hasCTime
    case ATime => e.hasATime
    case MTime => e.hasMTime
    case StartPos => e.hasStartPos
  }

  function Value(e: Entry, f: Stamp): u64 {
    match f
    case CTime => e.cTime
    case ATime => e.aTime
    case MTime => e.mTime
    case StartPos => e.startPos
  }

  function WithStamp(e: Entry, f: Stamp, has: bool, v: u64): Entry {
    match f
    case CTime => e.(hasCTime := has, cTime := v)
    case ATime => e.(hasATime := has, aTime := v)
    case MTime => e.(hasMTime := has, mTime := v)
    case StartPos => e.(hasStartPos := has, startPos := v)
  }

  function StampTag(f: Stamp): byte {
    match f
    case CTime => K_C_TIME
    case ATime => K_A_TIME
    case MTime => K_M_TIME
    case StartPos => K_START_POS
  }

  function AsU64(n: nat): u64 {
    n % U64_LIMIT
  }

  // ----- columns of the table

  function NoStream(files: seq<Entry>): (d: seq<bool>)
    ensures |d| == |files|
  {
    seq(|files|, i requires 0 <= i < |files| => !files[i].hasStream)
  }

  function Streamless(files: seq<Entry>): seq<Entry> {
    if files == [] then []
    else (if files[0].hasStream then [] else [files[0]]) + Streamless(files[1..])
  }

  function EmptyFileFlags(files: seq<Entry>): (d: seq<bool>) {
    var es := Streamless(files);
    seq(|es|, i requires 0 <= i < |es| => !es[i].isDirectory)
  }

  /** What the writer records in the anti-item bitmap. */
  function AntiFlags(files: seq<Entry>): (d: seq<bool>) {
    var es := Streamless(files);
    seq(|es|, i requires 0 <= i < |es| => !es[i].isAnti)
  }

  function HasColumn(files: seq<Entry>, f: Stamp): (d: seq<bool>)
    ensures |d| == |files|
  {
    seq(|files|, i requires 0 <= i < |files| => Has(files[i], f))
  }

  function ValueColumn(files: seq<Entry>, f: Stamp): (v: seq<u64>)
    ensures |v| == |files|
  {
    seq(|files|, i requires 0 <= i < |files| => Value(files[i], f))
  }

  function HasAttributes(files: seq<Entry>): (d: seq<bool>)
    ensures |d| == |files|
  {
    seq(|files|, i requires 0 <= i < |files| => files[i].hasAttributes)
  }

  function Attributes(files: seq<Entry>): (v: seq<u32>)
    ensures |v| == |files|
  {
    seq(|files|, i requires 0 <= i < |files| => files[i].attributes)
  }

  function Names(files: seq<Entry>): (v: seq<Name>)
    ensures |v| == |files|
  {
    seq(|files|, i requires 0 <= i < |files| => files[i].name)
  }

  /** The flags up to the last one set: what a bit set grown by insertions holds. */
  function Trim(f: seq<bool>): (t: seq<bool>)
    ensures |t| <= |f| && t == f[..|t|]
    ensures forall i :: |t| <= i < |f| ==> !f[i]
  {
    if f == [] || f[|f| - 1] then f else Trim(f[..|f| - 1])
  }

  // ----- the writer's sections

  function PutSection(tag: byte, body: bytes): bytes {
    [tag] + (VarInt.Enc(AsU64(|body|)) + body)
  }

  function PutEmptyStreams(files: seq<Entry>): bytes {
    if true in NoStream(files) then PutSection(K_EMPTY_STREAM, PackBits(NoStream(files))) else []
  }

  function PutEmptyFiles(files: seq<Entry>): bytes {
    if true in EmptyFileFlags(files) then PutSection(K_EMPTY_FILE, PackBits(Trim(EmptyFileFlags(files)))) else []
  }

  function PutAntiItems(files: seq<Entry>): bytes {
    if true in AntiFlags(files) then PutSection(K_ANTI, PackBits(Trim(AntiFlags(files)))) else []
  }

  function PutU16(u: u16): bytes {
    Le(u, 2)
  }

  function PutName(name: Name): bytes {
    PutAll(PutU16, name) + [0, 0]
  }

  function PutNames(files: seq<Entry>): bytes {
    PutSection(K_NAME, [0] + PutAll(PutName, Names(files)))
  }

  function PutU64(v: u64): bytes {
    Le(v, 8)
  }

  /** A bitmap of defined values, a zero byte, and the values. */
  function PutColumn<A>(tag: byte, e: A -> bytes, d: seq<bool>, vs: seq<A>): bytes
    requires |d| == |vs|
  {
    if true in d then PutSection(tag, PutAllOrBits(d) + ([0] + PutDefined(e, d, vs))) else []
  }

  function PutStamps(files: seq<Entry>, f: Stamp): bytes {
    PutColumn(StampTag(f), PutU64, HasColumn(files, f), ValueColumn(files, f))
  }

  function PutAttributes(files: seq<Entry>): bytes {
    PutColumn(K_WIN_ATTRIBUTES, PackInfos.PutU32, HasAttributes(files), Attributes(files))
  }

  function PutFilesInfo(files: seq<Entry>): bytes {
    [K_FILES_INFO] + (VarInt.Enc(AsU64(|files|)) + PutProperties(files))
  }

  function PutProperties(files: seq<Entry>): bytes {
    PutEmptyStreams(files) + (PutEmptyFiles(files) + (PutAntiItems(files) + (PutNames(files)
      + (PutStamps(files, CTime) + (PutStamps(files, ATime) + (PutStamps(files, MTime)
      + (PutAttributes(files) + [K_END])))))))
  }

  // ----- the reader's property loop

  datatype Table = Table(
    files: seq<Entry>,
    emptyStream: Option<seq<bool>>,
    emptyFile: Option<seq<bool>>,
    anti: Option<seq<bool>>)

  function CountTrue(d: seq<bool>): nat {
    if d == [] then 0 else (if d[0] then 1 else 0) + CountTrue(d[1..])
  }

  function GetU16(s: bytes): Parsed<u16> {
    var (b, rest) :- GetExact(s, 2);
    assert FromLe(b) < Pow256(2) == 0x1_0000;
    Ok((FromLe(b), rest))
  }

  /** One name: units up to a zero one, or to the end of the `units` there are. */
  function GetName(units: nat, s: bytes): (r: Result<(Name, nat, bytes)>)
    ensures r.Ok? ==> r.value.1 <= units && |r.value.2| + 2 * r.value.1 == |s|
    ensures r.Ok? && units > 0 ==> r.value.1 > 0
  {
    if units == 0 then Ok(([], 0, s))
    else
      var (u, s1) :- GetU16(s);
      if u == 0 then Ok(([], 1, s1))
      else
        var (name, used, s2) :- GetName(units - 1, s1);
        Ok(([u] + name, used + 1, s2))
  }

  function GetNames(count: nat, units: nat, s: bytes): (r: Parsed<seq<Name>>)
    ensures r.Ok? ==> |r.value.0| == count && |r.value.1| <= |s|
    decreases units
  {
    if units == 0 then (if count == 0 then Ok(([], s)) else Err(NameCount))
    else
      var (name, used, s1) :- GetName(units, s);
      if count == 0 then Err(Panic)
      else
        var (names, s2) :- GetNames(count - 1, units - used, s1);
        Ok(([name] + names, s2))
  }

  function GetNameTable(count: nat, size: u64, s: bytes): (r: Parsed<seq<Name>>)
    ensures r.Ok? ==> |r.value.0| == count && |r.value.1| <= |s|
  {
    var (external, s1) :- GetU8(s);
    if external != 0 then Err(External)
    else if size == 0 then Err(Panic)
    else if (size - 1) % 2 != 0 then Err(NameLength)
    else GetNames(count, (size - 1) / 2, s1)
  }

  function GetColumn<T>(p: bytes -> Parsed<T>, n: nat, olds: seq<T>, s: bytes): (r: Parsed<(seq<bool>, seq<T>)>)
    requires |olds| == n
    ensures r.Ok? ==> |r.value.0.0| == |r.value.0.1| == n
  {
    var (d, s1) :- GetAllOrBits(s, n);
    var (external, s2) :- GetU8(s1);
    if external != 0 then Err(External)
    else
      var (vs, s3) :- GetDefined(p, d, olds, s2);
      Ok(((d, vs), s3))
  }

  function WithStamps(files: seq<Entry>, f: Stamp, d: seq<bool>, vs: seq<u64>): (r: seq<Entry>)
    requires |files| == |d| == |vs|
    ensures |r| == |files|
  {
    seq(|files|, i requires 0 <= i < |files| => WithStamp(files[i], f, d[i], vs[i]))
  }

  function WithAttributes(files: seq<Entry>, d: seq<bool>, vs: seq<u32>): (r: seq<Entry>)
    requires |files| == |d| == |vs|
    ensures |r| == |files|
  {
    seq(|files|, i requires 0 <= i < |files| => files[i].(hasAttributes := d[i], attributes := vs[i]))
  }

  function WithNames(files: seq<Entry>, names: seq<Name>): (r: seq<Entry>)
    requires |files| == |names|
    ensures |r| == |files|
  {
    seq(|files|, i requires 0 <= i < |files| => files[i].(name := names[i]))
  }

  /** A relative seek forward; past the end nothing is left to read. */
  function GetSkip(size: u64, s: bytes): (r: Parsed<()>)
    ensures r.Ok? ==> |r.value.1| <= |s|
  {
    if size >= 0x8000_0000_0000_0000 then Err(SeekBeforeStart)
    else Ok(((), if size <= |s| then s[size..] else []))
  }

  function GetStamps(t: Table, f: Stamp, s: bytes): Parsed<Table> {
    var (dv, s1) :- GetColumn(GetU64, |t.files|, ValueColumn(t.files, f), s);
    Ok((t.(files := WithStamps(t.files, f, dv.0, dv.1)), s1))
  }

  function GetAttributes(t: Table, s: bytes): Parsed<Table> {
    var (dv, s1) :- GetColumn(GetU32, |t.files|, Attributes(t.files), s);
    Ok((t.(files := WithAttributes(t.files, dv.0, dv.1)), s1))
  }

  /** The body of one property. */
  function GetProperty(tag: byte, size: u64, t: Table, s: bytes): Parsed<Table> {
    if tag == K_EMPTY_STREAM then
      var (d, s1) :- GetBits(s, |t.files|);
      Ok((t.(emptyStream := Some(d)), s1))
    else if tag == K_EMPTY_FILE then
      if t.emptyStream.None? then Err(EmptyStreamMissing)
      else
        var (d, s1) :- GetBits(s, CountTrue(t.emptyStream.value));
        Ok((t.(emptyFile := Some(d)), s1))
    else if tag == K_ANTI then
      if t.emptyStream.None? then Err(EmptyStreamMissing)
      else
        var (d, s1) :- GetBits(s, CountTrue(t.emptyStream.value));
        Ok((t.(anti := Some(d)), s1))
    else if tag == K_NAME then
      var (names, s1) :- GetNameTable(|t.files|, size, s);
      Ok((t.(files := WithNames(t.files, names)), s1))
    else if tag == K_C_TIME then GetStamps(t, CTime, s)
    else if tag == K_A_TIME then GetStamps(t, ATime, s)
    else if tag == K_M_TIME then GetStamps(t, MTime, s)
    else if tag == K_WIN_ATTRIBUTES then GetAttributes(t, s)
    else if tag == K_START_POS then GetStamps(t, StartPos, s)
    else
      var (_, s1) :- GetSkip(size, s);
      Ok((t, s1))
  }

  lemma {:induction false} DefinedShrinks<T>(p: bytes -> Parsed<T>, d: seq<bool>, olds: seq<T>, s: bytes)
    requires |d| == |olds|
    requires forall x: bytes :: p(x).Ok? ==> |p(x).value.1| <= |x|
    ensures GetDefined(p, d, olds, s).Ok? ==> |GetDefined(p, d, olds, s).value.1| <= |s|
  {
    if d != [] {
      var first := if d[0] then p(s) else Ok((olds[0], s));
      if first.Ok? {
        DefinedShrinks(p, d[1..], olds[1..], first.value.1);
      }
    }
  }

  /** A property never gives bytes back, so the loop over them ends. */
  lemma PropertyShrinks(tag: byte, size: u64, t: Table, s: bytes)
    ensures var r := GetProperty(tag, size, t, s);
            r.Ok? ==> |r.value.1| <= |s| && |r.value.0.files| == |t.files|
  {
    hide GetNameTable, FromLe, GetBits, GetStamps, GetAttributes;
    BitsShrink(s, |t.files|);
    if t.emptyStream.Some? {
      BitsShrink(s, CountTrue(t.emptyStream.value));
    }
    StampsShrink(t, CTime, s);
    StampsShrink(t, ATime, s);
    StampsShrink(t, MTime, s);
    StampsShrink(t, StartPos, s);
    AttributesShrink(t, s);
  }

  lemma AttributesShrink(t: Table, s: bytes)
    ensures var r := GetAttributes(t, s);
            r.Ok? ==> |r.value.1| <= |s| && |r.value.0.files| == |t.files|
  {
    hide FromLe;
    ColumnShrinks(GetU32, |t.files|, Attributes(t.files), s);
  }

  lemma BitsShrink(s: bytes, n: nat)
    ensures GetBits(s, n).Ok? ==> |GetBits(s, n).value.1| <= |s|
  {
  }

  lemma ColumnShrinks<T>(p: bytes -> Parsed<T>, n: nat, olds: seq<T>, s: bytes)
    requires |olds| == n
    requires forall x: bytes :: p(x).Ok? ==> |p(x).value.1| <= |x|
    ensures GetColumn(p, n, olds, s).Ok? ==> |GetColumn(p, n, olds, s).value.1| <= |s|
  {
    var d := GetAllOrBits(s, n);
    if d.Ok? {
      if s[0] == 0 {
        BitsShrink(s[1..], n);
      }
      if d.value.1 != [] {
        DefinedShrinks(p, d.value.0, olds, d.value.1[1..]);
      }
    }
  }

  lemma StampsShrink(t: Table, f: Stamp, s: bytes)
    ensures var r := GetStamps(t, f, s);
            r.Ok? ==> |r.value.1| <= |s| && |r.value.0.files| == |t.files|
  {
    hide FromLe;
    ColumnShrinks(GetU64, |t.files|, ValueColumn(t.files, f), s);
  }

  lemma VarShrinks(s: bytes)
    ensures VarInt.Dec(s).Ok? ==> |VarInt.Dec(s).value.1| < |s|
  {
  }

  /** Properties up to the end tag. */
  function GetProperties(t: Table, s: bytes): Parsed<Table>
    decreases |s|
  {
    var (tag, s1) :- GetU8(s);
    if tag == K_END then Ok((t, s1))
    else
      VarShrinks(s1);
      var (size, s2) :- VarInt.Dec(s1);
      PropertyShrinks(tag, size, t, s2);
      var (t2, s3) :- GetProperty(tag, size, t, s2);
      GetProperties(t2, s3)
  }

  // ----- attaching sizes and CRCs

  predicate IsSet(d: Option<seq<bool>>, i: nat) {
    d.Some? && i < |d.value| && d.value[i]
  }

  /** Entry `e`, number `k` of those with data, as the sub-stream table describes it. */
  function WithData(e: Entry, sub: SubStreams, k: nat): Result<Entry> {
    if k < |sub.crcs| && k < |sub.unpackSizes| then
      Ok(e.(hasStream := true, isDirectory := false, isAnti := false,
            hasCrc := k < |sub.hasCrc| && sub.hasCrc[k], crc := sub.crcs[k], size := sub.unpackSizes[k]))
    else Err(Panic)
  }

  /** Entry `e`, number `k` of those without data. */
  function WithoutData(e: Entry, t: Table, k: nat): Entry {
    e.(hasStream := false, isDirectory := !IsSet(t.emptyFile, k), isAnti := IsSet(t.anti, k), hasCrc := false, size := 0)
  }

  function Attach(t: Table, sub: Option<SubStreams>, i: nat, full: nat, empty: nat): (r: Result<seq<Entry>>)
    requires i <= |t.files|
    ensures r.Ok? ==> |r.value| == |t.files| - i
    decreases |t.files| - i
  {
    if i == |t.files| then Ok([])
    else if !IsSet(t.emptyStream, i) then
      if sub.None? then Err(NoSubStreams)
      else
        var e :- WithData(t.files[i], sub.value, full);
        var es :- Attach(t, sub, i + 1, full + 1, empty);
        Ok([e] + es)
    else
      var es :- Attach(t, sub, i + 1, full, empty + 1);
      Ok([WithoutData(t.files[i], t, empty)] + es)
  }

  function NewTable(n: nat): Table {
    Table(seq(n, i => NO_ENTRY), None, None, None)
  }

  /** `read_files_info`, after its tag and up to the stream map. */
  function GetFilesInfo(sub: Option<SubStreams>, s: bytes): Parsed<seq<Entry>> {
    var (n, s1) :- VarInt.Dec(s);
    var (t, s2) :- GetProperties(NewTable(n), s1);
    var files :- Attach(t, sub, 0, 0, 0);
    Ok((files, s2))
  }
}
