/** Writing and reading the file table step by step, as the program does. */
module FileTables {
  import opened Wire
  import opened Repeats
  import opened BitSets
  import opened SubStreams
  import opened FilesInfos
  import PackInfos
  import VarInt

  // ----- the writer

  method WriteSection(header: Sink, tag: byte, temp: Sink)
    requires temp != header
    modifies header
    ensures header.data == old(header.data) + PutSection(tag, temp.data)
  {
    hide VarInt.Enc;
    header.WriteU8(tag);
    VarInt.WriteVar(header, AsU64(|temp.data|));
    header.WriteAll(temp.data);
    Cat3(old(header.data), [tag], VarInt.Enc(AsU64(|temp.data|)), temp.data);
  }

  method WriteEmptyStreams(header: Sink, files: seq<Entry>)
    modifies header
    ensures header.data == old(header.data) + PutEmptyStreams(files)
  {
    hide PutSection, PackBits;
    var d := NoStream(files);
    var hasEmpty := false;
    for i := 0 to |files|
      invariant !hasEmpty && forall k :: 0 <= k < i ==> !d[k]
    {
      if !files[i].hasStream {
        hasEmpty := true;
        assert d[i];
        break;
      }
    }
    assert hasEmpty <==> true in d;
    if hasEmpty {
      var bitset := BitSetOf(d);
      var temp := new Sink();
      WriteBitSet(temp, bitset);
      assert temp.data == PackBits(d);
      WriteSection(header, K_EMPTY_STREAM, temp);
    }
  }

  /** A set of the capacity of `d`, with the positions `d` marks inserted one by one. */
  method BitSetOf(d: seq<bool>) returns (bitset: BitSet)
    ensures fresh(bitset) && bitset.Valid() && bitset.Flags() == d
  {
    bitset := new BitSet.WithCapacity(|d|);
    for i := 0 to |d|
      invariant fresh(bitset) && bitset.Valid() && bitset.bitCount == |d|
      invariant forall k :: 0 <= k < |d| ==> bitset.Flags()[k] == (k < i && d[k])
    {
      if d[i] {
        var _ := bitset.Insert(i);
      }
    }
  }

  lemma TrimSnoc(f: seq<bool>, b: bool)
    ensures Trim(f + [b]) == if b then f + [true] else Trim(f)
  {
    assert (f + [b])[..|f|] == f;
  }

  lemma {:induction false} TrimLeast(f: seq<bool>, n: nat)
    requires n <= |f| && (n > 0 ==> f[n - 1]) && forall i :: n <= i < |f| ==> !f[i]
    ensures Trim(f) == f[..n]
  {
    if f == [] || f[|f| - 1] {
      assert f[..n] == f;
    } else {
      TrimLeast(f[..|f| - 1], n);
      assert f[..|f| - 1][..n] == f[..n];
    }
  }

  /** The bits inserted into a set that starts empty are its flags up to the last one. */
  method CollectFlags(flags: seq<bool>) returns (bitset: BitSet, any: bool)
    ensures fresh(bitset) && bitset.Valid() && bitset.Flags() == Trim(flags)
    ensures any <==> true in flags
  {
    hide Trim;
    bitset := new BitSet();
    any := false;
    TrimLeast([], 0);
    for i := 0 to |flags|
      invariant fresh(bitset) && bitset.Valid() && bitset.Flags() == Trim(flags[..i])
      invariant any <==> true in flags[..i]
    {
      any := any || flags[i];
      assert flags[..i + 1] == flags[..i] + [flags[i]];
      TrimSnoc(flags[..i], flags[i]);
      if flags[i] {
        InsertLast(bitset, flags[..i]);
      }
    }
    assert flags[..|flags|] == flags;
  }

  method InsertLast(bitset: BitSet, flags: seq<bool>)
    requires bitset.Valid() && bitset.Flags() == Trim(flags)
    modifies bitset
    ensures bitset.Valid() && bitset.Flags() == flags + [true]
  {
    ghost var had := bitset.Members();
    assert forall k :: 0 <= k < |flags| ==> (flags[k] <==> k in had);
    var _ := bitset.Insert(|flags|);
    assert forall k :: 0 <= k < |flags| ==> (bitset.Flags()[k] <==> k in had);
  }

  method WriteTrimmed(header: Sink, tag: byte, flags: seq<bool>)
    modifies header
    ensures header.data == old(header.data)
         + if true in flags then PutSection(tag, PackBits(Trim(flags))) else []
  {
    hide PutSection;
    var bitset, any := CollectFlags(flags);
    if any {
      var temp := new Sink();
      WriteBitSet(temp, bitset);
      WriteSection(header, tag, temp);
      assert temp.data == PackBits(Trim(flags));
    }
  }

  /** The flags of the files without data: not a directory, and not an anti-item. */
  method StreamlessFlags(files: seq<Entry>) returns (notDir: seq<bool>, notAnti: seq<bool>)
    ensures notDir == EmptyFileFlags(files) && notAnti == AntiFlags(files)
  {
    notDir, notAnti := [], [];
    for i := |files| downto 0
      invariant notDir == EmptyFileFlags(files[i..]) && notAnti == AntiFlags(files[i..])
    {
      assert files[i..][1..] == files[i + 1..];
      if !files[i].hasStream {
        notDir, notAnti := [!files[i].isDirectory] + notDir, [!files[i].isAnti] + notAnti;
      }
    }
  }

  method WriteNames(header: Sink, files: seq<Entry>)
    modifies header
    ensures header.data == old(header.data) + PutNames(files)
  {
    var temp := new Sink();
    temp.WriteU8(0);
    var names := Names(files);
    for i := 0 to |files|
      invariant fresh(temp) && header.data == old(header.data)
      invariant temp.data == [0] + PutAll(PutName, names[..i])
    {
      ghost var start := temp.data;
      WriteName(temp, files[i].name);
      PutSnoc(PutName, names, i);
      Cat2([0], PutAll(PutName, names[..i]), PutName(names[i]));
    }
    assert names[..|names|] == names;
    WriteSection(header, K_NAME, temp);
  }

  method WriteName(out: Sink, name: Name)
    modifies out
    ensures out.data == old(out.data) + PutName(name)
  {
    for i := 0 to |name|
      invariant out.data == old(out.data) + PutAll(PutU16, name[..i])
    {
      out.WriteAll(Le(name[i], 2));
      PutSnoc(PutU16, name, i);
      Cat2(old(out.data), PutAll(PutU16, name[..i]), PutU16(name[i]));
    }
    assert name[..|name|] == name;
    out.WriteAll([0, 0]);
    Cat2(old(out.data), PutAll(PutU16, name), [0, 0]);
  }

  /** The part of `write_times!` before the values: which entries have one. */
  method WriteDefined(out: Sink, d: seq<bool>, all: bool)
    requires all <==> false !in d
    modifies out
    ensures out.data == old(out.data) + PutAllOrBits(d)
  {
    if !all {
      out.WriteU8(0);
      var times := BitSetOf(d);
      WriteBitSet(out, times);
      Cat2(old(out.data), [0], PackBits(d));
    } else {
      out.WriteU8(1);
    }
  }

  method CountDefined(d: seq<bool>) returns (num: nat)
    ensures num <= |d|
    ensures num > 0 <==> true in d
    ensures num == |d| <==> false !in d
  {
    num := 0;
    for i := 0 to |d|
      invariant num <= i
      invariant num > 0 <==> true in d[..i]
      invariant num == i <==> false !in d[..i]
    {
      assert d[..i + 1] == d[..i] + [d[i]];
      if d[i] {
        num := num + 1;
      }
    }
    assert d[..|d|] == d;
  }

  /** `write_times!` for the 64-bit stamps. */
  method WriteStamps(header: Sink, files: seq<Entry>, f: Stamp)
    modifies header
    ensures header.data == old(header.data) + PutStamps(files, f)
  {
    hide PutSection, PutAllOrBits;
    var d, vs := HasColumn(files, f), ValueColumn(files, f);
    var num := CountDefined(d);
    if num > 0 {
      var temp := new Sink();
      WriteDefined(temp, d, num == |files|);
      temp.WriteU8(0);
      ghost var start := temp.data;
      for i := 0 to |files|
        invariant fresh(temp) && header.data == old(header.data)
        invariant temp.data == start + PutDefined(PutU64, d[..i], vs[..i])
      {
        PutDefinedSnoc(PutU64, d, vs, i);
        if Has(files[i], f) {
          temp.WriteLe64(Value(files[i], f));
        }
        Cat2(start, PutDefined(PutU64, d[..i], vs[..i]), if d[i] then PutU64(vs[i]) else []);
      }
      assert d[..|files|] == d && vs[..|files|] == vs;
      Cat2(PutAllOrBits(d), [0], PutDefined(PutU64, d, vs));
      assert temp.data == PutAllOrBits(d) + ([0] + PutDefined(PutU64, d, vs));
      WriteSection(header, StampTag(f), temp);
    }
  }

  /** `write_times!` for the 32-bit attributes. */
  method WriteAttributes(header: Sink, files: seq<Entry>)
    modifies header
    ensures header.data == old(header.data) + PutAttributes(files)
  {
    hide PutSection, PutAllOrBits;
    var d, vs := HasAttributes(files), Attributes(files);
    var num := CountDefined(d);
    if num > 0 {
      var temp := new Sink();
      WriteDefined(temp, d, num == |files|);
      temp.WriteU8(0);
      ghost var start := temp.data;
      for i := 0 to |files|
        invariant fresh(temp) && header.data == old(header.data)
        invariant temp.data == start + PutDefined(PackInfos.PutU32, d[..i], vs[..i])
      {
        PutDefinedSnoc(PackInfos.PutU32, d, vs, i);
        if files[i].hasAttributes {
          temp.WriteU32(files[i].attributes);
        }
        Cat2(start, PutDefined(PackInfos.PutU32, d[..i], vs[..i]), if d[i] then PackInfos.PutU32(vs[i]) else []);
      }
      assert d[..|files|] == d && vs[..|files|] == vs;
      Cat2(PutAllOrBits(d), [0], PutDefined(PackInfos.PutU32, d, vs));
      assert temp.data == PutAllOrBits(d) + ([0] + PutDefined(PackInfos.PutU32, d, vs));
      WriteSection(header, K_WIN_ATTRIBUTES, temp);
    }
  }

  /** `write_files_info`. */
  method WriteFilesInfo(header: Sink, files: seq<Entry>)
    modifies header
    ensures header.data == old(header.data) + PutFilesInfo(files)
  {
    hide VarInt.Enc, PutEmptyStreams, PutEmptyFiles, PutAntiItems, PutNames, PutStamps, PutAttributes;
    header.WriteU8(K_FILES_INFO);
    VarInt.WriteVar(header, AsU64(|files|));
    ghost var start := header.data;
    WriteEmptyStreams(header, files);
    WriteStreamlessFlags(header, files);
    WriteNames(header, files);
    WriteStamps(header, files, CTime);
    WriteStamps(header, files, ATime);
    WriteStamps(header, files, MTime);
    WriteAttributes(header, files);
    header.WriteU8(K_END);
    ghost var a, b, c, d := PutEmptyStreams(files), PutEmptyFiles(files), PutAntiItems(files), PutNames(files);
    ghost var e, f, g, h := PutStamps(files, CTime), PutStamps(files, ATime), PutStamps(files, MTime), PutAttributes(files);
    Cat2(start + a + b + c + d + e + f + g, h, [K_END]);
    Cat8(start, a, b, c, d, e, f, g, h + [K_END]);
    Cat3(old(header.data), [K_FILES_INFO], VarInt.Enc(AsU64(|files|)), PutProperties(files));
  }

  method WriteStreamlessFlags(header: Sink, files: seq<Entry>)
    modifies header
    ensures header.data == old(header.data) + PutEmptyFiles(files) + PutAntiItems(files)
  {
    var notDir, notAnti := StreamlessFlags(files);
    WriteTrimmed(header, K_EMPTY_FILE, notDir);
    WriteTrimmed(header, K_ANTI, notAnti);
  }

  // ----- the reader

  /** One name of `NamesReader`, and how many units it took. */
  method ReadName(reader: Source, units: nat) returns (r: Result<Name>, used: nat)
    modifies reader
    ensures match GetName(units, old(reader.rest))
            case Ok(t) => r == Ok(t.0) && used == t.1 && reader.rest == t.2
            case Err(e) => r == Err(e)
    ensures r.Ok? ==> used <= units && (units > 0 ==> used > 0)
  {
    hide FromLe;
    var name: Name := [];
    used := 0;
    ghost var whole := GetName(units, reader.rest);
    assert [] + (if whole.Ok? then whole.value.0 else []) == (if whole.Ok? then whole.value.0 else []);
    while used < units
      invariant used <= units
      invariant whole == NameTail(name, used, GetName(units - used, reader.rest))
    {
      ghost var s := reader.rest;
      var b := reader.ReadExact(2);
      if b.Err? {
        r := Err(b.error);
        return;
      }
      assert Pow256(2) == 0x1_0000;
      var u: u16 := FromLe(b.value);
      assert GetU16(s) == Ok((u, reader.rest));
      used := used + 1;
      if u == 0 {
        assert name + [] == name;
        r := Ok(name);
        return;
      }
      NameTailStep(name, used - 1, u, GetName(units - used, reader.rest));
      name := name + [u];
    }
    assert name + [] == name;
    r := Ok(name);
  }

  /** A name continued by what is read next. */
  ghost function NameTail(name: Name, used: nat, next: Result<(Name, nat, bytes)>): Result<(Name, nat, bytes)> {
    match next
    case Ok(t) => Ok((name + t.0, used + t.1, t.2))
    case Err(e) => Err(e)
  }

  lemma NameTailStep(name: Name, used: nat, u: u16, next: Result<(Name, nat, bytes)>)
    ensures NameTail(name, used, match next case Ok(t) => Ok(([u] + t.0, t.1 + 1, t.2)) case Err(e) => Err(e))
         == NameTail(name + [u], used + 1, next)
  {
    if next.Ok? {
      assert name + ([u] + next.value.0) == name + [u] + next.value.0;
    }
  }

  ghost function NamesTail(names: seq<Name>, next: Parsed<seq<Name>>): Parsed<seq<Name>> {
    match next
    case Ok(t) => Ok((names + t.0, t.1))
    case Err(e) => Err(e)
  }

  lemma NamesTailStep(names: seq<Name>, name: Name, next: Parsed<seq<Name>>)
    ensures NamesTail(names, match next case Ok(t) => Ok(([name] + t.0, t.1)) case Err(e) => Err(e))
         == NamesTail(names + [name], next)
  {
    if next.Ok? {
      assert names + ([name] + next.value.0) == names + [name] + next.value.0;
    }
  }

  method ReadNames(header: Source, count: nat, size: u64) returns (r: Result<seq<Name>>)
    modifies header
    ensures Follows(GetNameTable(count, size, old(header.rest)), r, header.rest)
  {
    hide GetName;
    var external :- header.ReadU8();
    if external != 0 {
      return Err(External);
    }
    if size == 0 {
      return Err(Panic);
    }
    if (size - 1) % 2 != 0 {
      return Err(NameLength);
    }
    var names: seq<Name>, left := [], (size - 1) / 2;
    ghost var whole := GetNames(count, left, header.rest);
    assert NamesTail([], whole) == whole by {
      if whole.Ok? {
        assert [] + whole.value.0 == whole.value.0;
      }
    }
    while left > 0
      invariant |names| <= count && left >= 0
      invariant whole == NamesTail(names, GetNames(count - |names|, left, header.rest))
    {
      var name, used := ReadName(header, left);
      if name.Err? {
        return Err(name.error);
      }
      if |names| == count {
        return Err(Panic);
      }
      NamesTailStep(names, name.value, GetNames(count - |names| - 1, left - used, header.rest));
      names := names + [name.value];
      left := left - used;
    }
    if |names| != count {
      return Err(NameCount);
    }
    assert names + [] == names;
    r := Ok(names);
  }

  /** One value per marked position; the others keep what `olds` has. */
  method ReadDefinedU64s(header: Source, defined: BitSet, olds: seq<u64>) returns (r: Result<seq<u64>>)
    requires defined.Valid() && defined.bitCount == |olds|
    modifies header
    ensures Follows(GetDefined(GetU64, defined.Flags(), olds, old(header.rest)), r, header.rest)
  {
    hide FromLe;
    ghost var d, s := defined.Flags(), header.rest;
    var values: seq<u64> := [];
    for i := 0 to |olds|
      invariant defined.Valid() && defined.Flags() == d
      invariant GetDefined(GetU64, d[..i], olds[..i], s) == Ok((values, header.rest))
    {
      DefinedSnoc(GetU64, d, olds, i, s);
      var has := defined.Contains(i);
      var v := olds[i];
      if has {
        var x := header.ReadU64();
        if x.Err? {
          DefinedFails(GetU64, d, olds, i + 1, s);
          return Err(x.error);
        }
        v := x.value;
      }
      values := values + [v];
    }
    assert d[..|olds|] == d && olds[..|olds|] == olds;
    r := Ok(values);
  }

  /** One value per marked position; the others keep what `olds` has. */
  method ReadDefinedU32s(header: Source, defined: BitSet, olds: seq<u32>) returns (r: Result<seq<u32>>)
    requires defined.Valid() && defined.bitCount == |olds|
    modifies header
    ensures Follows(GetDefined(GetU32, defined.Flags(), olds, old(header.rest)), r, header.rest)
  {
    hide FromLe;
    ghost var d, s := defined.Flags(), header.rest;
    var values: seq<u32> := [];
    for i := 0 to |olds|
      invariant defined.Valid() && defined.Flags() == d
      invariant GetDefined(GetU32, d[..i], olds[..i], s) == Ok((values, header.rest))
    {
      DefinedSnoc(GetU32, d, olds, i, s);
      var has := defined.Contains(i);
      var v := olds[i];
      if has {
        var x := header.ReadU32();
        if x.Err? {
          DefinedFails(GetU32, d, olds, i + 1, s);
          return Err(x.error);
        }
        v := x.value;
      }
      values := values + [v];
    }
    assert d[..|olds|] == d && olds[..|olds|] == olds;
    r := Ok(values);
  }

  method ReadStamps(header: Source, t: Table, f: Stamp) returns (r: Result<Table>)
    modifies header
    ensures Follows(GetStamps(t, f, old(header.rest)), r, header.rest)
  {
    hide FromLe, GetAllOrBits, GetDefined;
    var defined :- ReadAllOrBits(header, |t.files|);
    var external :- header.ReadU8();
    if external != 0 {
      return Err(External);
    }
    var values :- ReadDefinedU64s(header, defined, ValueColumn(t.files, f));
    r := Ok(t.(files := WithStamps(t.files, f, defined.Flags(), values)));
  }

  method ReadAttributes(header: Source, t: Table) returns (r: Result<Table>)
    modifies header
    ensures Follows(GetAttributes(t, old(header.rest)), r, header.rest)
  {
    hide FromLe, GetAllOrBits, GetDefined;
    var defined :- ReadAllOrBits(header, |t.files|);
    var external :- header.ReadU8();
    if external != 0 {
      return Err(External);
    }
    var values :- ReadDefinedU32s(header, defined, Attributes(t.files));
    r := Ok(t.(files := WithAttributes(t.files, defined.Flags(), values)));
  }

  method Skip(header: Source, size: u64) returns (r: Result<()>)
    modifies header
    ensures Follows(GetSkip(size, old(header.rest)), r, header.rest)
  {
    if size >= 0x8000_0000_0000_0000 {
      return Err(SeekBeforeStart);
    }
    header.rest := if size <= |header.rest| then header.rest[size..] else [];
    r := Ok(());
  }

  method CountSet(d: seq<bool>) returns (n: nat)
    ensures n == CountTrue(d)
  {
    n := 0;
    for i := |d| downto 0
      invariant n == CountTrue(d[i..])
    {
      if d[i] {
        n := n + 1;
      }
    }
  }

  method ReadProperty(header: Source, tag: byte, size: u64, t: Table) returns (r: Result<Table>)
    modifies header
    ensures Follows(GetProperty(tag, size, t, old(header.rest)), r, header.rest)
  {
    hide GetStamps, GetAttributes, GetNameTable, GetSkip, GetBits;
    if tag == K_EMPTY_STREAM {
      var d :- ReadBits(header, |t.files|);
      r := Ok(t.(emptyStream := Some(d.Flags())));
    } else if tag == K_EMPTY_FILE || tag == K_ANTI {
      if t.emptyStream.None? {
        return Err(EmptyStreamMissing);
      }
      var n := CountSet(t.emptyStream.value);
      var d :- ReadBits(header, n);
      r := Ok(if tag == K_EMPTY_FILE then t.(emptyFile := Some(d.Flags())) else t.(anti := Some(d.Flags())));
    } else if tag == K_NAME {
      var names :- ReadNames(header, |t.files|, size);
      r := Ok(t.(files := WithNames(t.files, names)));
    } else if tag == K_C_TIME {
      r := ReadStamps(header, t, CTime);
    } else if tag == K_A_TIME {
      r := ReadStamps(header, t, ATime);
    } else if tag == K_M_TIME {
      r := ReadStamps(header, t, MTime);
    } else if tag == K_WIN_ATTRIBUTES {
      r := ReadAttributes(header, t);
    } else if tag == K_START_POS {
      r := ReadStamps(header, t, StartPos);
    } else {
      var _ :- Skip(header, size);
      r := Ok(t);
    }
  }

  method ReadProperties(header: Source, n: nat) returns (r: Result<Table>)
    modifies header
    ensures Follows(GetProperties(NewTable(n), old(header.rest)), r, header.rest)
  {
    hide VarInt.Dec, GetProperty;
    var t := NewTable(n);
    while true
      invariant GetProperties(NewTable(n), old(header.rest)) == GetProperties(t, header.rest)
      decreases |header.rest|
    {
      ghost var s := header.rest;
      var tag :- header.ReadU8();
      if tag == K_END {
        return Ok(t);
      }
      VarShrinks(header.rest);
      var size :- VarInt.ReadVar(header);
      PropertyShrinks(tag, size, t, header.rest);
      t :- ReadProperty(header, tag, size, t);
    }
  }

  /** The last loop of `read_files_info`. */
  method AttachData(t: Table, sub: Option<SubStreams>) returns (r: Result<seq<Entry>>)
    ensures r == Attach(t, sub, 0, 0, 0)
  {
    hide WithData, WithoutData;
    var files: seq<Entry> := [];
    var full, empty := 0, 0;
    ghost var whole := Attach(t, sub, 0, 0, 0);
    assert EntriesTail([], whole) == whole by {
      if whole.Ok? {
        assert [] + whole.value == whole.value;
      }
    }
    for i := 0 to |t.files|
      invariant whole == EntriesTail(files, Attach(t, sub, i, full, empty))
    {
      if !IsSet(t.emptyStream, i) {
        if sub.None? {
          return Err(NoSubStreams);
        }
        var e := WithData(t.files[i], sub.value, full);
        if e.Err? {
          return Err(e.error);
        }
        EntriesTailStep(files, e.value, Attach(t, sub, i + 1, full + 1, empty));
        files := files + [e.value];
        full := full + 1;
      } else {
        EntriesTailStep(files, WithoutData(t.files[i], t, empty), Attach(t, sub, i + 1, full, empty + 1));
        files := files + [WithoutData(t.files[i], t, empty)];
        empty := empty + 1;
      }
    }
    assert files + [] == files;
    r := Ok(files);
  }

  ghost function EntriesTail(files: seq<Entry>, next: Result<seq<Entry>>): Result<seq<Entry>> {
    match next
    case Ok(es) => Ok(files + es)
    case Err(e) => Err(e)
  }

  lemma EntriesTailStep(files: seq<Entry>, e: Entry, next: Result<seq<Entry>>)
    ensures EntriesTail(files, match next case Ok(es) => Ok([e] + es) case Err(x) => Err(x))
         == EntriesTail(files + [e], next)
  {
    if next.Ok? {
      assert files + ([e] + next.value) == files + [e] + next.value;
    }
  }

  method ReadFilesInfo(header: Source, sub: Option<SubStreams>) returns (r: Result<seq<Entry>>)
    modifies header
    ensures Follows(GetFilesInfo(sub, old(header.rest)), r, header.rest)
  {
    hide VarInt.Dec, GetProperties, Attach;
    var n :- VarInt.ReadVar(header);
    var t :- ReadProperties(header, n);
    r := AttachData(t, sub);
  }
}
