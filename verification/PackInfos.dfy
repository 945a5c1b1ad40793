/** The table of packed streams: how the writer records it and how the reader gets it back. */
module PackInfos {
  import opened Wire
  import opened Repeats
  import opened BitSets
  import VarInt

  /** What the reader keeps of the section. */
  datatype PackTable = PackTable(pos: u64, sizes: seq<u64>, crcsDefined: seq<bool>, crcs: seq<u32>)

  function Zeros(n: nat): seq<u32> {
    seq(n, i => 0)
  }

  function NonZero(crcs: seq<u32>): (d: seq<bool>) {
    seq(|crcs|, i requires 0 <= i < |crcs| => crcs[i] != 0)
  }

  function PutU32(v: u32): bytes {
    Le(v, 4)
  }

  lemma U32Reads(v: u32)
    ensures Reads(GetU32, PutU32(v), v)
  {
    forall rest: bytes
      ensures GetU32(PutU32(v) + rest) == Ok((v, rest))
    {
      U32RoundTrip(v, rest);
    }
  }

  lemma VarReads(v: u64)
    ensures Reads(VarInt.Dec, VarInt.Enc(v), v)
  {
    forall rest: bytes
      ensures VarInt.Dec(VarInt.Enc(v) + rest) == Ok((v, rest))
    {
      VarInt.RoundTrip(v, rest);
    }
  }

  lemma VarsRead(vs: seq<u64>, rest: bytes)
    ensures GetMany(VarInt.Dec, |vs|, PutAll(VarInt.Enc, vs) + rest) == Ok((vs, rest))
  {
    forall i | 0 <= i < |vs|
      ensures Reads(VarInt.Dec, VarInt.Enc(vs[i]), vs[i])
    {
      VarReads(vs[i]);
    }
    ManyReads(VarInt.Enc, VarInt.Dec, vs, vs, rest);
  }

  // ----- the writer

  /** The CRC part: all values, or a bitmap of the non-zero ones and no value at all. */
  function PutCrcs(crcs: seq<u32>): bytes {
    if 0 !in crcs then [1] + PutAll(PutU32, crcs) else [0] + PackBits(NonZero(crcs))
  }

  function PutPack(pos: u64, sizes: seq<u64>, crcs: seq<u32>): bytes
    requires |sizes| < U64_LIMIT
  {
    [K_PACK_INFO] + (VarInt.Enc(pos) + (VarInt.Enc(|sizes|) + ([K_SIZE] + (PutAll(VarInt.Enc, sizes)
      + ([K_CRC] + (PutCrcs(crcs) + [K_END]))))))
  }

  class PackInfo {
    var crcs: seq<u32>
    var sizes: seq<u64>
    var pos: u64

    constructor ()
      ensures crcs == [] && sizes == [] && pos == 0
    {
      crcs, sizes, pos := [], [], 0;
    }

    method AddStream(size: u64, crc: u32)
      modifies this
      ensures sizes == old(sizes) + [size] && crcs == old(crcs) + [crc] && pos == old(pos)
    {
      sizes := sizes + [size];
      crcs := crcs + [crc];
    }

    method WriteTo(header: Sink)
      requires |sizes| < U64_LIMIT
      modifies header
      ensures header.data == old(header.data) + PutPack(pos, sizes, crcs)
    {
      hide VarInt.Enc, PutCrcs, PutAll;
      header.WriteU8(K_PACK_INFO);
      VarInt.WriteVar(header, pos);
      VarInt.WriteVar(header, |sizes|);
      header.WriteU8(K_SIZE);
      WriteVars(header, sizes);
      header.WriteU8(K_CRC);
      WriteCrcs(header);
      header.WriteU8(K_END);
      Cat8(old(header.data), [K_PACK_INFO], VarInt.Enc(pos), VarInt.Enc(|sizes|), [K_SIZE],
           PutAll(VarInt.Enc, sizes), [K_CRC], PutCrcs(crcs), [K_END]);
    }

    method WriteCrcs(header: Sink)
      modifies header
      ensures header.data == old(header.data) + PutCrcs(crcs)
    {
      if 0 !in crcs {
        header.WriteU8(1);
        WriteU32s(header, crcs);
        Cat2(old(header.data), [1], PutAll(PutU32, crcs));
      } else {
        header.WriteU8(0);
        var defined := new BitSet.WithCapacity(|crcs|);
        for i := 0 to |crcs|
          invariant header.data == old(header.data) + [0]
          invariant defined.Valid() && defined.bitCount == |crcs|
          invariant forall k :: 0 <= k < |crcs| ==> defined.Flags()[k] == (k < i && crcs[k] != 0)
        {
          if crcs[i] != 0 {
            var _ := defined.Insert(i);
          }
        }
        assert defined.Flags() == NonZero(crcs);
        WriteBitSet(header, defined);
        Cat2(old(header.data), [0], PackBits(NonZero(crcs)));
      }
    }
  }

  method WriteVars(header: Sink, vs: seq<u64>)
    modifies header
    ensures header.data == old(header.data) + PutAll(VarInt.Enc, vs)
  {
    hide VarInt.Enc;
    for i := 0 to |vs|
      invariant header.data == old(header.data) + PutAll(VarInt.Enc, vs[..i])
    {
      VarInt.WriteVar(header, vs[i]);
      PutSnoc(VarInt.Enc, vs, i);
    }
    assert vs[..|vs|] == vs;
  }

  method WriteU32s(header: Sink, vs: seq<u32>)
    modifies header
    ensures header.data == old(header.data) + PutAll(PutU32, vs)
  {
    for i := 0 to |vs|
      invariant header.data == old(header.data) + PutAll(PutU32, vs[..i])
    {
      header.WriteU32(vs[i]);
      PutSnoc(PutU32, vs, i);
    }
    assert vs[..|vs|] == vs;
  }

  // ----- the reader

  /** The sizes, when the tag announces them, and the tag after them. */
  function GetSizes(nid: byte, n: nat, s: bytes): Parsed<(seq<u64>, byte)> {
    if nid != K_SIZE then Ok((([], nid), s))
    else
      var (sizes, s1) :- GetMany(VarInt.Dec, n, s);
      var (next, s2) :- GetU8(s1);
      Ok(((sizes, next), s2))
  }

  /** A bitmap of defined CRCs, then one value for each. */
  function GetDigests(n: nat, s: bytes): (r: Parsed<(seq<bool>, seq<u32>)>)
    ensures r.Ok? ==> |r.value.0.0| == |r.value.0.1| == n
  {
    var (d, s1) :- GetAllOrBits(s, n);
    var (crcs, s2) :- GetDefined(GetU32, d, Zeros(n), s1);
    Ok(((d, crcs), s2))
  }

  function GetCrcs(nid: byte, n: nat, s: bytes): Parsed<(seq<bool>, seq<u32>, byte)> {
    if nid != K_CRC then Ok((([], [], nid), s))
    else
      var (dc, s1) :- GetDigests(n, s);
      var (next, s2) :- GetU8(s1);
      Ok(((dc.0, dc.1, next), s2))
  }

  /** `read_pack_info`, after its tag. */
  function GetPack(s: bytes): Parsed<PackTable> {
    var (pos, s1) :- VarInt.Dec(s);
    var (n, s2) :- VarInt.Dec(s1);
    var (nid, s3) :- GetU8(s2);
    var (sizes, s4) :- GetSizes(nid, n, s3);
    var (crcs, s5) :- GetCrcs(sizes.1, n, s4);
    if crcs.2 != K_END then Err(BadTerminatedPackInfo(crcs.2))
    else Ok((PackTable(pos, sizes.0, crcs.0, crcs.1), s5))
  }

  method ReadVars(header: Source, n: nat) returns (r: Result<seq<u64>>)
    modifies header
    ensures Follows(GetMany(VarInt.Dec, n, old(header.rest)), r, header.rest)
  {
    var vs: seq<u64> := [];
    for i := 0 to n
      invariant GetMany(VarInt.Dec, i, old(header.rest)) == Ok((vs, header.rest))
    {
      ManySnoc(VarInt.Dec, i, old(header.rest));
      var x := VarInt.ReadVar(header);
      if x.Err? {
        ManyFails(VarInt.Dec, i + 1, n, old(header.rest));
        return Err(x.error);
      }
      vs := vs + [x.value];
    }
    r := Ok(vs);
  }

  method ReadDigests(header: Source, n: nat) returns (r: Result<(seq<bool>, seq<u32>)>)
    modifies header
    ensures Follows(GetDigests(n, old(header.rest)), r, header.rest)
  {
    var defined :- ReadAllOrBits(header, n);
    ghost var d, s1 := defined.Flags(), header.rest;
    var crcs: seq<u32> := [];
    for i := 0 to n
      invariant defined.Valid() && defined.Flags() == d
      invariant GetDefined(GetU32, d[..i], Zeros(n)[..i], s1) == Ok((crcs, header.rest))
    {
      DefinedSnoc(GetU32, d, Zeros(n), i, s1);
      var crc := 0;
      var isDefined := defined.Contains(i);
      if isDefined {
        var x := header.ReadU32();
        if x.Err? {
          DefinedFails(GetU32, d, Zeros(n), i + 1, s1);
          return Err(x.error);
        }
        crc := x.value;
      }
      crcs := crcs + [crc];
    }
    assert d[..n] == d && Zeros(n)[..n] == Zeros(n);
    r := Ok((defined.Flags(), crcs));
  }

  method ReadPackInfo(header: Source) returns (r: Result<PackTable>)
    modifies header
    ensures Follows(GetPack(old(header.rest)), r, header.rest)
  {
    var pos :- VarInt.ReadVar(header);
    var n :- VarInt.ReadVar(header);
    var nid :- header.ReadU8();
    var sizes, defined, crcs := [], [], [];
    if nid == K_SIZE {
      sizes :- ReadVars(header, n);
      nid :- header.ReadU8();
    }
    if nid == K_CRC {
      var dc :- ReadDigests(header, n);
      defined, crcs := dc.0, dc.1;
      nid :- header.ReadU8();
    }
    if nid != K_END {
      return Err(BadTerminatedPackInfo(nid));
    }
    r := Ok(PackTable(pos, sizes, defined, crcs));
  }

  // ----- the two agree

  /** What a section written for these streams reads back as. */
  function Expected(pos: u64, sizes: seq<u64>, crcs: seq<u32>): PackTable {
    PackTable(pos, sizes, NonZero(crcs), crcs)
  }

  /** Every CRC is known, or none is. */
  predicate Uniform(crcs: seq<u32>) {
    0 !in crcs || forall c :: c in crcs ==> c == 0
  }

  lemma U32sRead(d: seq<bool>, vs: seq<u32>, rest: bytes)
    requires |d| == |vs|
    requires forall i :: 0 <= i < |d| ==> d[i] || vs[i] == 0
    ensures GetDefined(GetU32, d, Zeros(|vs|), PutDefined(PutU32, d, vs) + rest) == Ok((vs, rest))
  {
    forall x | x in vs
      ensures Reads(GetU32, PutU32(x), x)
    {
      U32Reads(x);
    }
    DefinedReads(PutU32, GetU32, d, vs, Zeros(|vs|), rest);
    assert Merged(d, vs, Zeros(|vs|)) == vs;
  }

  lemma {:induction false} AllDefined<A>(e: A -> bytes, d: seq<bool>, vs: seq<A>)
    requires |d| == |vs| && false !in d
    ensures PutDefined(e, d, vs) == PutAll(e, vs)
  {
    if vs != [] {
      assert d[0] in d;
      assert forall x :: x in d[1..] ==> x in d;
      AllDefined(e, d[1..], vs[1..]);
    }
  }

  lemma {:induction false} NoneDefined<A>(e: A -> bytes, d: seq<bool>, vs: seq<A>)
    requires |d| == |vs| && true !in d
    ensures PutDefined(e, d, vs) == []
  {
    if vs != [] {
      assert d[0] in d;
      assert forall x :: x in d[1..] ==> x in d;
      NoneDefined(e, d[1..], vs[1..]);
    }
  }

  /** Digests written after "all defined" read back. */
  lemma AllDigestsRead(vs: seq<u32>, rest: bytes)
    ensures GetDigests(|vs|, [1] + PutAll(PutU32, vs) + rest) == Ok(((seq(|vs|, i => true), vs), rest))
  {
    var d := seq(|vs|, i => true);
    assert [1] + PutAll(PutU32, vs) + rest == [1] + (PutAll(PutU32, vs) + rest);
    GetU8Cons(1, PutAll(PutU32, vs) + rest);
    AllDefined(PutU32, d, vs);
    U32sRead(d, vs, rest);
  }

  lemma UniformDigestsRead(crcs: seq<u32>, rest: bytes)
    requires Uniform(crcs)
    ensures GetDigests(|crcs|, PutCrcs(crcs) + rest) == Ok(((NonZero(crcs), crcs), rest))
  {
    if 0 !in crcs {
      AllDigestsRead(crcs, rest);
      assert NonZero(crcs) == seq(|crcs|, i => true);
    } else {
      var d := NonZero(crcs);
      AllOrBitsRoundTrip(d, rest);
      forall i | 0 <= i < |crcs|
        ensures !d[i]
      {
        assert crcs[i] in crcs;
      }
      NoneDefined(PutU32, d, crcs);
      U32sRead(d, crcs, rest);
      assert [] + rest == rest;
    }
  }

  lemma {:induction false} DefinedConsumes(d: seq<bool>, olds: seq<u32>, s: bytes)
    requires |d| == |olds|
    ensures var r := GetDefined(GetU32, d, olds, s);
            r.Ok? ==> |r.value.1| <= |s| - (if true in d then 4 else 0)
  {
    if d != [] {
      var first := if d[0] then GetU32(s) else Ok((olds[0], s));
      if first.Ok? {
        DefinedConsumes(d[1..], olds[1..], first.value.1);
      }
      assert d == [d[0]] + d[1..];
    }
  }

  /** With some CRCs zero and some not, the reader runs past what was written. */
  lemma MixedDigestsOverrun(crcs: seq<u32>, rest: bytes)
    requires !Uniform(crcs)
    ensures var r := GetDigests(|crcs|, PutCrcs(crcs) + rest);
            r.Ok? ==> |r.value.1| <= |rest| - 4
  {
    var d := NonZero(crcs);
    AllOrBitsRoundTrip(d, rest);
    DefinedConsumes(d, Zeros(|crcs|), rest);
    var i :| 0 <= i < |crcs| && crcs[i] != 0;
    assert d[i];
  }

  /** Everything before the CRCs reads back, whatever they are. */
  lemma PrefixReads(pos: u64, sizes: seq<u64>, crcs: seq<u32>, rest: bytes)
    requires |sizes| == |crcs| < U64_LIMIT
    ensures GetPack(PutPack(pos, sizes, crcs)[1..] + rest) ==
            match GetCrcs(K_CRC, |crcs|, PutCrcs(crcs) + ([K_END] + rest))
            case Err(e) => Err(e)
            case Ok(c) => if c.0.2 != K_END then Err(BadTerminatedPackInfo(c.0.2))
                          else Ok((PackTable(pos, sizes, c.0.0, c.0.1), c.1))
  {
    hide VarInt.Enc, VarInt.Dec, PutCrcs, GetCrcs;
    var s5 := PutCrcs(crcs) + ([K_END] + rest);
    var s4 := [K_CRC] + s5;
    var s3 := PutAll(VarInt.Enc, sizes) + s4;
    var s2 := [K_SIZE] + s3;
    var s1 := VarInt.Enc(|sizes|) + s2;
    assert PutPack(pos, sizes, crcs)[1..] + rest == VarInt.Enc(pos) + s1;
    VarInt.RoundTrip(pos, s1);
    VarInt.RoundTrip(|sizes|, s2);
    GetU8Cons(K_SIZE, s3);
    VarsRead(sizes, s4);
    GetU8Cons(K_CRC, s5);
  }

  /** The section reads back as written, and no further, exactly when the CRCs are uniform. */
  lemma RoundTripIffUniform(pos: u64, sizes: seq<u64>, crcs: seq<u32>, rest: bytes)
    requires |sizes| == |crcs| < U64_LIMIT
    ensures GetPack(PutPack(pos, sizes, crcs)[1..] + rest) == Ok((Expected(pos, sizes, crcs), rest)) <==> Uniform(crcs)
  {
    hide PutPack, GetPack, PutCrcs, GetDigests;
    PrefixReads(pos, sizes, crcs, rest);
    if Uniform(crcs) {
      UniformDigestsRead(crcs, [K_END] + rest);
      GetU8Cons(K_END, rest);
    } else {
      MixedDigestsOverrun(crcs, [K_END] + rest);
    }
  }
}
