/** Blocks (folders): coders, the bind pairs that chain them, their records in the header,
    and the walk over a chain in decoding order. */
module Blocks {
  import opened Wire
  import opened Repeats
  import VarInt

  datatype Coder = Coder(id: bytes, numIn: u64, numOut: u64, props: bytes)

  datatype BindPair = BindPair(inIndex: u64, outIndex: u64)

  datatype Block = Block(
    coders: seq<Coder>,
    hasCrc: bool,
    crc: u32,
    totalIn: nat,
    totalOut: nat,
    bindPairs: seq<BindPair>,
    packedStreams: seq<u64>,
    unpackSizes: seq<u64>,
    numSub: nat)
  {
    /** One size per output stream has been read. */
    predicate Sized() {
      |unpackSizes| == totalOut
    }
  }

  function FindIn(bps: seq<BindPair>, index: nat): (r: Option<BindPair>)
    ensures r.Some? ==> r.value in bps && r.value.inIndex == index
    ensures r.None? ==> forall bp :: bp in bps ==> bp.inIndex != index
  {
    if bps == [] then None
    else if bps[0].inIndex == index then Some(bps[0])
    else FindIn(bps[1..], index)
  }

  function FindOut(bps: seq<BindPair>, index: nat): (r: Option<BindPair>)
    ensures r.Some? ==> r.value in bps && r.value.outIndex == index
    ensures r.None? ==> forall bp :: bp in bps ==> bp.outIndex != index
  {
    if bps == [] then None
    else if bps[0].outIndex == index then Some(bps[0])
    else FindOut(bps[1..], index)
  }

  /** The size of the last output no bind pair consumes. */
  function UnpackSize(b: Block): u64
    requires b.Sized()
  {
    UnpackSizeBelow(b, b.totalOut)
  }

  function UnpackSizeBelow(b: Block, n: nat): u64
    requires b.Sized() && n <= b.totalOut
  {
    if n == 0 then 0
    else if FindOut(b.bindPairs, n - 1).None? then b.unpackSizes[n - 1]
    else UnpackSizeBelow(b, n - 1)
  }

  // ----- reading a block

  function GetCoder(s: bytes): Parsed<Coder> {
    var (bits, s1) :- GetU8(s);
    var (id, s2) :- GetExact(s1, bits % 0x10);
    var (io, s3) :- if (bits / 0x10) % 2 == 0 then Ok(((1, 1), s2)) else GetStreamCounts(s2);
    var (props, s4) :- if (bits / 0x20) % 2 != 0 then GetProps(s3) else Ok(([], s3));
    if bits >= 0x80 then Err(AlternativeMethods) else Ok((Coder(id, io.0, io.1, props), s4))
  }

  function GetStreamCounts(s: bytes): Parsed<(u64, u64)> {
    var (numIn, s1) :- VarInt.Dec(s);
    var (numOut, s2) :- VarInt.Dec(s1);
    Ok(((numIn, numOut), s2))
  }

  function GetProps(s: bytes): Parsed<bytes> {
    var (n, s1) :- VarInt.Dec(s);
    GetExact(s1, n)
  }

  function GetBindPair(s: bytes): Parsed<BindPair> {
    var (i, s1) :- VarInt.Dec(s);
    var (o, s2) :- VarInt.Dec(s1);
    Ok((BindPair(i, o), s2))
  }

  function SumIn(cs: seq<Coder>): nat {
    if cs == [] then 0 else SumIn(cs[..|cs| - 1]) + cs[|cs| - 1].numIn
  }

  function SumOut(cs: seq<Coder>): nat {
    if cs == [] then 0 else SumOut(cs[..|cs| - 1]) + cs[|cs| - 1].numOut
  }

  /** The first input stream in `from..n` that no bind pair feeds. */
  function FirstUnbound(bps: seq<BindPair>, from: nat, n: nat): (r: Option<nat>)
    ensures r.Some? ==> from <= r.value < n && FindIn(bps, r.value).None?
    decreases n - from
  {
    if from >= n then None
    else if FindIn(bps, from).None? then Some(from)
    else FirstUnbound(bps, from + 1, n)
  }

  function GetBlock(s: bytes): (r: Parsed<Block>)
    ensures r.Ok? ==> r.value.0.totalOut == SumOut(r.value.0.coders) && r.value.0.totalIn == SumIn(r.value.0.coders)
  {
    var (n, s1) :- VarInt.Dec(s);
    var (coders, s2) :- GetMany(GetCoder, n, s1);
    var totalIn, totalOut := SumIn(coders), SumOut(coders);
    if totalIn >= U64_LIMIT || totalOut >= U64_LIMIT then Err(Panic)
    else if totalOut == 0 then Err(NoOutputStreams)
    else
      var (bps, s3) :- GetMany(GetBindPair, totalOut - 1, s2);
      if totalIn < totalOut - 1 then Err(TooFewInputStreams)
      else
        var (packed, s4) :- GetPackedStreams(bps, totalIn, totalIn - (totalOut - 1), s3);
        Ok((Block(coders, false, 0, totalIn, totalOut, bps, packed, [], 0), s4))
  }

  /** With one packed stream its index is implied; with more they are listed. */
  function GetPackedStreams(bps: seq<BindPair>, totalIn: nat, numPacked: nat, s: bytes): Parsed<seq<u64>>
    requires totalIn < U64_LIMIT
  {
    if numPacked == 1 then
      match FirstUnbound(bps, 0, totalIn)
      case None => Err(NoUnboundInput)
      case Some(i) => Ok(([i], s))
    else GetMany(VarInt.Dec, numPacked, s)
  }

  // ----- writing a block

  datatype RawMethod = Method(id: bytes, props: bytes)

  /** The identifiers for which the reader has a decoder, with all features built in: copy,
      Delta, Swap2 and Swap4, LZMA, the eight branch filters, PPMD, LZMA2, BZIP2, Zstd, Brotli,
      LZ4, Deflate, Deflate64 and AES. */
  const DECODABLE: seq<bytes> := [
    [0x00], [0x03], [0x03, 0x02], [0x03, 0x04], [0x03, 0x01, 0x01],
    [0x03, 0x03, 0x01, 0x03], [0x03, 0x03, 0x02, 0x05], [0x03, 0x03, 0x04, 0x01], [0x03, 0x03, 0x05, 0x01],
    [0x0A], [0x03, 0x03, 0x07, 0x01], [0x03, 0x03, 0x08, 0x05], [0x0B], [0x03, 0x04, 0x01], [0x21],
    [0x04, 0x02, 0x02], [0x04, 0xF7, 0x11, 0x01], [0x04, 0xF7, 0x11, 0x02], [0x04, 0xF7, 0x11, 0x04],
    [0x04, 0x01, 0x08], [0x04, 0x01, 0x09], [0x06, 0xF1, 0x07, 0x01]]

  predicate Decodable(id: bytes) {
    id in DECODABLE
  }

  const COPY_ID: bytes := [0x00]

  lemma CopyIsDecodable()
    ensures Decodable(COPY_ID)
  {
    assert DECODABLE[0] == COPY_ID;
  }

  /** An encoder configuration that can be read back: the reader knows its identifier, whose
      length takes four bits of a flag byte, and its property length is written as one plain byte
      where a variable-length integer is read. */
  type Method = m: RawMethod | Decodable(m.id) && |m.id| < 0x10 && |m.props| < 0x80
    witness Method([0x00], [])

  /** The record of any configuration: lengths are cut to a byte, and one bit of the first is set
      if there are properties. */
  function PutAnyCoder(m: RawMethod): bytes {
    var flags := |m.id| % 0x100;
    if m.props == [] then [flags] + m.id
    else [if (flags / 0x20) % 2 == 0 then flags + 0x20 else flags] + m.id + ([|m.props| % 0x100] + m.props)
  }

  function PutCoder(m: Method): (r: bytes)
    ensures r == PutAnyCoder(m)
  {
    if m.props == [] then [|m.id|] + m.id
    else [|m.id| + 0x20] + m.id + ([|m.props|] + m.props)
  }

  function AsCoder(m: RawMethod): Coder {
    Coder(m.id, 1, 1, m.props)
  }

  function AsCoders(ms: seq<Method>): seq<Coder> {
    seq(|ms|, i requires 0 <= i < |ms| => AsCoder(ms[i]))
  }

  function PutBindPair(bp: BindPair): bytes {
    VarInt.Enc(bp.inIndex) + VarInt.Enc(bp.outIndex)
  }

  /** Coder `i + 1` reads what coder `i` produces. */
  function Chain(n: nat): (bps: seq<BindPair>)
    requires 0 < n < U64_LIMIT
  {
    seq(n - 1, i requires 0 <= i < n - 1 => BindPair(i + 1, i))
  }

  function PutBlock(ms: seq<Method>): bytes
    requires 0 < |ms| < U64_LIMIT
  {
    VarInt.Enc(|ms|) + (PutAll(PutCoder, ms) + PutAll(PutBindPair, Chain(|ms|)))
  }

  /** The block a reader builds from the methods a writer used. */
  function ChainBlock(ms: seq<Method>): Block
    requires 0 < |ms| < U64_LIMIT
  {
    Block(AsCoders(ms), false, 0, |ms|, |ms|, Chain(|ms|), [0], [], 0)
  }

  lemma PropsReads(props: bytes)
    requires |props| < 0x80
    ensures Reads(GetProps, [|props|] + props, props)
  {
    forall rest: bytes
      ensures GetProps([|props|] + props + rest) == Ok((props, rest))
    {
      assert VarInt.Enc(|props|) == [|props|] by {
        assert Le(|props|, 0) == [];
      }
      assert [|props|] + props + rest == VarInt.Enc(|props|) + (props + rest);
      VarInt.RoundTrip(|props|, props + rest);
      GetExactAppend(props, rest);
    }
  }

  lemma CoderReads(m: Method)
    ensures Reads(GetCoder, PutCoder(m), AsCoder(m))
  {
    forall rest: bytes
      ensures GetCoder(PutCoder(m) + rest) == Ok((AsCoder(m), rest))
    {
      CoderRoundTrip(m, rest);
    }
  }

  lemma CoderRoundTrip(m: Method, rest: bytes)
    ensures GetCoder(PutCoder(m) + rest) == Ok((AsCoder(m), rest))
  {
    hide GetCoder, PutAnyCoder, Decodable;
    ShortCoderReads(m, rest);
  }

  lemma ShortRecord(m: RawMethod, rest: bytes)
    requires |m.id| < 0x10 && |m.props| < 0x80
    ensures PutAnyCoder(m) + rest
         == if m.props == [] then [|m.id|] + (m.id + rest) else [|m.id| + 0x20] + (m.id + (([|m.props|] + m.props) + rest))
  {
  }

  lemma CoderWithoutProps(id: bytes, rest: bytes)
    requires |id| < 0x10
    ensures GetCoder([|id|] + (id + rest)) == Ok((Coder(id, 1, 1, []), rest))
  {
    hide GetProps, VarInt.Dec;
    GetU8Cons(|id|, id + rest);
    GetExactAppend(id, rest);
    assert |id| % 0x10 == |id| && (|id| / 0x10) % 2 == 0 && (|id| / 0x20) % 2 == 0;
  }

  lemma ShortCoderReads(m: RawMethod, rest: bytes)
    requires |m.id| < 0x10 && |m.props| < 0x80
    ensures GetCoder(PutAnyCoder(m) + rest) == Ok((AsCoder(m), rest))
  {
    hide GetProps, GetCoder, PutAnyCoder;
    ShortRecord(m, rest);
    if m.props == [] {
      CoderWithoutProps(m.id, rest);
    } else {
      CoderWithProps(m.id, ([|m.props|] + m.props) + rest);
      PropsReads(m.props);
    }
  }

  /** The record of a configuration with a short identifier can be read back if and only if its
      properties are fewer than 128 bytes. */
  lemma CoderReadsIff(m: RawMethod)
    requires |m.id| < 0x10 && |m.props| <= 0x100
    ensures Reads(GetCoder, PutAnyCoder(m), AsCoder(m)) <==> |m.props| < 0x80
  {
    hide GetCoder, PutAnyCoder;
    if |m.props| < 0x80 {
      forall rest: bytes
        ensures GetCoder(PutAnyCoder(m) + rest) == Ok((AsCoder(m), rest))
      {
        ShortCoderReads(m, rest);
      }
    } else {
      LongPropsCoder(m);
    }
  }

  /** A simple coder record with properties. */
  lemma CoderWithProps(id: bytes, tail: bytes)
    requires |id| < 0x10
    ensures GetCoder([|id| + 0x20] + (id + tail)) == match GetProps(tail)
                                                     case Err(e) => Err(e)
                                                     case Ok(p) => Ok((Coder(id, 1, 1, p.0), p.1))
  {
    hide GetProps, VarInt.Dec;
    var bits := |id| + 0x20;
    GetU8Cons(bits, id + tail);
    GetExactAppend(id, tail);
    assert bits % 0x10 == |id| && (bits / 0x10) % 2 == 0 && (bits / 0x20) % 2 != 0;
  }

  lemma LongPropsCoder(m: RawMethod)
    requires |m.id| < 0x10 && 0x80 <= |m.props| <= 0x100
    ensures GetCoder(PutAnyCoder(m) + []) != Ok((AsCoder(m), []))
  {
    hide GetProps, GetCoder, PutAnyCoder;
    LongPropsRecord(m);
    CoderWithProps(m.id, [|m.props| % 0x100] + m.props);
    if |m.props| < 0x100 {
      LongPropsMisread(m.props);
    } else {
      LengthLost(m.props);
    }
  }

  lemma LongPropsRecord(m: RawMethod)
    requires |m.id| < 0x10 && m.props != []
    ensures PutAnyCoder(m) + [] == [|m.id| + 0x20] + (m.id + ([|m.props| % 0x100] + m.props))
  {
    hide Decodable;
    var tail := [|m.props| % 0x100] + m.props;
    assert (|m.id| / 0x20) % 2 == 0 && |m.id| % 0x100 == |m.id|;
    assert PutAnyCoder(m) == [|m.id| + 0x20] + m.id + tail;
    Cat2([|m.id| + 0x20], m.id, tail);
    Cat2([|m.id| + 0x20] + m.id, tail, []);
    assert tail + [] == tail;
  }

  lemma LongPropsMisread(props: bytes)
    requires 0x80 <= |props| < 0x100
    ensures GetProps([|props|] + props) != Ok((props, []))
  {
    hide VarInt.Dec, GetExact;
    var s := [|props|] + props;
    if VarInt.Dec(s).Ok? {
      VarInt.DecTakesMore(s);
      var (n, s1) := VarInt.Dec(s).value;
      ExactIsShort(s1, n);
    }
  }

  lemma LengthLost(props: bytes)
    requires |props| == 0x100
    ensures GetProps([0] + props) == Ok(([], props))
  {
    hide VarInt.Dec, VarInt.Enc;
    ZeroRead();
    VarInt.RoundTrip(0, props);
    assert props[..0] == [] && props[0..] == props;
  }

  lemma ZeroRead()
    ensures VarInt.Enc(0) == [0]
  {
    assert Le(0, 0) == [];
  }

  lemma ExactIsShort(s: bytes, n: nat)
    ensures GetExact(s, n).Ok? ==> |GetExact(s, n).value.0| <= |s|
  {
  }

  lemma BindPairReads(bp: BindPair)
    ensures Reads(GetBindPair, PutBindPair(bp), bp)
  {
    forall rest: bytes
      ensures GetBindPair(PutBindPair(bp) + rest) == Ok((bp, rest))
    {
      assert PutBindPair(bp) + rest == VarInt.Enc(bp.inIndex) + (VarInt.Enc(bp.outIndex) + rest);
      VarInt.RoundTrip(bp.inIndex, VarInt.Enc(bp.outIndex) + rest);
      VarInt.RoundTrip(bp.outIndex, rest);
    }
  }

  lemma SumsOfMethods(ms: seq<Method>, n: nat)
    requires n <= |ms|
    ensures SumIn(AsCoders(ms)[..n]) == n && SumOut(AsCoders(ms)[..n]) == n
  {
    if n > 0 {
      SumsOfMethods(ms, n - 1);
      assert AsCoders(ms)[..n][..n - 1] == AsCoders(ms)[..n - 1];
    }
  }

  lemma ChainFind(n: nat, i: nat)
    requires 0 < n < U64_LIMIT && i < n
    ensures FindIn(Chain(n), i) == if i == 0 then None else Some(BindPair(i, i - 1))
    ensures FindOut(Chain(n), i) == if i == n - 1 then None else Some(BindPair(i + 1, i))
  {
    if i > 0 {
      assert Chain(n)[i - 1] == BindPair(i, i - 1);
    }
    if i < n - 1 {
      assert Chain(n)[i] == BindPair(i + 1, i);
    }
  }

  /** Reading a block record gives the chain it was written for. */
  lemma BlockReads(ms: seq<Method>)
    requires 0 < |ms| < U64_LIMIT
    ensures Reads(GetBlock, PutBlock(ms), ChainBlock(ms))
  {
    forall rest: bytes
      ensures GetBlock(PutBlock(ms) + rest) == Ok((ChainBlock(ms), rest))
    {
      BlockRoundTrip(ms, rest);
    }
  }

  lemma CodersRead(ms: seq<Method>, rest: bytes)
    ensures GetMany(GetCoder, |ms|, PutAll(PutCoder, ms) + rest) == Ok((AsCoders(ms), rest))
    ensures SumIn(AsCoders(ms)) == |ms| && SumOut(AsCoders(ms)) == |ms|
  {
    forall i | 0 <= i < |ms|
      ensures Reads(GetCoder, PutCoder(ms[i]), AsCoders(ms)[i])
    {
      CoderReads(ms[i]);
    }
    ManyReads(PutCoder, GetCoder, ms, AsCoders(ms), rest);
    SumsOfMethods(ms, |ms|);
    assert AsCoders(ms)[..|ms|] == AsCoders(ms);
  }

  lemma PairsRead(bps: seq<BindPair>, rest: bytes)
    ensures GetMany(GetBindPair, |bps|, PutAll(PutBindPair, bps) + rest) == Ok((bps, rest))
  {
    forall i | 0 <= i < |bps|
      ensures Reads(GetBindPair, PutBindPair(bps[i]), bps[i])
    {
      BindPairReads(bps[i]);
    }
    ManyReads(PutBindPair, GetBindPair, bps, bps, rest);
  }

  /** The parser when each of its steps gives what is named, with one input left unbound. */
  lemma BlockOfParts(s: bytes, n: nat, s1: bytes, coders: seq<Coder>, s2: bytes, bps: seq<BindPair>, s3: bytes, start: nat)
    requires 0 < n < U64_LIMIT && SumIn(coders) == SumOut(coders) == n && VarInt.Dec(s) == Ok((n, s1))
    requires GetMany(GetCoder, n, s1) == Ok((coders, s2)) && GetMany(GetBindPair, n - 1, s2) == Ok((bps, s3))
    requires FirstUnbound(bps, 0, n) == Some(start)
    ensures GetBlock(s) == Ok((Block(coders, false, 0, n, n, bps, [start], [], 0), s3))
  {
    hide VarInt.Dec, GetMany, FirstUnbound, SumIn, SumOut;
  }

  lemma BlockRoundTrip(ms: seq<Method>, rest: bytes)
    requires 0 < |ms| < U64_LIMIT
    ensures GetBlock(PutBlock(ms) + rest) == Ok((ChainBlock(ms), rest))
  {
    hide VarInt.Enc, VarInt.Dec, GetBlock, GetMany, PutAll, AsCoders, SumIn, SumOut;
    var n, bps := |ms|, Chain(|ms|);
    var s2 := PutAll(PutBindPair, bps) + rest;
    var s1 := PutAll(PutCoder, ms) + s2;
    assert PutBlock(ms) + rest == VarInt.Enc(n) + s1;
    VarInt.RoundTrip(n, s1);
    CodersRead(ms, s2);
    PairsRead(bps, rest);
    ChainFind(n, 0);
    BlockOfParts(PutBlock(ms) + rest, n, s1, AsCoders(ms), s2, bps, rest, 0);
  }

  /** The size a reader takes for the whole block is the one written last. */
  lemma ChainUnpackSize(ms: seq<Method>, sizes: seq<u64>, numSub: nat)
    requires 0 < |ms| == |sizes| < U64_LIMIT
    ensures var b := ChainBlock(ms).(unpackSizes := sizes, numSub := numSub);
            b.Sized() && UnpackSize(b) == sizes[|sizes| - 1]
  {
    ChainFind(|ms|, |ms| - 1);
  }
}
