/** Compression as a chain of abstract coders: what a writer's chain emits, what a reader's
    chain gives back, and the one law a coder has to satisfy. */
module Codecs {
  import opened Wire
  import opened Repeats
  import opened Blocks
  import opened Chains
  import opened Walks

  /** The coders, by configuration, and the checksum. `dec` is also told how many bytes the
      coder's output is meant to have. */
  datatype Codecs = Codecs(
    enc: (Method, bytes) -> bytes,
    dec: (Coder, nat, bytes) -> bytes,
    crc: bytes -> u32)
  {
    /** Decoding what was encoded, even with padding after it, starts with the original. */
    ghost predicate Inverts() {
      forall m: Method, x: bytes, pad: bytes :: x <= dec(AsCoder(m), |x|, enc(m, x) + pad)
    }
  }

  /** The bytes on the input side of coder `i - 1`: the data itself at the far end, the
      packed stream at 0. The last method sees the data first. */
  function Stage(c: Codecs, ms: seq<Method>, x: bytes, i: nat): bytes
    requires i <= |ms|
    decreases |ms| - i
  {
    if i == |ms| then x else c.enc(ms[i], Stage(c, ms, x, i + 1))
  }

  function Packed(c: Codecs, ms: seq<Method>, x: bytes): bytes {
    Stage(c, ms, x, 0)
  }

  lemma WholeChain(c: Codecs, ms: seq<Method>, x: bytes)
    ensures Packed(c, ms, x) == Stage(c, ms, x, 0)
  {
  }

  /** How many bytes each coder was given. */
  function StageSizes(c: Codecs, ms: seq<Method>, x: bytes): (r: seq<nat>)
    ensures |r| == |ms|
  {
    seq(|ms|, i requires 0 <= i < |ms| => |Stage(c, ms, x, i + 1)|)
  }

  /** One coder of the writer's chain. */
  lemma StageStep(c: Codecs, ms: seq<Method>, x: bytes, i: nat)
    requires i < |ms|
    ensures Stage(c, ms, x, |ms|) == x
    ensures Stage(c, ms, x, i) == c.enc(ms[i], Stage(c, ms, x, i + 1))
    ensures StageSizes(c, ms, x)[i] == |Stage(c, ms, x, i + 1)|
  {
    hide Decodable;
  }

  /** The reader's chain: each coder of `order` in turn decodes what the one before gave. */
  function Unpack(c: Codecs, b: Block, order: seq<nat>, s: bytes): Result<bytes>
    requires forall k :: 0 <= k < |order| ==> order[k] < |b.coders|
  {
    if order == [] then Ok(s)
    else
      if Unsupported(b, order[0]) then Err(UnsupportedMethod)
      else
        var size := if order[0] < |b.unpackSizes| then b.unpackSizes[order[0]] else 0;
        Unpack(c, b, order[1..], c.dec(b.coders[order[0]], size, s))
  }

  /** A coder the reader's chain has no place for, or no decoder. */
  predicate Unsupported(b: Block, i: nat)
    requires i < |b.coders|
  {
    b.coders[i].numIn != 1 || b.coders[i].numOut != 1 || !Decodable(b.coders[i].id)
  }

  /** The chain built from coder `i` on. The program goes round for ever when it has built as
      many decoders as there are coders and the bind pairs still lead on. */
  function DecodeFrom(c: Codecs, b: Block, i: nat, left: nat, s: bytes): Result<bytes>
    decreases left
  {
    if i >= |b.coders| then Ok(s)
    else if left == 0 then Err(EndlessChain)
    else if Unsupported(b, i) then Err(UnsupportedMethod)
    else
      var size := if i < |b.unpackSizes| then b.unpackSizes[i] else 0;
      var out := c.dec(b.coders[i], size, s);
      match Follow(b, i)
      case None => Ok(out)
      case Some(next) => DecodeFrom(c, b, next, left - 1, out)
  }

  /** A whole block. */
  function DecodeBlock(c: Codecs, b: Block, packed: bytes): Result<bytes> {
    if b.packedStreams == [] then Ok(packed) else DecodeFrom(c, b, b.packedStreams[0], |b.coders|, packed)
  }

  /** The program's loop over the coders, stopped where it would never stop. */
  method DecodeChain(c: Codecs, b: Block, s: bytes) returns (r: Result<bytes>)
    ensures r == DecodeBlock(c, b, s)
  {
    hide Follow;
    var iter := new OrderedCoderIter(b);
    var decoder, left := s, |b.coders|;
    var x: Option<nat> := iter.Next();
    while x.Some?
      invariant 0 <= left && fresh(iter) && iter.block == b
      invariant x.Some? ==> x.value < |b.coders| && iter.current == Follow(b, x.value)
      invariant DecodeBlock(c, b, s) == match x case None => Ok(decoder) case Some(i) => DecodeFrom(c, b, i, left, decoder)
      decreases left, x.Some?
    {
      if left == 0 {
        return Err(EndlessChain);
      }
      if Unsupported(b, x.value) {
        return Err(UnsupportedMethod);
      }
      var size := if x.value < |b.unpackSizes| then b.unpackSizes[x.value] else 0;
      decoder := c.dec(b.coders[x.value], size, decoder);
      x := iter.Next();
      left := left - 1;
    }
    r := Ok(decoder);
  }

  /** On a walk that ends, the chain is the one over the coders of the walk in order. */
  lemma {:induction false} DecodesInOrder(c: Codecs, b: Block, i: nat, left: nat, s: bytes)
    requires WalkFrom(Links(b), |b.coders|, i, left).Ok?
    ensures DecodeFrom(c, b, i, left, s) == Unpack(c, b, WalkFrom(Links(b), |b.coders|, i, left).value, s)
    decreases left
  {
    hide Follow;
    if i < |b.coders| && !Unsupported(b, i) {
      var order := WalkFrom(Links(b), |b.coders|, i, left).value;
      var size := if i < |b.unpackSizes| then b.unpackSizes[i] else 0;
      match Follow(b, i)
      case None => assert order[1..] == [];
      case Some(next) =>
        DecodesInOrder(c, b, next, left - 1, c.dec(b.coders[i], size, s));
        assert order[1..] == WalkFrom(Links(b), |b.coders|, next, left - 1).value;
    }
  }

  /** One coder of `way` is not supported. */
  predicate Refused(b: Block, way: seq<nat>)
    requires forall k :: 0 <= k < |way| ==> way[k] < |b.coders|
  {
    exists k :: 0 <= k < |way| && Unsupported(b, way[k])
  }

  /** On a walk that does not end, only a coder that is not supported stops the program. */
  lemma {:induction false} StopsOnTheWay(c: Codecs, b: Block, i: nat, left: nat, s: bytes)
    requires WalkFrom(Links(b), |b.coders|, i, left).Err?
    ensures DecodeFrom(c, b, i, left, s) == Err(if Refused(b, Trail(Links(b), |b.coders|, i, left)) then UnsupportedMethod else EndlessChain)
    decreases left
  {
    hide Follow, Unsupported, Decodable;
    if left > 0 {
      var way := Trail(Links(b), |b.coders|, i, left);
      assert way[0] == i;
      if !Unsupported(b, i) {
        var next := Follow(b, i).value;
        var rest := Trail(Links(b), |b.coders|, next, left - 1);
        assert way == [i] + rest;
        StopsOnTheWay(c, b, next, left - 1, c.dec(b.coders[i], if i < |b.unpackSizes| then b.unpackSizes[i] else 0, s));
        if Refused(b, rest) {
          var k :| 0 <= k < |rest| && Unsupported(b, rest[k]);
          assert way[k + 1] == rest[k];
        } else {
          assert forall k :: 0 < k < |way| ==> way[k] == rest[k - 1];
        }
      }
    }
  }

  /** A block decodes to what its coders, in the order of the walk, make of it; when the walk
      does not end, only a coder that is not supported stops the program. */
  lemma DecodesIffEnds(c: Codecs, b: Block, s: bytes)
    ensures OrderedCoders(b).Ok? ==> DecodeBlock(c, b, s) == Unpack(c, b, OrderedCoders(b).value, s)
    ensures OrderedCoders(b).Err? ==>
      DecodeBlock(c, b, s) == Err(if Refused(b, Reached(b)) then UnsupportedMethod else EndlessChain)
  {
    hide Follow, WalkFrom, DecodeFrom, Trail, Refused;
    if b.packedStreams != [] {
      if OrderedCoders(b).Ok? {
        DecodesInOrder(c, b, b.packedStreams[0], |b.coders|, s);
      } else {
        StopsOnTheWay(c, b, b.packedStreams[0], |b.coders|, s);
      }
    }
  }

  /** One coder undone, the rest follows. */
  lemma UnpackStep(c: Codecs, b: Block, order: seq<nat>, s: bytes)
    requires (forall k :: 0 <= k < |order| ==> order[k] < |b.coders|) && order != [] && !Unsupported(b, order[0])
    ensures var i := order[0];
            Unpack(c, b, order, s) == Unpack(c, b, order[1..], c.dec(b.coders[i], if i < |b.unpackSizes| then b.unpackSizes[i] else 0, s))
  {
  }

  /** What the writer's coder `i` was given, and that the reader's undoes it. */
  lemma StageUndone(c: Codecs, ms: seq<Method>, sizes: seq<u64>, numSub: nat, x: bytes, i: nat, pad: bytes)
    requires c.Inverts() && 0 < |ms| < U64_LIMIT && i < |ms| && sizes == StageSizes(c, ms, x)
    ensures var b, inner := Made(ms, sizes, numSub), Stage(c, ms, x, i + 1);
            && |b.coders| == |ms| && |b.unpackSizes| == |ms| && !Unsupported(b, i) && b.unpackSizes[i] == |inner|
            && inner <= c.dec(b.coders[i], |inner|, Stage(c, ms, x, i) + pad)
  {
    hide Decodable;
    var inner := Stage(c, ms, x, i + 1);
    assert Stage(c, ms, x, i) == c.enc(ms[i], inner);
    assert Made(ms, sizes, numSub).coders[i] == AsCoder(ms[i]) && Decodable(ms[i].id);
    hide Stage;
  }

  function From(i: nat, n: nat): (r: seq<nat>)
    requires i <= n
    ensures |r| == n - i && forall k :: 0 <= k < |r| ==> r[k] == i + k
  {
    seq(n - i, k => i + k)
  }

  /** From coder `i` on, the reader undoes what the writer's coders `i` and up did. */
  lemma {:induction false} UnpackFrom(c: Codecs, ms: seq<Method>, sizes: seq<u64>, numSub: nat, x: bytes, i: nat, pad: bytes)
    requires c.Inverts() && 0 < |ms| < U64_LIMIT && i <= |ms|
    requires sizes == StageSizes(c, ms, x) && |Made(ms, sizes, numSub).coders| == |ms|
    ensures var r := Unpack(c, Made(ms, sizes, numSub), From(i, |ms|), Stage(c, ms, x, i) + pad);
            r.Ok? && x <= r.value
    decreases |ms| - i
  {
    hide Stage, StageSizes, Unpack, Unsupported, Made, Codecs.Inverts, From;
    var order, s := From(i, |ms|), Stage(c, ms, x, i) + pad;
    if i < |ms| {
      StageUndone(c, ms, sizes, numSub, x, i, pad);
      var inner := Stage(c, ms, x, i + 1);
      var out := c.dec(Made(ms, sizes, numSub).coders[i], |inner|, s);
      assert out == inner + out[|inner|..];
      UnpackStep(c, Made(ms, sizes, numSub), order, s);
      assert order[1..] == From(i + 1, |ms|);
      UnpackFrom(c, ms, sizes, numSub, x, i + 1, out[|inner|..]);
    } else {
      NothingToUndo(c, ms, sizes, numSub, x, order, pad);
    }
  }

  lemma NothingToUndo(c: Codecs, ms: seq<Method>, sizes: seq<u64>, numSub: nat, x: bytes, order: seq<nat>, pad: bytes)
    requires 0 < |ms| < U64_LIMIT && order == []
    ensures Stage(c, ms, x, |ms|) == x && Unpack(c, Made(ms, sizes, numSub), order, x + pad) == Ok(x + pad)
  {
  }

  lemma MadeCoders(ms: seq<Method>, sizes: seq<u64>, numSub: nat)
    requires 0 < |ms| < U64_LIMIT
    ensures |Made(ms, sizes, numSub).coders| == |ms|
  {
  }

  /** Unpacking a block, with or without padding after it, starts with the data that was
      packed, given the coders in the order the writer recorded them and their sizes. */
  lemma UnpackPacked(c: Codecs, ms: seq<Method>, sizes: seq<u64>, numSub: nat, x: bytes, pad: bytes)
    requires c.Inverts() && 0 < |ms| < U64_LIMIT && sizes == StageSizes(c, ms, x)
    ensures var b := Made(ms, sizes, numSub);
            && DecodeBlock(c, b, Packed(c, ms, x) + pad).Ok?
            && x <= DecodeBlock(c, b, Packed(c, ms, x) + pad).value
  {
    hide DecodeBlock, OrderedCoders, Unpack, Stage, StageSizes, Made;
    DecodesIffEnds(c, Made(ms, sizes, numSub), Packed(c, ms, x) + pad);
    ChainInOrder(ms, sizes, numSub);
    MadeCoders(ms, sizes, numSub);
    UnpackFrom(c, ms, sizes, numSub, x, 0, pad);
    assert From(0, |ms|) == seq(|ms|, k => k);
  }

  // ----- blocks on which the program never ends

  /** On the bytes of either endless block the program itself goes round for ever: all its coders
      are known ones, and none is refused on the way. */
  lemma ProgramNeverEnds(c: Codecs, s: bytes)
    ensures GetBlock(MERGED) == Ok((ThreeCoders(BindPair(1, 0), BindPair(1, 1)), []))
    ensures DecodeBlock(c, ThreeCoders(BindPair(1, 0), BindPair(1, 1)), s) == Err(EndlessChain)
    ensures GetBlock(ROUND) == Ok((RoundBlock(), []))
    ensures DecodeBlock(c, RoundBlock(), s) == Err(EndlessChain)
  {
    hide DecodeBlock, OrderedCoders, GetBlock, Reached, Decodable;
    EndlessParsed();
    BoundStartEndless();
    CopyIsDecodable();
    DecodesIffEnds(c, ThreeCoders(BindPair(1, 0), BindPair(1, 1)), s);
    DecodesIffEnds(c, RoundBlock(), s);
    RoundReached();
  }

  lemma RoundReached()
    ensures forall k :: 0 <= k < |Reached(RoundBlock())| ==> Reached(RoundBlock())[k] < 2
  {
    var b := RoundBlock();
    NotAmong(b.bindPairs[0], b.bindPairs[1], 0);
    NotAmong(b.bindPairs[0], b.bindPairs[1], 1);
    assert Trail(Links(b), 3, 0, 1) == [0];
    assert Trail(Links(b), 3, 1, 2) == [1] + [0];
    assert Trail(Links(b), 3, 0, 3) == [0] + ([1] + [0]);
  }
}
