/** Walking a block's coders in decoding order: from the packed stream, along the bind pairs. */
module Chains {
  import opened Wire
  import opened Repeats
  import opened Blocks
  import opened Walks
  import VarInt

  /** The bind pair that consumes output `i` names the next coder. */
  function Follow(b: Block, i: nat): Option<u64> {
    match FindOut(b.bindPairs, i)
    case None => None
    case Some(bp) => Some(bp.inIndex)
  }

  /** Where each coder leads. */
  function Links(b: Block): nat -> Option<nat> {
    (i: nat) => Follow(b, i)
  }

  /** The coders of a block in decoding order. */
  function OrderedCoders(b: Block): (r: Result<seq<nat>>)
    ensures r.Ok? ==> forall k :: 0 <= k < |r.value| ==> r.value[k] < |b.coders|
  {
    if b.packedStreams == [] then Ok([]) else WalkFrom(Links(b), |b.coders|, b.packedStreams[0], |b.coders|)
  }

  /** The first coders the iterator yields: as many as the block has, or all of them. */
  function Reached(b: Block): (r: seq<nat>)
    ensures forall k :: 0 <= k < |r| ==> r[k] < |b.coders|
  {
    if b.packedStreams == [] then [] else Trail(Links(b), |b.coders|, b.packedStreams[0], |b.coders|)
  }

  /** `OrderedCoderIter`. */
  class OrderedCoderIter {
    const block: Block
    var current: Option<u64>

    constructor (block: Block)
      ensures this.block == block
      ensures current == if block.packedStreams == [] then None else Some(block.packedStreams[0])
    {
      this.block := block;
      current := if block.packedStreams == [] then None else Some(block.packedStreams[0]);
    }

    method Next() returns (r: Option<nat>)
      modifies this
      ensures old(current).None? ==> r.None? && current.None?
      ensures old(current).Some? ==> current == Follow(block, old(current).value)
      ensures old(current).Some? ==>
        r == if old(current).value < |block.coders| then Some(old(current).value) else None
      ensures r.Some? ==> r.value < U64_LIMIT
    {
      if current.None? {
        return None;
      }
      var i := current.value;
      current := Follow(block, i);
      r := if i < |block.coders| then Some(i) else None;
    }
  }

  // ----- when the walk ends

  /** The iterator ends if and only if none of the coders it reaches leads back to the first
      and no two of them lead to the same; then it has yielded each coder it reached once. */
  lemma EndsIffNoWayBack(b: Block)
    ensures OrderedCoders(b).Ok? <==> NoWayBack(Links(b), |b.coders|, Reached(b))
    ensures OrderedCoders(b).Ok? ==> OrderedCoders(b).value == Reached(b) && Distinct(Reached(b))
    ensures OrderedCoders(b).Err? ==> OrderedCoders(b) == Err(EndlessChain)
  {
    if b.packedStreams != [] {
      Walks.EndsIffNoWayBack(Links(b), |b.coders|, b.packedStreams[0]);
    }
  }

  predicate DistinctIn(bps: seq<BindPair>) {
    forall i, j :: 0 <= i < j < |bps| ==> bps[i].inIndex != bps[j].inIndex
  }

  /** The one packed stream enters an input no bind pair feeds. */
  predicate StartsUnbound(b: Block) {
    b.packedStreams != [] && FindIn(b.bindPairs, b.packedStreams[0]).None?
  }

  /** Distinct inputs mean at most one way into each coder. */
  lemma OneWayIn(b: Block, i: nat, j: nat)
    requires DistinctIn(b.bindPairs) && i != j
    ensures Follow(b, i).Some? ==> Follow(b, i) != Follow(b, j)
  {
    var p, q := FindOut(b.bindPairs, i), FindOut(b.bindPairs, j);
    if p.Some? && q.Some? {
      var m :| 0 <= m < |b.bindPairs| && b.bindPairs[m] == p.value;
      var n :| 0 <= n < |b.bindPairs| && b.bindPairs[n] == q.value;
      assert m < n || n < m;
    }
  }

  /** Nothing leads to the coder that reads a packed stream of its own. */
  lemma StartNotReentered(b: Block, i: nat)
    requires StartsUnbound(b)
    ensures Follow(b, i) != Some(b.packedStreams[0])
  {
  }

  /** With distinct inputs and an unbound start, the iterator ends and visits no coder twice. */
  lemma WalkEnds(b: Block)
    requires DistinctIn(b.bindPairs) && StartsUnbound(b)
    ensures OrderedCoders(b).Ok? && Distinct(OrderedCoders(b).value)
  {
    hide Follow, DistinctIn, Trail, WalkFrom;
    var way := Reached(b);
    TrailIsWalk(Links(b), |b.coders|, b.packedStreams[0], |b.coders|);
    forall i | 0 <= i < |way|
      ensures Links(b)(way[i]) != Some(way[0])
    {
      StartNotReentered(b, way[i]);
    }
    forall i, j | 0 <= i < |way| && 0 <= j < |way| && way[i] != way[j] && Onward(Links(b), |b.coders|, way[i])
      ensures Links(b)(way[i]) != Links(b)(way[j])
    {
      OneWayIn(b, way[i], way[j]);
    }
    EndsIffNoWayBack(b);
  }

  // ----- blocks the parser builds

  /** A parsed block has one bind pair less than it has outputs; its one packed stream, if it
      has just one, enters an input no pair feeds. */
  lemma ParsedShape(s: bytes)
    requires GetBlock(s).Ok?
    ensures var b := GetBlock(s).value.0;
            && |b.bindPairs| == b.totalOut - 1
            && |b.packedStreams| == b.totalIn - |b.bindPairs|
            && (|b.packedStreams| == 1 ==> StartsUnbound(b))
  {
    hide GetCoder, GetBindPair, VarInt.Dec;
  }

  /** On a parsed block with one packed stream the iterator ends if the bind pairs' inputs
      are distinct. */
  lemma ParsedWalkEnds(s: bytes)
    requires GetBlock(s).Ok? && |GetBlock(s).value.0.packedStreams| == 1
    requires DistinctIn(GetBlock(s).value.0.bindPairs)
    ensures var r := OrderedCoders(GetBlock(s).value.0); r.Ok? && Distinct(r.value)
  {
    hide GetBlock;
    ParsedShape(s);
    WalkEnds(GetBlock(s).value.0);
  }

  /** A coder that copies, and its record. */
  const PLAIN := Coder(COPY_ID, 1, 1, [])
  const RECORD: bytes := [1, 0]

  /** Three copying coders, each with one input and one output, and two bind pairs. */
  function ThreeCoders(p: BindPair, q: BindPair): Block {
    Block([PLAIN, PLAIN, PLAIN], false, 0, 3, 3, [p, q], [0], [], 0)
  }

  lemma ThreeParsed(p: BindPair, q: BindPair)
    requires p.inIndex < 0x80 && p.outIndex < 0x80 && q.inIndex < 0x80 && q.outIndex < 0x80
    requires p.inIndex != 0 && q.inIndex != 0
    ensures GetBlock([3, 1, 0, 1, 0, 1, 0, p.inIndex, p.outIndex, q.inIndex, q.outIndex]) == Ok((ThreeCoders(p, q), []))
  {
    hide VarInt.Dec, GetCoder, GetBindPair, GetMany, SumIn, SumOut;
    var pairs: bytes := [p.inIndex, p.outIndex, q.inIndex, q.outIndex];
    var s1 := RECORD + (RECORD + (RECORD + pairs));
    assert [3, 1, 0, 1, 0, 1, 0, p.inIndex, p.outIndex, q.inIndex, q.outIndex] == [3] + s1;
    SmallInt(3, s1);
    ThreePlain(pairs);
    SumsOfThree(PLAIN, PLAIN, PLAIN);
    PairParsed(p, pairs[2..]);
    PairParsed(q, []);
    assert pairs == [p.inIndex, p.outIndex] + pairs[2..] && pairs[2..] == [q.inIndex, q.outIndex] + [];
    TwoPairs(p, q, pairs);
    NotAmong(p, q, 0);
  }

  lemma ThreePlain(rest: bytes)
    ensures GetMany(GetCoder, 3, RECORD + (RECORD + (RECORD + rest))) == Ok(([PLAIN, PLAIN, PLAIN], rest))
  {
    hide GetCoder, GetMany;
    PlainParsed(RECORD + (RECORD + rest));
    PlainParsed(RECORD + rest);
    PlainParsed(rest);
    ThenMany(GetCoder, 2, RECORD + (RECORD + (RECORD + rest)));
    ThenMany(GetCoder, 1, RECORD + (RECORD + rest));
    ThenMany(GetCoder, 0, RECORD + rest);
    NoneOf(GetCoder, rest);
    assert [PLAIN] + [] == [PLAIN] && [PLAIN] + [PLAIN] == [PLAIN, PLAIN] && [PLAIN] + [PLAIN, PLAIN] == [PLAIN, PLAIN, PLAIN];
  }

  lemma NotAmong(p: BindPair, q: BindPair, i: nat)
    ensures FindIn([p, q], i) == if p.inIndex == i then Some(p) else if q.inIndex == i then Some(q) else None
    ensures FindOut([p, q], i) == if p.outIndex == i then Some(p) else if q.outIndex == i then Some(q) else None
  {
    assert [p, q][1..] == [q] && [q][1..] == [];
  }

  lemma SmallInt(n: nat, rest: bytes)
    requires n < 0x80
    ensures VarInt.Dec([n] + rest) == Ok((n, rest))
  {
    hide VarInt.Enc, VarInt.Dec;
    VarInt.EncSmall(n);
    VarInt.RoundTrip(n, rest);
  }

  lemma PlainParsed(rest: bytes)
    ensures GetCoder(RECORD + rest) == Ok((PLAIN, rest))
  {
    hide GetU8, GetProps, GetStreamCounts, GetExact;
    assert RECORD + rest == [1] + (COPY_ID + rest);
    GetU8Cons(1, COPY_ID + rest);
    GetExactAppend(COPY_ID, rest);
  }

  lemma PairParsed(p: BindPair, rest: bytes)
    requires p.inIndex < 0x80 && p.outIndex < 0x80
    ensures GetBindPair([p.inIndex, p.outIndex] + rest) == Ok((p, rest))
  {
    hide VarInt.Dec;
    assert [p.inIndex, p.outIndex] + rest == [p.inIndex] + ([p.outIndex] + rest);
    SmallInt(p.inIndex, [p.outIndex] + rest);
    SmallInt(p.outIndex, rest);
  }

  lemma TwoPairs(p: BindPair, q: BindPair, s: bytes)
    requires GetBindPair(s).Ok? && GetBindPair(s).value.0 == p && GetBindPair(GetBindPair(s).value.1) == Ok((q, []))
    ensures GetMany(GetBindPair, 2, s) == Ok(([p, q], []))
  {
    hide GetBindPair;
    var s1 := GetBindPair(s).value.1;
    assert GetMany(GetBindPair, 0, []) == Ok(([], []));
    assert [q] + [] == [q];
    assert GetMany(GetBindPair, 1, s1) == Ok(([q], []));
    assert [p] + [q] == [p, q];
  }

  /** Eleven bytes that the parser accepts and the iterator never gets to the end of: both bind
      pairs feed the second coder, one of them from that coder itself. */
  const MERGED: bytes := [3, 1, 0, 1, 0, 1, 0, 1, 0, 1, 1]

  lemma EndlessParsed()
    ensures GetBlock(MERGED) == Ok((ThreeCoders(BindPair(1, 0), BindPair(1, 1)), []))
    ensures var b := ThreeCoders(BindPair(1, 0), BindPair(1, 1));
            StartsUnbound(b) && !DistinctIn(b.bindPairs) && OrderedCoders(b) == Err(EndlessChain)
  {
    hide GetBlock;
    var p, q := BindPair(1, 0), BindPair(1, 1);
    var b := ThreeCoders(p, q);
    ThreeParsed(p, q);
    NotAmong(p, q, 0);
    NotAmong(p, q, 1);
    assert b.bindPairs[0].inIndex == b.bindPairs[1].inIndex;
    assert WalkFrom(Links(b), 3, 1, 0) == Err(EndlessChain);
    assert WalkFrom(Links(b), 3, 1, 1) == Err(EndlessChain);
    assert WalkFrom(Links(b), 3, 1, 2) == Err(EndlessChain);
  }

  // A block with two packed streams lists them, and the first one listed may enter a bound input.

  lemma ComplexParsed(id: bytes, numIn: nat, numOut: nat, rest: bytes)
    requires |id| < 0x10 && numIn < 0x80 && numOut < 0x80
    ensures GetCoder([0x10 + |id|] + (id + ([numIn, numOut] + rest))) == Ok((Coder(id, numIn, numOut, []), rest))
  {
    hide VarInt.Dec;
    GetU8Cons(0x10 + |id|, id + ([numIn, numOut] + rest));
    GetExactAppend(id, [numIn, numOut] + rest);
    assert [numIn, numOut] + rest == [numIn] + ([numOut] + rest);
    SmallInt(numIn, [numOut] + rest);
    SmallInt(numOut, rest);
  }

  lemma ThenMany<T>(p: bytes -> Parsed<T>, n: nat, s: bytes)
    requires p(s).Ok?
    ensures GetMany(p, n + 1, s) == match GetMany(p, n, p(s).value.1)
                                    case Err(e) => Err(e)
                                    case Ok(q) => Ok(([p(s).value.0] + q.0, q.1))
  {
  }

  lemma TwoIndices(i: nat, j: nat, rest: bytes)
    requires i < 0x80 && j < 0x80
    ensures GetMany(VarInt.Dec, 2, [i, j] + rest) == Ok(([i, j], rest))
  {
    hide VarInt.Dec;
    assert [i, j] + rest == [i] + ([j] + rest);
    SmallInt(i, [j] + rest);
    SmallInt(j, rest);
    ThenMany(VarInt.Dec, 1, [i, j] + rest);
    ThenMany(VarInt.Dec, 0, [j] + rest);
    assert [j] + [] == [j] && [i] + [j] == [i, j];
  }

  /** Three coders with four inputs and three outputs: two pairs, and two packed streams listed. */
  lemma FourInputsParsed(coders: seq<Coder>, coderBytes: bytes, p: BindPair, q: BindPair, i: nat, j: nat)
    requires p.inIndex < 0x80 && p.outIndex < 0x80 && q.inIndex < 0x80 && q.outIndex < 0x80 && i < 0x80 && j < 0x80
    requires SumIn(coders) == 4 && SumOut(coders) == 3
    requires var rest: bytes := [p.inIndex, p.outIndex, q.inIndex, q.outIndex, i, j];
             GetMany(GetCoder, 3, coderBytes + rest) == Ok((coders, rest))
    ensures GetBlock([3] + (coderBytes + [p.inIndex, p.outIndex, q.inIndex, q.outIndex, i, j]))
         == Ok((Block(coders, false, 0, 4, 3, [p, q], [i, j], [], 0), []))
  {
    hide VarInt.Dec, GetCoder, GetBindPair, GetMany;
    var rest: bytes := [p.inIndex, p.outIndex, q.inIndex, q.outIndex, i, j];
    SmallInt(3, coderBytes + rest);
    PairParsed(p, rest[2..]);
    PairParsed(q, [i, j]);
    assert rest == [p.inIndex, p.outIndex] + rest[2..] && rest[2..] == [q.inIndex, q.outIndex] + [i, j];
    ThenMany(GetBindPair, 1, rest);
    ThenMany(GetBindPair, 0, rest[2..]);
    NoneOf(GetBindPair, [i, j]);
    assert [q] + [] == [q] && [p] + [q] == [p, q];
    TwoIndices(i, j, []);
    assert [i, j] + [] == [i, j];
  }

  lemma NoneOf<T>(p: bytes -> Parsed<T>, s: bytes)
    ensures GetMany(p, 0, s) == Ok(([], s))
  {
  }

  lemma SumsOfThree(a: Coder, b: Coder, c: Coder)
    ensures SumIn([a, b, c]) == a.numIn + b.numIn + c.numIn && SumOut([a, b, c]) == a.numOut + b.numOut + c.numOut
  {
    assert [a][..0] == [] && SumIn([a]) == a.numIn && SumOut([a]) == a.numOut;
    assert [a, b][..1] == [a] && SumIn([a, b]) == a.numIn + b.numIn && SumOut([a, b]) == a.numOut + b.numOut;
    assert [a, b, c][..2] == [a, b];
  }

  const ROUND: bytes := [3, 1, 0, 1, 0, 0x11, 0, 2, 1, 1, 0, 0, 1, 0, 3]

  function RoundBlock(): Block {
    Block([PLAIN, PLAIN, Coder(COPY_ID, 2, 1, [])], false, 0, 4, 3, [BindPair(1, 0), BindPair(0, 1)], [0, 3], [], 0)
  }

  lemma RoundCoders(rest: bytes)
    ensures GetMany(GetCoder, 3, RECORD + (RECORD + ([0x11] + (COPY_ID + ([2, 1] + rest))))) == Ok((RoundBlock().coders, rest))
  {
    hide GetCoder, GetMany;
    var main := Coder(COPY_ID, 2, 1, []);
    var s3 := [0x11] + (COPY_ID + ([2, 1] + rest));
    ComplexParsed(COPY_ID, 2, 1, rest);
    PlainParsed(RECORD + s3);
    PlainParsed(s3);
    ThenMany(GetCoder, 2, RECORD + (RECORD + s3));
    ThenMany(GetCoder, 1, RECORD + s3);
    ThenMany(GetCoder, 0, s3);
    NoneOf(GetCoder, rest);
    assert [main] + [] == [main] && [PLAIN] + [main] == [PLAIN, main] && [PLAIN] + [PLAIN, main] == [PLAIN, PLAIN, main];
  }

  lemma RoundParsed()
    ensures GetBlock(ROUND) == Ok((RoundBlock(), []))
  {
    hide GetBlock, GetCoder, GetMany, SumIn, SumOut;
    var rest: bytes := [1, 0, 0, 1, 0, 3];
    var coderBytes: bytes := [1, 0, 1, 0, 0x11, 0, 2, 1];
    RoundCoders(rest);
    assert coderBytes + rest == RECORD + (RECORD + ([0x11] + (COPY_ID + ([2, 1] + rest))));
    SumsOfThree(RoundBlock().coders[0], RoundBlock().coders[1], RoundBlock().coders[2]);
    FourInputsParsed(RoundBlock().coders, coderBytes, BindPair(1, 0), BindPair(0, 1), 0, 3);
    assert ROUND == [3] + (coderBytes + rest);
  }

  /** Bytes of such a block on which the iterator goes round between two coders, though the
      inputs of the bind pairs are distinct. Opening a file's block refuses such a block
      before; opening a packed header does not. */
  lemma BoundStartEndless()
    ensures GetBlock(ROUND) == Ok((RoundBlock(), []))
    ensures DistinctIn(RoundBlock().bindPairs) && !StartsUnbound(RoundBlock()) && OrderedCoders(RoundBlock()) == Err(EndlessChain)
  {
    hide GetBlock;
    RoundParsed();
    var b := RoundBlock();
    NotAmong(b.bindPairs[0], b.bindPairs[1], 0);
    NotAmong(b.bindPairs[0], b.bindPairs[1], 1);
    assert WalkFrom(Links(b), 3, 1, 0) == Err(EndlessChain);
    assert WalkFrom(Links(b), 3, 0, 1) == Err(EndlessChain);
    assert WalkFrom(Links(b), 3, 1, 2) == Err(EndlessChain);
  }

  // ----- blocks the writer made

  /** A block as the reader keeps it after all tables are read. */
  function Made(ms: seq<Method>, sizes: seq<u64>, numSub: nat): Block
    requires 0 < |ms| < U64_LIMIT
  {
    ChainBlock(ms).(unpackSizes := sizes, numSub := numSub)
  }

  lemma ChainLinks(ms: seq<Method>, sizes: seq<u64>, numSub: nat, i: nat)
    requires 0 < |ms| < U64_LIMIT && i < |ms|
    ensures Links(Made(ms, sizes, numSub))(i) == if i == |ms| - 1 then None else Some(i + 1)
  {
    hide FindOut, FindIn;
    ChainFind(|ms|, i);
  }

  lemma {:induction false} ChainFrom(ms: seq<Method>, sizes: seq<u64>, numSub: nat, i: nat, left: nat)
    requires 0 < |ms| < U64_LIMIT && i <= |ms| && left + i >= |ms|
    ensures var r := WalkFrom(Links(Made(ms, sizes, numSub)), |ms|, i, left);
            r.Ok? && |r.value| == |ms| - i && forall k :: 0 <= k < |r.value| ==> r.value[k] == i + k
    decreases |ms| - i
  {
    hide Made, Links;
    if i < |ms| {
      ChainLinks(ms, sizes, numSub, i);
      if i + 1 < |ms| {
        ChainFrom(ms, sizes, numSub, i + 1, left - 1);
      }
    }
  }

  /** A block record the writer made is walked through all its coders in order. */
  lemma ChainInOrder(ms: seq<Method>, sizes: seq<u64>, numSub: nat)
    requires 0 < |ms| < U64_LIMIT
    ensures OrderedCoders(Made(ms, sizes, numSub)) == Ok(seq(|ms|, k => k))
  {
    ChainFrom(ms, sizes, numSub, 0, |ms|);
    assert OrderedCoders(Made(ms, sizes, numSub)).value == seq(|ms|, k => k);
  }
}
