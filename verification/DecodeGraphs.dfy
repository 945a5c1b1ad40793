/** Blocks whose main coder has several inputs: finding that coder, and following each of its
    inputs back to a packed stream. */
module DecodeGraphs {
  import opened Wire
  import opened Blocks
  import opened Chains
  import opened Walks
  import VarInt
  import opened Repeats

  const MAX_CODER_COUNT := 32
  const BCJ2_ID: bytes := [0x03, 0x03, 0x01, 0x1B]

  /** What feeds an input: a packed stream, or a coder fed by something else. */
  datatype Feed = Packed(index: nat) | Decoded(coder: nat, input: Feed)

  function Coders(f: Feed): seq<nat> {
    match f
    case Packed(_) => []
    case Decoded(j, input) => [j] + Coders(input)
  }

  function PackedIndex(f: Feed): nat {
    match f
    case Packed(k) => k
    case Decoded(_, input) => PackedIndex(input)
  }

  function Position(xs: seq<u64>, x: nat): (r: Option<nat>)
    ensures r.Some? ==> r.value < |xs| && xs[r.value] == x
    ensures r.None? ==> x !in xs
  {
    if xs == [] then None
    else if xs[0] == x then Some(0)
    else match Position(xs[1..], x) case None => None case Some(k) => Some(k + 1)
  }

  /** The first input stream of coder `j`. */
  function FirstInput(b: Block, j: nat): nat
    requires j <= |b.coders|
  {
    SumIn(b.coders[..j])
  }

  /** `get_in_stream`. A descent through more coders than there are goes round for ever. */
  function InStream(b: Block, i: nat, left: nat): (r: Result<Feed>)
    ensures r.Ok? ==> PackedIndex(r.value) < |b.packedStreams|
    decreases left, 1
  {
    match Position(b.packedStreams, i)
    case Some(k) => Ok(Packed(k))
    case None =>
      match FindIn(b.bindPairs, i)
      case None => Err(BindPairMissing)
      case Some(bp) => CoderStream(b, bp.outIndex, left)
  }

  /** `get_in_stream2`. */
  function CoderStream(b: Block, j: nat, left: nat): (r: Result<Feed>)
    ensures r.Ok? ==> PackedIndex(r.value) < |b.packedStreams|
    decreases left, 0
  {
    if j >= |b.coders| || j >= |b.unpackSizes| then Err(Panic)
    else if b.coders[j].numIn != 1 then Err(UnsupportedMethod)
    else if left == 0 then Err(EndlessChain)
    else
      var input :- InStream(b, FirstInput(b, j), left - 1);
      if Decodable(b.coders[j].id) then Ok(Decoded(j, input)) else Err(UnsupportedMethod)
  }

  // ----- the main coder

  predicate Used(b: Block, j: nat) {
    exists bp :: bp in b.bindPairs && bp.outIndex == j
  }

  /** The loop that marks the bound outputs, and the one that takes the first unmarked coder. */
  method FindMain(b: Block) returns (r: Result<nat>)
    requires 0 < |b.coders| <= MAX_CODER_COUNT
    ensures r.Err? <==> exists bp :: bp in b.bindPairs && bp.outIndex >= MAX_CODER_COUNT
    ensures r.Ok? ==> r.value < |b.coders|
    ensures r.Ok? && (exists j :: 0 <= j < |b.coders| && !Used(b, j)) ==> !Used(b, r.value)
    ensures r.Ok? ==> forall j :: 0 <= j < r.value ==> Used(b, j)
  {
    var used := new bool[MAX_CODER_COUNT](i => false);
    for k := 0 to |b.bindPairs|
      invariant forall i :: 0 <= i < k ==> b.bindPairs[i].outIndex < MAX_CODER_COUNT && used[b.bindPairs[i].outIndex]
      invariant forall j :: 0 <= j < MAX_CODER_COUNT && used[j] ==> Used(b, j)
    {
      var bp := b.bindPairs[k];
      assert bp in b.bindPairs;
      if bp.outIndex >= MAX_CODER_COUNT {
        return Err(Panic);
      }
      used[bp.outIndex] := true;
    }
    for j := 0 to |b.coders|
      invariant forall i :: 0 <= i < j ==> used[i]
    {
      if !used[j] {
        return Ok(j);
      }
    }
    r := Ok(0);
  }

  /** `build_decode_stack2`, down to what feeds each input of the main coder. */
  method BuildInputs(b: Block, left: nat) returns (r: Result<(nat, seq<Feed>)>)
    requires 0 < |b.coders|
    ensures |b.coders| > MAX_CODER_COUNT ==> r == Err(TooManyCoders)
    ensures r.Ok? ==>
      var (main, inputs) := r.value;
      && main < |b.coders| && b.coders[main].id == BCJ2_ID && |inputs| == b.coders[main].numIn
      && ((exists j :: 0 <= j < |b.coders| && !Used(b, j)) ==> !Used(b, main))
      && forall k :: 0 <= k < |inputs| ==> InStream(b, FirstInput(b, main) + k, left) == Ok(inputs[k])
  {
    if |b.coders| > MAX_CODER_COUNT {
      return Err(TooManyCoders);
    }
    var starts := InputMap(b);
    var main :- FindMain(b);
    if b.coders[main].id != BCJ2_ID {
      return Err(UnsupportedMethod);
    }
    var inputs: seq<Feed> := [];
    for k := 0 to b.coders[main].numIn
      invariant |inputs| == k
      invariant forall i :: 0 <= i < k ==> InStream(b, FirstInput(b, main) + i, left) == Ok(inputs[i])
    {
      var input :- InStream(b, starts[main] + k, left);
      inputs := inputs + [input];
    }
    r := Ok((main, inputs));
  }

  /** `coder_to_stream_map`. */
  method InputMap(b: Block) returns (starts: seq<nat>)
    ensures |starts| == |b.coders| && forall j :: 0 <= j < |b.coders| ==> starts[j] == FirstInput(b, j)
  {
    starts := [];
    var si: nat := 0;
    for j := 0 to |b.coders|
      invariant |starts| == j && si == FirstInput(b, j)
      invariant forall i :: 0 <= i < j ==> starts[i] == FirstInput(b, i)
    {
      starts := starts + [si];
      assert b.coders[..j + 1][..j] == b.coders[..j];
      si := si + b.coders[j].numIn;
    }
  }

  // ----- why it ends

  predicate DistinctOut(bps: seq<BindPair>) {
    forall i, j :: 0 <= i < j < |bps| ==> bps[i].outIndex != bps[j].outIndex
  }

  lemma {:induction false} InputsApart(b: Block, a: nat, c: nat)
    requires a < c <= |b.coders|
    ensures FirstInput(b, a) + b.coders[a].numIn <= FirstInput(b, c)
    decreases c - a
  {
    assert b.coders[..c][..c - 1] == b.coders[..c - 1];
    if a + 1 < c {
      InputsApart(b, a, c - 1);
    }
  }

  /** Input `i` is one of coder `j`'s. */
  predicate Owns(b: Block, j: nat, i: nat) {
    j < |b.coders| && FirstInput(b, j) <= i < FirstInput(b, j) + b.coders[j].numIn
  }

  lemma OneOwner(b: Block, j: nat, k: nat, i: nat)
    requires Owns(b, j, i) && Owns(b, k, i)
    ensures j == k
  {
    if j < k {
      InputsApart(b, j, k);
    } else if k < j {
      InputsApart(b, k, j);
    }
  }

  /** An output feeds one input. */
  lemma SameInput(b: Block, i: nat, j: nat)
    requires DistinctOut(b.bindPairs) && FindIn(b.bindPairs, i).Some? && FindIn(b.bindPairs, j).Some?
    requires FindIn(b.bindPairs, i).value.outIndex == FindIn(b.bindPairs, j).value.outIndex
    ensures i == j
  {
    var p, q := FindIn(b.bindPairs, i).value, FindIn(b.bindPairs, j).value;
    var m :| 0 <= m < |b.bindPairs| && b.bindPairs[m] == p;
    var n :| 0 <= n < |b.bindPairs| && b.bindPairs[n] == q;
    assert !(m < n) && !(n < m);
  }

  lemma OwnsItsInput(b: Block, j: nat)
    requires j < |b.coders| && b.coders[j].numIn == 1
    ensures Owns(b, j, FirstInput(b, j))
  {
  }

  /** The coder that feeds input `i`, if no packed stream does and the program goes on to it. */
  function Feeder(b: Block, i: nat): Option<nat> {
    if Position(b.packedStreams, i).Some? then None
    else
      match FindIn(b.bindPairs, i)
      case None => None
      case Some(bp) => if Passable(b, bp.outIndex) then Some(bp.outIndex) else None
  }

  /** A coder the recursion goes through. */
  predicate Passable(b: Block, j: nat) {
    j < |b.coders| && j < |b.unpackSizes| && b.coders[j].numIn == 1
  }

  function Feeders(b: Block): nat -> Option<nat> {
    (j: nat) => if j < |b.coders| then Feeder(b, FirstInput(b, j)) else None
  }

  /** The coders met going back from input `i`: as many as the block has, or all of them. */
  function Met(b: Block, i: nat): seq<nat> {
    match Feeder(b, i)
    case None => []
    case Some(j) => Trail(Feeders(b), |b.coders|, j, |b.coders|)
  }

  /** The recursion follows the feeders. */
  lemma {:induction false} StreamIsWalk(b: Block, j: nat, left: nat)
    requires Passable(b, j)
    ensures var r, w := CoderStream(b, j, left), WalkFrom(Feeders(b), |b.coders|, j, left);
            && (r == Err(EndlessChain) <==> w.Err?)
            && (r.Ok? ==> w == Ok(Coders(r.value)))
    decreases left
  {
    hide FirstInput, FindIn, Position, InStream, Feeder, Decodable;
    assert CoderStream(b, j, 0) == Err(EndlessChain);
    if left > 0 {
      var i := FirstInput(b, j);
      StreamOfInput(b, i, left - 1);
      assert Feeders(b)(j) == Feeder(b, i);
      var inner := InStream(b, i, left - 1);
      assert CoderStream(b, j, left) == match inner
                                        case Err(e) => Err(e)
                                        case Ok(f) => if Decodable(b.coders[j].id) then Ok(Decoded(j, f)) else Err(UnsupportedMethod);
      assert [j] + [] == [j];
      if Feeder(b, i).Some? {
        StreamIsWalk(b, Feeder(b, i).value, left - 1);
      }
    }
  }

  /** An input is fed by a coder, or the stream is found or refused at once. */
  lemma StreamOfInput(b: Block, i: nat, left: nat)
    ensures Feeder(b, i).Some? ==> Passable(b, Feeder(b, i).value) && InStream(b, i, left) == CoderStream(b, Feeder(b, i).value, left)
    ensures Feeder(b, i).None? ==> InStream(b, i, left) != Err(EndlessChain)
    ensures Feeder(b, i).None? && InStream(b, i, left).Ok? ==> Coders(InStream(b, i, left).value) == []
  {
  }

  /** Following an input ends if and only if none of the coders met is fed by the first and no
      two of them are fed by the same; a stream that is found meets no coder twice. */
  lemma FollowingEndsIff(b: Block, i: nat)
    ensures var r := InStream(b, i, |b.coders|);
            && (r == Err(EndlessChain) <==> !NoWayBack(Feeders(b), |b.coders|, Met(b, i)))
            && (r.Ok? ==> Coders(r.value) == Met(b, i) && Distinct(Met(b, i)))
  {
    hide FirstInput, FindIn, Trail, WalkFrom, NoWayBack, Distinct, Position, InStream, CoderStream, Feeder;
    StreamOfInput(b, i, |b.coders|);
    match Feeder(b, i)
    case None => NothingMet(b);
    case Some(j) =>
      StreamIsWalk(b, j, |b.coders|);
      Walks.EndsIffNoWayBack(Feeders(b), |b.coders|, j);
  }

  lemma NothingMet(b: Block)
    ensures NoWayBack(Feeders(b), |b.coders|, []) && Distinct([])
  {
  }

  lemma FeederUsed(b: Block, i: nat)
    ensures Feeder(b, i).Some? ==> Used(b, Feeder(b, i).value) && Passable(b, Feeder(b, i).value)
  {
  }

  /** No input but `i` is fed by the coder that feeds `i`. */
  lemma FeedsOne(b: Block, i: nat, j: nat)
    requires DistinctOut(b.bindPairs) && Feeder(b, i).Some? && Feeder(b, i) == Feeder(b, j)
    ensures i == j
  {
    hide DistinctOut, FindIn;
    SameInput(b, i, j);
  }

  /** All coders met are used by a bind pair, and have one input. */
  lemma MetAreUsed(b: Block, i: nat, k: nat)
    requires k < |Met(b, i)|
    ensures Used(b, Met(b, i)[k]) && Passable(b, Met(b, i)[k])
  {
    hide FirstInput, FindIn, Trail, Used, Passable, Feeder;
    var j := Feeder(b, i).value;
    TrailIsWalk(Feeders(b), |b.coders|, j, |b.coders|);
    FeederUsed(b, i);
    if k > 0 {
      var before := Met(b, i)[k - 1];
      assert Feeders(b)(before) == Some(Met(b, i)[k]);
      FeederUsed(b, FirstInput(b, before));
    }
  }

  lemma SameFeederSameCoder(b: Block, j: nat, k: nat)
    requires DistinctOut(b.bindPairs) && Passable(b, j) && Passable(b, k)
    requires Feeders(b)(j).Some? && Feeders(b)(j) == Feeders(b)(k)
    ensures j == k
  {
    hide FirstInput, FindIn, Feeder, DistinctOut, Owns;
    FeedsOne(b, FirstInput(b, j), FirstInput(b, k));
    OwnsItsInput(b, j);
    OwnsItsInput(b, k);
    OneOwner(b, j, k, FirstInput(b, j));
  }

  /** The main coder is not among those that feed it. */
  lemma FirstFeedsMainOnly(b: Block, main: nat, i: nat, k: nat)
    requires DistinctOut(b.bindPairs) && !Used(b, main) && Owns(b, main, i) && k < |Met(b, i)|
    ensures Feeders(b)(Met(b, i)[k]) != Some(Met(b, i)[0])
  {
    hide FirstInput, FindIn, Feeder, DistinctOut, Owns, Trail, Used;
    var j := Met(b, i)[k];
    MetAreUsed(b, i, k);
    TrailIsWalk(Feeders(b), |b.coders|, Feeder(b, i).value, |b.coders|);
    if Feeders(b)(j) == Some(Met(b, i)[0]) {
      FeedsOne(b, i, FirstInput(b, j));
      OwnsItsInput(b, j);
      OneOwner(b, main, j, i);
    }
  }

  /** With distinct outputs, following any input of an unused main coder ends, and meets no
      coder twice. */
  lemma FollowingEnds(b: Block, main: nat, i: nat)
    requires DistinctOut(b.bindPairs) && !Used(b, main) && Owns(b, main, i)
    ensures var r := InStream(b, i, |b.coders|);
            r != Err(EndlessChain) && (r.Ok? ==> Distinct(Coders(r.value)))
  {
    hide FindIn, FirstInput, Owns, DistinctOut, Used, InStream, Feeder, Passable;
    var way := Met(b, i);
    forall k | 0 <= k < |way|
      ensures Feeders(b)(way[k]) != Some(way[0])
    {
      FirstFeedsMainOnly(b, main, i, k);
    }
    forall j, k | 0 <= j < |way| && 0 <= k < |way| && way[j] != way[k] && Onward(Feeders(b), |b.coders|, way[j])
      ensures Feeders(b)(way[j]) != Feeders(b)(way[k])
    {
      MetAreUsed(b, i, j);
      MetAreUsed(b, i, k);
      if Feeders(b)(way[j]) == Feeders(b)(way[k]) {
        SameFeederSameCoder(b, way[j], way[k]);
      }
    }
    FollowingEndsIff(b, i);
  }

  // ----- blocks the parser builds

  /** Fewer bind pairs than coders leave a coder no pair uses. */
  lemma SomeUnused(b: Block)
    requires |b.bindPairs| < |b.coders|
    ensures exists j :: 0 <= j < |b.coders| && !Used(b, j)
  {
    if forall j :: 0 <= j < |b.coders| ==> Used(b, j) {
      var pairs: seq<nat> := [];
      for j := 0 to |b.coders|
        invariant |pairs| == j && Distinct(pairs)
        invariant forall i :: 0 <= i < j ==> pairs[i] < |b.bindPairs| && b.bindPairs[pairs[i]].outIndex == i
      {
        assert Used(b, j);
        var bp :| bp in b.bindPairs && bp.outIndex == j;
        var k :| 0 <= k < |b.bindPairs| && b.bindPairs[k] == bp;
        pairs := pairs + [k];
      }
      DistinctBelow(pairs, |b.bindPairs|);
    }
  }

  predicate OneOutputEach(coders: seq<Coder>) {
    forall i :: 0 <= i < |coders| ==> coders[i].numOut == 1
  }

  lemma {:induction false} OutputsCounted(coders: seq<Coder>)
    requires OneOutputEach(coders)
    ensures SumOut(coders) == |coders|
  {
    if coders != [] {
      OutputsCounted(coders[..|coders| - 1]);
    }
  }

  /** In a parsed block whose coders have one output each, following the inputs of the main
      coder the program chooses ends if the bind pairs' outputs are distinct. */
  lemma ParsedFollowingEnds(s: bytes, sizes: seq<u64>, main: nat, i: nat)
    requires GetBlock(s).Ok? && OneOutputEach(GetBlock(s).value.0.coders) && DistinctOut(GetBlock(s).value.0.bindPairs)
    requires var b := GetBlock(s).value.0;
             && main < |b.coders| && Owns(b, main, i)
             && ((exists j :: 0 <= j < |b.coders| && !Used(b, j)) ==> !Used(b, main))
    ensures var b := GetBlock(s).value.0.(unpackSizes := sizes);
            var r := InStream(b, i, |b.coders|);
            && r != Err(EndlessChain) && (r.Ok? ==> Distinct(Coders(r.value)))
  {
    hide GetBlock, DistinctOut, InStream;
    var b := GetBlock(s).value.0;
    ParsedShape(s);
    OutputsCounted(b.coders);
    ParsedOutputs(s);
    SomeUnused(b);
    FollowingEnds(b.(unpackSizes := sizes), main, i);
  }

  lemma ParsedOutputs(s: bytes)
    requires GetBlock(s).Ok?
    ensures var b := GetBlock(s).value.0; b.totalOut == SumOut(b.coders) > 0
  {
  }

  /** A merging coder fed by two others, and both bind pairs leave the second coder: one to
      the main coder, one back to the second coder itself. */
  const SELF_FED: bytes := [3, 0x14, 3, 3, 1, 0x1B, 2, 1, 1, 0, 1, 0, 0, 1, 2, 1, 1, 3]

  function SelfFedBlock(sizes: seq<u64>): Block {
    Block([Coder(BCJ2_ID, 2, 1, []), PLAIN, PLAIN], false, 0, 4, 3, [BindPair(0, 1), BindPair(2, 1)], [1, 3], sizes, 0)
  }

  /** One coder record, and two of copying coders behind it. */
  lemma ThenTwoPlain(front: bytes, a: Coder, rest: bytes)
    requires GetCoder(front + (RECORD + (RECORD + rest))) == Ok((a, RECORD + (RECORD + rest)))
    ensures GetMany(GetCoder, 3, front + (RECORD + (RECORD + rest))) == Ok(([a, PLAIN, PLAIN], rest))
  {
    hide GetCoder, GetMany;
    PlainParsed(RECORD + rest);
    PlainParsed(rest);
    ThenMany(GetCoder, 2, front + (RECORD + (RECORD + rest)));
    ThenMany(GetCoder, 1, RECORD + (RECORD + rest));
    ThenMany(GetCoder, 0, RECORD + rest);
    NoneOf(GetCoder, rest);
    assert [PLAIN] + [] == [PLAIN] && [PLAIN] + [PLAIN] == [PLAIN, PLAIN] && [a] + [PLAIN, PLAIN] == [a, PLAIN, PLAIN];
  }

  lemma SelfFedParsed()
    ensures GetBlock(SELF_FED) == Ok((SelfFedBlock([]), []))
  {
    hide GetBlock, GetCoder, VarInt.Dec, GetMany, SumIn, SumOut;
    var main := Coder(BCJ2_ID, 2, 1, []);
    var rest: bytes := [0, 1, 2, 1, 1, 3];
    var front, coderBytes: bytes := [0x14, 3, 3, 1, 0x1B, 2, 1], [0x14, 3, 3, 1, 0x1B, 2, 1, 1, 0, 1, 0];
    var s1: bytes := RECORD + (RECORD + rest);
    assert front + s1 == [0x10 + |BCJ2_ID|] + (BCJ2_ID + ([2, 1] + s1));
    ComplexParsed(BCJ2_ID, 2, 1, s1);
    ThenTwoPlain(front, main, rest);
    assert coderBytes + rest == front + s1;
    SumsOfThree(main, PLAIN, PLAIN);
    FourInputsParsed([main, PLAIN, PLAIN], coderBytes, BindPair(0, 1), BindPair(2, 1), 1, 3);
    assert SELF_FED == [3] + (coderBytes + rest);
  }

  /** Bytes the parser accepts, of a block whose main coder is the one the program takes, and
      whose first input is followed for ever. */
  lemma SelfFedNeverEnds(sizes: seq<u64>, left: nat)
    requires |sizes| == 3
    ensures GetBlock(SELF_FED) == Ok((SelfFedBlock([]), []))
    ensures var b := SelfFedBlock(sizes);
            && !DistinctOut(b.bindPairs) && !Used(b, 0) && b.coders[0].id == BCJ2_ID && Owns(b, 0, 0)
            && InStream(b, 0, left) == Err(EndlessChain)
  {
    SelfFedParsed();
    var b := SelfFedBlock(sizes);
    assert b.bindPairs[0].outIndex == b.bindPairs[1].outIndex;
    assert b.coders[..0] == [] && FirstInput(b, 0) == 0;
    SelfFed(b, left);
  }

  lemma {:induction false} SelfFed(b: Block, left: nat)
    requires |b.unpackSizes| == 3 && b == SelfFedBlock(b.unpackSizes)
    ensures CoderStream(b, 1, left) == Err(EndlessChain) && InStream(b, 0, left) == Err(EndlessChain)
  {
    assert b.coders[..1] == [b.coders[0]] && [b.coders[0]][..0] == [];
    assert SumIn([b.coders[0]]) == 2 && FirstInput(b, 1) == 2;
    NotAmong(b.bindPairs[0], b.bindPairs[1], 0);
    NotAmong(b.bindPairs[0], b.bindPairs[1], 2);
    assert 2 !in b.packedStreams && 0 !in b.packedStreams;
    if left > 0 {
      SelfFed(b, left - 1);
      assert InStream(b, 2, left - 1) == CoderStream(b, 1, left - 1);
    }
  }
}
