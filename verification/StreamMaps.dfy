/** Which files live in which block: the map the reader derives from the file flags and the
    number of sub-streams of each block, and what a full traversal of it visits. */
module StreamMaps {
  import opened Wire
  import opened Repeats

  datatype StreamMap = StreamMap(
    blockFirstPack: seq<nat>,
    packOffsets: seq<nat>,
    blockFirstFile: seq<nat>,
    fileBlock: seq<Option<nat>>)

  /** The sums of all proper prefixes. */
  function Offsets(xs: seq<nat>): (r: seq<nat>)
    ensures |r| == |xs|
    ensures forall i :: 0 <= i < |xs| ==> r[i] == Sum(xs[..i])
  {
    seq(|xs|, i requires 0 <= i < |xs| => Sum(xs[..i]))
  }

  // ----- the walk over the files

  /** Where the walk stands: the current block, how many of its files it has passed, and
      the two columns of the map filled so far. */
  datatype Walk = Walk(block: nat, used: nat, first: seq<nat>, map0: seq<Option<nat>>)

  /** From `block`, the next block that holds files; every block passed starts at file `i`. */
  function NextBlock(counts: seq<nat>, block: nat, first: seq<nat>, i: nat): (r: (nat, seq<nat>))
    requires block <= |counts| == |first|
    ensures block <= r.0 <= |counts| == |r.1|
    ensures r.0 < |counts| ==> counts[r.0] > 0 && r.1[r.0] == i
    ensures forall b :: block <= b < r.0 ==> counts[b] == 0
    ensures forall b :: 0 <= b < |first| ==>
      r.1[b] == if block <= b <= r.0 then i else first[b]
    decreases |counts| - block
  {
    if block == |counts| then (block, first)
    else
      var f := first[block := i];
      if counts[block] > 0 then (block, f) else NextBlock(counts, block + 1, f, i)
  }

  /** One turn of the loop, at file `i`. `packs` says which blocks have their first packed
      stream in the table of pack sizes. */
  function Step(counts: seq<nat>, packs: seq<bool>, w: Walk, i: nat, hasStream: bool): (r: Result<Walk>)
    requires w.block <= |counts| == |w.first| == |packs| && (w.used > 0 ==> w.block < |counts|)
    ensures r.Ok? ==> r.value.block <= |counts| == |r.value.first|
    ensures r.Ok? && r.value.used > 0 ==> r.value.block < |counts|
    ensures r.Ok? ==> |r.value.map0| == |w.map0| + 1
  {
    if !hasStream && w.used == 0 then Ok(w.(map0 := w.map0 + [None]))
    else
      var (b, first) := if w.used == 0 then NextBlock(counts, w.block, w.first, i) else (w.block, w.first);
      if b >= |counts| then Err(TooFewBlocks)
      else if !hasStream then Ok(Walk(b, w.used, first, w.map0 + [Some(b)]))
      else if first[b] == i && !packs[b] then Err(Panic)
      else if w.used + 1 >= counts[b] then Ok(Walk(b + 1, 0, first, w.map0 + [Some(b)]))
      else Ok(Walk(b, w.used + 1, first, w.map0 + [Some(b)]))
  }

  function Start(n: nat): Walk {
    Walk(0, 0, seq(n, i => 0), [])
  }

  /** The walk over the first `k` files. */
  function WalkTo(counts: seq<nat>, packs: seq<bool>, has: seq<bool>, k: nat): (r: Result<Walk>)
    requires |counts| == |packs| && k <= |has|
    ensures r.Ok? ==> r.value.block <= |counts| == |r.value.first| && |r.value.map0| == k
    ensures r.Ok? && r.value.used > 0 ==> r.value.block < |counts|
  {
    if k == 0 then Ok(Start(|counts|))
    else
      var w :- WalkTo(counts, packs, has, k - 1);
      Step(counts, packs, w, k - 1, has[k - 1])
  }

  function InTable(firstPack: seq<nat>, n: nat): (r: seq<bool>)
    ensures |r| == |firstPack|
  {
    seq(|firstPack|, b requires 0 <= b < |firstPack| => firstPack[b] < n)
  }

  /** `calculate_stream_map`. */
  function MapStreams(counts: seq<nat>, packed: seq<nat>, packSizes: seq<u64>, has: seq<bool>): Result<StreamMap>
    requires |counts| == |packed|
  {
    if Sum(packSizes) >= U64_LIMIT then Err(Panic)
    else
      var w :- WalkTo(counts, InTable(Offsets(packed), |packSizes|), has, |has|);
      Ok(StreamMap(Offsets(packed), Offsets(packSizes), w.first, w.map0))
  }

  // ----- the program's loops

  method PrefixSums(xs: seq<nat>) returns (r: seq<nat>, total: nat)
    ensures r == Offsets(xs) && total == Sum(xs)
  {
    r, total := [], 0;
    for i := 0 to |xs|
      invariant |r| == i && total == Sum(xs[..i])
      invariant forall k :: 0 <= k < i ==> r[k] == Sum(xs[..k])
    {
      r := r + [total];
      total := total + xs[i];
      assert xs[..i + 1] == xs[..i] + [xs[i]];
      SumSnoc(xs[..i], xs[i]);
    }
    assert xs[..|xs|] == xs;
  }

  method FindBlock(counts: seq<nat>, start: nat, first0: seq<nat>, i: nat) returns (block: nat, first: seq<nat>)
    requires start <= |counts| == |first0|
    ensures (block, first) == NextBlock(counts, start, first0, i)
  {
    block, first := start, first0;
    while block < |counts|
      invariant block <= |counts| == |first|
      invariant NextBlock(counts, start, first0, i) == NextBlock(counts, block, first, i)
    {
      first := first[block := i];
      if counts[block] > 0 {
        break;
      }
      block := block + 1;
    }
  }

  method CalculateStreamMap(counts: seq<nat>, packed: seq<nat>, packSizes: seq<u64>, has: seq<bool>) returns (r: Result<StreamMap>)
    requires |counts| == |packed|
    ensures r == MapStreams(counts, packed, packSizes, has)
  {
    hide Sum, NextBlock;
    var blockFirstPack, _ := PrefixSums(packed);
    var packOffsets, total := PrefixSums(packSizes);
    if total >= U64_LIMIT {
      return Err(Panic);
    }
    ghost var packs := InTable(Offsets(packed), |packSizes|);
    var first: seq<nat>, fileBlock: seq<Option<nat>> := seq(|counts|, i => 0), [];
    var block: nat, used: nat := 0, 0;
    for i := 0 to |has|
      invariant block <= |counts| == |first| && (used > 0 ==> block < |counts|)
      invariant WalkTo(counts, packs, has, i) == Ok(Walk(block, used, first, fileBlock))
    {
      WalkStops(counts, packs, has, i + 1, |has|);
      if !has[i] && used == 0 {
        fileBlock := fileBlock + [None];
        continue;
      }
      if used == 0 {
        block, first := FindBlock(counts, block, first, i);
        if block >= |counts| {
          return Err(TooFewBlocks);
        }
      }
      fileBlock := fileBlock + [Some(block)];
      if !has[i] {
        continue;
      }
      if first[block] == i {
        if blockFirstPack[block] >= |packSizes| {
          return Err(Panic);
        }
      }
      used := used + 1;
      if used >= counts[block] {
        block := block + 1;
        used := 0;
      }
    }
    r := Ok(StreamMap(blockFirstPack, packOffsets, first, fileBlock));
  }

  lemma {:induction false} WalkStops(counts: seq<nat>, packs: seq<bool>, has: seq<bool>, k: nat, n: nat)
    requires |counts| == |packs| && k <= n <= |has|
    ensures WalkTo(counts, packs, has, k).Err? ==>
      WalkTo(counts, packs, has, n) == Err(WalkTo(counts, packs, has, k).error)
    decreases n - k
  {
    if k < n {
      WalkStops(counts, packs, has, k + 1, n);
    }
  }

  // ----- when the walk succeeds

  /** The number of files with data among the first `k`. */
  function Streams(has: seq<bool>, k: nat): nat
    requires k <= |has|
  {
    if k == 0 then 0 else Streams(has, k - 1) + (if has[k - 1] then 1 else 0)
  }

  /** The number of files in the first `b` blocks. */
  function Before(counts: seq<nat>, b: nat): nat
    requires b <= |counts|
  {
    if b == 0 then 0 else Before(counts, b - 1) + counts[b - 1]
  }

  lemma {:induction false} BeforeMonotone(counts: seq<nat>, a: nat, b: nat)
    requires a <= b <= |counts|
    ensures Before(counts, a) <= Before(counts, b)
    ensures (forall i :: a <= i < b ==> counts[i] == 0) ==> Before(counts, a) == Before(counts, b)
    decreases b - a
  {
    if a < b {
      BeforeMonotone(counts, a, b - 1);
    }
  }

  lemma {:induction false} StreamsMonotone(has: seq<bool>, i: nat, j: nat)
    requires i <= j <= |has|
    ensures 0 <= Streams(has, j) - Streams(has, i) <= j - i
    ensures (forall k :: i <= k < j ==> has[k]) <==> Streams(has, j) - Streams(has, i) == j - i
    decreases j - i
  {
    if i < j {
      StreamsMonotone(has, i, j - 1);
    }
  }

  lemma WalkStep(counts: seq<nat>, packs: seq<bool>, has: seq<bool>, k: nat)
    requires |counts| == |packs| && k < |has| && WalkTo(counts, packs, has, k).Ok?
    ensures WalkTo(counts, packs, has, k + 1) == Step(counts, packs, WalkTo(counts, packs, has, k).value, k, has[k])
  {
  }

  lemma Cat<T>(a: seq<T>, b: seq<T>, c: seq<T>)
    ensures a + (b + c) == (a + b) + c
  {
  }

  lemma AtStart(counts: seq<nat>, packs: seq<bool>, has: seq<bool>)
    requires |counts| == |packs|
    ensures WalkTo(counts, packs, has, 0) == Ok(Start(|counts|)) && Before(counts, 0) == 0
  {
  }

  /** The block a file with data goes into. */
  function BlockFor(counts: seq<nat>, w: Walk, i: nat): (b: nat)
    requires w.block <= |counts| == |w.first|
    ensures w.block <= b <= |counts|
  {
    if w.used == 0 then NextBlock(counts, w.block, w.first, i).0 else w.block
  }

  lemma StepMoves(counts: seq<nat>, packs: seq<bool>, w: Walk, i: nat, hasStream: bool)
    requires w.block <= |counts| == |w.first| == |packs| && (w.used > 0 ==> w.block < |counts|)
    requires Step(counts, packs, w, i, hasStream).Ok?
    ensures var w', b := Step(counts, packs, w, i, hasStream).value, BlockFor(counts, w, i);
            && (!hasStream ==> w'.block == w.block && w'.used == w.used)
            && (hasStream ==> b < |counts| && if w.used + 1 >= counts[b] then w'.block == b + 1 && w'.used == 0
                                              else w'.block == b && w'.used == w.used + 1)
  {
    hide NextBlock;
  }

  lemma RoomIn(counts: seq<nat>, w: Walk, i: nat)
    requires w.block <= |counts| == |w.first| && (w.used > 0 ==> w.block < |counts| && w.used < counts[w.block])
    ensures var b := BlockFor(counts, w, i);
            Before(counts, b) == Before(counts, w.block) && (b < |counts| ==> w.used < counts[b])
  {
    hide Before;
    BeforeMonotone(counts, w.block, BlockFor(counts, w, i));
  }

  /** A file with data takes one place; one without takes none. */
  lemma StepCounts(counts: seq<nat>, packs: seq<bool>, w: Walk, i: nat, hasStream: bool)
    requires w.block <= |counts| == |w.first| == |packs| && (w.used > 0 ==> w.block < |counts| && w.used < counts[w.block])
    requires Step(counts, packs, w, i, hasStream).Ok?
    ensures var w' := Step(counts, packs, w, i, hasStream).value;
            && Before(counts, w'.block) + w'.used == Before(counts, w.block) + w.used + (if hasStream then 1 else 0)
            && (w'.used > 0 ==> w'.used < counts[w'.block])
  {
    hide Step, Before, BlockFor;
    StepMoves(counts, packs, w, i, hasStream);
    RoomIn(counts, w, i);
    if hasStream {
      NextBefore(counts, BlockFor(counts, w, i));
    }
  }

  lemma NextBefore(counts: seq<nat>, b: nat)
    requires b < |counts|
    ensures Before(counts, b + 1) == Before(counts, b) + counts[b]
  {
  }

  /** Where the walk stands is the number of files with data it has passed. */
  lemma {:induction false} WalkCounts(counts: seq<nat>, packs: seq<bool>, has: seq<bool>, k: nat)
    requires |counts| == |packs| && k <= |has|
    requires WalkTo(counts, packs, has, k).Ok?
    ensures var w := WalkTo(counts, packs, has, k).value;
            && Before(counts, w.block) + w.used == Streams(has, k)
            && (w.used > 0 ==> w.used < counts[w.block])
  {
    hide WalkTo, Step, Before;
    if k > 0 {
      WalkStops(counts, packs, has, k - 1, k);
      WalkCounts(counts, packs, has, k - 1);
      WalkStep(counts, packs, has, k - 1);
      StepCounts(counts, packs, WalkTo(counts, packs, has, k - 1).value, k - 1, has[k - 1]);
    } else {
      AtStart(counts, packs, has);
    }
  }

  /** Every block that holds files has its first packed stream in the table. */
  predicate PacksInRange(counts: seq<nat>, packs: seq<bool>)
    requires |counts| == |packs|
  {
    forall b :: 0 <= b < |counts| && counts[b] > 0 ==> packs[b]
  }

  lemma StepFails(counts: seq<nat>, packs: seq<bool>, w: Walk, i: nat, hasStream: bool)
    requires w.block <= |counts| == |w.first| == |packs| && (w.used > 0 ==> w.block < |counts| && w.used < counts[w.block])
    requires PacksInRange(counts, packs)
    ensures Step(counts, packs, w, i, hasStream) == Err(TooFewBlocks) || Step(counts, packs, w, i, hasStream).Ok?
    ensures Before(counts, w.block) + w.used <= Before(counts, |counts|)
    ensures Step(counts, packs, w, i, hasStream).Err? <==>
      hasStream && Before(counts, w.block) + w.used == Before(counts, |counts|)
  {
    if w.used == 0 {
      var b := NextBlock(counts, w.block, w.first, i).0;
      BeforeMonotone(counts, w.block, b);
      if b < |counts| {
        BeforeMonotone(counts, b + 1, |counts|);
      }
    } else {
      BeforeMonotone(counts, w.block + 1, |counts|);
    }
  }

  /** The walk fails exactly when files with data outnumber the places for them. */
  lemma {:induction false} FailsIffTooMany(counts: seq<nat>, packs: seq<bool>, has: seq<bool>, k: nat)
    requires |counts| == |packs| && k <= |has| && PacksInRange(counts, packs)
    ensures WalkTo(counts, packs, has, k) == Err(TooFewBlocks) || WalkTo(counts, packs, has, k).Ok?
    ensures WalkTo(counts, packs, has, k).Err? <==> Streams(has, k) > Before(counts, |counts|)
  {
    hide Step;
    if k > 0 {
      FailsIffTooMany(counts, packs, has, k - 1);
      var r := WalkTo(counts, packs, has, k - 1);
      if r.Ok? {
        WalkCounts(counts, packs, has, k - 1);
        StepFails(counts, packs, r.value, k - 1, has[k - 1]);
      }
    }
  }

  // ----- what the map says

  lemma {:induction false} WalkPrefix(counts: seq<nat>, packs: seq<bool>, has: seq<bool>, k: nat, n: nat)
    requires |counts| == |packs| && k <= n <= |has| && WalkTo(counts, packs, has, n).Ok?
    ensures WalkTo(counts, packs, has, k).Ok?
    ensures WalkTo(counts, packs, has, n).value.map0[..k] == WalkTo(counts, packs, has, k).value.map0
    decreases n - k
  {
    if k < n {
      WalkPrefix(counts, packs, has, k, n - 1);
      var before, after := WalkTo(counts, packs, has, n - 1).value.map0, WalkTo(counts, packs, has, n).value.map0;
      assert after[..n - 1] == before;
      assert after[..k] == before[..k];
    }
  }

  /** File `i` has data and is one of block `b`'s files, counting files with data. */
  predicate Belongs(counts: seq<nat>, has: seq<bool>, i: nat, b: nat)
    requires i < |has| && b < |counts|
  {
    has[i] && Before(counts, b) <= Streams(has, i) < Before(counts, b) + counts[b]
  }

  /** No other block can claim the same file. */
  lemma OneBlock(counts: seq<nat>, n: nat, a: nat, b: nat)
    requires a < |counts| && b < |counts|
    requires Before(counts, a) <= n < Before(counts, a) + counts[a]
    requires Before(counts, b) <= n < Before(counts, b) + counts[b]
    ensures a == b
  {
    BlockEnds(counts, a, b);
    BlockEnds(counts, b, a);
  }

  /** A block ends where a later one begins, or before. */
  lemma {:induction false} BlockEnds(counts: seq<nat>, a: nat, b: nat)
    requires a < |counts| && b <= |counts|
    ensures a < b ==> Before(counts, a) + counts[a] <= Before(counts, b)
  {
    if a + 1 < b {
      BlockEnds(counts, a, b - 1);
    }
  }

  /** What the walk records for file `i`. */
  lemma MapAt(counts: seq<nat>, packs: seq<bool>, has: seq<bool>, i: nat)
    requires |counts| == |packs| && i < |has| && WalkTo(counts, packs, has, |has|).Ok?
    ensures var m := WalkTo(counts, packs, has, |has|).value.map0[i];
            && (m.None? ==> !has[i] && exists b :: 0 <= b <= |counts| && Before(counts, b) == Streams(has, i))
            && (m.Some? ==> m.value < |counts|)
            && (m.Some? && has[i] ==> Belongs(counts, has, i, m.value))
            && (m.Some? && !has[i] ==> Before(counts, m.value) < Streams(has, i) < Before(counts, m.value) + counts[m.value])
  {
    WalkPrefix(counts, packs, has, i + 1, |has|);
    WalkPrefix(counts, packs, has, i, i + 1);
    var w := WalkTo(counts, packs, has, i).value;
    WalkCounts(counts, packs, has, i);
    assert WalkTo(counts, packs, has, |has|).value.map0[i] == WalkTo(counts, packs, has, i + 1).value.map0[i];
    if w.used == 0 {
      BeforeMonotone(counts, w.block, NextBlock(counts, w.block, w.first, i).0);
    }
  }

  /** A non-empty block starts at its first file with data. */
  lemma {:induction false} FirstAt(counts: seq<nat>, packs: seq<bool>, has: seq<bool>, k: nat, b: nat)
    requires |counts| == |packs| && k <= |has| && b < |counts| && WalkTo(counts, packs, has, k).Ok?
    requires counts[b] > 0 && Before(counts, b) < Streams(has, k)
    ensures var i := WalkTo(counts, packs, has, k).value.first[b];
            i < k && has[i] && Streams(has, i) == Before(counts, b)
  {
    var i := k - 1;
    var w := WalkTo(counts, packs, has, i).value;
    WalkCounts(counts, packs, has, i);
    if Before(counts, b) < Streams(has, i) {
      FirstAt(counts, packs, has, i, b);
      if b > w.block {
        BeforeMonotone(counts, w.block + 1, b);
      }
    } else {
      WalkCounts(counts, packs, has, k);
      if w.used == 0 {
        var nb := NextBlock(counts, w.block, w.first, i).0;
        BeforeMonotone(counts, w.block, nb);
        OneBlock(counts, Streams(has, i), nb, b);
      } else {
        OneBlock(counts, Streams(has, i), w.block, b);
      }
    }
  }

  /** Every block, empty ones included, starts at or before the end of the list. */
  lemma {:induction false} FirstsInList(counts: seq<nat>, packs: seq<bool>, has: seq<bool>, k: nat, b: nat)
    requires |counts| == |packs| && k <= |has| && b < |counts| && WalkTo(counts, packs, has, k).Ok?
    ensures WalkTo(counts, packs, has, k).value.first[b] <= k
  {
    if k > 0 {
      FirstsInList(counts, packs, has, k - 1, b);
    }
  }

  // ----- a full traversal

  /** File `i` lies in the range of files the traversal hands out for block `b`. */
  predicate Covers(counts: seq<nat>, first: seq<nat>, b: nat, i: nat)
    requires b < |counts| == |first|
  {
    first[b] <= i < first[b] + counts[b]
  }

  function CoveringBlocks(counts: seq<nat>, first: seq<nat>, n: nat, i: nat): nat
    requires n <= |counts| == |first|
  {
    if n == 0 then 0 else CoveringBlocks(counts, first, n - 1, i) + (if Covers(counts, first, n - 1, i) then 1 else 0)
  }

  /** How often a full traversal meets file `i`: once for each block whose range holds it,
      and once more in the last pass if the map gives it no block. */
  function Visits(counts: seq<nat>, w: Walk, i: nat): nat
    requires |w.first| == |counts| && i < |w.map0|
  {
    CoveringBlocks(counts, w.first, |counts|, i) + (if w.map0[i].None? then 1 else 0)
  }

  /** No file without data sits between two files of one block. */
  ghost predicate Settled(counts: seq<nat>, has: seq<bool>) {
    forall i :: 0 <= i < |has| && !has[i] ==>
      exists b :: 0 <= b <= |counts| && Before(counts, b) == Streams(has, i)
  }

  lemma {:induction false} CoveredByOnly(counts: seq<nat>, first: seq<nat>, n: nat, i: nat, b: nat)
    requires n <= |counts| == |first| && b < |counts|
    requires forall a :: 0 <= a < |counts| && Covers(counts, first, a, i) ==> a == b
    ensures CoveringBlocks(counts, first, n, i) == if b < n && Covers(counts, first, b, i) then 1 else 0
  {
    if n > 0 {
      CoveredByOnly(counts, first, n - 1, i, b);
    }
  }

  lemma {:induction false} CoveredByNone(counts: seq<nat>, first: seq<nat>, n: nat, i: nat)
    requires n <= |counts| == |first|
    requires forall a :: 0 <= a < |counts| ==> !Covers(counts, first, a, i)
    ensures CoveringBlocks(counts, first, n, i) == 0
  {
    if n > 0 {
      CoveredByNone(counts, first, n - 1, i);
    }
  }

  /** A value strictly inside a block is no block boundary. */
  lemma NoBoundaryInside(counts: seq<nat>, b: nat, v: nat)
    requires b < |counts| && Before(counts, b) < v < Before(counts, b) + counts[b]
    ensures forall a :: 0 <= a <= |counts| ==> Before(counts, a) != v
  {
    forall a | 0 <= a <= |counts|
      ensures Before(counts, a) != v
    {
      if a <= b {
        BeforeMonotone(counts, a, b);
      } else {
        BeforeMonotone(counts, b + 1, a);
      }
    }
  }

  /** The walk over all files succeeded and every place in a block was taken. */
  predicate Complete(counts: seq<nat>, packs: seq<bool>, has: seq<bool>)
    requires |counts| == |packs|
  {
    && WalkTo(counts, packs, has, |has|).Ok?
    && Streams(has, |has|) == Before(counts, |counts|)
  }

  /** The first file of each block, as the walk leaves it. */
  function Firsts(counts: seq<nat>, packs: seq<bool>, has: seq<bool>): (r: seq<nat>)
    requires |counts| == |packs| && WalkTo(counts, packs, has, |has|).Ok?
    ensures |r| == |counts|
  {
    WalkTo(counts, packs, has, |has|).value.first
  }

  lemma FirstOf(counts: seq<nat>, packs: seq<bool>, has: seq<bool>, b: nat)
    requires |counts| == |packs| && Complete(counts, packs, has)
    requires b < |counts| && counts[b] > 0
    ensures var i := Firsts(counts, packs, has)[b];
            i < |has| && has[i] && Streams(has, i) == Before(counts, b)
    ensures Before(counts, b) + counts[b] <= Streams(has, |has|)
  {
    BeforeMonotone(counts, b + 1, |counts|);
    FirstAt(counts, packs, has, |has|, b);
  }

  /** In a settled list the files after a block's first one are its other files. */
  lemma {:induction false} RangeIsBlock(counts: seq<nat>, packs: seq<bool>, has: seq<bool>, b: nat, j: nat)
    requires |counts| == |packs| && Complete(counts, packs, has) && Settled(counts, has)
    requires b < |counts| && j < counts[b]
    ensures var i := Firsts(counts, packs, has)[b] + j;
            i < |has| && has[i] && Streams(has, i) == Before(counts, b) + j
  {
    hide WalkTo, Firsts, Settled, Streams, Before;
    FirstOf(counts, packs, has, b);
    if j > 0 {
      RangeIsBlock(counts, packs, has, b, j - 1);
      NextInBlock(counts, has, b, Firsts(counts, packs, has)[b] + j, j);
    }
  }

  lemma NextInBlock(counts: seq<nat>, has: seq<bool>, b: nat, i: nat, j: nat)
    requires Settled(counts, has) && b < |counts| && 0 < j < counts[b]
    requires 0 < i <= |has| && has[i - 1] && Streams(has, i - 1) == Before(counts, b) + (j - 1)
    requires Before(counts, b) + counts[b] <= Streams(has, |has|)
    ensures i < |has| && has[i] && Streams(has, i) == Before(counts, b) + j
  {
    NoBoundaryInside(counts, b, Before(counts, b) + j);
  }

  /** Only the file's own block covers it, and only if it has data. */
  lemma CoversBelongs(counts: seq<nat>, packs: seq<bool>, has: seq<bool>, b: nat, i: nat)
    requires |counts| == |packs| && Complete(counts, packs, has) && Settled(counts, has)
    requires b < |counts| && i < |has|
    ensures Covers(counts, Firsts(counts, packs, has), b, i) <==> Belongs(counts, has, i, b)
  {
    hide WalkTo, Firsts, Settled;
    var first := Firsts(counts, packs, has);
    if Covers(counts, first, b, i) {
      RangeIsBlock(counts, packs, has, b, i - first[b]);
    }
    if Belongs(counts, has, i, b) {
      var j := Streams(has, i) - Before(counts, b);
      RangeIsBlock(counts, packs, has, b, j);
      SameFile(has, i, first[b] + j);
    }
  }

  lemma SameFile(has: seq<bool>, i: nat, j: nat)
    requires i < |has| && j < |has| && has[i] && has[j] && Streams(has, i) == Streams(has, j)
    ensures i == j
  {
    CountPasses(has, i, j);
    CountPasses(has, j, i);
  }

  /** A file with data raises the count for every file after it. */
  lemma {:induction false} CountPasses(has: seq<bool>, i: nat, j: nat)
    requires i < |has| && j <= |has| && has[i]
    ensures i < j ==> Streams(has, i) < Streams(has, j)
  {
    if i + 1 < j {
      CountPasses(has, i, j - 1);
    }
  }

  lemma VisitedOnceWhenSettled(counts: seq<nat>, packs: seq<bool>, has: seq<bool>, i: nat)
    requires |counts| == |packs| && Complete(counts, packs, has) && Settled(counts, has)
    requires i < |has|
    ensures Visits(counts, WalkTo(counts, packs, has, |has|).value, i) == 1
  {
    var w := WalkTo(counts, packs, has, |has|).value;
    MapAt(counts, packs, has, i);
    forall b | 0 <= b < |counts|
      ensures Covers(counts, w.first, b, i) <==> Belongs(counts, has, i, b)
    {
      CoversBelongs(counts, packs, has, b, i);
    }
    if has[i] {
      var b := w.map0[i].value;
      forall a | 0 <= a < |counts| && Covers(counts, w.first, a, i)
        ensures a == b
      {
        OneBlock(counts, Streams(has, i), a, b);
      }
      CoveredByOnly(counts, w.first, |counts|, i, b);
    } else {
      CoveredByNone(counts, w.first, |counts|, i);
      if w.map0[i].Some? {
        NoBoundaryInside(counts, w.map0[i].value, Streams(has, i));
      }
    }
  }

  /** The file with data that has `v` such files before it. */
  lemma {:induction false} NthStream(has: seq<bool>, n: nat, v: nat) returns (j: nat)
    requires n <= |has| && v < Streams(has, n)
    ensures j < n && has[j] && Streams(has, j) == v
  {
    if Streams(has, n - 1) > v {
      j := NthStream(has, n - 1, v);
    } else {
      j := n - 1;
    }
  }

  /** A file without data inside a block pushes the block's last file out of its range. */
  lemma PushedOut(counts: seq<nat>, packs: seq<bool>, has: seq<bool>, i: nat) returns (j: nat)
    requires |counts| == |packs| && Complete(counts, packs, has)
    requires i < |has| && !has[i]
    requires forall b :: 0 <= b <= |counts| ==> Before(counts, b) != Streams(has, i)
    ensures j < |has| && Visits(counts, WalkTo(counts, packs, has, |has|).value, j) == 0
  {
    var w := WalkTo(counts, packs, has, |has|).value;
    MapAt(counts, packs, has, i);
    var b := w.map0[i].value;
    BeforeMonotone(counts, b + 1, |counts|);
    j := NthStream(has, |has|, Before(counts, b) + counts[b] - 1);
    MapAt(counts, packs, has, j);
    LastIsFar(counts, packs, has, i, j, b);
    forall a | 0 <= a < |counts|
      ensures !Covers(counts, w.first, a, j)
    {
      if Covers(counts, w.first, a, j) {
        CoveredIsNear(counts, packs, has, a, j);
        OneBlock(counts, Streams(has, j), a, b);
      }
    }
    CoveredByNone(counts, w.first, |counts|, j);
  }

  lemma CoveredIsNear(counts: seq<nat>, packs: seq<bool>, has: seq<bool>, a: nat, j: nat)
    requires |counts| == |packs| && Complete(counts, packs, has)
    requires a < |counts| && j < |has| && Covers(counts, Firsts(counts, packs, has), a, j)
    ensures Before(counts, a) <= Streams(has, j) < Before(counts, a) + counts[a]
  {
    hide WalkTo, Firsts;
    FirstOf(counts, packs, has, a);
    StreamsMonotone(has, Firsts(counts, packs, has)[a], j);
  }

  lemma LastIsFar(counts: seq<nat>, packs: seq<bool>, has: seq<bool>, i: nat, j: nat, b: nat)
    requires |counts| == |packs| && Complete(counts, packs, has) && b < |counts|
    requires i < |has| && !has[i] && Before(counts, b) < Streams(has, i) < Before(counts, b) + counts[b]
    requires j < |has| && has[j] && Streams(has, j) == Before(counts, b) + counts[b] - 1
    ensures !Covers(counts, Firsts(counts, packs, has), b, j)
  {
    hide WalkTo, Firsts;
    FirstOf(counts, packs, has, b);
    var f := Firsts(counts, packs, has)[b];
    CountPasses(has, j, i);
    CountUpTo(has, i, f);
    CountUpTo(has, f, j);
    assert f < i < j;
    StreamsMonotone(has, f, j);
  }

  lemma CountUpTo(has: seq<bool>, i: nat, j: nat)
    requires i <= |has| && j <= |has|
    ensures i <= j ==> Streams(has, i) <= Streams(has, j)
  {
    if i <= j {
      StreamsMonotone(has, i, j);
    }
  }

  /** With as many files with data as places for them, a full traversal meets every file
      exactly once if and only if no file without data sits inside a block. */
  lemma VisitedOnceIffSettled(counts: seq<nat>, packs: seq<bool>, has: seq<bool>)
    requires |counts| == |packs| && Complete(counts, packs, has)
    ensures (forall i :: 0 <= i < |has| ==> Visits(counts, WalkTo(counts, packs, has, |has|).value, i) == 1)
       <==> Settled(counts, has)
  {
    if Settled(counts, has) {
      forall i | 0 <= i < |has|
        ensures Visits(counts, WalkTo(counts, packs, has, |has|).value, i) == 1
      {
        VisitedOnceWhenSettled(counts, packs, has, i);
      }
    } else {
      var i :| 0 <= i < |has| && !has[i] && forall b :: 0 <= b <= |counts| ==> Before(counts, b) != Streams(has, i);
      var j := PushedOut(counts, packs, has, i);
    }
  }
}
