/** The last block of an archive, and files without data among those meant for it: what the
    stream map makes of them. */
module Stretches {
  import opened Wire
  import opened Repeats
  import opened StreamMaps

  lemma {:induction false} WalkOfPrefix(counts: seq<nat>, packs: seq<bool>, has: seq<bool>, more: seq<bool>, k: nat)
    requires |counts| == |packs| && k <= |has|
    ensures WalkTo(counts, packs, has + more, k) == WalkTo(counts, packs, has, k)
  {
    if k > 0 {
      WalkOfPrefix(counts, packs, has, more, k - 1);
    }
  }

  /** When the files before have filled the blocks before `b`, the next one with data goes
      into block `b`. */
  lemma AtBoundary(counts: seq<nat>, packs: seq<bool>, has: seq<bool>, n: nat, b: nat)
    requires |counts| == |packs| && n <= |has| && WalkTo(counts, packs, has, n).Ok?
    requires b < |counts| && counts[b] > 0 && Streams(has, n) == Before(counts, b)
    ensures var w := WalkTo(counts, packs, has, n).value;
            w.used == 0 && w.block <= b && NextBlock(counts, w.block, w.first, n).0 == b
  {
    hide WalkTo, Before, Streams, NextBlock;
    var w := WalkTo(counts, packs, has, n).value;
    WalkCounts(counts, packs, has, n);
    if w.block < b {
      BlockEnds(counts, w.block, b);
    } else {
      BlockEnds(counts, b, w.block);
    }
    assert w.used == 0 && w.block <= b;
    var next := NextBlock(counts, w.block, w.first, n).0;
    BeforeMonotone(counts, w.block, next);
    if next < b {
      BlockEnds(counts, next, b);
    }
  }

  function Times(n: nat, b: nat): (r: seq<Option<nat>>) {
    seq(n, i => Some(b))
  }

  /** Where the walk stands `j` files after the first file of block `b`. */
  predicate InStretch(counts: seq<nat>, has: seq<bool>, w0: Walk, n: nat, b: nat, j: nat, w: Walk)
    requires w0.block <= |counts| == |w0.first| && b < |counts| && n + j <= |has|
  {
    var taken := Streams(has, n + j) - Streams(has, n);
    && w.first == NextBlock(counts, w0.block, w0.first, n).1
    && w.map0 == w0.map0 + Times(j, b)
    && if taken < counts[b] then w.block == b && w.used == taken else w.block == b + 1 && w.used == 0
  }

  /** From its first file on, all files are put into block `b` until it is full, with data or not. */
  lemma {:induction false} Stretch(counts: seq<nat>, packs: seq<bool>, has: seq<bool>, n: nat, b: nat, j: nat)
    requires |counts| == |packs| && n < |has| && has[n] && WalkTo(counts, packs, has, n).Ok?
    requires b < |counts| && packs[b] && 0 < j <= counts[b] && n + j <= |has| && Streams(has, n) == Before(counts, b)
    ensures WalkTo(counts, packs, has, n + j).Ok?
    ensures InStretch(counts, has, WalkTo(counts, packs, has, n).value, n, b, j, WalkTo(counts, packs, has, n + j).value)
    ensures 0 < Streams(has, n + j) - Streams(has, n) <= j
  {
    hide NextBlock, WalkTo;
    var w0 := WalkTo(counts, packs, has, n).value;
    if j == 1 {
      WalkStep(counts, packs, has, n);
      AtBoundary(counts, packs, has, n, b);
      assert Times(1, b) == [Some(b)];
    } else {
      Stretch(counts, packs, has, n, b, j - 1);
      WalkStep(counts, packs, has, n + j - 1);
      assert Times(j, b) == Times(j - 1, b) + [Some(b)];
      Cat(w0.map0, Times(j - 1, b), [Some(b)]);
    }
  }

  /** What the map says once the files of the last block are added, if its first one has data. */
  lemma LastBlockMap(counts: seq<nat>, packs: seq<bool>, has: seq<bool>, flags: seq<bool>)
    requires 0 < |counts| == |packs| && packs[|counts| - 1]
    requires |flags| == counts[|counts| - 1] && |flags| > 0 && flags[0]
    requires WalkTo(counts, packs, has, |has|).Ok? && Streams(has, |has|) == Before(counts, |counts| - 1)
    ensures var w0, r := WalkTo(counts, packs, has, |has|).value, WalkTo(counts, packs, has + flags, |has + flags|);
            && r.Ok? && r.value.first == NextBlock(counts, w0.block, w0.first, |has|).1
            && r.value.map0 == w0.map0 + Times(|flags|, |counts| - 1)
  {
    hide WalkTo, Before, Streams, NextBlock, Times;
    var all := has + flags;
    WalkOfPrefix(counts, packs, has, flags, |has|);
    StreamsOnPrefix(has, flags, |has|);
    assert all[|has|] == flags[0];
    Stretch(counts, packs, all, |has|, |counts| - 1, |flags|);
  }

  /** However the files of the last block are flagged, if its first one has data the map is
      the same. */
  lemma SameMap(counts: seq<nat>, packs: seq<bool>, has: seq<bool>, flags: seq<bool>, others: seq<bool>)
    requires 0 < |counts| == |packs| && packs[|counts| - 1]
    requires |flags| == |others| == counts[|counts| - 1] && |flags| > 0 && flags[0] && others[0]
    requires WalkTo(counts, packs, has, |has|).Ok? && Streams(has, |has|) == Before(counts, |counts| - 1)
    ensures var r, q := WalkTo(counts, packs, has + flags, |has + flags|), WalkTo(counts, packs, has + others, |has + others|);
            && r.Ok? && q.Ok? && r.value.first == q.value.first && r.value.map0 == q.value.map0
  {
    hide *;
    LastBlockMap(counts, packs, has, flags);
    LastBlockMap(counts, packs, has, others);
  }

  lemma {:induction false} StreamsOnPrefix(has: seq<bool>, more: seq<bool>, k: nat)
    requires k <= |has|
    ensures Streams(has + more, k) == Streams(has, k)
  {
    if k > 0 {
      StreamsOnPrefix(has, more, k - 1);
    }
  }

  /** A block with room that no file has come to yet still has its first file at the front of
      the list. */
  lemma {:induction false} FirstUntouched(counts: seq<nat>, packs: seq<bool>, has: seq<bool>, k: nat, b: nat)
    requires |counts| == |packs| && k <= |has| && WalkTo(counts, packs, has, k).Ok?
    requires b < |counts| && counts[b] > 0 && Streams(has, k) <= Before(counts, b)
    ensures WalkTo(counts, packs, has, k).value.first[b] == 0
  {
    if k > 0 {
      FirstUntouched(counts, packs, has, k - 1, b);
      WalkCounts(counts, packs, has, k - 1);
      var w := WalkTo(counts, packs, has, k - 1).value;
      if has[k - 1] && w.used == 0 {
        var next := NextBlock(counts, w.block, w.first, k - 1).0;
        BeforeMonotone(counts, w.block, next);
        if b <= next {
          BeforeMonotone(counts, b, next);
        }
      }
    }
  }

  lemma {:induction false} OneCovers(counts: seq<nat>, first: seq<nat>, n: nat, i: nat, b: nat)
    requires b < n <= |counts| == |first| && Covers(counts, first, b, i)
    ensures CoveringBlocks(counts, first, n, i) >= 1
  {
    if b < n - 1 {
      OneCovers(counts, first, n - 1, i, b);
    }
  }

  lemma {:induction false} TwoCover(counts: seq<nat>, first: seq<nat>, n: nat, i: nat, a: nat, b: nat)
    requires a < b < n <= |counts| == |first| && Covers(counts, first, a, i) && Covers(counts, first, b, i)
    ensures CoveringBlocks(counts, first, n, i) >= 2
  {
    if b < n - 1 {
      TwoCover(counts, first, n - 1, i, a, b);
    } else {
      OneCovers(counts, first, n - 1, i, a);
    }
  }

  lemma {:induction false} NothingFirst(has: seq<bool>, i: nat)
    requires i <= |has| && Streams(has, i) == 0
    ensures forall j :: 0 <= j < i ==> !has[j]
  {
    if i > 0 {
      NothingFirst(has, i - 1);
    }
  }

  /** A block with room that no file comes to makes a traversal meet the first file twice. */
  lemma FirstMetTwice(counts: seq<nat>, packs: seq<bool>, has: seq<bool>, b: nat)
    requires |counts| == |packs| && WalkTo(counts, packs, has, |has|).Ok? && has != []
    requires b < |counts| && counts[b] > 0 && Streams(has, |has|) <= Before(counts, b)
    ensures Visits(counts, WalkTo(counts, packs, has, |has|).value, 0) >= 2
  {
    var w := WalkTo(counts, packs, has, |has|).value;
    FirstUntouched(counts, packs, has, |has|, b);
    MapAt(counts, packs, has, 0);
    if has[0] {
      var a := w.map0[0].value;
      CountPasses(has, 0, |has|);
      if b <= a {
        BeforeMonotone(counts, b, a);
      }
      FirstAt(counts, packs, has, |has|, a);
      NothingFirst(has, w.first[a]);
      TwoCover(counts, w.first, |counts|, 0, a, b);
    } else {
      FirstUnmapped(counts, packs, has);
      OneCovers(counts, w.first, |counts|, 0, b);
    }
  }

  lemma FirstUnmapped(counts: seq<nat>, packs: seq<bool>, has: seq<bool>)
    requires |counts| == |packs| && has != [] && !has[0] && WalkTo(counts, packs, has, |has|).Ok?
    ensures WalkTo(counts, packs, has, |has|).value.map0[0].None?
  {
    WalkPrefix(counts, packs, has, 1, |has|);
    assert WalkTo(counts, packs, has, 0) == Ok(Start(|counts|));
    assert WalkTo(counts, packs, has, |has|).value.map0[..1][0] == None;
  }

  /** A block whose first file has data but comes after others meant for the block reaches
      past the end of the list. */
  lemma ReachesPastEnd(counts: seq<nat>, packs: seq<bool>, has: seq<bool>, flags: seq<bool>)
    requires 0 < |counts| == |packs| && |flags| == counts[|counts| - 1] && flags != [] && !flags[0]
    requires Streams(has, |has|) == Before(counts, |counts| - 1) && Streams(has + flags, |has + flags|) > Before(counts, |counts| - 1)
    requires WalkTo(counts, packs, has + flags, |has + flags|).Ok?
    ensures WalkTo(counts, packs, has + flags, |has + flags|).value.first[|counts| - 1] + counts[|counts| - 1] > |has + flags|
  {
    hide WalkTo, Before, Streams;
    var b, all := |counts| - 1, has + flags;
    FirstAt(counts, packs, all, |all|, b);
    var i := WalkTo(counts, packs, all, |all|).value.first[b];
    StreamsOnPrefix(has, flags, |has|);
    if i < |has| {
      CountPasses(all, i, |has|);
    }
  }
}
