/** How a directory is split over pushes: files of 4 GiB or more alone, the others gathered
    into solid blocks below that size. */
module Groupings {
  import opened Wire
  import opened Repeats

  const MAX_BLOCK_SIZE := 0x1_0000_0000

  /** One push, by the positions of its files in the list of paths. */
  datatype Push = Alone(file: nat) | Solid(files: seq<nat>)

  function SizesOf(sizes: seq<nat>, files: seq<nat>): (r: seq<nat>)
    requires forall i :: 0 <= i < |files| ==> files[i] < |sizes|
    ensures |r| == |files|
  {
    seq(|files|, i requires 0 <= i < |files| => sizes[files[i]])
  }

  /** The first `n` files that are too large, or small enough, for a block, in order. */
  function Large(sizes: seq<nat>, n: nat): (r: seq<nat>)
    requires n <= |sizes|
    ensures forall i :: 0 <= i < |r| ==> r[i] < n && sizes[r[i]] >= MAX_BLOCK_SIZE
  {
    if n == 0 then [] else Large(sizes, n - 1) + (if sizes[n - 1] >= MAX_BLOCK_SIZE then [n - 1] else [])
  }

  function Small(sizes: seq<nat>, n: nat): (r: seq<nat>)
    requires n <= |sizes|
    ensures forall i :: 0 <= i < |r| ==> r[i] < n && sizes[r[i]] < MAX_BLOCK_SIZE
  {
    if n == 0 then [] else Small(sizes, n - 1) + (if sizes[n - 1] < MAX_BLOCK_SIZE then [n - 1] else [])
  }

  function Lone(pushes: seq<Push>): seq<nat> {
    if pushes == [] then []
    else Lone(pushes[..|pushes| - 1]) + (if pushes[|pushes| - 1].Alone? then [pushes[|pushes| - 1].file] else [])
  }

  function Groups(pushes: seq<Push>): seq<seq<nat>> {
    if pushes == [] then []
    else Groups(pushes[..|pushes| - 1]) + (if pushes[|pushes| - 1].Solid? then [pushes[|pushes| - 1].files] else [])
  }

  lemma PushSnoc(pushes: seq<Push>, p: Push)
    ensures Lone(pushes + [p]) == Lone(pushes) + (if p.Alone? then [p.file] else [])
    ensures Groups(pushes + [p]) == Groups(pushes) + (if p.Solid? then [p.files] else [])
  {
    assert (pushes + [p])[..|pushes|] == pushes;
  }

  /** A solid block: not empty, of files in the list, and below the limit. */
  predicate GroupFits(sizes: seq<nat>, g: seq<nat>) {
    && g != []
    && (forall i :: 0 <= i < |g| ==> g[i] < |sizes|)
    && Sum(SizesOf(sizes, g)) < MAX_BLOCK_SIZE
  }

  /** The first file of `next` did not fit into `g` any more. */
  predicate WasFull(sizes: seq<nat>, g: seq<nat>, next: nat)
    requires GroupFits(sizes, g) && next < |sizes|
  {
    Sum(SizesOf(sizes, g)) + sizes[next] >= MAX_BLOCK_SIZE
  }

  predicate AllFit(sizes: seq<nat>, groups: seq<seq<nat>>) {
    && (forall k :: 0 <= k < |groups| ==> GroupFits(sizes, groups[k]))
    && (forall k :: 0 < k < |groups| ==> WasFull(sizes, groups[k - 1], groups[k][0]))
  }

  /** Where the loop stands before file `i`: what has been pushed, and the open group. */
  predicate Progress(sizes: seq<nat>, i: nat, pushes: seq<Push>, files: seq<nat>, fileSize: nat) {
    && i <= |sizes|
    && (forall k :: 0 <= k < |files| ==> files[k] < |sizes|)
    && fileSize == Sum(SizesOf(sizes, files)) < MAX_BLOCK_SIZE
    && Lone(pushes) == Large(sizes, i)
    && Flatten(Groups(pushes)) + files == Small(sizes, i)
    && AllFit(sizes, Groups(pushes))
    && (var gs := Groups(pushes); gs != [] ==> files != [] && WasFull(sizes, gs[|gs| - 1], files[0]))
  }

  lemma NothingPushed(sizes: seq<nat>)
    ensures Progress(sizes, 0, [], [], 0)
  {
    assert Flatten<nat>([]) == [];
  }

  lemma LargeFile(sizes: seq<nat>, i: nat, pushes: seq<Push>, files: seq<nat>, fileSize: nat)
    requires Progress(sizes, i, pushes, files, fileSize) && i < |sizes| && sizes[i] >= MAX_BLOCK_SIZE
    ensures Progress(sizes, i + 1, pushes + [Alone(i)], files, fileSize)
  {
    hide Lone, Groups, Flatten, Sum, SizesOf, AllFit;
    PushSnoc(pushes, Alone(i));
    assert Groups(pushes) + [] == Groups(pushes);
    assert Small(sizes, i) + [] == Small(sizes, i);
  }

  /** The open group is pushed because file `i` does not fit into it. */
  lemma GroupClosed(sizes: seq<nat>, i: nat, pushes: seq<Push>, files: seq<nat>, fileSize: nat)
    requires Progress(sizes, i, pushes, files, fileSize) && i < |sizes|
    requires sizes[i] < MAX_BLOCK_SIZE && fileSize + sizes[i] >= MAX_BLOCK_SIZE
    ensures Progress(sizes, i + 1, pushes + [Solid(files)], [i], sizes[i])
  {
    hide Lone, Groups, Flatten, Sum;
    NoFiles(sizes);
    assert files != [] && GroupFits(sizes, files) && WasFull(sizes, files, i);
    AllFitSnoc(sizes, Groups(pushes), files);
    PushSnoc(pushes, Solid(files));
    FlattenSnoc(Groups(pushes), files);
    assert Lone(pushes) + [] == Lone(pushes);
    OneMore(sizes, [], i);
    assert [] + [i] == [i];
  }

  lemma GroupGrows(sizes: seq<nat>, i: nat, pushes: seq<Push>, files: seq<nat>, fileSize: nat)
    requires Progress(sizes, i, pushes, files, fileSize) && i < |sizes|
    requires sizes[i] < MAX_BLOCK_SIZE && fileSize + sizes[i] < MAX_BLOCK_SIZE
    ensures Progress(sizes, i + 1, pushes, files + [i], fileSize + sizes[i])
  {
    hide Lone, Groups, Flatten, Sum, SizesOf, AllFit, GroupFits, WasFull;
    OneMore(sizes, files, i);
    assert files != [] ==> (files + [i])[0] == files[0];
    assert Flatten(Groups(pushes)) + (files + [i]) == Flatten(Groups(pushes)) + files + [i];
    assert Large(sizes, i) + [] == Large(sizes, i);
  }

  lemma LastGroup(sizes: seq<nat>, pushes: seq<Push>, files: seq<nat>, fileSize: nat)
    requires Progress(sizes, |sizes|, pushes, files, fileSize)
    ensures var all := if files == [] then pushes else pushes + [Solid(files)];
            && Lone(all) == Large(sizes, |sizes|) && Flatten(Groups(all)) == Small(sizes, |sizes|) && AllFit(sizes, Groups(all))
  {
    hide Lone, Groups, Flatten, Sum, AllFit, WasFull;
    assert Flatten(Groups(pushes)) + [] == Flatten(Groups(pushes));
    if files != [] {
      AllFitSnoc(sizes, Groups(pushes), files);
      PushSnoc(pushes, Solid(files));
      FlattenSnoc(Groups(pushes), files);
      assert Lone(pushes) + [] == Lone(pushes);
    }
  }

  lemma AllFitSnoc(sizes: seq<nat>, groups: seq<seq<nat>>, g: seq<nat>)
    requires AllFit(sizes, groups) && GroupFits(sizes, g)
    requires groups != [] ==> WasFull(sizes, groups[|groups| - 1], g[0])
    ensures AllFit(sizes, groups + [g])
  {
    hide Sum, SizesOf;
  }

  lemma NoFiles(sizes: seq<nat>)
    ensures Sum(SizesOf(sizes, [])) == 0
  {
  }

  lemma OneMore(sizes: seq<nat>, files: seq<nat>, i: nat)
    requires (forall k :: 0 <= k < |files| ==> files[k] < |sizes|) && i < |sizes|
    ensures Sum(SizesOf(sizes, files + [i])) == Sum(SizesOf(sizes, files)) + sizes[i]
  {
    SumSnoc(SizesOf(sizes, files), sizes[i]);
    assert SizesOf(sizes, files + [i]) == SizesOf(sizes, files) + [sizes[i]];
  }

  function Times(xs: seq<nat>, i: nat): nat {
    if xs == [] then 0 else Times(xs[..|xs| - 1], i) + (if xs[|xs| - 1] == i then 1 else 0)
  }

  lemma TimesSnoc(xs: seq<nat>, x: nat, i: nat)
    ensures Times(xs + [x], i) == Times(xs, i) + (if x == i then 1 else 0)
  {
    assert (xs + [x])[..|xs|] == xs;
  }

  /** Every file is either large or small, once. */
  lemma {:induction false} LargeOrSmall(sizes: seq<nat>, n: nat, i: nat)
    requires n <= |sizes|
    ensures Times(Large(sizes, n), i) + Times(Small(sizes, n), i) == if i < n then 1 else 0
  {
    hide Times;
    if n > 0 {
      LargeOrSmall(sizes, n - 1, i);
      TimesSnoc(Large(sizes, n - 1), n - 1, i);
      TimesSnoc(Small(sizes, n - 1), n - 1, i);
      assert Large(sizes, n - 1) + [] == Large(sizes, n - 1) && Small(sizes, n - 1) + [] == Small(sizes, n - 1);
    } else {
      NoTimes(i);
    }
  }

  lemma NoTimes(i: nat)
    ensures Times([], i) == 0
  {
  }

  /** Both lists keep the order of the paths. */
  lemma {:induction false} ListsInOrder(sizes: seq<nat>, n: nat)
    requires n <= |sizes|
    ensures forall i, j :: 0 <= i < j < |Small(sizes, n)| ==> Small(sizes, n)[i] < Small(sizes, n)[j]
    ensures forall i, j :: 0 <= i < j < |Large(sizes, n)| ==> Large(sizes, n)[i] < Large(sizes, n)[j]
  {
    if n > 0 {
      ListsInOrder(sizes, n - 1);
    }
  }

  // ----- what the pushes hold together

  function FilesOf(p: Push): seq<nat> {
    match p
    case Alone(file) => [file]
    case Solid(files) => files
  }

  /** The files of all pushes, push by push. */
  function AllFiles(pushes: seq<Push>): seq<nat> {
    if pushes == [] then [] else AllFiles(pushes[..|pushes| - 1]) + FilesOf(pushes[|pushes| - 1])
  }

  lemma {:induction false} TimesConcat(xs: seq<nat>, ys: seq<nat>, i: nat)
    ensures Times(xs + ys, i) == Times(xs, i) + Times(ys, i)
  {
    if ys == [] {
      assert xs + ys == xs;
    } else {
      var front := ys[..|ys| - 1];
      TimesConcat(xs, front, i);
      assert (xs + ys)[..|xs + ys| - 1] == xs + front;
    }
  }

  lemma {:induction false} TimesInPushes(pushes: seq<Push>, i: nat)
    ensures Times(AllFiles(pushes), i) == Times(Lone(pushes), i) + Times(Flatten(Groups(pushes)), i)
  {
    hide Times, Flatten;
    if pushes == [] {
      NoTimes(i);
      NoGroups();
    } else {
      var front, p := pushes[..|pushes| - 1], pushes[|pushes| - 1];
      TimesInPushes(front, i);
      TimesConcat(AllFiles(front), FilesOf(p), i);
      if p.Alone? {
        TimesConcat(Lone(front), [p.file], i);
        assert Groups(front) + [] == Groups(front);
      } else {
        FlattenSnoc(Groups(front), p.files);
        TimesConcat(Flatten(Groups(front)), p.files, i);
        assert Lone(front) + [] == Lone(front);
      }
    }
  }

  lemma NoGroups()
    ensures Flatten<nat>([]) == []
  {
  }

  predicate Increasing(xs: seq<nat>) {
    forall i, j :: 0 <= i < j < |xs| ==> xs[i] < xs[j]
  }

  /** Every path is in exactly one of the pushes, and once in it. */
  ghost predicate EachOnce(pushes: seq<Push>, n: nat) {
    forall i: nat :: Times(AllFiles(pushes), i) == if i < n then 1 else 0
  }

  /** The lone files are in the order of the paths, and so are the grouped ones. */
  predicate InOrder(pushes: seq<Push>) {
    Increasing(Lone(pushes)) && Increasing(Flatten(Groups(pushes)))
  }

  lemma SplitSound(sizes: seq<nat>, pushes: seq<Push>)
    requires Lone(pushes) == Large(sizes, |sizes|) && Flatten(Groups(pushes)) == Small(sizes, |sizes|)
    ensures EachOnce(pushes, |sizes|) && InOrder(pushes)
  {
    hide Times, Flatten, Lone, Groups, Large, Small, AllFiles;
    forall i: nat
      ensures Times(AllFiles(pushes), i) == if i < |sizes| then 1 else 0
    {
      TimesInPushes(pushes, i);
      LargeOrSmall(sizes, |sizes|, i);
    }
    ListsInOrder(sizes, |sizes|);
  }

  /** All files alone. */
  function EachAlone(n: nat): seq<Push> {
    seq(n, i requires 0 <= i < n => Alone(i))
  }

  lemma OneMoreAlone(n: nat)
    ensures var was, now := EachAlone(n), EachAlone(n + 1);
            && AllFiles(now) == AllFiles(was) + [n] && Lone(now) == Lone(was) + [n] && Groups(now) == Groups(was)
  {
    hide Groups, Lone;
    var was, now := EachAlone(n), EachAlone(n + 1);
    assert now == was + [Alone(n)];
    assert now[..n] == was && now[n] == Alone(n);
    PushSnoc(was, Alone(n));
    assert Groups(was) + [] == Groups(was);
  }

  function UpTo(n: nat): (r: seq<nat>) {
    seq(n, i requires 0 <= i < n => i)
  }

  lemma UpToNext(n: nat)
    ensures UpTo(n) + [n] == UpTo(n + 1)
  {
  }

  lemma {:induction false} AloneFiles(n: nat)
    ensures AllFiles(EachAlone(n)) == UpTo(n) && Lone(EachAlone(n)) == UpTo(n) && Groups(EachAlone(n)) == []
  {
    if n > 0 {
      hide Groups, Lone, AllFiles, EachAlone, UpTo;
      AloneFiles(n - 1);
      OneMoreAlone(n - 1);
      UpToNext(n - 1);
    }
  }

  lemma {:induction false} TimesUpTo(n: nat, i: nat)
    ensures Times(UpTo(n), i) == if i < n then 1 else 0
  {
    if n > 0 {
      hide Times, UpTo;
      TimesUpTo(n - 1, i);
      UpToNext(n - 1);
      TimesSnoc(UpTo(n - 1), n - 1, i);
    }
  }

  /** `encode_path`, over the sizes of the files found. */
  method EncodePath(solid: bool, sizes: seq<nat>) returns (pushes: seq<Push>)
    ensures EachOnce(pushes, |sizes|) && InOrder(pushes)
    ensures !solid ==> pushes == EachAlone(|sizes|)
    ensures solid ==>
      && Lone(pushes) == Large(sizes, |sizes|)
      && Flatten(Groups(pushes)) == Small(sizes, |sizes|)
      && AllFit(sizes, Groups(pushes))
  {
    hide Progress, Lone, Groups, Flatten, AllFit, Large, Small, EachOnce, InOrder;
    pushes := [];
    if !solid {
      for i := 0 to |sizes|
        invariant |pushes| == i && forall k :: 0 <= k < i ==> pushes[k] == Alone(k)
      {
        pushes := pushes + [Alone(i)];
      }
      AloneInOrder(|sizes|);
      assert pushes == EachAlone(|sizes|);
      return;
    }
    var files: seq<nat>, fileSize: nat := [], 0;
    NothingPushed(sizes);
    for i := 0 to |sizes|
      invariant Progress(sizes, i, pushes, files, fileSize)
    {
      var size := sizes[i];
      if size >= MAX_BLOCK_SIZE {
        LargeFile(sizes, i, pushes, files, fileSize);
        pushes := pushes + [Alone(i)];
        continue;
      }
      if fileSize + size >= MAX_BLOCK_SIZE {
        GroupClosed(sizes, i, pushes, files, fileSize);
        pushes := pushes + [Solid(files)];
        files, fileSize := [], 0;
        assert [] + [i] == [i];
      } else {
        GroupGrows(sizes, i, pushes, files, fileSize);
      }
      fileSize := fileSize + size;
      files := files + [i];
    }
    LastGroup(sizes, pushes, files, fileSize);
    if files != [] {
      pushes := pushes + [Solid(files)];
    }
    SplitSound(sizes, pushes);
  }

  lemma AloneInOrder(n: nat)
    ensures EachOnce(EachAlone(n), n) && InOrder(EachAlone(n))
  {
    hide Lone, Groups, AllFiles, Times, EachAlone;
    AloneFiles(n);
    NoGroups();
    forall i: nat
      ensures Times(AllFiles(EachAlone(n)), i) == if i < n then 1 else 0
    {
      TimesUpTo(n, i);
    }
  }
}
