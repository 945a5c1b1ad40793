/** Walks along links: from a first item, each item naming at most one next. When such a walk
    ends, and what it visits. */
module Walks {
  import opened Wire

  type Link = nat -> Option<nat>

  /** The items visited from `i` on, among the `n` there are. A walk that has visited as many
      items as there are and still goes on visits one twice, and so never ends. */
  function WalkFrom(next: Link, n: nat, i: nat, left: nat): (r: Result<seq<nat>>)
    ensures r.Ok? ==> forall k :: 0 <= k < |r.value| ==> r.value[k] < n
    decreases left
  {
    if i >= n then Ok([])
    else if left == 0 then Err(EndlessChain)
    else
      match next(i)
      case None => Ok([i])
      case Some(j) =>
        var rest :- WalkFrom(next, n, j, left - 1);
        Ok([i] + rest)
  }

  /** The first items of the walk, at most `most` of them. */
  function Trail(next: Link, n: nat, i: nat, most: nat): (r: seq<nat>)
    ensures |r| <= most && forall k :: 0 <= k < |r| ==> r[k] < n
    decreases most
  {
    if i >= n || most == 0 then []
    else
      match next(i)
      case None => [i]
      case Some(j) => [i] + Trail(next, n, j, most - 1)
  }

  /** Each item after the first is where the one before leads. */
  predicate IsPath(next: Link, n: nat, path: seq<nat>) {
    && (forall k :: 0 <= k < |path| ==> path[k] < n)
    && forall k :: 0 < k < |path| ==> next(path[k - 1]) == Some(path[k])
  }

  predicate Distinct(xs: seq<nat>) {
    forall j, k :: 0 <= j < k < |xs| ==> xs[j] != xs[k]
  }

  /** Item `i` leads to another one there is. */
  predicate Onward(next: Link, n: nat, i: nat) {
    next(i).Some? && next(i).value < n
  }

  /** Nothing on the way leads back to its first item, and no two items on it lead to the
      same one. */
  predicate NoWayBack(next: Link, n: nat, way: seq<nat>) {
    && (forall i :: 0 <= i < |way| ==> next(way[i]) != Some(way[0]))
    && forall i, j :: 0 <= i < |way| && 0 <= j < |way| && way[i] != way[j] && Onward(next, n, way[i]) ==>
        next(way[i]) != next(way[j])
  }

  /** The trail is the walk, as far as it goes; a walk that does not end is still going when
      the trail stops. */
  lemma {:induction false} TrailIsWalk(next: Link, n: nat, i: nat, left: nat)
    ensures var t, r := Trail(next, n, i, left), WalkFrom(next, n, i, left);
            && IsPath(next, n, t) && (t != [] ==> t[0] == i) && (t == [] <==> i >= n || left == 0)
            && (r.Ok? ==> r.value == t && (t != [] ==> !Onward(next, n, t[|t| - 1])))
            && (r.Err? ==> r == Err(EndlessChain) && |t| == left && (t != [] ==> Onward(next, n, t[left - 1])))
    decreases left
  {
    if i < n && left > 0 && next(i).Some? {
      TrailIsWalk(next, n, next(i).value, left - 1);
      PathFrom(next, n, i, Trail(next, n, next(i).value, left - 1));
    }
  }

  lemma PathFrom(next: Link, n: nat, i: nat, rest: seq<nat>)
    requires i < n && next(i).Some? && IsPath(next, n, rest)
    requires rest != [] ==> rest[0] == next(i).value
    ensures IsPath(next, n, [i] + rest)
  {
    var path := [i] + rest;
    forall k | 0 < k < |path|
      ensures next(path[k - 1]) == Some(path[k])
    {
      assert path[k] == rest[k - 1] && (k > 1 ==> path[k - 1] == rest[k - 2]);
    }
  }

  /** A path on which nothing leads back has no item twice. */
  lemma {:induction false} NoRevisit(next: Link, n: nat, path: seq<nat>, j: nat, k: nat)
    requires IsPath(next, n, path) && j < k < |path| && NoWayBack(next, n, path[..|path| - 1])
    ensures path[j] != path[k]
    decreases j
  {
    var way := path[..|path| - 1];
    assert way[k - 1] == path[k - 1] && way[0] == path[0];
    if j > 0 {
      NoRevisit(next, n, path, j - 1, k - 1);
      assert way[j - 1] == path[j - 1];
    }
  }

  lemma {:induction false} DistinctBelow(xs: seq<nat>, n: nat)
    requires forall k :: 0 <= k < |xs| ==> xs[k] < n
    requires Distinct(xs)
    ensures |xs| <= n
  {
    if xs != [] {
      assert xs[0] < n;
      if n - 1 in xs {
        var p :| 0 <= p < |xs| && xs[p] == n - 1;
        DistinctBelow(xs[..p] + xs[p + 1..], n - 1);
      } else {
        DistinctBelow(xs, n - 1);
      }
    }
  }

  lemma Continued(next: Link, n: nat, path: seq<nat>)
    requires path != [] && IsPath(next, n, path) && Onward(next, n, path[|path| - 1])
    ensures var longer := path + [next(path[|path| - 1]).value];
            IsPath(next, n, longer) && longer[..|longer| - 1] == path
  {
  }

  lemma PathInRange(next: Link, n: nat, path: seq<nat>)
    requires IsPath(next, n, path)
    ensures forall k :: 0 <= k < |path| ==> path[k] < n
  {
  }

  lemma NothingBackEnds(next: Link, n: nat, start: nat)
    requires NoWayBack(next, n, Trail(next, n, start, n))
    ensures WalkFrom(next, n, start, n).Ok?
  {
    hide Onward, NoWayBack, IsPath, Trail, WalkFrom;
    if WalkFrom(next, n, start, n).Err? {
      var way := Trail(next, n, start, n);
      TrailIsWalk(next, n, start, n);
      OutsideEnds(next, n, start);
      Continued(next, n, way);
      var longer := way + [next(way[|way| - 1]).value];
      forall j, k | 0 <= j < k < |longer|
        ensures longer[j] != longer[k]
      {
        NoRevisit(next, n, longer, j, k);
      }
      PathInRange(next, n, longer);
      DistinctBelow(longer, n);
    }
  }

  lemma OutsideEnds(next: Link, n: nat, start: nat)
    ensures WalkFrom(next, n, start, n).Err? ==> start < n
  {
  }

  /** More room does not change a walk that ends. */
  lemma {:induction false} SameWalk(next: Link, n: nat, i: nat, left: nat, more: nat)
    requires left <= more && WalkFrom(next, n, i, left).Ok?
    ensures WalkFrom(next, n, i, more) == WalkFrom(next, n, i, left)
    decreases left
  {
    if i < n && next(i).Some? {
      SameWalk(next, n, next(i).value, left - 1, more - 1);
    }
  }

  lemma FirstOfWalk(next: Link, n: nat, i: nat, left: nat)
    requires WalkFrom(next, n, i, left).Ok? && |WalkFrom(next, n, i, left).value| > 1
    ensures left > 0 && next(i).Some? && WalkFrom(next, n, next(i).value, left - 1).Ok?
    ensures WalkFrom(next, n, i, left).value == [i] + WalkFrom(next, n, next(i).value, left - 1).value
  {
  }

  lemma WalkStarts(next: Link, n: nat, i: nat, left: nat)
    requires WalkFrom(next, n, i, left).Ok? && WalkFrom(next, n, i, left).value != []
    ensures WalkFrom(next, n, i, left).value[0] == i
  {
  }

  /** What follows the first `k` items of a walk is the walk from there. */
  lemma {:induction false} RestOfWalk(next: Link, n: nat, i: nat, left: nat, k: nat)
    requires WalkFrom(next, n, i, left).Ok? && k < |WalkFrom(next, n, i, left).value|
    ensures k <= left && WalkFrom(next, n, WalkFrom(next, n, i, left).value[k], left - k) == Ok(WalkFrom(next, n, i, left).value[k..])
    decreases left
  {
    hide WalkFrom;
    var path := WalkFrom(next, n, i, left).value;
    if k == 0 {
      WalkStarts(next, n, i, left);
      assert path[0..] == path;
    } else {
      FirstOfWalk(next, n, i, left);
      var rest := WalkFrom(next, n, next(i).value, left - 1).value;
      RestOfWalk(next, n, next(i).value, left - 1, k - 1);
      assert path[k..] == rest[k - 1..] && path[k] == rest[k - 1];
    }
  }

  /** A walk that ends visits nothing twice. */
  lemma EndedIsDistinct(next: Link, n: nat, i: nat, left: nat)
    requires WalkFrom(next, n, i, left).Ok?
    ensures Distinct(WalkFrom(next, n, i, left).value)
  {
    hide WalkFrom;
    var path := WalkFrom(next, n, i, left).value;
    forall j, k | 0 <= j < k < |path|
      ensures path[j] != path[k]
    {
      RestOfWalk(next, n, i, left, j);
      RestOfWalk(next, n, i, left, k);
      if path[j] == path[k] {
        SameWalk(next, n, path[k], left - k, left - j);
      }
    }
  }

  /** Where item `k` of a walk leads is the next one of it. */
  lemma NextOnPath(next: Link, n: nat, path: seq<nat>, k: nat)
    requires IsPath(next, n, path) && k < |path| && Onward(next, n, path[k]) && !Onward(next, n, path[|path| - 1])
    ensures k + 1 < |path| && next(path[k]) == Some(path[k + 1])
  {
    assert k < |path| - 1;
    assert path[k] == path[(k + 1) - 1];
  }

  lemma EndedHasNoWayBack(next: Link, n: nat, start: nat)
    requires WalkFrom(next, n, start, n).Ok?
    ensures NoWayBack(next, n, Trail(next, n, start, n))
  {
    hide IsPath, Trail, WalkFrom;
    var path := Trail(next, n, start, n);
    TrailIsWalk(next, n, start, n);
    EndedIsDistinct(next, n, start, n);
    PathInRange(next, n, path);
    forall i | 0 <= i < |path|
      ensures next(path[i]) != Some(path[0])
    {
      if Onward(next, n, path[i]) {
        NextOnPath(next, n, path, i);
      }
    }
    forall i, j | 0 <= i < |path| && 0 <= j < |path| && path[i] != path[j] && Onward(next, n, path[i])
      ensures next(path[i]) != next(path[j])
    {
      NextOnPath(next, n, path, i);
      if Onward(next, n, path[j]) {
        NextOnPath(next, n, path, j);
      }
    }
  }

  /** A walk ends if and only if nothing it reaches leads back; then it has visited each item
      it reached once. */
  lemma EndsIffNoWayBack(next: Link, n: nat, start: nat)
    ensures var r, way := WalkFrom(next, n, start, n), Trail(next, n, start, n);
            && (r.Ok? <==> NoWayBack(next, n, way))
            && (r.Ok? ==> r.value == way && Distinct(way))
            && (r.Err? ==> r == Err(EndlessChain))
  {
    hide NoWayBack, Trail, WalkFrom, Distinct;
    TrailIsWalk(next, n, start, n);
    if NoWayBack(next, n, Trail(next, n, start, n)) {
      NothingBackEnds(next, n, start);
    }
    if WalkFrom(next, n, start, n).Ok? {
      EndedHasNoWayBack(next, n, start);
      EndedIsDistinct(next, n, start, n);
    }
  }
}
