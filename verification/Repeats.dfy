/** Runs of values on the wire: a parser repeated a known number of times, and a parser
    applied only at the positions a bitmap marks. */
module Repeats {
  import opened Wire

  function Flatten<T>(parts: seq<seq<T>>): seq<T> {
    if parts == [] then [] else parts[0] + Flatten(parts[1..])
  }

  lemma {:induction false} FlattenConcat<T>(a: seq<seq<T>>, b: seq<seq<T>>)
    ensures Flatten(a + b) == Flatten(a) + Flatten(b)
  {
    if a == [] {
      assert a + b == b;
    } else {
      FlattenConcat(a[1..], b);
      assert (a + b)[1..] == a[1..] + b && (a + b)[0] == a[0];
      assert a[0] + (Flatten(a[1..]) + Flatten(b)) == (a[0] + Flatten(a[1..])) + Flatten(b);
    }
  }

  lemma FlattenSnoc<T>(parts: seq<seq<T>>, p: seq<T>)
    ensures Flatten(parts + [p]) == Flatten(parts) + p
  {
    FlattenConcat(parts, [p]);
    assert Flatten([p]) == p + Flatten([p][1..]);
  }

  function Sum(xs: seq<nat>): nat {
    if xs == [] then 0 else xs[0] + Sum(xs[1..])
  }

  lemma {:induction false} SumConcat(a: seq<nat>, b: seq<nat>)
    ensures Sum(a + b) == Sum(a) + Sum(b)
  {
    if a == [] {
      assert a + b == b;
    } else {
      SumConcat(a[1..], b);
      assert (a + b)[1..] == a[1..] + b;
    }
  }

  lemma SumSnoc(a: seq<nat>, x: nat)
    ensures Sum(a + [x]) == Sum(a) + x
  {
    SumConcat(a, [x]);
    assert Sum([x]) == x + Sum([x][1..]);
  }

  /** `p` reads `v` off the front of anything that starts with `b`, and only `b`. */
  ghost predicate Reads<T(!new)>(p: bytes -> Parsed<T>, b: bytes, v: T) {
    forall rest: bytes :: p(b + rest) == Ok((v, rest))
  }

  function PutAll<A>(e: A -> bytes, xs: seq<A>): bytes {
    if xs == [] then [] else e(xs[0]) + PutAll(e, xs[1..])
  }

  function GetMany<T>(p: bytes -> Parsed<T>, n: nat, s: bytes): (r: Parsed<seq<T>>)
    ensures r.Ok? ==> |r.value.0| == n
  {
    if n == 0 then Ok(([], s))
    else
      var (x, s1) :- p(s);
      var (xs, s2) :- GetMany(p, n - 1, s1);
      Ok(([x] + xs, s2))
  }

  lemma {:induction false} ManyReads<A, T(!new)>(e: A -> bytes, p: bytes -> Parsed<T>, xs: seq<A>, vs: seq<T>, rest: bytes)
    requires |xs| == |vs|
    requires forall i :: 0 <= i < |xs| ==> Reads(p, e(xs[i]), vs[i])
    ensures GetMany(p, |xs|, PutAll(e, xs) + rest) == Ok((vs, rest))
  {
    if xs != [] {
      ManyReads(e, p, xs[1..], vs[1..], rest);
      var s1 := PutAll(e, xs[1..]) + rest;
      assert PutAll(e, xs) + rest == e(xs[0]) + s1;
      assert p(e(xs[0]) + s1) == Ok((vs[0], s1));
      assert [vs[0]] + vs[1..] == vs;
    } else {
      assert PutAll(e, xs) + rest == rest;
    }
  }

  lemma {:induction false} PutSnoc<A>(e: A -> bytes, xs: seq<A>, i: nat)
    requires i < |xs|
    ensures PutAll(e, xs[..i + 1]) == PutAll(e, xs[..i]) + e(xs[i])
  {
    if i == 0 {
      assert PutAll(e, xs[..1]) == e(xs[0]) + PutAll(e, xs[..1][1..]);
    } else {
      PutSnoc(e, xs[1..], i - 1);
      assert xs[..i + 1][1..] == xs[1..][..i] && xs[..i][1..] == xs[1..][..i - 1];
      assert xs[1..][i - 1] == xs[i];
    }
  }

  /** One more step of a repeated parser. */
  lemma {:induction false} ManySnoc<T>(p: bytes -> Parsed<T>, n: nat, s: bytes)
    ensures GetMany(p, n + 1, s) ==
            match GetMany(p, n, s)
            case Err(e) => Err(e)
            case Ok(q) =>
              match p(q.1)
              case Err(e) => Err(e)
              case Ok(x) => Ok((q.0 + [x.0], x.1))
  {
    if n == 0 {
      match p(s)
      case Err(_) =>
      case Ok(x) =>
        assert GetMany(p, 0, x.1) == Ok(([], x.1));
        assert [x.0] + [] == [] + [x.0];
    } else {
      match p(s)
      case Err(_) =>
      case Ok(x) =>
        ManySnoc(p, n - 1, x.1);
        if GetMany(p, n - 1, x.1).Ok? {
          var q := GetMany(p, n - 1, x.1).value;
          if p(q.1).Ok? {
            assert [x.0] + (q.0 + [p(q.1).value.0]) == ([x.0] + q.0) + [p(q.1).value.0];
          }
        }
    }
  }

  /** A failure after `i` items is the failure of the whole run. */
  lemma {:induction false} ManyFails<T>(p: bytes -> Parsed<T>, i: nat, n: nat, s: bytes)
    requires i <= n && GetMany(p, i, s).Err?
    ensures GetMany(p, n, s) == Err(GetMany(p, i, s).error)
    decreases n - i
  {
    if i < n {
      ManySnoc(p, i, s);
      ManyFails(p, i + 1, n, s);
    }
  }

  // ----- one parse per element of a list, steered by that element

  function GetEach<A, T>(p: (A, bytes) -> Parsed<T>, xs: seq<A>, s: bytes): (r: Parsed<seq<T>>)
    ensures r.Ok? ==> |r.value.0| == |xs|
  {
    if xs == [] then Ok(([], s))
    else
      var (y, s1) :- p(xs[0], s);
      var (ys, s2) :- GetEach(p, xs[1..], s1);
      Ok(([y] + ys, s2))
  }

  ghost predicate ReadsFor<A, T(!new)>(p: (A, bytes) -> Parsed<T>, x: A, b: bytes, v: T) {
    forall rest: bytes :: p(x, b + rest) == Ok((v, rest))
  }

  lemma {:induction false} EachReads<W, A, T(!new)>(e: W -> bytes, p: (A, bytes) -> Parsed<T>, ws: seq<W>, xs: seq<A>, vs: seq<T>, rest: bytes)
    requires |ws| == |xs| == |vs|
    requires forall i :: 0 <= i < |ws| ==> ReadsFor(p, xs[i], e(ws[i]), vs[i])
    ensures GetEach(p, xs, PutAll(e, ws) + rest) == Ok((vs, rest))
  {
    if ws != [] {
      EachReads(e, p, ws[1..], xs[1..], vs[1..], rest);
      var s1 := PutAll(e, ws[1..]) + rest;
      assert PutAll(e, ws) + rest == e(ws[0]) + s1;
      assert p(xs[0], e(ws[0]) + s1) == Ok((vs[0], s1));
      assert [vs[0]] + vs[1..] == vs;
    } else {
      assert PutAll(e, ws) + rest == rest;
    }
  }

  lemma {:induction false} EachSnoc<A, T>(p: (A, bytes) -> Parsed<T>, xs: seq<A>, i: nat, s: bytes)
    requires i < |xs|
    ensures GetEach(p, xs[..i + 1], s) ==
            match GetEach(p, xs[..i], s)
            case Err(e) => Err(e)
            case Ok(q) =>
              match p(xs[i], q.1)
              case Err(e) => Err(e)
              case Ok(x) => Ok((q.0 + [x.0], x.1))
  {
    assert xs[..i + 1][1..] == xs[1..][..i];
    var first := p(xs[0], s);
    if i == 0 {
      if first.Ok? {
        assert GetEach(p, xs[1..][..0], first.value.1) == Ok(([], first.value.1));
        assert [first.value.0] + [] == [] + [first.value.0];
      }
    } else if first.Ok? {
      assert xs[..i][1..] == xs[1..][..i - 1];
      EachSnoc(p, xs[1..], i - 1, first.value.1);
      var inner := GetEach(p, xs[1..][..i - 1], first.value.1);
      if inner.Ok? {
        var next := p(xs[i], inner.value.1);
        if next.Ok? {
          assert [first.value.0] + (inner.value.0 + [next.value.0]) == ([first.value.0] + inner.value.0) + [next.value.0];
        }
      }
    }
  }

  lemma {:induction false} EachFails<A, T>(p: (A, bytes) -> Parsed<T>, xs: seq<A>, i: nat, s: bytes)
    requires i <= |xs| && GetEach(p, xs[..i], s).Err?
    ensures GetEach(p, xs, s) == Err(GetEach(p, xs[..i], s).error)
    decreases |xs| - i
  {
    if i < |xs| {
      EachSnoc(p, xs, i, s);
      EachFails(p, xs, i + 1, s);
    } else {
      assert xs[..i] == xs;
    }
  }

  // ----- values only where a bitmap says so

  function PutDefined<A>(e: A -> bytes, d: seq<bool>, xs: seq<A>): bytes
    requires |d| == |xs|
  {
    if xs == [] then [] else (if d[0] then e(xs[0]) else []) + PutDefined(e, d[1..], xs[1..])
  }

  /** Reads one value per marked position; the others keep what `olds` has. */
  function GetDefined<T>(p: bytes -> Parsed<T>, d: seq<bool>, olds: seq<T>, s: bytes): (r: Parsed<seq<T>>)
    requires |d| == |olds|
    ensures r.Ok? ==> |r.value.0| == |d|
  {
    if d == [] then Ok(([], s))
    else
      var (x, s1) :- if d[0] then p(s) else Ok((olds[0], s));
      var (xs, s2) :- GetDefined(p, d[1..], olds[1..], s1);
      Ok(([x] + xs, s2))
  }

  /** What a run of marked values reads back as. */
  function Merged<T>(d: seq<bool>, xs: seq<T>, olds: seq<T>): (r: seq<T>)
    requires |d| == |xs| == |olds|
  {
    seq(|d|, i requires 0 <= i < |d| => if d[i] then xs[i] else olds[i])
  }

  lemma {:induction false} DefinedReads<T(!new)>(e: T -> bytes, p: bytes -> Parsed<T>, d: seq<bool>, xs: seq<T>, olds: seq<T>, rest: bytes)
    requires |d| == |xs| == |olds|
    requires forall x :: x in xs ==> Reads(p, e(x), x)
    ensures GetDefined(p, d, olds, PutDefined(e, d, xs) + rest) == Ok((Merged(d, xs, olds), rest))
  {
    if d != [] {
      DefinedReads(e, p, d[1..], xs[1..], olds[1..], rest);
      var s1 := PutDefined(e, d[1..], xs[1..]) + rest;
      assert PutDefined(e, d, xs) + rest == (if d[0] then e(xs[0]) else []) + s1;
      if d[0] {
        assert xs[0] in xs;
        assert p(e(xs[0]) + s1) == Ok((xs[0], s1));
      } else {
        assert [] + s1 == s1;
      }
      assert Merged(d, xs, olds) == [Merged(d, xs, olds)[0]] + Merged(d[1..], xs[1..], olds[1..]);
    } else {
      assert PutDefined(e, d, xs) + rest == rest && Merged(d, xs, olds) == [];
    }
  }

  lemma {:induction false} PutDefinedSnoc<A>(e: A -> bytes, d: seq<bool>, xs: seq<A>, i: nat)
    requires i < |xs| == |d|
    ensures PutDefined(e, d[..i + 1], xs[..i + 1])
         == PutDefined(e, d[..i], xs[..i]) + (if d[i] then e(xs[i]) else [])
  {
    if i == 0 {
      assert PutDefined(e, d[..1][1..], xs[..1][1..]) == [];
    } else {
      PutDefinedSnoc(e, d[1..], xs[1..], i - 1);
      assert xs[..i + 1][1..] == xs[1..][..i] && xs[..i][1..] == xs[1..][..i - 1];
      assert d[..i + 1][1..] == d[1..][..i] && d[..i][1..] == d[1..][..i - 1];
    }
  }

  lemma {:induction false} DefinedSnoc<T>(p: bytes -> Parsed<T>, d: seq<bool>, olds: seq<T>, i: nat, s: bytes)
    requires i < |d| == |olds|
    ensures GetDefined(p, d[..i + 1], olds[..i + 1], s) ==
            match GetDefined(p, d[..i], olds[..i], s)
            case Err(e) => Err(e)
            case Ok(q) =>
              match (if d[i] then p(q.1) else Ok((olds[i], q.1)))
              case Err(e) => Err(e)
              case Ok(x) => Ok((q.0 + [x.0], x.1))
  {
    assert d[..i + 1][1..] == d[1..][..i] && olds[..i + 1][1..] == olds[1..][..i];
    var first := if d[0] then p(s) else Ok((olds[0], s));
    if i == 0 {
      if first.Ok? {
        assert GetDefined(p, d[1..][..0], olds[1..][..0], first.value.1) == Ok(([], first.value.1));
        assert [first.value.0] + [] == [] + [first.value.0];
      }
    } else if first.Ok? {
      assert d[..i][1..] == d[1..][..i - 1] && olds[..i][1..] == olds[1..][..i - 1];
      DefinedSnoc(p, d[1..], olds[1..], i - 1, first.value.1);
      var inner := GetDefined(p, d[1..][..i - 1], olds[1..][..i - 1], first.value.1);
      if inner.Ok? {
        var q := inner.value;
        var next := if d[i] then p(q.1) else Ok((olds[i], q.1));
        if next.Ok? {
          assert [first.value.0] + (q.0 + [next.value.0]) == ([first.value.0] + q.0) + [next.value.0];
        }
      }
    }
  }

  lemma {:induction false} DefinedFails<T>(p: bytes -> Parsed<T>, d: seq<bool>, olds: seq<T>, i: nat, s: bytes)
    requires i <= |d| == |olds| && GetDefined(p, d[..i], olds[..i], s).Err?
    ensures GetDefined(p, d, olds, s) == Err(GetDefined(p, d[..i], olds[..i], s).error)
    decreases |d| - i
  {
    if i < |d| {
      DefinedSnoc(p, d, olds, i, s);
      DefinedFails(p, d, olds, i + 1, s);
    } else {
      assert d[..i] == d && olds[..i] == olds;
    }
  }
}
