/** The byte-swapping filters: pairs swapped, or groups of four reversed, over streams that
    come and go in pieces of any size. */
module SwapFilters {
  import opened Wire
  import opened Repeats
  import opened SeqReaders

  /** Every pair swapped; an odd last byte stays. */
  function Swap2(x: bytes): (r: bytes)
    ensures |r| == |x|
  {
    if |x| < 2 then x else [x[1], x[0]] + Swap2(x[2..])
  }

  function Reversed(x: bytes): (r: bytes)
    ensures |r| == |x|
  {
    seq(|x|, i requires 0 <= i < |x| => x[|x| - 1 - i])
  }

  /** Every four bytes reversed; so are the last one, two or three. */
  function Swap4(x: bytes): (r: bytes)
    ensures |r| == |x|
  {
    if |x| < 4 then Reversed(x) else Reversed(x[..4]) + Swap4(x[4..])
  }

  lemma {:induction false} Swap2Twice(x: bytes)
    ensures Swap2(Swap2(x)) == x
  {
    if |x| >= 2 {
      Swap2Twice(x[2..]);
      assert Swap2(x)[2..] == Swap2(x[2..]);
    }
  }

  lemma {:induction false} Swap4Twice(x: bytes)
    ensures Swap4(Swap4(x)) == x
  {
    if |x| >= 4 {
      Swap4Twice(x[4..]);
      assert Swap4(x)[..4] == Reversed(x[..4]) && Swap4(x)[4..] == Swap4(x[4..]);
      assert Reversed(Reversed(x[..4])) == x[..4];
      assert x == x[..4] + x[4..];
    } else {
      assert Reversed(Reversed(x)) == x;
    }
  }

  lemma {:induction false} Swap2Concat(a: bytes, b: bytes)
    requires |a| % 2 == 0
    ensures Swap2(a + b) == Swap2(a) + Swap2(b)
  {
    if |a| < 2 {
      assert a + b == b;
    } else {
      Swap2Concat(a[2..], b);
      assert (a + b)[2..] == a[2..] + b;
      Cat2([a[1], a[0]], Swap2(a[2..]), Swap2(b));
    }
  }

  lemma {:induction false} Swap4Concat(a: bytes, b: bytes)
    requires |a| % 4 == 0
    ensures Swap4(a + b) == Swap4(a) + Swap4(b)
  {
    hide Reversed;
    if |a| < 4 {
      assert a + b == b;
    } else {
      Swap4Concat(a[4..], b);
      assert (a + b)[..4] == a[..4] && (a + b)[4..] == a[4..] + b;
    }
  }

  // ----- pairs

  class Swap2Writer {
    const inner: Sink
    var pending: Option<byte>
    ghost const before: bytes
    ghost var done: bytes

    constructor (inner: Sink)
      ensures this.inner == inner && before == inner.data && Valid() && Accepted() == []
    {
      this.inner, before, pending, done := inner, inner.data, None, [];
    }

    ghost predicate Valid()
      reads this, inner
    {
      |done| % 2 == 0 && inner.data == before + Swap2(done)
    }

    ghost function Accepted(): bytes
      reads this
    {
      done + Held(pending)
    }

    method WritePair(a: byte, b: byte)
      requires Valid()
      modifies this`done, inner
      ensures Valid() && done == old(done) + [a, b]
    {
      Swap2Concat(done, [a, b]);
      assert Swap2([a, b]) == [b, a] + Swap2([a, b][2..]);
      Cat2(before, Swap2(done), [b, a]);
      inner.WriteAll([b, a]);
      done := done + [a, b];
    }

    method Write(buf: bytes) returns (n: nat)
      requires Valid()
      modifies this, inner
      ensures Valid() && Accepted() == old(Accepted()) + buf && n == |buf|
    {
      if buf == [] {
        assert Accepted() + [] == Accepted();
        return 0;
      }
      var pos := 0;
      ghost var all := Accepted() + buf;
      if pending.Some? {
        assert all == done + [pending.value, buf[0]] + buf[1..];
        WritePair(pending.value, buf[0]);
        pending, pos := None, 1;
      } else {
        assert all == done + buf[0..];
      }
      while pos + 1 < |buf|
        invariant 0 <= pos <= |buf| && pending.None? && Valid() && done + buf[pos..] == all
      {
        assert buf[pos..] == [buf[pos], buf[pos + 1]] + buf[pos + 2..];
        Cat2(done, [buf[pos], buf[pos + 1]], buf[pos + 2..]);
        WritePair(buf[pos], buf[pos + 1]);
        pos := pos + 2;
      }
      if pos < |buf| {
        assert buf[pos..] == [buf[pos]];
        pending := Some(buf[pos]);
        pos := pos + 1;
      }
      n := pos;
    }

    method Finish()
      requires Valid()
      modifies this, inner
      ensures inner.data == before + Swap2(old(Accepted()))
    {
      Swap2Concat(done, Held(pending));
      if pending.Some? {
        Cat2(before, Swap2(done), [pending.value]);
        inner.WriteAll([pending.value]);
        pending := None;
      } else {
        assert done + [] == done;
      }
    }
  }

  function Held(pending: Option<byte>): bytes {
    if pending.Some? then [pending.value] else []
  }

  class Swap2Reader {
    const inner: Input
    var pending: Option<byte>

    constructor (inner: Input)
      ensures this.inner == inner && ToCome() == Swap2(inner.rest)
    {
      this.inner, pending := inner, None;
      new;
      assert [] + Swap2(inner.rest) == Swap2(inner.rest);
    }

    ghost function ToCome(): bytes
      reads this, inner
    {
      Held(pending) + Swap2(inner.rest)
    }

    /** Two bytes of the source, however it splits them; fewer only at its end. */
    method ReadPair() returns (pair: bytes)
      modifies inner
      ensures |pair| <= 2 && old(inner.rest) == pair + inner.rest
      ensures |pair| < 2 ==> inner.rest == []
    {
      pair := inner.Read(2);
      if |pair| == 1 {
        var second := inner.Read(1);
        Cat2([], pair, inner.rest);
        pair := pair + second;
      }
    }

    /** One turn of the loop: the next pair, as far as there is space for it. */
    method ReadSwapped(space: nat) returns (more: bytes, stop: bool)
      requires pending.None? && space > 0
      modifies this, inner
      ensures old(ToCome()) == more + ToCome() && |more| <= space
      ensures stop ==> ToCome() == [] && pending.None?
      ensures !stop ==> |inner.rest| < |old(inner.rest)| && (|more| < space ==> pending.None?)
    {
      hide Swap2;
      assert [] + Swap2(inner.rest) == Swap2(inner.rest);
      var pair := ReadPair();
      assert [] + Swap2(inner.rest) == Swap2(inner.rest);
      PairSwapped(pair, inner.rest);
      if |pair| < 2 {
        SwapOfNothing();
        return pair, true;
      }
      if space > 1 {
        more := [pair[1], pair[0]];
      } else {
        more := [pair[1]];
        pending := Some(pair[0]);
        Cat2([pair[1]], [pair[0]], Swap2(inner.rest));
      }
      stop := false;
    }

    method Read(room: nat) returns (out: bytes)
      modifies this, inner
      ensures |out| <= room && old(ToCome()) == out + ToCome()
      ensures out == [] ==> room == 0 || ToCome() == []
    {
      hide Swap2, Held;
      out := [];
      assert [] + ToCome() == ToCome();
      if room == 0 {
        return;
      }
      if pending.Some? {
        TakeHeld(pending, Swap2(inner.rest));
        out := [pending.value];
        pending := None;
      }
      var stop := false;
      while |out| < room && !stop
        invariant |out| <= room && old(ToCome()) == out + ToCome()
        invariant |out| < room ==> pending.None?
        invariant stop ==> ToCome() == []
        decreases |inner.rest|, !stop
      {
        ghost var was := out;
        var more, end := ReadSwapped(room - |out|);
        Cat2(was, more, ToCome());
        out, stop := out + more, end;
      }
    }
  }

  lemma TakeHeld(pending: Option<byte>, rest: bytes)
    requires pending.Some?
    ensures Held(pending) + rest == [pending.value] + (Held(None) + rest)
  {
  }

  lemma SwapOfNothing()
    ensures Swap2([]) == [] && Swap4([]) == []
  {
  }

  lemma PairSwapped(pair: bytes, rest: bytes)
    requires |pair| <= 2 && (|pair| < 2 ==> rest == [])
    ensures Swap2(pair + rest) == (if |pair| == 2 then [pair[1], pair[0]] else pair) + Swap2(rest)
  {
    if |pair| == 2 {
      assert (pair + rest)[2..] == rest;
    } else {
      assert pair + rest == pair;
    }
  }

  // ----- groups of four

  class Swap4Writer {
    const inner: Sink
    const pending: array<byte>
    var pendingLen: nat
    ghost const before: bytes
    ghost var done: bytes

    constructor (inner: Sink)
      ensures this.inner == inner && before == inner.data && fresh(pending) && Valid() && Accepted() == []
    {
      this.inner, before := inner, inner.data;
      pending := new byte[4](i => 0);
      pendingLen, done := 0, [];
      new;
      assert Swap4([]) == [] by {
        SwapOfNothing();
      }
    }

    ghost predicate Valid()
      reads this, inner
    {
      pending.Length == 4 && pendingLen < 4 && |done| % 4 == 0 && inner.data == before + Swap4(done)
    }

    ghost function Accepted(): bytes
      requires Valid()
      reads this, inner, pending
    {
      done + pending[..pendingLen]
    }

    method WriteQuad(a: byte, b: byte, c: byte, d: byte)
      requires Valid()
      modifies this`done, inner
      ensures Valid() && done == old(done) + [a, b, c, d]
    {
      hide Swap4;
      ghost var quad := [a, b, c, d];
      Swap4Concat(done, quad);
      OneQuad(quad);
      assert Reversed(quad) == [d, c, b, a];
      Cat2(before, Swap4(done), [d, c, b, a]);
      inner.WriteAll([d, c, b, a]);
      done := done + quad;
    }

    /** Completes a waiting group as far as `buf` goes; returns how much of it was taken. */
    method Complete(buf: bytes) returns (pos: nat)
      requires Valid()
      modifies this, inner, pending
      ensures Valid() && pos <= |buf| && (pendingLen > 0 ==> pos == |buf|)
      ensures Accepted() + buf[pos..] == old(Accepted()) + buf
    {
      hide Swap4;
      pos := 0;
      assert buf[0..] == buf;
      while pendingLen > 0 && pos < |buf|
        invariant Valid() && pos <= |buf| && Accepted() + buf[pos..] == old(Accepted()) + buf
        decreases |buf| - pos
      {
        ghost var held := pending[..pendingLen];
        pending[pendingLen] := buf[pos];
        assert pending[..pendingLen + 1] == held + [buf[pos]];
        Cat3(done, held, [buf[pos]], buf[pos + 1..]);
        assert [buf[pos]] + buf[pos + 1..] == buf[pos..];
        Cat2(done, held, [buf[pos]]);
        Cat2(done, held, buf[pos..]);
        pos := pos + 1;
        if pendingLen + 1 == 4 {
          assert held + [buf[pos - 1]] == [pending[0], pending[1], pending[2], pending[3]];
          WriteQuad(pending[0], pending[1], pending[2], pending[3]);
          pendingLen := 0;
          assert done + pending[..0] == done;
        } else {
          pendingLen := pendingLen + 1;
        }
      }
    }

    method Write(buf: bytes) returns (n: nat)
      requires Valid()
      modifies this, inner, pending
      ensures Valid() && Accepted() == old(Accepted()) + buf && n == |buf|
    {
      hide Swap4;
      ghost var all := Accepted() + buf;
      var pos := Complete(buf);
      while pos + 4 <= |buf|
        invariant Valid() && pos <= |buf| && Accepted() + buf[pos..] == all && (pendingLen > 0 ==> pos == |buf|)
      {
        assert done + pending[..0] == done;
        assert buf[pos..] == [buf[pos], buf[pos + 1], buf[pos + 2], buf[pos + 3]] + buf[pos + 4..];
        Cat2(done, [buf[pos], buf[pos + 1], buf[pos + 2], buf[pos + 3]], buf[pos + 4..]);
        WriteQuad(buf[pos], buf[pos + 1], buf[pos + 2], buf[pos + 3]);
        assert done + pending[..0] == done;
        pos := pos + 4;
      }
      Keep(buf, pos);
      n := |buf|;
    }

    /** The last one, two or three bytes wait for the next write. */
    method Keep(buf: bytes, from: nat)
      requires Valid() && |buf| < from + 4 && from <= |buf| && (pendingLen > 0 ==> from == |buf|)
      modifies this`pendingLen, pending
      ensures Valid() && Accepted() == old(Accepted()) + buf[from..]
    {
      hide Swap4;
      var pos := from;
      assert buf[from..from] == [] && Accepted() + [] == Accepted();
      while pos < |buf|
        invariant from <= pos <= |buf| && Valid() && Accepted() == old(Accepted()) + buf[from..pos]
        invariant pos > from ==> pendingLen == pos - from
        invariant pos == from ==> pendingLen == old(pendingLen)
        invariant done == old(done) && inner.data == old(inner.data)
      {
        ghost var held := pending[..pendingLen];
        pending[pendingLen] := buf[pos];
        assert pending[..pendingLen + 1] == held + [buf[pos]];
        Cat2(done, held, [buf[pos]]);
        Cat2(old(Accepted()), buf[from..pos], [buf[pos]]);
        assert buf[from..pos] + [buf[pos]] == buf[from..pos + 1];
        pendingLen := pendingLen + 1;
        pos := pos + 1;
      }
    }

    method Finish()
      requires Valid()
      modifies this, inner
      ensures inner.data == before + Swap4(old(Accepted()))
    {
      hide Swap4;
      ghost var held := pending[..pendingLen];
      Swap4Concat(done, held);
      ShortGroup(held);
      ghost var start := inner.data;
      var i := pendingLen;
      while i > 0
        invariant 0 <= i <= pendingLen == |held| && pending[..pendingLen] == held
        invariant inner.data == start + Reversed(held)[..pendingLen - i]
      {
        i := i - 1;
        assert Reversed(held)[..pendingLen - i] == Reversed(held)[..pendingLen - i - 1] + [held[i]];
        assert pending[i] == held[i];
        inner.WriteAll([pending[i]]);
      }
      Cat2(before, Swap4(done), Reversed(held));
      pendingLen := 0;
    }
  }

  lemma OneQuad(x: bytes)
    requires |x| == 4
    ensures Swap4(x) == Reversed(x)
  {
    assert x[..4] == x && x[4..] == [];
  }

  lemma ShortGroup(x: bytes)
    requires |x| < 4
    ensures Swap4(x) == Reversed(x)
  {
  }

  // ----- reading groups of four

  /** What is left over of a group when the caller's buffer is full. */
  function Leftover(space: nat, avail: nat): nat
    decreases space
  {
    var group := Min(4, avail);
    if space == 0 || avail == 0 then 0
    else if space >= group then Leftover(space - group, avail - group)
    else group - space
  }

  /** Buffers whose length is a multiple of four leave nothing over. */
  lemma {:induction false} NothingLeftOver(space: nat, avail: nat)
    requires space % 4 == 0
    ensures Leftover(space, avail) == 0
    decreases space
  {
    if space > 0 && avail > 0 {
      if avail >= 4 {
        NothingLeftOver(space - 4, avail - 4);
      }
    }
  }

  /** Leftovers are saved from the front of three places, and drained from the back of them. */
  function Saved(places: bytes, left: bytes): bytes
    requires |places| == 3 && |left| <= 3
  {
    left + places[|left|..]
  }

  function Drained(places: bytes, n: nat): (r: bytes)
    requires |places| == 3 && n <= 3
    ensures |r| == n
  {
    places[3 - n..]
  }

  /** What the reader holds, and what its source has still to give. */
  datatype Quads = Quads(places: bytes, n: nat, rest: bytes)

  predicate Sound(h: Quads) {
    |h.places| == 3 && h.n <= 3
  }

  /** The groups of one read: what is given out, and what is held afterwards. */
  function Fill(h: Quads, space: nat): (r: (bytes, Quads))
    requires Sound(h)
    ensures Sound(r.1) && |r.0| <= space && |r.1.rest| <= |h.rest|
    decreases space
  {
    if space == 0 || h.rest == [] then ([], h)
    else
      var n := Min(4, |h.rest|);
      var group := Reversed(h.rest[..n]);
      if space < n then (group[..space], Quads(Saved(h.places, group[space..]), n - space, h.rest[n..]))
      else
        var (more, after) := Fill(Quads(h.places, 0, h.rest[n..]), space - n);
        (group + more, after)
  }

  /** One read into a buffer of `room` bytes. */
  function ReadOnce(h: Quads, room: nat): (r: (bytes, Quads))
    requires Sound(h)
    ensures Sound(r.1)
  {
    var n := Min(room, h.n);
    var (more, after) := Fill(Quads(h.places, h.n - n, h.rest), room - n);
    (Drained(h.places, h.n)[..n] + more, after)
  }

  /** A read into a buffer with room gives something as long as there is something. */
  lemma ReadOnceGives(h: Quads, room: nat)
    requires Sound(h) && room > 0
    ensures var (out, after) := ReadOnce(h, room);
            && (out == [] <==> h.n == 0 && h.rest == [])
            && (out != [] ==> after.n + 4 * |after.rest| < h.n + 4 * |h.rest|)
  {
    var n := Min(room, h.n);
    FillTakes(Quads(h.places, h.n - n, h.rest), room - n);
  }

  lemma {:induction false} FillTakes(h: Quads, space: nat)
    requires Sound(h)
    ensures var (out, after) := Fill(h, space);
            && (out == [] <==> space == 0 || h.rest == [])
            && (out == [] ==> after == h)
            && (out != [] ==> after.n + 4 * |after.rest| < 4 * |h.rest|)
    decreases space
  {
    if space > 0 && h.rest != [] {
      var n := Min(4, |h.rest|);
      if space >= n {
        FillTakes(Quads(h.places, 0, h.rest[n..]), space - n);
      }
    }
  }

  /** All reads to the end, each into a buffer of `room` bytes. */
  function ReadOn(h: Quads, room: nat): bytes
    requires Sound(h) && room > 0
    decreases h.n + 4 * |h.rest|
  {
    ReadOnceGives(h, room);
    var (out, after) := ReadOnce(h, room);
    if out == [] then [] else out + ReadOn(after, room)
  }

  /** What comes of a stream through a new reader and buffers of one length. */
  function ReadWith(room: nat, s: bytes): bytes
    requires room > 0
  {
    ReadOn(Quads([0, 0, 0], 0, s), room)
  }

  class Swap4Reader {
    const inner: Input
    const pending: array<byte>
    var pendingLen: nat

    constructor (inner: Input)
      ensures this.inner == inner && fresh(pending) && Valid() && pendingLen == 0 && ToCome() == Swap4(inner.rest)
      ensures Now() == Quads([0, 0, 0], 0, inner.rest)
    {
      this.inner := inner;
      pending := new byte[3](i => 0);
      pendingLen := 0;
      new;
      assert pending[..] == [0, 0, 0];
      assert Drained(pending[..], 0) == [] && [] + Swap4(inner.rest) == Swap4(inner.rest);
    }

    ghost predicate Valid()
      reads this
    {
      pending.Length == 3 && pendingLen <= 3
    }

    /** What reading on would give. */
    ghost function ToCome(): bytes
      requires Valid()
      reads this, inner, pending
    {
      Drained(pending[..], pendingLen) + Swap4(inner.rest)
    }

    ghost function Now(): (h: Quads)
      requires Valid()
      reads this, inner, pending
      ensures Sound(h)
    {
      Quads(pending[..], pendingLen, inner.rest)
    }

    /** Gives out what is saved, as far as there is space. */
    method Drain(room: nat) returns (out: bytes)
      requires Valid()
      modifies this`pendingLen
      ensures Valid() && |out| == Min(room, old(pendingLen)) && pendingLen == old(pendingLen) - |out|
      ensures out == Drained(pending[..], old(pendingLen))[..|out|]
    {
      hide Drained;
      out := [];
      while pendingLen > 0 && |out| < room
        invariant Valid() && |out| <= room && pendingLen == old(pendingLen) - |out|
        invariant out == Drained(pending[..], old(pendingLen))[..|out|]
      {
        DrainedNext(pending[..], old(pendingLen), |out|);
        out := out + [pending[3 - pendingLen]];
        pendingLen := pendingLen - 1;
      }
    }

    /** Four bytes of the source, however it splits them; fewer only at its end. */
    method ReadQuad() returns (quad: bytes)
      modifies inner
      ensures |quad| == Min(4, |old(inner.rest)|) && old(inner.rest) == quad + inner.rest
    {
      quad := [];
      assert [] + inner.rest == inner.rest;
      while |quad| < 4
        invariant |quad| <= 4 && old(inner.rest) == quad + inner.rest
        decreases 4 - |quad|
      {
        var more := inner.Read(4 - |quad|);
        Cat2(quad, more, inner.rest);
        if more == [] {
          assert quad + [] == quad;
          break;
        }
        quad := quad + more;
      }
    }

    /** One turn of the loop: the next group, as far as there is space for it. */
    method ReadReversed(space: nat) returns (more: bytes, stop: bool)
      requires Valid() && pendingLen == 0 && space > 0
      modifies this`pendingLen, inner, pending
      ensures Valid() && |more| <= space && stop == (|old(inner.rest)| < 4) && (stop ==> inner.rest == [])
      ensures (|more| < space ==> pendingLen == 0) && (more == [] ==> stop)
      ensures Fill(old(Now()), space) == (more + Fill(Now(), space - |more|).0, Fill(Now(), space - |more|).1)
    {
      ghost var rest := inner.rest;
      var quad := ReadQuad();
      var n := Min(space, |quad|);
      more := Reversed(quad)[..n];
      if n < |quad| {
        Save(Reversed(quad)[n..]);
      }
      stop := |quad| < 4;
      assert rest[..|quad|] == quad && rest[|quad|..] == inner.rest;
      assert more + [] == more;
      assert n == |quad| ==> more == Reversed(quad);
    }

    method Read(room: nat) returns (out: bytes)
      requires Valid()
      modifies this, inner, pending
      ensures Valid() && |out| <= room
      ensures (out, Now()) == ReadOnce(old(Now()), room)
      ensures out == [] ==> room == 0 || (pendingLen == 0 && inner.rest == [])
      ensures var left := if room <= old(pendingLen) then 0 else Leftover(room - old(pendingLen), |old(inner.rest)|);
              left == 0 || left == 3 ==> old(ToCome()) == out + ToCome()
      ensures room % 4 == 0 && old(pendingLen) == 0 ==> pendingLen == 0
    {
      hide Fill, Drained, Saved;
      ghost var was := Now();
      out := Drain(room);
      assert out + Fill(Now(), room - |out|).0 == ReadOnce(was, room).0;
      var stop := false;
      while |out| < room && !stop
        invariant Valid() && |out| <= room && (|out| < room ==> pendingLen == 0)
        invariant stop ==> inner.rest == []
        invariant ReadOnce(was, room) == (out + Fill(Now(), room - |out|).0, Fill(Now(), room - |out|).1)
        decreases room - |out|, !stop
      {
        ghost var before := out;
        var more, end := ReadReversed(room - |out|);
        Cat2(before, more, Fill(Now(), room - |before + more|).0);
        out, stop := out + more, end;
      }
      NothingFilled(Now(), room - |out|);
      assert out + [] == out;
      OnceKeeps(was, room);
      if room > 0 && out == [] {
        NothingTaken(was, room);
      }
    }

    /** Saves what is left over of a group. */
    method Save(left: bytes)
      requires Valid() && pendingLen == 0 && 0 < |left| <= 3
      modifies this`pendingLen, pending
      ensures Valid() && pendingLen == |left| && pending[..] == Saved(old(pending[..]), left)
      ensures |left| == 3 ==> Drained(pending[..], 3) == left
    {
      ghost var places := pending[..];
      while pendingLen < |left|
        invariant Valid() && pendingLen <= |left|
        invariant forall i :: 0 <= i < 3 ==> pending[i] == if i < pendingLen then left[i] else places[i]
      {
        pending[pendingLen] := left[pendingLen];
        pendingLen := pendingLen + 1;
      }
    }
  }

  lemma DrainedNext(places: bytes, n: nat, k: nat)
    requires |places| == 3 && k < n <= 3
    ensures Drained(places, n)[..k + 1] == Drained(places, n)[..k] + [places[3 - (n - k)]]
  {
  }

  lemma NothingFilled(h: Quads, space: nat)
    requires Sound(h) && (space == 0 || h.rest == [])
    ensures Fill(h, space) == ([], h)
  {
  }

  /** What reading on from `h` would have to give. */
  function Due(h: Quads): bytes
    requires Sound(h)
  {
    Drained(h.places, h.n) + Swap4(h.rest)
  }

  lemma {:induction false} FillKeeps(h: Quads, space: nat)
    requires Sound(h)
    ensures h.n == 0 || (space > 0 && h.rest != []) ==> Fill(h, space).1.n == Leftover(space, |h.rest|)
    ensures var left := Leftover(space, |h.rest|);
            h.n == 0 && (left == 0 || left == 3) ==> Swap4(h.rest) == Fill(h, space).0 + Due(Fill(h, space).1)
    decreases space
  {
    hide Swap4, Drained, Saved;
    if space == 0 || h.rest == [] {
      if h.n == 0 {
        DueOfNone(h);
      }
    } else {
      var n := Min(4, |h.rest|);
      var quad, rest := h.rest[..n], h.rest[n..];
      assert h.rest == quad + rest;
      var given := Min(space, n);
      GroupGiven(quad, rest, given);
      if space >= n {
        var next := Quads(h.places, 0, rest);
        FillKeeps(next, space - n);
        assert Reversed(quad)[..n] == Reversed(quad) && Reversed(quad)[n..] == [];
        assert [] + Swap4(rest) == Swap4(rest);
        Cat2(Reversed(quad), Fill(next, space - n).0, Due(Fill(next, space - n).1));
      } else {
        SavedBack(h.places, Reversed(quad)[space..]);
      }
    }
  }

  lemma DueOfNone(h: Quads)
    requires Sound(h) && h.n == 0
    ensures Swap4(h.rest) == [] + Due(h)
  {
    hide Swap4;
  }

  /** Three bytes saved come back as they were. */
  lemma SavedBack(places: bytes, left: bytes)
    requires |places| == 3 && |left| <= 3
    ensures |left| == 3 ==> Drained(Saved(places, left), 3) == left
  {
  }

  lemma OnceKeeps(h: Quads, room: nat)
    requires Sound(h)
    ensures var left := if room <= h.n then 0 else Leftover(room - h.n, |h.rest|);
            left == 0 || left == 3 ==> Due(h) == ReadOnce(h, room).0 + Due(ReadOnce(h, room).1)
    ensures room % 4 == 0 && h.n == 0 ==> ReadOnce(h, room).1.n == 0
  {
    hide Swap4, Fill;
    var n := Min(room, h.n);
    var now := Quads(h.places, h.n - n, h.rest);
    DrainSplit(h.places, h.n, n, Swap4(h.rest));
    if room <= h.n {
      NothingFilled(now, 0);
      assert Drained(h.places, h.n)[..n] + [] == Drained(h.places, h.n)[..n];
    } else {
      FillKeeps(now, room - n);
      DueOfNone(now);
      Cat2(Drained(h.places, h.n)[..n], Fill(now, room - n).0, Due(Fill(now, room - n).1));
    }
    if room % 4 == 0 && h.n == 0 {
      NothingLeftOver(room, |h.rest|);
    }
  }

  lemma DrainSplit(places: bytes, n: nat, k: nat, rest: bytes)
    requires |places| == 3 && k <= n <= 3
    ensures Drained(places, n) + rest == Drained(places, n)[..k] + (Drained(places, n - k) + rest)
  {
  }

  lemma NothingTaken(h: Quads, room: nat)
    requires Sound(h) && room > 0 && ReadOnce(h, room).0 == []
    ensures ReadOnce(h, room).1 == h && h.n == 0 && h.rest == []
  {
    ReadOnceGives(h, room);
  }

  lemma GroupGiven(quad: bytes, rest: bytes, n: nat)
    requires |quad| <= 4 && n <= |quad| && (|quad| < 4 ==> rest == [])
    ensures Swap4(quad + rest) == Reversed(quad)[..n] + (Reversed(quad)[n..] + Swap4(rest))
  {
    hide Reversed;
    if |quad| < 4 {
      assert quad + rest == quad;
      SwapOfNothing();
      assert Reversed(quad) + [] == Reversed(quad);
    } else {
      assert (quad + rest)[..4] == quad && (quad + rest)[4..] == rest;
    }
    assert Reversed(quad)[..n] + Reversed(quad)[n..] == Reversed(quad);
    Cat2(Reversed(quad)[..n], Reversed(quad)[n..], Swap4(rest));
  }

  // ----- whole streams

  /** Pieces of any sizes go through the writer as one. */
  method WritePieces2(output: Sink, pieces: seq<bytes>)
    modifies output
    ensures output.data == old(output.data) + Swap2(Flatten(pieces))
  {
    hide Swap2;
    var w := new Swap2Writer(output);
    for i := 0 to |pieces|
      invariant fresh(w) && w.Valid() && w.inner == output && w.before == old(output.data)
      invariant w.Accepted() == Flatten(pieces[..i])
    {
      FlattenSnoc(pieces[..i], pieces[i]);
      assert pieces[..i + 1] == pieces[..i] + [pieces[i]];
      var _ := w.Write(pieces[i]);
    }
    assert pieces[..|pieces|] == pieces;
    w.Finish();
  }

  method WritePieces4(output: Sink, pieces: seq<bytes>)
    modifies output
    ensures output.data == old(output.data) + Swap4(Flatten(pieces))
  {
    hide Swap4;
    var w := new Swap4Writer(output);
    for i := 0 to |pieces|
      invariant fresh(w) && fresh(w.pending) && w.Valid() && w.inner == output && w.before == old(output.data)
      invariant w.Accepted() == Flatten(pieces[..i])
    {
      FlattenSnoc(pieces[..i], pieces[i]);
      assert pieces[..i + 1] == pieces[..i] + [pieces[i]];
      var _ := w.Write(pieces[i]);
    }
    assert pieces[..|pieces|] == pieces;
    w.Finish();
  }

  /** Reading with buffers of any sizes undoes the pairs. */
  method ReadAll2(input: Input) returns (got: bytes)
    modifies input
    ensures got == Swap2(old(input.rest))
    ensures forall x: bytes :: old(input.rest) == Swap2(x) ==> got == x
  {
    hide Swap2;
    var r := new Swap2Reader(input);
    got := [];
    ghost var all := input.rest;
    assert [] + r.ToCome() == Swap2(all);
    while true
      invariant fresh(r) && r.inner == input && got + r.ToCome() == Swap2(all)
      decreases |r.ToCome()|
    {
      var room: nat :| room > 0;
      ghost var before := r.ToCome();
      var out := r.Read(room);
      Cat2(got, out, r.ToCome());
      if out == [] {
        assert got + [] == got;
        break;
      }
      got := got + out;
    }
    Swap2Undone(all);
  }

  /** Reading with buffers of any sizes that are multiples of four undoes the groups. */
  method ReadAll4(input: Input) returns (got: bytes)
    modifies input
    ensures got == Swap4(old(input.rest))
    ensures forall x: bytes :: old(input.rest) == Swap4(x) ==> got == x
  {
    hide Swap4;
    var r := new Swap4Reader(input);
    got := [];
    ghost var all := input.rest;
    assert [] + r.ToCome() == Swap4(all);
    while true
      invariant fresh(r) && fresh(r.pending) && r.inner == input && r.Valid() && r.pendingLen == 0
      invariant got + r.ToCome() == Swap4(all)
      decreases |r.ToCome()|
    {
      var quarter: nat :| quarter > 0;
      NothingLeftOver(4 * quarter, |input.rest|);
      ghost var before := r.ToCome();
      var out := r.Read(4 * quarter);
      Cat2(got, out, r.ToCome());
      if out == [] {
        SwapOfNothing();
        assert Drained(r.pending[..], 0) == [];
        assert got + [] == got;
        break;
      }
      got := got + out;
    }
    Swap4Undone(all);
  }

  lemma Swap2Undone(y: bytes)
    ensures forall x: bytes :: y == Swap2(x) ==> Swap2(y) == x
  {
    forall x: bytes | y == Swap2(x)
      ensures Swap2(y) == x
    {
      Swap2Twice(x);
    }
  }

  lemma Swap4Undone(y: bytes)
    ensures forall x: bytes :: y == Swap4(x) ==> Swap4(y) == x
  {
    forall x: bytes | y == Swap4(x)
      ensures Swap4(y) == x
    {
      Swap4Twice(x);
    }
  }

  /** Reading to the end with buffers of one length. */
  method ReadAllWith(input: Input, room: nat) returns (got: bytes)
    requires room > 0
    modifies input
    ensures got == ReadWith(room, old(input.rest))
  {
    hide ReadOnce, Fill;
    var r := new Swap4Reader(input);
    got := [];
    ghost var start := r.Now();
    assert [] + ReadOn(start, room) == ReadOn(start, room);
    while true
      invariant fresh(r) && fresh(r.pending) && r.inner == input && r.Valid()
      invariant got + ReadOn(r.Now(), room) == ReadOn(start, room)
      decreases r.pendingLen + 4 * |input.rest|
    {
      ghost var before := r.Now();
      ReadOnceGives(before, room);
      var out := r.Read(room);
      if out == [] {
        assert ReadOn(before, room) == [];
        assert got + [] == got;
        break;
      }
      assert ReadOn(before, room) == out + ReadOn(r.Now(), room);
      Cat2(got, out, ReadOn(r.Now(), room));
      got := got + out;
    }
  }

  lemma {:induction false} QuartersGive(h: Quads, room: nat)
    requires Sound(h) && h.n == 0 && room > 0 && room % 4 == 0
    ensures ReadOn(h, room) == Swap4(h.rest)
    decreases |h.rest|
  {
    hide Fill, ReadOnce, Swap4;
    NothingLeftOver(room, |h.rest|);
    OnceKeeps(h, room);
    ReadOnceGives(h, room);
    DueOfNone(h);
    var (out, after) := ReadOnce(h, room);
    if out == [] {
      SwapOfNothing();
    } else {
      QuartersGive(after, room);
      DueOfNone(after);
      assert [] + Due(after) == Due(after) && [] + Due(h) == Due(h);
    }
  }

  function Ones(n: nat): (r: bytes)
    ensures |r| == n
  {
    seq(n, i => 1)
  }

  lemma OnesReversed(n: nat)
    ensures Reversed(Ones(n)) == Ones(n)
  {
    forall i | 0 <= i < n
      ensures Reversed(Ones(n))[i] == Ones(n)[i]
    {
    }
  }

  lemma OnesSplit(n: nat, k: nat)
    requires k <= n
    ensures Ones(n)[..k] == Ones(k) && Ones(n)[k..] == Ones(n - k) && Ones(k) + Ones(n - k) == Ones(n)
  {
  }

  lemma {:induction false} SwapOfOnes(n: nat)
    ensures Swap4(Ones(n)) == Ones(n)
  {
    OnesReversed(Min(n, 4));
    if n >= 4 {
      OnesSplit(n, 4);
      SwapOfOnes(n - 4);
    }
  }

  /** A buffer one shorter than what is left, and not a multiple of four: the last byte is saved
      at the wrong end. */
  lemma {:induction false} OnesFilled(room: nat)
    requires room % 4 != 0
    ensures Fill(Quads([0, 0, 0], 0, Ones(room + 1)), room) == (Ones(room), Quads([1, 0, 0], 1, []))
  {
    var n := Min(4, room + 1);
    OnesSplit(room + 1, n);
    OnesReversed(n);
    if room < n {
      OnesSplit(n, room);
      assert Ones(1) == [1] && [1] + [0, 0, 0][1..] == [1, 0, 0];
      assert Ones(room + 1)[n..] == [];
    } else {
      OnesFilled(room - n);
      OnesSplit(room, n);
    }
  }

  lemma ReadOnStep(h: Quads, room: nat)
    requires Sound(h) && room > 0
    ensures var (out, after) := ReadOnce(h, room); ReadOn(h, room) == if out == [] then [] else out + ReadOn(after, room)
  {
    ReadOnceGives(h, room);
  }

  /** One byte more than fits comes out as a zero. */
  lemma OnesBroken(room: nat)
    requires room % 4 != 0
    ensures ReadWith(room, Ones(room + 1)) == Ones(room) + [0]
  {
    hide Fill, ReadOn;
    OnesFilled(room);
    var h, left := Quads([0, 0, 0], 0, Ones(room + 1)), Quads([1, 0, 0], 1, []);
    assert Drained(h.places, 0)[..0] + Ones(room) == Ones(room);
    assert ReadOnce(h, room) == (Ones(room), left);
    var done := Quads([1, 0, 0], 0, []);
    NothingFilled(done, room - 1);
    NothingFilled(done, room);
    assert left.places[2..] == [0] && Drained(left.places, 1) == [0] && [0][..1] + [] == [0];
    assert ReadOnce(left, room) == ([0], done);
    assert Drained(done.places, 0) == [] && Drained(done.places, 0)[..0] + [] == [];
    assert ReadOnce(done, room) == ([], done);
    ReadOnStep(done, room);
    ReadOnStep(left, room);
    ReadOnStep(h, room);
    assert [0] + [] == [0];
  }

  /** Reading with buffers of one length undoes every stream if and only if that length is a
      multiple of four. */
  lemma UndoesIffQuarters(room: nat)
    requires room > 0
    ensures (forall x: bytes :: ReadWith(room, Swap4(x)) == x) <==> room % 4 == 0
  {
    hide ReadOn, Swap4;
    if room % 4 == 0 {
      forall x: bytes
        ensures ReadWith(room, Swap4(x)) == x
      {
        QuartersGive(Quads([0, 0, 0], 0, Swap4(x)), room);
        Swap4Twice(x);
      }
    } else {
      OnesBroken(room);
      SwapOfOnes(room + 1);
      assert (Ones(room) + [0])[room] == 0 && Ones(room + 1)[room] == 1;
      assert ReadWith(room, Swap4(Ones(room + 1))) != Ones(room + 1);
    }
  }
}
