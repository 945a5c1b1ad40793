/** Several readers over one source, each with a window of its own. They share the source's
    position, and none of them can trust it. */
module SharedReaders {
  import opened Wire
  import opened SeqReaders

  class SharedSource {
    const data: bytes
    var pos: nat

    constructor (data: bytes)
      ensures this.data == data && pos == 0
    {
      this.data, pos := data, 0;
    }

    method SeekTo(p: nat)
      modifies this
      ensures pos == p
    {
      pos := p;
    }

    method Read(room: nat) returns (chunk: bytes)
      modifies this
      ensures chunk == Part(data, old(pos), old(pos) + |chunk|) && |chunk| <= room && pos == old(pos) + |chunk|
      ensures chunk == [] ==> room == 0 || pos >= |data|
    {
      if pos >= |data| {
        return [];
      }
      var n := ReadSome(|data| - pos, room);
      chunk := data[pos..pos + n];
      pos := pos + n;
    }
  }

  /** The bytes from `from` to `to`, as far as there are any. */
  function Part(data: bytes, from: nat, to: nat): bytes
    requires from <= to
  {
    data[Min(from, |data|)..Min(to, |data|)]
  }

  lemma PartsJoin(data: bytes, a: nat, b: nat, c: nat)
    requires a <= b <= c
    ensures Part(data, a, b) + Part(data, b, c) == Part(data, a, c)
  {
  }

  const I64_LIMIT := 0x8000_0000_0000_0000

  type i64 = x: int | -0x8000_0000_0000_0000 <= x < 0x8000_0000_0000_0000

  /** The cast from 64 unsigned bits to signed ones. */
  function AsI64(x: u64): i64 {
    if x < I64_LIMIT then x else x - U64_LIMIT
  }

  datatype SeekFrom = Start(pos: u64) | Current(offset: i64) | End(offset: i64)

  class SharedBoundedReader {
    const inner: SharedSource
    const from: u64
    const to: u64
    var cur: u64

    constructor (inner: SharedSource, from: u64, to: u64)
      ensures this.inner == inner && this.from == from && this.to == to && cur == from
    {
      this.inner, this.from, this.to, cur := inner, from, to, from;
    }

    constructor Clone(other: SharedBoundedReader)
      ensures inner == other.inner && from == other.from && to == other.to && cur == other.cur
    {
      inner, from, to, cur := other.inner, other.from, other.to, other.cur;
    }

    /** `read`: from this reader's own place, wherever the source was left. */
    method Read(room: nat) returns (chunk: bytes)
      modifies this, inner
      ensures chunk == Part(inner.data, old(cur), old(cur) + |chunk|) && |chunk| <= room
      ensures cur == old(cur) + |chunk| && (old(cur) <= to ==> cur <= to)
      ensures chunk == [] ==> room == 0 || cur >= to || cur >= |inner.data|
    {
      if cur >= to {
        return [];
      }
      inner.SeekTo(cur);
      chunk := inner.Read(Min(room, to - cur));
      cur := cur + |chunk|;
    }

    /** Where a seek leads: computed on 64 signed bits, with an overflow check. */
    function Target(target: SeekFrom): Result<u64>
      reads this
    {
      var p: int := match target case Start(p) => AsI64(from) + AsI64(p) case Current(o) => AsI64(cur) + o case End(o) => AsI64(to) + o;
      if p < -I64_LIMIT || p >= I64_LIMIT then Err(Panic) else if p < 0 then Err(SeekBeforeStart) else Ok(p)
    }

    /** Below 2 to the 63 that is the place relative to the window, refused only in front of the
        source or from 2 to the 63 on. */
    lemma TargetInRange(target: SeekFrom)
      requires from < I64_LIMIT && to < I64_LIMIT && cur < I64_LIMIT && (target.Start? ==> target.pos < I64_LIMIT)
      ensures var p: int := match target case Start(p) => from + p case Current(o) => cur + o case End(o) => to + o;
              Target(target) == if p < 0 then Err(SeekBeforeStart) else if p >= I64_LIMIT then Err(Panic) else Ok(p)
    {
    }

    /** `seek`; it moves the source along. */
    method Seek(target: SeekFrom) returns (r: Result<u64>)
      modifies this, inner
      ensures r == old(Target(target))
      ensures r.Ok? ==> cur == r.value == inner.pos
      ensures r.Err? ==> cur == old(cur) && inner.pos == old(inner.pos)
    {
      var p: int := match target case Start(p) => AsI64(from) + AsI64(p) case Current(o) => AsI64(cur) + o case End(o) => AsI64(to) + o;
      if p < -I64_LIMIT || p >= I64_LIMIT {
        return Err(Panic);
      }
      if p < 0 {
        return Err(SeekBeforeStart);
      }
      cur := p;
      inner.SeekTo(p);
      r := Ok(p);
    }
  }

  /** A turn of one of the readers, a copy made of one, or something else that moves the source. */
  datatype Turn = ReadBy(reader: nat, room: nat) | SeekBy(reader: nat, target: SeekFrom) | CloneOf(reader: nat) | Disturb(pos: nat)

  /** Bytes a reader gave without being repositioned. */
  datatype Stretch = Stretch(from: nat, data: bytes)

  ghost predicate Distinct(readers: seq<SharedBoundedReader>) {
    forall i, j :: 0 <= i < j < |readers| ==> readers[i] != readers[j]
  }

  /** The bytes of the source from a place on, within the reader's window if they start there. */
  predicate Genuine(data: bytes, to: nat, s: Stretch) {
    && s.data == Part(data, s.from, s.from + |s.data|)
    && (s.from <= to ==> s.from + |s.data| <= to)
  }

  /** What reader `r` gave: genuine stretches, the last of which ends at its place. */
  ghost predicate Gave(r: SharedBoundedReader, stretches: seq<Stretch>)
    reads r
  {
    && stretches != []
    && (forall k :: 0 <= k < |stretches| ==> Genuine(r.inner.data, r.to, stretches[k]))
    && var last := stretches[|stretches| - 1]; r.cur == last.from + |last.data|
  }

  ghost predicate AllGave(readers: seq<SharedBoundedReader>, outs: seq<seq<Stretch>>)
    reads readers
  {
    |outs| == |readers| && forall i :: 0 <= i < |readers| ==> outs[i] != [] && Gave(readers[i], outs[i])
  }

  predicate NoSeek(turns: seq<Turn>) {
    forall t :: t in turns ==> !t.SeekBy?
  }

  /** The turns go by readers there are: those given, and the copies made so far. */
  predicate InRange(turns: seq<Turn>, n: nat)
    decreases |turns|
  {
    turns != [] ==>
      && (turns[0].Disturb? || turns[0].reader < n)
      && InRange(turns[1..], if turns[0].CloneOf? then n + 1 else n)
  }

  /** Under any interleaving of reads, seeks and copies, and any disturbance of the shared
      position, every reader and every copy gives stretches of the source from where it was last
      put, without gap or overlap and not beyond its window; without seeks a reader gives a
      prefix of its window, and a copy goes on where the original stood. */
  method Interleave(source: SharedSource, readers: seq<SharedBoundedReader>, turns: seq<Turn>)
    returns (all: seq<SharedBoundedReader>, outs: seq<seq<Stretch>>)
    requires Distinct(readers) && forall r :: r in readers ==> r.inner == source && r.cur == r.from
    requires InRange(turns, |readers|)
    modifies source, readers
    ensures readers <= all && Distinct(all) && AllGave(all, outs)
    ensures forall i :: 0 <= i < |readers| ==> outs[i][0].from == readers[i].from
    ensures NoSeek(turns) ==> forall i :: 0 <= i < |all| ==> |outs[i]| == 1
    ensures NoSeek(turns) ==> forall i :: 0 <= i < |readers| && readers[i].from <= readers[i].to ==>
      outs[i][0].data <= Part(source.data, readers[i].from, readers[i].to)
  {
    hide Gave, InRange;
    all, outs := readers, seq(|readers|, i requires 0 <= i < |readers| reads readers => [Stretch(readers[i].cur, [])]);
    forall i | 0 <= i < |readers|
      ensures Gave(readers[i], outs[i]) && outs[i][0].from == readers[i].from
    {
      assert readers[i] in readers;
      NothingGiven(readers[i]);
    }
    assert turns[0..] == turns;
    for t := 0 to |turns|
      invariant InRange(turns[t..], |all|) && readers <= all && Distinct(all) && AllGave(all, outs)
      invariant forall i :: 0 <= i < |all| ==> all[i].inner == source
      invariant forall i :: |readers| <= i < |all| ==> fresh(all[i])
      invariant forall i :: 0 <= i < |readers| ==> outs[i][0].from == readers[i].from
      invariant NoSeek(turns) ==> forall i :: 0 <= i < |all| ==> |outs[i]| == 1
    {
      assert turns[t..][0] == turns[t] && turns[t..][1..] == turns[t + 1..] && turns[t] in turns;
      FirstInRange(turns[t..], |all|);
      match turns[t]
      case Disturb(p) =>
        source.SeekTo(p);
      case ReadBy(i, room) =>
        outs := ReadTurn(source, all, outs, i, room);
      case SeekBy(i, target) =>
        outs := SeekTurn(source, all, outs, i, target);
      case CloneOf(i) =>
        all, outs := CloneTurn(source, all, outs, i);
    }
    forall i | 0 <= i < |readers| && readers[i].from <= readers[i].to && |outs[i]| == 1
      ensures outs[i][0].data <= Part(source.data, readers[i].from, readers[i].to)
    {
      assert all[i] == readers[i] && Gave(all[i], outs[i]);
      PrefixGiven(readers[i], outs[i]);
    }
  }

  lemma NothingGiven(r: SharedBoundedReader)
    ensures Gave(r, [Stretch(r.cur, [])])
  {
  }

  lemma FirstInRange(turns: seq<Turn>, n: nat)
    requires InRange(turns, n) && turns != []
    ensures turns[0].Disturb? || turns[0].reader < n
    ensures InRange(turns[1..], if turns[0].CloneOf? then n + 1 else n)
  {
  }

  lemma PrefixGiven(r: SharedBoundedReader, stretches: seq<Stretch>)
    requires Gave(r, stretches) && |stretches| == 1 && stretches[0].from == r.from <= r.to
    ensures stretches[0].data <= Part(r.inner.data, r.from, r.to)
  {
    PartsJoin(r.inner.data, r.from, r.from + |stretches[0].data|, r.to);
  }

  /** What follows a stretch makes it a longer one. */
  lemma LongerStretch(data: bytes, to: nat, s: Stretch, chunk: bytes)
    requires Genuine(data, to, s)
    requires var end := s.from + |s.data|; chunk == Part(data, end, end + |chunk|) && (end <= to ==> end + |chunk| <= to)
    ensures Genuine(data, to, Stretch(s.from, s.data + chunk))
  {
    PartsJoin(data, s.from, s.from + |s.data|, s.from + |s.data + chunk|);
  }

  method ReadTurn(source: SharedSource, readers: seq<SharedBoundedReader>, outs: seq<seq<Stretch>>, i: nat, room: nat)
    returns (after: seq<seq<Stretch>>)
    requires Distinct(readers) && (forall k :: 0 <= k < |readers| ==> readers[k].inner == source) && i < |readers|
    requires AllGave(readers, outs)
    modifies source, readers[i]
    ensures AllGave(readers, after)
    ensures forall k :: 0 <= k < |readers| ==> |after[k]| == |outs[k]| && after[k][0].from == outs[k][0].from
  {
    hide Genuine, Part;
    var r, mine := readers[i], outs[i];
    assert Gave(r, mine);
    var n := |mine| - 1;
    ghost var was := r.cur;
    var chunk := r.Read(room);
    LongerStretch(source.data, r.to, mine[n], chunk);
    var longer := mine[n := Stretch(mine[n].from, mine[n].data + chunk)];
    assert Gave(r, longer);
    after := outs[i := longer];
  }

  method SeekTurn(source: SharedSource, readers: seq<SharedBoundedReader>, outs: seq<seq<Stretch>>, i: nat, target: SeekFrom)
    returns (after: seq<seq<Stretch>>)
    requires Distinct(readers) && (forall k :: 0 <= k < |readers| ==> readers[k].inner == source) && i < |readers|
    requires AllGave(readers, outs)
    modifies source, readers[i]
    ensures AllGave(readers, after)
    ensures forall k :: 0 <= k < |readers| ==> after[k][0].from == outs[k][0].from
  {
    var r := readers[i];
    assert Gave(r, outs[i]);
    var result := r.Seek(target);
    after := outs;
    if result.Ok? {
      after := outs[i := outs[i] + [Stretch(result.value, [])]];
      assert Gave(r, after[i]);
    }
  }

  method CloneTurn(source: SharedSource, readers: seq<SharedBoundedReader>, outs: seq<seq<Stretch>>, i: nat)
    returns (all: seq<SharedBoundedReader>, after: seq<seq<Stretch>>)
    requires Distinct(readers) && (forall k :: 0 <= k < |readers| ==> readers[k].inner == source) && i < |readers|
    requires AllGave(readers, outs)
    ensures |all| == |readers| + 1 && readers <= all && fresh(all[|readers|]) && Distinct(all)
    ensures forall k :: 0 <= k < |all| ==> all[k].inner == source
    ensures AllGave(all, after) && outs <= after && |after[|readers|]| == 1
  {
    var copy := new SharedBoundedReader.Clone(readers[i]);
    all := readers + [copy];
    after := outs + [[Stretch(copy.cur, [])]];
    assert Gave(copy, after[|readers|]);
    forall k | 0 <= k < |readers|
      ensures Gave(all[k], after[k])
    {
      assert Gave(readers[k], outs[k]);
    }
  }
}
