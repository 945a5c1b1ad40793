/** The inputs of a push: readers that may give fewer bytes than asked for, the wrapper that
    measures one, and the reader that joins several end to end. */
module SeqReaders {
  import opened Wire
  import opened Repeats
  import opened Codecs

  /** How many of the `left` bytes a reader gives into a buffer of `room` bytes: at least
      one while both are positive. */
  method ReadSome(left: nat, room: nat) returns (n: nat)
    ensures n <= left && n <= room
    ensures n == 0 ==> left == 0 || room == 0
  {
    var k: nat :| k <= left && k <= room && (k == 0 ==> left == 0 || room == 0);
    n := k;
  }

  class Input {
    var rest: bytes

    constructor (data: bytes)
      ensures rest == data
    {
      rest := data;
    }

    method Read(room: nat) returns (chunk: bytes)
      modifies this
      ensures old(rest) == chunk + rest && |chunk| <= room
      ensures chunk == [] ==> rest == [] || room == 0
    {
      var n := ReadSome(|rest|, room);
      chunk := rest[..n];
      rest := rest[n..];
    }
  }

  /** A reader whose length and CRC are known once it has been read to its end. */
  class SourceReader {
    var rest: bytes
    var size: nat
    var hashed: bytes
    var crcValue: u32
    ghost const content: bytes
    const c: Codecs

    constructor (c: Codecs, data: bytes)
      ensures this.c == c && content == data && rest == data && Reading()
    {
      this.c := c;
      content := data;
      rest, size, hashed, crcValue := data, 0, [], 0;
    }

    ghost predicate Reading()
      reads this
    {
      content == hashed + rest && size == |hashed| && crcValue == 0
    }

    /** Read to the end: the length and the CRC are those of all the content. */
    ghost predicate Drained()
      reads this
    {
      rest == [] && size == |content| && crcValue == c.crc(content)
    }

    /** What a read that gave `chunk` does to the measurements: they go on until the first read
        that gives nothing, and stop there unless the CRC is zero. */
    twostate predicate Measures(chunk: bytes)
      reads this
    {
      if old(crcValue) != 0 then size == old(size) && hashed == old(hashed) && crcValue == old(crcValue)
      else if chunk != [] then size == old(size) + |chunk| && hashed == old(hashed) + chunk && crcValue == 0
      else size == old(size) && hashed == [] && crcValue == c.crc(old(hashed))
    }

    /** A further read at the end leaves the measurements alone, if only the CRC of nothing is
        zero or that of the content is not. A read into an empty buffer is taken for the end. */
    method Read(room: nat) returns (chunk: bytes)
      modifies this
      ensures old(rest) == chunk + rest && |chunk| <= room
      ensures chunk == [] ==> rest == [] || room == 0
      ensures Measures(chunk)
      ensures old(Reading()) && room > 0 ==> if chunk == [] then Drained() else Reading()
      ensures old(Drained()) && (c.crc([]) == 0 || c.crc(content) != 0) && (old(crcValue) == 0 ==> old(hashed) == []) ==> Drained()
    {
      var n := ReadSome(|rest|, room);
      chunk := rest[..n];
      if crcValue == 0 {
        if n > 0 {
          size := size + n;
          hashed := hashed + chunk;
        } else {
          assert hashed + [] == hashed;
          crcValue := c.crc(hashed);
          hashed := [];
        }
      }
      rest := rest[n..];
    }
  }

  class SeqReader {
    const readers: seq<SourceReader>
    var current: nat

    constructor (readers: seq<SourceReader>)
      requires forall i, j :: 0 <= i < j < |readers| ==> readers[i] != readers[j]
      requires forall r :: r in readers ==> r.Reading()
      ensures this.readers == readers && current == 0 && Valid()
    {
      this.readers := readers;
      current := 0;
    }

    ghost predicate Valid()
      reads this, readers
    {
      && current <= |readers|
      && (forall i, j :: 0 <= i < j < |readers| ==> readers[i] != readers[j])
      && (forall i :: 0 <= i < |readers| ==> if i < current then readers[i].Drained() else readers[i].Reading())
    }

    /** Not past the end of the readers, which are all different. */
    ghost predicate Sound()
      reads this
    {
      current <= |readers| && forall i, j :: 0 <= i < j < |readers| ==> readers[i] != readers[j]
    }

    ghost function Rests(): (r: seq<bytes>)
      reads this, readers
      ensures |r| == |readers|
    {
      seq(|readers|, i requires 0 <= i < |readers| reads this, readers => readers[i].rest)
    }

    /** What is still to come. */
    ghost function Rest(): bytes
      requires current <= |readers|
      reads this, readers
    {
      Flatten(Rests()[current..])
    }

    /** One read of the current reader; at its end the next one becomes current. */
    method ReadCurrent(room: nat) returns (chunk: bytes)
      requires Sound() && current < |readers|
      modifies this, readers
      ensures Sound() && |chunk| <= room && (old(Valid()) && room > 0 ==> Valid())
      ensures current == if chunk == [] then old(current) + 1 else old(current)
      ensures room > 0 ==> old(Rest()) == chunk + Rest()
      ensures room == 0 ==> Rests() == old(Rests())
    {
      hide Flatten;
      ghost var was := Rests();
      var r := readers[current];
      chunk := r.Read(room);
      ghost var now := Rests();
      TakeFromFront(was, now, current, chunk);
      if room == 0 {
        assert [] + now[current] == now[current];
        assert now == was;
      }
      if chunk == [] {
        assert room > 0 ==> now[current] == [];
        current := current + 1;
        assert Rests() == now;
        assert [] + Rest() == Rest();
      }
    }

    /** A read into an empty buffer passes over all the readers. */
    method Read(room: nat) returns (chunk: bytes)
      requires Sound()
      modifies this, readers
      ensures Sound() && |chunk| <= room && (old(Valid()) && room > 0 ==> Valid())
      ensures room > 0 ==> old(Rest()) == chunk + Rest()
      ensures chunk == [] ==> current == |readers|
      ensures room == 0 ==> Rests() == old(Rests())
    {
      hide Valid, Rest;
      chunk := [];
      assert [] + Rest() == Rest();
      while current < |readers|
        invariant Sound() && chunk == [] && (old(Valid()) && room > 0 ==> Valid())
        invariant room > 0 ==> Rest() == old(Rest())
        invariant room == 0 ==> Rests() == old(Rests())
        decreases |readers| - current
      {
        chunk := ReadCurrent(room);
        if chunk != [] {
          break;
        }
        assert [] + Rest() == Rest();
      }
    }

    lemma ValidRange()
      requires Valid()
      ensures Sound()
    {
    }

    lemma NothingLeft()
      requires Valid() && current == |readers|
      ensures Rest() == []
    {
    }
  }

  lemma TakeFromFront(was: seq<bytes>, now: seq<bytes>, k: nat, chunk: bytes)
    requires k < |was| == |now| && was[k] == chunk + now[k]
    requires forall i :: 0 <= i < |was| && i != k ==> was[i] == now[i]
    ensures Flatten(was[k..]) == chunk + Flatten(now[k..])
    ensures now[k] == [] ==> Flatten(now[k..]) == Flatten(now[k + 1..])
  {
    assert was[k..][1..] == now[k + 1..] == now[k..][1..];
    assert Flatten(was[k..]) == was[k] + Flatten(now[k + 1..]);
    assert Flatten(now[k..]) == now[k] + Flatten(now[k + 1..]);
  }
}
