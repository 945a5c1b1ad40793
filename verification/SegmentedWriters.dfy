/** One output over many files of bounded size. Seen from outside it is one flat file. */
module SegmentedWriters {
  import opened Wire
  import opened Repeats

  // ----- flat view

  /** All volumes but the last are full. */
  predicate FullButLast(volumes: seq<bytes>, size: nat) {
    && (forall i :: 0 <= i < |volumes| - 1 ==> |volumes[i]| == size)
    && (volumes != [] ==> |volumes[|volumes| - 1]| <= size)
  }

  lemma {:induction false} FrontLength(volumes: seq<bytes>, size: nat, k: nat)
    requires FullButLast(volumes, size) && k < |volumes|
    ensures |Flatten(volumes[..k])| == k * size
  {
    if k > 0 {
      FrontLength(volumes, size, k - 1);
      FlattenSnoc(volumes[..k - 1], volumes[k - 1]);
      assert volumes[..k] == volumes[..k - 1] + [volumes[k - 1]];
      assert k * size == (k - 1) * size + size;
    }
  }

  lemma {:induction false} PartsOfFlat(volumes: seq<bytes>, k: nat)
    requires k < |volumes|
    ensures Flatten(volumes) == Flatten(volumes[..k]) + (volumes[k] + Flatten(volumes[k + 1..]))
  {
    assert volumes == volumes[..k] + ([volumes[k]] + volumes[k + 1..]);
    FlattenConcat(volumes[..k], [volumes[k]] + volumes[k + 1..]);
    assert ([volumes[k]] + volumes[k + 1..])[1..] == volumes[k + 1..];
  }

  /** Overwriting inside one volume is overwriting in the flat file. */
  lemma SpliceInVolume(volumes: seq<bytes>, size: nat, k: nat, off: nat, b: bytes)
    requires FullButLast(volumes, size) && k < |volumes| && off + |b| <= size
    requires off <= |volumes[k]| || k + 1 == |volumes|
    ensures Flatten(volumes[k := Splice(volumes[k], off, b)]) == Splice(Flatten(volumes), k * size + off, b)
  {
    hide Splice;
    var after := volumes[k := Splice(volumes[k], off, b)];
    PartsOfFlat(volumes, k);
    PartsOfFlat(after, k);
    FrontLength(volumes, size, k);
    assert after[..k] == volumes[..k] && after[k + 1..] == volumes[k + 1..];
    if k + 1 == |volumes| {
      assert volumes[k + 1..] == [];
    }
    if off <= |volumes[k]| {
      SpliceBetween(Flatten(volumes[..k]), volumes[k], Flatten(volumes[k + 1..]), off, b);
    } else {
      SpliceBeyond(Flatten(volumes[..k]), volumes[k], off, b);
      assert Splice(volumes[k], off, b) + [] == Splice(volumes[k], off, b) && volumes[k] + [] == volumes[k];
    }
  }

  lemma SpliceParts(out: bytes, pos: nat, b: bytes)
    requires pos <= |out|
    ensures Splice(out, pos, b) == out[..pos] + (b + (if pos + |b| <= |out| then out[pos + |b|..] else []))
  {
    if b == [] {
      assert [] + out[pos..] == out[pos..];
    }
  }

  /** Writing beyond the end fills the gap with zeros, in the volume as in the flat file. */
  lemma SpliceBeyond(front: bytes, mid: bytes, off: nat, b: bytes)
    requires off > |mid|
    ensures Splice(front + mid, |front| + off, b) == front + Splice(mid, off, b)
  {
    if b != [] {
      var gap := Zeros(off - |mid|);
      GapFilled(front + mid, |front| + off, b);
      GapFilled(mid, off, b);
      Cat2(front, mid, gap);
      Cat2(front, mid + gap, b);
    }
  }

  function Zeros(n: nat): (r: bytes)
    ensures |r| == n
  {
    seq(n, i => 0)
  }

  lemma GapFilled(out: bytes, pos: nat, b: bytes)
    requires pos > |out| && b != []
    ensures Splice(out, pos, b) == out + Zeros(pos - |out|) + b
  {
    var padded := out + seq(pos - |out|, i => 0);
    assert Zeros(pos - |out|) == seq(pos - |out|, i => 0);
    assert padded[..pos] == padded;
    assert padded + b + [] == padded + b;
  }

  lemma SpliceBetween(front: bytes, mid: bytes, back: bytes, off: nat, b: bytes)
    requires off <= |mid| && (off + |b| <= |mid| || back == [])
    ensures Splice(front + (mid + back), |front| + off, b) == front + (Splice(mid, off, b) + back)
  {
    hide Splice;
    var all := front + (mid + back);
    var tail := if off + |b| <= |mid| then mid[off + |b|..] else [];
    SpliceParts(all, |front| + off, b);
    SpliceParts(mid, off, b);
    assert all[..|front| + off] == front + mid[..off];
    if off + |b| <= |mid| {
      assert all[|front| + off + |b|..] == tail + back;
    } else {
      assert all == front + mid && tail + back == [];
    }
    Cat2(front, mid[..off], b + (tail + back));
    Cat2(mid[..off], b + tail, back);
    Cat2(b, tail, back);
  }

  /** File number `k` created anew, with `b` in it. */
  function Reopened(volumes: seq<bytes>, k: nat, b: bytes): seq<bytes>
    requires k <= |volumes|
  {
    if k < |volumes| then volumes[k := b] else volumes + [b]
  }

  /** Writing over the boundary in front of an existing volume creates its file anew. That is
      overwriting in the flat file if and only if the volume held no more than is written. */
  lemma AcrossBoundaryIff(volumes: seq<bytes>, size: nat, k: nat, b: bytes)
    requires FullButLast(volumes, size) && k < |volumes| && 0 < |b| <= size
    ensures Flatten(Reopened(volumes, k, b)) == Splice(Flatten(volumes), k * size, b) <==> |volumes[k]| <= |b|
  {
    hide Splice, Flatten;
    var after := volumes[k := b];
    FrontLength(volumes, size, k);
    PartsOfFlat(volumes, k);
    PartsOfFlat(after, k);
    assert after[..k] == volumes[..k] && after[k + 1..] == volumes[k + 1..];
    if |volumes[k]| <= |b| {
      SpliceInVolume(volumes, size, k, 0, b);
      SpliceOver(volumes[k], b);
    } else {
      SpliceKeepsLength(Flatten(volumes), k * size, b);
    }
  }

  lemma SpliceOver(out: bytes, b: bytes)
    requires |out| <= |b|
    ensures Splice(out, 0, b) == b
  {
  }

  lemma SpliceKeepsLength(out: bytes, pos: nat, b: bytes)
    ensures |Splice(out, pos, b)| >= |out|
  {
  }

  /** Two volumes of two bytes, one byte written over the boundary: the fourth byte is lost. */
  lemma ByteLost()
    ensures FullButLast([[1, 2], [3, 4]], 2)
    ensures Flatten(Reopened([[1, 2], [3, 4]], 1, [9])) == [1, 2, 9]
    ensures Splice(Flatten([[1, 2], [3, 4]]), 2, [9]) == [1, 2, 9, 4]
  {
    FlattenTwo([1, 2], [9]);
    FlattenTwo([1, 2], [3, 4]);
  }

  lemma FlattenTwo(a: bytes, b: bytes)
    ensures Flatten([a, b]) == a + b
  {
    assert [a, b][1..] == [b] && [b][1..] == [];
    assert Flatten([b]) == b + [];
  }

  // ----- the writer

  datatype SeekFrom = Start(pos: u64) | Current(offset: int) | End(offset: int)

  class SegmentedWriter {
    const volumeSize: nat
    /** The files, in order; the program keeps only the open one. */
    var volumes: seq<bytes>
    var currentVolume: nat
    var filePos: nat
    var currentVolumeBytes: nat
    var totalBytes: nat
    var volumeBoundaries: seq<nat>

    constructor (volumeSize: nat)
      ensures this.volumeSize == volumeSize && Appending() && volumes == [[]]
    {
      this.volumeSize := volumeSize;
      volumes, currentVolume, filePos, currentVolumeBytes, totalBytes, volumeBoundaries := [[]], 1, 0, 0, 0, [0];
    }

    /** Positioned somewhere in files that an append-only run made, or behind their end. */
    ghost predicate Positioned()
      reads this
    {
      && 1 <= currentVolume <= |volumes| == |volumeBoundaries|
      && FullButLast(volumes, volumeSize)
      && (forall k :: 0 <= k < |volumeBoundaries| ==> volumeBoundaries[k] == k * volumeSize)
      && filePos == currentVolumeBytes
      && (filePos <= |volumes[currentVolume - 1]| || currentVolume == |volumes|)
    }

    /** Positioned inside a file or at its end. */
    ghost predicate Placed()
      reads this
    {
      Positioned() && filePos <= |volumes[currentVolume - 1]|
    }

    /** At the end of all that was written, having only appended. */
    ghost predicate Appending()
      reads this
    {
      && Placed() && currentVolume == |volumes| && filePos == |volumes[currentVolume - 1]|
      && totalBytes == |Flatten(volumes)|
    }

    method SwitchToNextVolume()
      requires 1 <= currentVolume <= |volumes|
      modifies this
      ensures currentVolume == old(currentVolume) + 1 && filePos == currentVolumeBytes == 0 && totalBytes == old(totalBytes)
      ensures volumeBoundaries == old(volumeBoundaries) + [old(totalBytes)]
      ensures volumes == if old(currentVolume) < |old(volumes)| then old(volumes)[old(currentVolume) := []] else old(volumes) + [[]]
    {
      currentVolume := currentVolume + 1;
      volumeBoundaries := volumeBoundaries + [totalBytes];
      volumes := if currentVolume - 1 < |volumes| then volumes[currentVolume - 1 := []] else volumes + [[]];
      filePos, currentVolumeBytes := 0, 0;
    }

    /** A write to the open file: it may take less than it is given, but something. */
    method WriteFile(b: bytes) returns (written: nat)
      requires 1 <= currentVolume <= |volumes|
      modifies this`volumes, this`filePos
      ensures written <= |b| && (b != [] ==> written > 0)
      ensures volumes == old(volumes)[currentVolume - 1 := Splice(old(volumes)[currentVolume - 1], old(filePos), b[..written])]
      ensures filePos == old(filePos) + written
    {
      var n: nat :| n <= |b| && (b != [] ==> n > 0);
      written := n;
      volumes := volumes[currentVolume - 1 := Splice(volumes[currentVolume - 1], filePos, b[..n])];
      filePos := filePos + n;
    }

    ghost function Position(): int
      reads this
    {
      (currentVolume - 1) * volumeSize + currentVolumeBytes
    }

    /** `write`: at most what the volume has room for; a full volume is left for a new one. At
        the end of a full volume that is not the end of an append-only run, the next file is
        emptied first, and its boundary is the count of bytes ever written. */
    method Write(buf: bytes) returns (written: nat)
      requires Positioned() && volumeSize > 0
      modifies this
      ensures written <= |buf| && (buf != [] ==> written > 0)
      ensures totalBytes == old(totalBytes) + written
      ensures old(currentVolumeBytes) < volumeSize || old(Appending()) ==>
        && Positioned() && (old(Placed()) || buf != [] ==> Placed()) && Position() == old(Position()) + written
        && Flatten(volumes) == Splice(old(Flatten(volumes)), old(Position()), buf[..written])
      ensures old(Appending()) ==> Appending()
      ensures old(currentVolumeBytes) >= volumeSize ==>
        && currentVolume == old(currentVolume) + 1 && filePos == currentVolumeBytes == written
        && volumeBoundaries == old(volumeBoundaries) + [old(totalBytes)]
        && volumes == Reopened(old(volumes), old(currentVolume), buf[..written])
      decreases currentVolumeBytes
    {
      hide Splice, Appending, Position, Flatten, Reopened;
      if currentVolumeBytes >= volumeSize {
        written := WriteInNext(buf);
      } else {
        written := WriteHere(buf[..Min(|buf|, volumeSize - currentVolumeBytes)]);
        assert buf[..Min(|buf|, volumeSize - old(currentVolumeBytes))][..written] == buf[..written];
      }
    }

    /** The recursive call's work, in the volume just opened. */
    method WriteInNext(buf: bytes) returns (written: nat)
      requires Positioned() && volumeSize > 0 && currentVolumeBytes >= volumeSize
      modifies this
      ensures written <= |buf| && (buf != [] ==> written > 0)
      ensures totalBytes == old(totalBytes) + written
      ensures old(Appending()) ==>
        && Appending() && Placed() && Position() == old(Position()) + written
        && Flatten(volumes) == Splice(old(Flatten(volumes)), old(Position()), buf[..written])
      ensures currentVolume == old(currentVolume) + 1 && filePos == currentVolumeBytes == written
      ensures volumeBoundaries == old(volumeBoundaries) + [old(totalBytes)]
      ensures volumes == Reopened(old(volumes), old(currentVolume), buf[..written])
    {
      hide Splice, Flatten;
      ghost var appending, was, at := Appending(), volumes, Position();
      if appending {
        AtEnd();
        FullAtEnd();
      }
      SwitchToNextVolume();
      var part := buf[..Min(|buf|, volumeSize)];
      written := WriteFile(part);
      assert part[..written] == buf[..written];
      SpliceIntoEmpty(part[..written]);
      currentVolumeBytes := currentVolumeBytes + written;
      totalBytes := totalBytes + written;
      assert volumes == Reopened(was, old(currentVolume), buf[..written]);
      if appending {
        assert volumes == was + [buf[..written]];
        FlattenSnoc(was, buf[..written]);
        SpliceAtEnd(Flatten(was), buf[..written]);
      }
    }

    lemma FullAtEnd()
      requires Appending() && currentVolumeBytes == volumeSize
      ensures totalBytes == |volumes| * volumeSize == |Flatten(volumes)|
    {
      PartsOfFlat(volumes, |volumes| - 1);
      FrontLength(volumes, volumeSize, |volumes| - 1);
      assert volumes[|volumes|..] == [];
      assert |volumes| * volumeSize == (|volumes| - 1) * volumeSize + volumeSize;
    }

    method WriteHere(buf: bytes) returns (written: nat)
      requires Positioned() && currentVolumeBytes + |buf| <= volumeSize
      modifies this`volumes, this`filePos, this`currentVolumeBytes, this`totalBytes
      ensures written <= |buf| && (buf != [] ==> written > 0)
      ensures Flatten(volumes) == Splice(old(Flatten(volumes)), old(Position()), buf[..written])
      ensures totalBytes == old(totalBytes) + written && Position() == old(Position()) + written
      ensures Positioned() && (old(Placed()) || buf != [] ==> Placed())
      ensures old(Appending()) ==> Appending()
    {
      hide Splice, Flatten;
      ghost var was, at := volumes, currentVolumeBytes;
      written := WriteFile(buf);
      SpliceInVolume(was, volumeSize, currentVolume - 1, at, buf[..written]);
      SpliceLength(was[currentVolume - 1], at, buf[..written]);
      currentVolumeBytes := currentVolumeBytes + written;
      totalBytes := totalBytes + written;
      assert volumes[currentVolume - 1] == Splice(was[currentVolume - 1], at, buf[..written]);
      if currentVolume == |volumes| && at == |was[currentVolume - 1]| && totalBytes == |Flatten(was)| + written {
        GrownFlat(was, volumes, buf[..written]);
      }
    }

    /** `write_all`, appending. */
    method WriteAll(buf: bytes)
      requires Appending() && volumeSize > 0
      modifies this
      ensures Appending() && Flatten(volumes) == old(Flatten(volumes)) + buf
      ensures totalBytes == old(totalBytes) + |buf|
    {
      var rest := buf;
      while rest != []
        invariant Appending() && Flatten(volumes) + rest == old(Flatten(volumes)) + buf
        invariant totalBytes + |rest| == old(totalBytes) + |buf|
        decreases |rest|
      {
        ghost var flat := Flatten(volumes);
        AtEnd();
        var written := Write(rest);
        SpliceAtEnd(flat, rest[..written]);
        Cat2(flat, rest[..written], rest[written..]);
        assert rest[..written] + rest[written..] == rest;
        rest := rest[written..];
      }
      assert Flatten(volumes) + [] == Flatten(volumes);
    }

    lemma AtEnd()
      requires Appending()
      ensures Position() == |Flatten(volumes)|
    {
      PartsOfFlat(volumes, |volumes| - 1);
      FrontLength(volumes, volumeSize, |volumes| - 1);
      assert volumes[|volumes|..] == [];
    }

    /** `stream_position`. */
    function StreamPosition(): (p: nat)
      requires 1 <= currentVolume <= |volumeBoundaries|
      reads this
      ensures Positioned() ==> p == Position()
    {
      volumeBoundaries[currentVolume - 1] + currentVolumeBytes
    }

    /** Adding on 64 bits, stopping at either end. */
    function Clamped(x: int): u64 {
      if x < 0 then 0 else if x >= U64_LIMIT then U64_LIMIT - 1 else x
    }

    /** Where a seek is meant to go; `End` goes by the count of bytes ever written. */
    function Target(to: SeekFrom): u64
      requires 1 <= currentVolume <= |volumeBoundaries|
      reads this
    {
      match to
      case Start(p) => p
      case Current(o) => Clamped(StreamPosition() + o)
      case End(o) => Clamped(totalBytes + o)
    }

    /** `seek`: the position is the one asked for, beyond what was written too, and no file
        changes. */
    method Seek(to: SeekFrom) returns (r: u64)
      requires Positioned()
      modifies this`currentVolume, this`filePos, this`currentVolumeBytes
      ensures r == old(Target(to))
      ensures Positioned() && StreamPosition() == r
      ensures Placed() <==> r <= |Flatten(volumes)|
    {
      match to
      case Start(p) =>
        r := SeekStart(p);
      case Current(o) =>
        var here := volumeBoundaries[currentVolume - 1] + currentVolumeBytes;
        r := SeekStart(Clamped(here + o));
      case End(o) =>
        r := SeekStart(Clamped(totalBytes + o));
    }

    method SeekStart(p: u64) returns (r: u64)
      requires Positioned()
      modifies this`currentVolume, this`filePos, this`currentVolumeBytes
      ensures r == p
      ensures Positioned() && StreamPosition() == p
      ensures Placed() <==> p <= |Flatten(volumes)|
    {
      var volume := FindVolume(p);
      if volume != currentVolume {
        currentVolume := volume;
      }
      var offset := p - volumeBoundaries[volume - 1];
      OffsetInVolume(p);
      filePos := offset;
      currentVolumeBytes := offset;
      r := p;
    }

    /** The last volume that starts at or before `p`. */
    method FindVolume(p: nat) returns (volume: nat)
      requires Positioned()
      ensures 1 <= volume <= |volumes| && volumeBoundaries[volume - 1] <= p
      ensures volume < |volumes| ==> p < volumeBoundaries[volume]
    {
      volume := |volumeBoundaries|;
      assert volumeBoundaries[0] == 0 * volumeSize == 0;
      while volume > 1 && p < volumeBoundaries[volume - 1]
        invariant 1 <= volume <= |volumeBoundaries|
        invariant volume < |volumeBoundaries| ==> p < volumeBoundaries[volume]
      {
        volume := volume - 1;
      }
    }

    lemma OffsetInVolume(p: nat)
      requires 1 <= currentVolume <= |volumes| == |volumeBoundaries| && FullButLast(volumes, volumeSize)
      requires forall k :: 0 <= k < |volumeBoundaries| ==> volumeBoundaries[k] == k * volumeSize
      requires volumeBoundaries[currentVolume - 1] <= p
      requires currentVolume < |volumes| ==> p < volumeBoundaries[currentVolume]
      ensures p <= |Flatten(volumes)| <==> p - volumeBoundaries[currentVolume - 1] <= |volumes[currentVolume - 1]|
      ensures p <= |Flatten(volumes)| || currentVolume == |volumes|
    {
      var k := currentVolume - 1;
      if currentVolume < |volumes| {
        assert (k + 1) * volumeSize == k * volumeSize + volumeSize;
        assert volumeBoundaries[k + 1] == (k + 1) * volumeSize;
        PartsOfFlat(volumes, k);
        FrontLength(volumes, volumeSize, k);
      } else {
        PartsOfFlat(volumes, k);
        FrontLength(volumes, volumeSize, k);
        assert volumes[k + 1..] == [];
      }
    }

    /** The metadata `finish` returns. The boundaries cut all that was written into volumes that
        are full but for the last; the volumes are all counted if the last one is the open one,
        and the bytes if they were only appended. */
    method Finish() returns (count: nat, boundaries: seq<nat>, total: nat)
      requires Positioned()
      ensures |boundaries| == |volumes| && (count == |volumes| <==> currentVolume == |volumes|)
      ensures forall k :: 0 <= k < |volumes| ==> boundaries[k] == k * volumeSize == |Flatten(volumes[..k])|
      ensures total == totalBytes && (Appending() ==> count == |volumes| && total == |Flatten(volumes)|)
    {
      forall k | 0 <= k < |volumes|
        ensures k * volumeSize == |Flatten(volumes[..k])|
      {
        FrontLength(volumes, volumeSize, k);
      }
      return currentVolume, volumeBoundaries, totalBytes;
    }

    /** `write`, its recursion cut off after so many nested calls. */
    method WriteWithin(buf: bytes, calls: nat) returns (r: Option<nat>)
      requires 1 <= currentVolume <= |volumes|
      modifies this
      ensures r.Some? <==> LandsWithin(volumeSize, old(currentVolumeBytes), calls)
      ensures r.None? ==> currentVolume == old(currentVolume) + calls && totalBytes == old(totalBytes)
      decreases calls
    {
      if currentVolumeBytes >= volumeSize {
        if calls == 0 {
          return None;
        }
        SwitchToNextVolume();
        r := WriteWithin(buf, calls - 1);
      } else {
        var written := WriteFile(buf[..Min(|buf|, volumeSize - currentVolumeBytes)]);
        currentVolumeBytes := currentVolumeBytes + written;
        totalBytes := totalBytes + written;
        r := Some(written);
      }
    }
  }

  /** A write at `used` bytes of a volume finds room within so many nested calls. */
  predicate LandsWithin(size: nat, used: nat, calls: nat) {
    used < size || (calls > 0 && LandsWithin(size, 0, calls - 1))
  }

  /** A write never finds room, opening one volume after the other, if and only if volumes have
      no size. */
  lemma NeverLandsIff(size: nat, used: nat)
    ensures (forall calls: nat :: !LandsWithin(size, used, calls)) <==> size == 0
  {
    if size > 0 {
      var once: nat := 1;
      assert LandsWithin(size, 0, once - 1);
      assert LandsWithin(size, used, once);
      assert exists calls: nat :: LandsWithin(size, used, calls);
    } else {
      forall calls: nat
        ensures !LandsWithin(size, used, calls)
      {
        NoRoom(used, calls);
      }
    }
  }

  lemma {:induction false} NoRoom(used: nat, calls: nat)
    ensures !LandsWithin(0, used, calls)
  {
    if calls > 0 {
      NoRoom(0, calls - 1);
    }
  }

  lemma SpliceIntoEmpty(b: bytes)
    ensures Splice([], 0, b) == b
  {
  }

  lemma SpliceAtEnd(flat: bytes, b: bytes)
    ensures Splice(flat, |flat|, b) == flat + b
  {
  }

  lemma SpliceLength(out: bytes, pos: nat, b: bytes)
    ensures |Splice(out, pos, b)| == if b == [] || pos + |b| <= |out| then |out| else pos + |b|
  {
  }

  lemma GrownFlat(was: seq<bytes>, now: seq<bytes>, b: bytes)
    requires was != [] && now == was[|was| - 1 := Splice(was[|was| - 1], |was[|was| - 1]|, b)]
    ensures |Flatten(now)| == |Flatten(was)| + |b|
  {
    hide Splice;
    SpliceAtEnd(was[|was| - 1], b);
    PartsOfFlat(was, |was| - 1);
    PartsOfFlat(now, |was| - 1);
    assert now[..|was| - 1] == was[..|was| - 1];
    assert was[|was|..] == [] && now[|was|..] == [];
  }

  /** Pieces of any sizes are laid end to end over the volumes. */
  method WritePieces(w: SegmentedWriter, pieces: seq<bytes>)
    requires w.Appending() && w.volumeSize > 0
    modifies w
    ensures w.Appending() && Flatten(w.volumes) == old(Flatten(w.volumes)) + Flatten(pieces)
  {
    hide Flatten;
    NoPieces(Flatten(w.volumes));
    for i := 0 to |pieces|
      invariant w.Appending() && Flatten(w.volumes) == old(Flatten(w.volumes)) + Flatten(pieces[..i])
    {
      FlattenSnoc(pieces[..i], pieces[i]);
      assert pieces[..i + 1] == pieces[..i] + [pieces[i]];
      Cat2(old(Flatten(w.volumes)), Flatten(pieces[..i]), pieces[i]);
      w.WriteAll(pieces[i]);
    }
    assert pieces[..|pieces|] == pieces;
  }

  lemma NoPieces(flat: bytes)
    ensures forall pieces: seq<bytes> :: flat + Flatten(pieces[..0]) == flat
  {
  }
}
