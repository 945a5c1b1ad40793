/** The readers a caller drains to get one file out of a decoded block: bounded to the
    file's size, checked against its CRC, over a block that may have a CRC of its own. */
module EntryReaders {
  import opened Wire
  import opened Codecs
  import opened SeqReaders

  /** What `Crc32VerifyingReader` keeps. */
  class CrcGuard {
    const c: Codecs
    const expected: u32
    var hashed: bytes
    var remaining: int

    constructor (c: Codecs, size: nat, expected: u32)
      ensures this.c == c && this.expected == expected && hashed == [] && remaining == size
    {
      this.c, this.expected := c, expected;
      hashed, remaining := [], size;
    }

    /** The part of its `read` after the inner read: counts, and checks once all is in. */
    method Admit(chunk: bytes) returns (ok: bool)
      modifies this
      ensures remaining == old(remaining) - |chunk|
      ensures hashed == if remaining > 0 then old(hashed) + chunk else []
      ensures ok == (remaining > 0 || c.crc(old(hashed) + chunk) == expected)
    {
      var all := hashed;
      if |chunk| > 0 {
        remaining := remaining - |chunk|;
        all := hashed + chunk;
      } else {
        assert hashed + chunk == hashed;
      }
      hashed := all;
      ok := true;
      if remaining <= 0 {
        hashed := [];
        ok := c.crc(all) == expected;
      }
    }

    /** What is still to come makes the check succeed. */
    ghost predicate Expects(data: bytes)
      reads this
    {
      remaining == |data| && (data != [] ==> c.crc(hashed + data) == expected)
    }
  }

  /** A decoded block. */
  class BlockReader {
    const input: Input
    const guard: Option<CrcGuard>

    constructor (input: Input, guard: Option<CrcGuard>)
      ensures this.input == input && this.guard == guard
    {
      this.input, this.guard := input, guard;
    }

    ghost function Guards(): set<object>
      reads this
    {
      if guard.Some? then {guard.value} else {}
    }

    /** The block still has `data` to give, and its CRC will be right. */
    ghost predicate Holds(data: bytes)
      reads this, input, Guards()
    {
      data <= input.rest && (guard.Some? ==> guard.value.Expects(data))
    }

    /** All of the block its record announces has been read. */
    ghost predicate Spent()
      reads this, Guards()
    {
      guard.Some? && guard.value.remaining <= 0
    }

    /** One read: `chunk` is what it took of the block, even if the check then fails. */
    method Read(room: nat) returns (r: Result<bytes>, ghost chunk: bytes)
      modifies input, Guards()
      ensures old(input.rest) == chunk + input.rest && |chunk| <= room
      ensures chunk == [] ==> room == 0 || old(input.rest) == [] || old(Spent())
      ensures old(Spent()) ==> chunk == [] && r == Ok([])
      ensures guard.Some? ==>
        && guard.value.remaining == old(guard.value.remaining) - |chunk|
        && (guard.value.remaining > 0 ==> guard.value.hashed == old(guard.value.hashed) + chunk)
      ensures !old(Spent()) ==>
        r == if Spent() && guard.value.c.crc(old(guard.value.hashed) + chunk) != guard.value.expected
             then Err(ChecksumVerificationFailed) else Ok(chunk)
    {
      chunk := [];
      assert [] + input.rest == input.rest;
      if guard.Some? && guard.value.remaining <= 0 {
        return Ok([]), [];
      }
      var some := input.Read(room);
      chunk := some;
      if guard.Some? {
        var ok := guard.value.Admit(some);
        if !ok {
          return Err(ChecksumVerificationFailed), chunk;
        }
      }
      r := Ok(some);
    }
  }

  /** How a block stood before a file was read from it: what it had still to give, and what
      its own check had seen and still waited for. */
  datatype Begin = Begin(rest: bytes, hashed: bytes, remaining: int)

  /** One file of a block: a `BoundedReader`, and a check if the file has a CRC. */
  class EntryReader {
    const block: BlockReader
    const guard: Option<CrcGuard>
    var remain: nat

    constructor (c: Codecs, block: BlockReader, size: nat, hasCrc: bool, crc: u32)
      ensures this.block == block && remain == size
      ensures guard.Some? <==> hasCrc
      ensures guard.Some? ==> fresh(guard.value) && guard.value.c == c && guard.value.expected == crc
      ensures Tracks(size, [])
    {
      this.block := block;
      remain := size;
      if hasCrc {
        var g := new CrcGuard(c, size, crc);
        guard := Some(g);
      } else {
        guard := None;
      }
    }

    ghost function Guards(): set<object>
      reads this
    {
      if guard.Some? then {guard.value} else {}
    }

    /** `got` is what came so far of a file of `size` bytes; a file that is all here passed
        its check. */
    ghost predicate Tracks(size: nat, got: bytes)
      reads this, Guards()
    {
      && remain == size - |got|
      && (guard.Some? ==>
          && guard.value.remaining == remain
          && (remain > 0 ==> guard.value.hashed == got)
          && (remain == 0 && size > 0 ==> guard.value.c.crc(got) == guard.value.expected))
    }

    ghost function Now(): Begin
      reads this, block, block.input, block.Guards()
    {
      if block.guard.Some? then Begin(block.input.rest, block.guard.value.hashed, block.guard.value.remaining)
      else Begin(block.input.rest, [], 0)
    }

    /** The block's record announces enough bytes for the file, or for all it has left. */
    ghost predicate Covers(begin: Begin, size: nat) {
      block.guard.Some? ==> size <= begin.remaining || |begin.rest| <= begin.remaining
    }

    /** The same, and the block does not run out just where its own check is made. */
    ghost predicate RunsOut(begin: Begin, size: nat) {
      block.guard.Some? ==> size <= begin.remaining || |begin.rest| < begin.remaining
    }

    /** If the bytes are the last the block's record announces, they pass the block's check. */
    ghost predicate BlockPasses(begin: Begin, x: bytes) {
      block.guard.Some? && x != [] && begin.remaining == |x| ==>
        block.guard.value.c.crc(begin.hashed + x) == block.guard.value.expected
    }

    /** And, if they are all of a file of `size` bytes, the file's. */
    ghost predicate Passes(begin: Begin, size: nat, x: bytes) {
      && BlockPasses(begin, x)
      && (guard.Some? && x != [] && |x| == size ==> guard.value.c.crc(x) == guard.value.expected)
    }

    /** The bytes there are of a file of `size` bytes. */
    ghost function There(begin: Begin, size: nat): (x: bytes)
      ensures |x| <= size
    {
      begin.rest[..Min(size, |begin.rest|)]
    }

    /** What comes of a file of `size` bytes, whatever the sizes of the reads. */
    ghost function Outcome(begin: Begin, size: nat): Result<bytes> {
      if Passes(begin, size, There(begin, size)) then Ok(There(begin, size)) else Err(ChecksumVerificationFailed)
    }

    /** `got` is what came so far. */
    ghost predicate Along(begin: Begin, size: nat, got: bytes)
      reads this, block, block.input, block.Guards(), Guards()
    {
      && Covers(begin, size) && remain == size - |got|
      && got <= begin.rest && block.input.rest == begin.rest[|got|..]
      && (block.guard.Some? ==>
            && block.guard.value.remaining == begin.remaining - |got|
            && (block.guard.value.remaining > 0 ==> block.guard.value.hashed == begin.hashed + got))
      && (block.guard.Some? ==> |got| <= begin.remaining || got == []) && Passes(begin, size, got)
    }

    /** `BoundedReader::read`. */
    method ReadBounded(room: nat, ghost begin: Begin, ghost size: nat, ghost got: bytes) returns (r: Result<bytes>)
      modifies this, block.input, block.Guards()
      ensures r.Ok? ==> |r.value| <= room && remain == old(remain) - |r.value|
      ensures old(Along(begin, size, got)) && r.Ok? ==>
        && got + r.value <= begin.rest && block.input.rest == begin.rest[|got + r.value|..]
        && (block.guard.Some? ==>
              && block.guard.value.remaining == begin.remaining - |got + r.value|
              && (block.guard.value.remaining > 0 ==> block.guard.value.hashed == begin.hashed + (got + r.value))
              && (|got + r.value| <= begin.remaining || got + r.value == []))
        && BlockPasses(begin, got + r.value)
        && (r.value == [] ==> room == 0 || remain == 0 || block.input.rest == [])
      ensures old(Along(begin, size, got)) && r.Err? ==>
        r == Err(ChecksumVerificationFailed) && !BlockPasses(begin, There(begin, size))
    {
      assert got + [] == got;
      if remain == 0 {
        return Ok([]);
      }
      ghost var along, rest := Along(begin, size, got), block.input.rest;
      var part, chunk := block.Read(Min(room, remain));
      if along {
        assert rest[..|chunk|] == chunk && rest[|chunk|..] == block.input.rest;
        Cat2(begin.hashed, got, chunk);
        TakenFrom(begin.rest, got, chunk);
        if block.Spent() {
          assert got + chunk == There(begin, size);
        }
      }
      var more :- part;
      remain := remain - |more|;
      r := Ok(more);
    }

    method Read(room: nat, ghost begin: Begin, ghost size: nat, ghost got: bytes) returns (r: Result<bytes>)
      requires Tracks(size, got) && (guard.Some? ==> block.guard != guard)
      modifies this, block.input, block.Guards(), Guards()
      ensures r.Ok? ==> |r.value| <= room && Tracks(size, got + r.value)
      ensures old(Along(begin, size, got)) ==>
        if r.Ok? then Along(begin, size, got + r.value) && (r.value == [] ==> room == 0 || remain == 0 || block.input.rest == [])
        else r == Err(ChecksumVerificationFailed) && Outcome(begin, size) == r
    {
      assert got + [] == got;
      ghost var along := Along(begin, size, got);
      if guard.Some? && guard.value.remaining <= 0 {
        return Ok([]);
      }
      ghost var hashed := if guard.Some? then guard.value.hashed else [];
      var chunk :- ReadBounded(room, begin, size, got);
      if guard.Some? {
        var ok := guard.value.Admit(chunk);
        if !ok {
          if along {
            assert got + chunk == begin.rest[..size];
          }
          return Err(ChecksumVerificationFailed);
        }
      }
      r := Ok(chunk);
    }

    /** The block has the file's content and more, as recorded. */
    ghost predicate Holds(content: bytes, after: bytes)
      reads this, block, block.input, block.Guards(), Guards()
    {
      && block.Holds(content + after) && remain == |content|
      && (guard.Some? ==> guard.value.Expects(content))
    }

    /** A file that is there as recorded is handed out. */
    lemma HoldsOutcome(size: nat, content: bytes, after: bytes)
      requires Tracks(size, []) && Holds(content, after)
      ensures Along(Now(), size, []) && Outcome(Now(), size) == Ok(content)
    {
      var rest := block.input.rest;
      assert rest[..|content|] == (content + after)[..|content|] == content;
      assert rest[0..] == rest;
      if after == [] {
        assert content + after == content;
      }
      if guard.Some? && content != [] {
        assert [] + content == content;
      }
      if block.guard.Some? {
        assert block.guard.value.hashed + [] == block.guard.value.hashed;
      }
    }

    /** And leaves the rest of the block as recorded. */
    lemma HoldsRest(begin: Begin, size: nat, content: bytes, after: bytes)
      requires Along(begin, size, content) && |content| == size && content + after <= begin.rest
      requires block.guard.Some? ==>
        begin.remaining == |content + after|
        && (content + after != [] ==> block.guard.value.c.crc(begin.hashed + (content + after)) == block.guard.value.expected)
      ensures block.Holds(after)
    {
      assert after == begin.rest[|content|..][..|after|];
      Cat2(begin.hashed, content, after);
    }
  }

  lemma TakenFrom(all: bytes, got: bytes, chunk: bytes)
    requires got <= all && chunk <= all[|got|..]
    ensures got + chunk <= all && all[|got|..][|chunk|..] == all[|got + chunk|..]
  {
  }

  /** Reading to the end, with buffers of any sizes. A file that is all there and has a CRC is
      only handed out if the CRC is right. When the block's record announces enough bytes for the
      file, or for all the block still has, the outcome does not depend on the buffers: the bytes
      there are, unless they end the file or what is announced and fail that check. So a file comes
      back shorter than recorded, without an error, exactly when the block has fewer bytes left,
      unless those are just what is announced and the block's check fails. */
  method Drain(e: EntryReader, ghost size: nat, ghost content: bytes, ghost after: bytes) returns (r: Result<bytes>)
    requires e.Tracks(size, []) && (e.guard.Some? ==> e.block.guard != e.guard)
    modifies e, e.block.input, e.block.Guards(), e.Guards()
    ensures r.Ok? ==> |r.value| <= size
    ensures r.Ok? && e.guard.Some? && |r.value| == size > 0 ==> e.guard.value.c.crc(r.value) == e.guard.value.expected
    ensures old(e.Covers(e.Now(), size)) ==>
      && r == old(e.Outcome(e.Now(), size))
      && (r.Ok? && |r.value| < size ==> r.value == old(e.block.input.rest))
    ensures old(e.RunsOut(e.Now(), size)) ==> ShortIff(old(e.block.input.rest), size, r)
    ensures old(e.Holds(content, after)) ==> r == Ok(content) && e.block.Holds(after)
  {
    hide EntryReader.Holds, BlockReader.Holds, EntryReader.Passes;
    ghost var begin := e.Now();
    ghost var covers := e.Covers(begin, size);
    var got: bytes := [];
    Starts(e, begin, size);
    if e.RunsOut(begin, size) {
      ShortPasses(e, begin, size);
    }
    ghost var holds := e.Holds(content, after);
    if holds {
      e.HoldsOutcome(size, content, after);
      HoldsParts(e, content, after);
    }
    while true
      invariant e.Tracks(size, got)
      invariant covers ==> e.Along(begin, size, got)
      decreases e.remain
    {
      var room: nat :| room > 0;
      var chunk :- e.Read(room, begin, size, got);
      if chunk == [] {
        assert got + [] == got;
        break;
      }
      got := got + chunk;
    }
    if covers {
      Complete(e, begin, size, got);
    }
    if holds {
      e.HoldsRest(begin, size, content, after);
    }
    r := Ok(got);
  }

  /** The file comes out shorter than recorded, without an error, exactly when there is less. */
  predicate ShortIff(rest: bytes, size: nat, r: Result<bytes>) {
    && (r.Ok? && |r.value| < size <==> |rest| < size)
    && (|rest| < size ==> r == Ok(rest))
  }

  /** What there is when nothing more comes. */
  lemma Complete(e: EntryReader, begin: Begin, size: nat, got: bytes)
    requires e.Along(begin, size, got) && (e.remain == 0 || e.block.input.rest == [])
    ensures e.Outcome(begin, size) == Ok(got)
  {
    hide EntryReader.Passes;
    if e.remain > 0 {
      assert got == begin.rest == e.There(begin, size);
    } else {
      assert got == begin.rest[..size] == e.There(begin, size);
    }
  }

  /** Bytes that end neither the file nor what the block's record announces pass unchecked. */
  lemma ShortPasses(e: EntryReader, begin: Begin, size: nat)
    requires e.RunsOut(begin, size)
    ensures |begin.rest| < size ==> e.Outcome(begin, size) == Ok(begin.rest)
  {
    if |begin.rest| < size {
      assert e.There(begin, size) == begin.rest;
    }
  }

  lemma HoldsParts(e: EntryReader, content: bytes, after: bytes)
    requires e.Holds(content, after)
    ensures content + after <= e.block.input.rest && e.remain == |content|
    ensures e.block.guard.Some? ==>
      var g := e.block.guard.value;
      g.remaining == |content + after| && (content + after != [] ==> g.c.crc(g.hashed + (content + after)) == g.expected)
  {
  }

  lemma Starts(e: EntryReader, begin: Begin, size: nat)
    requires e.Tracks(size, []) && begin == e.Now()
    ensures e.Covers(begin, size) ==> e.Along(begin, size, [])
  {
    assert begin.rest[0..] == begin.rest && begin.hashed + [] == begin.hashed;
  }

  /** A block that decodes to one byte, where its record and that of its file say two: the file
      comes out as that byte, though both have CRCs. */
  method ShortFile(c: Codecs, blockCrc: u32, fileCrc: u32) returns (r: Result<bytes>)
    ensures r == Ok([7])
  {
    var input := new Input([7]);
    var g := new CrcGuard(c, 2, blockCrc);
    var block := new BlockReader(input, Some(g));
    var e := new EntryReader(c, block, 2, true, fileCrc);
    r := Drain(e, 2, [], []);
  }
}
