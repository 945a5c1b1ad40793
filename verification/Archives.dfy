/** Opening an archive: from the start header to the file list, through a packed header if
    there is one. What a finished writer left opens to exactly what it recorded. */
module Archives {
  import opened Wire
  import opened Repeats
  import opened Blocks
  import opened UnpackInfos
  import opened SubStreams
  import opened FilesInfos
  import opened Headers
  import opened Chains
  import opened Codecs
  import opened StartHeaders
  import opened Writers
  import opened Finishing
  import PackInfos
  import F = FilesRoundTrip
  import H = HeaderRoundTrip

  /** At most `n` bytes from `from` on, as many as there are. */
  function Window(data: bytes, from: nat, n: nat): (r: bytes)
    ensures |r| <= n
  {
    data[Min(from, |data|)..Min(from + n, |data|)]
  }

  /** Reading exactly `size` bytes of what a decoder gives, through a CRC check if there is one. */
  function TakeVerified(c: Codecs, decoded: bytes, size: nat, hasCrc: bool, crc: u32): Result<bytes> {
    if |decoded| < size then Err(UnexpectedEof)
    else if hasCrc && size > 0 && c.crc(decoded[..size]) != crc then Err(ChecksumVerificationFailed)
    else Ok(decoded[..size])
  }

  /** The packed header, unpacked. */
  function UnpackHeader(c: Codecs, data: bytes, s: bytes): Result<bytes> {
    var (info, _) :- GetStreamsInfo(s);
    if info.1 == [] then Err(NoBlocks)
    else if SIGNATURE_HEADER_SIZE + info.0.pos >= U64_LIMIT then Err(Panic)
    else if info.0.sizes == [] then Err(NoPackedStreams)
    else
      var b := info.1[0];
      var packed := Window(data, SIGNATURE_HEADER_SIZE + info.0.pos, info.0.sizes[0]);
      var decoded :- if b.coders == [] then Ok(packed) else DecodeBlock(c, b, packed);
      TakeVerified(c, decoded, UnpackSize(b), b.hasCrc, b.crc)
  }

  /** The header the reader works on. */
  function PlainHeader(c: Codecs, data: bytes, buf: bytes): Result<bytes> {
    var (nid, s) :- GetU8(buf);
    if nid == K_ENCODED_HEADER then UnpackHeader(c, data, s) else Ok(buf)
  }

  predicate AnySolid(blocks: seq<SizedBlock>) {
    exists b :: b in blocks && b.numSub > 1
  }

  function ReadPlain(header: bytes): Result<Archive> {
    var (nid, s) :- GetU8(header);
    if nid != K_HEADER then Err(NoHeader)
    else
      var (a, _) :- GetHeader(s);
      Ok(a.(isSolid := AnySolid(a.blocks)))
  }

  /** `init_archive`. */
  function InitArchive(c: Codecs, data: bytes, start: StartHeader): Result<Archive> {
    if SIGNATURE_HEADER_SIZE + start.offset >= U64_LIMIT then Err(Panic)
    else
      var (buf, _) :- GetExact(data[Min(SIGNATURE_HEADER_SIZE + start.offset, |data|)..], start.size);
      if c.crc(buf) != start.crc then Err(NextHeaderCrcMismatch)
      else
        var header :- PlainHeader(c, data, buf);
        ReadPlain(header)
  }

  /** `Archive::read`. */
  function ReadArchive(c: Codecs, data: bytes): Result<Archive> {
    var start :- GetSignatureHeader(c.crc, data);
    InitArchive(c, data, start)
  }

  // ----- the program

  /** A reader that can be positioned. */
  class SeekableInput {
    const data: bytes
    var pos: nat

    constructor (data: bytes)
      ensures this.data == data && pos == 0
    {
      this.data := data;
      pos := 0;
    }

    function Rest(): bytes
      reads this
    {
      data[Min(pos, |data|)..]
    }

    method SeekTo(p: nat)
      modifies this
      ensures pos == p
    {
      pos := p;
    }

    method ReadExact(n: nat) returns (r: Result<bytes>)
      modifies this
      ensures Follows(GetExact(old(Rest()), n), r, Rest())
    {
      if n > |Rest()| {
        return Err(UnexpectedEof);
      }
      if n == 0 {
        assert Rest()[0..] == Rest();
        return Ok([]);
      }
      r := Ok(data[pos..pos + n]);
      assert data[pos..][..n] == data[pos..pos + n] && data[pos..][n..] == data[pos + n..];
      pos := pos + n;
    }
  }

  method ReadStartHeader(c: Codecs, reader: SeekableInput, crc: u32) returns (r: Result<StartHeader>)
    modifies reader
    ensures r == match GetExact(old(reader.Rest()), 20)
                 case Err(e) => Err(e)
                 case Ok(p) => if c.crc(p.0) != crc then Err(ChecksumVerificationFailed) else GetFields(p.0)
  {
    hide GetU64, GetU32;
    var buf :- reader.ReadExact(20);
    if c.crc(buf) != crc {
      return Err(ChecksumVerificationFailed);
    }
    var fields := new Source(buf);
    var offset :- fields.ReadU64();
    var size :- fields.ReadU64();
    var nextCrc :- fields.ReadU32();
    r := Ok(StartHeader(offset, size, nextCrc));
  }

  method Open(c: Codecs, reader: SeekableInput) returns (r: Result<Archive>)
    modifies reader
    ensures r == ReadArchive(c, reader.data)
  {
    hide GetFields, AllZero, InitArchive;
    reader.SeekTo(0);
    assert reader.Rest() == reader.data;
    var signature :- reader.ReadExact(6);
    if signature != SIGNATURE {
      return Err(BadSignature);
    }
    var versions :- reader.ReadExact(2);
    if versions[0] != 0 {
      return Err(UnsupportedVersion);
    }
    var crcBytes :- reader.ReadExact(4);
    assert Pow256(4) == 0x1_0000_0000;
    var startCrc: u32 := FromLe(crcBytes);
    if startCrc == 0 {
      var current := reader.pos;
      ghost var rest := reader.Rest();
      var peek :- reader.ReadExact(20);
      reader.SeekTo(current);
      assert reader.Rest() == rest;
      if AllZero(peek) {
        return Err(StartHeaderLost);
      }
    }
    var start :- ReadStartHeader(c, reader, startCrc);
    r := Init(c, reader, start);
  }

  method Init(c: Codecs, reader: SeekableInput, start: StartHeader) returns (r: Result<Archive>)
    modifies reader
    ensures r == InitArchive(c, reader.data, start)
  {
    hide GetHeader, UnpackHeader, AnySolid;
    if SIGNATURE_HEADER_SIZE + start.offset >= U64_LIMIT {
      return Err(Panic);
    }
    reader.SeekTo(SIGNATURE_HEADER_SIZE + start.offset);
    var buf :- reader.ReadExact(start.size);
    if c.crc(buf) != start.crc {
      return Err(NextHeaderCrcMismatch);
    }
    var header := new Source(buf);
    var nid :- header.ReadU8();
    if nid == K_ENCODED_HEADER {
      buf :- ReadEncodedHeader(c, reader, header);
      header := new Source(buf);
      nid :- header.ReadU8();
    }
    if nid != K_HEADER {
      return Err(NoHeader);
    }
    var a :- ReadHeader(header);
    r := Ok(a.(isSolid := AnySolid(a.blocks)));
  }

  method ReadEncodedHeader(c: Codecs, reader: SeekableInput, header: Source) returns (r: Result<bytes>)
    modifies header, reader
    ensures r == UnpackHeader(c, reader.data, old(header.rest))
  {
    hide GetStreamsInfo, UnpackSize, Unpack, OrderedCoders;
    var info :- ReadStreamsInfo(header);
    if info.1 == [] {
      return Err(NoBlocks);
    }
    var b := info.1[0];
    if SIGNATURE_HEADER_SIZE + info.0.pos >= U64_LIMIT {
      return Err(Panic);
    }
    if info.0.sizes == [] {
      return Err(NoPackedStreams);
    }
    reader.SeekTo(SIGNATURE_HEADER_SIZE + info.0.pos);
    var decoder := Window(reader.data, reader.pos, info.0.sizes[0]);
    if b.coders != [] {
      decoder :- DecodeChain(c, b, decoder);
    }
    r := TakeVerified(c, decoder, UnpackSize(b), b.hasCrc, b.crc);
  }
}
