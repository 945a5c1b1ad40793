/** The 32 bytes at the front of an archive: signature, version, and where the header is. */
module StartHeaders {
  import opened Wire

  const SIGNATURE: bytes := [0x37, 0x7A, 0xBC, 0xAF, 0x27, 0x1C]

  datatype StartHeader = StartHeader(offset: u64, size: u64, crc: u32)

  /** The part the start header's own CRC covers. The size is cut to 32 bits. */
  function PutStart(offset: u64, size: nat, crc: u32): (b: bytes)
    ensures |b| == 20
  {
    Le(offset, 8) + (Le(size % 0x1_0000_0000, 8) + Le(crc, 4))
  }

  function PutSignatureHeader(hash: bytes -> u32, offset: u64, size: nat, crc: u32): (b: bytes)
    ensures |b| == SIGNATURE_HEADER_SIZE
  {
    var start := PutStart(offset, size, crc);
    SIGNATURE + ([0, 4] + (Le(hash(start), 4) + start))
  }

  predicate AllZero(b: bytes) {
    forall i :: 0 <= i < |b| ==> b[i] == 0
  }

  function GetFields(b: bytes): Result<StartHeader> {
    var (offset, s1) :- GetU64(b);
    var (size, s2) :- GetU64(s1);
    var (crc, _) :- GetU32(s2);
    Ok(StartHeader(offset, size, crc))
  }

  /** `Archive::read`, up to the start header. A start header of zeros is one to be searched
      for, which this reader does not do. */
  function GetSignatureHeader(hash: bytes -> u32, s: bytes): Result<StartHeader> {
    var (signature, s1) :- GetExact(s, 6);
    if signature != SIGNATURE then Err(BadSignature)
    else
      var (versions, s2) :- GetExact(s1, 2);
      if versions[0] != 0 then Err(UnsupportedVersion)
      else
        var (crc, s3) :- GetU32(s2);
        var (start, _) :- GetExact(s3, 20);
        if crc == 0 && AllZero(start) then Err(StartHeaderLost)
        else if hash(start) != crc then Err(ChecksumVerificationFailed)
        else GetFields(start)
  }

  lemma {:induction false} ZerosMakeZero(b: bytes)
    requires AllZero(b)
    ensures FromLe(b) == 0
  {
    if b != [] {
      ZerosMakeZero(b[1..]);
    }
  }

  lemma FieldsRead(offset: u64, size: nat, crc: u32)
    ensures GetFields(PutStart(offset, size, crc)) == Ok(StartHeader(offset, size % 0x1_0000_0000, crc))
    ensures size % 0x1_0000_0000 != 0 ==> !AllZero(PutStart(offset, size, crc))
  {
    hide FromLe, Le, AllZero;
    var sz := size % 0x1_0000_0000;
    var b := PutStart(offset, size, crc);
    U64RoundTrip(offset, Le(sz, 8) + Le(crc, 4));
    U64RoundTrip(sz, Le(crc, 4));
    U32RoundTrip(crc, []);
    assert Le(crc, 4) + [] == Le(crc, 4);
    ZeroFields(Le(offset, 8), sz, Le(crc, 4));
  }

  lemma ZeroFields(a: bytes, size: nat, d: bytes)
    requires size < 0x1_0000_0000
    ensures size != 0 ==> !AllZero(a + (Le(size, 8) + d))
  {
    var b := a + (Le(size, 8) + d);
    if AllZero(b) {
      assert b[|a|..|a| + 8] == Le(size, 8);
      forall i | 0 <= i < 8
        ensures Le(size, 8)[i] == 0
      {
        assert b[|a|..|a| + 8][i] == b[|a| + i];
      }
      ZerosMakeZero(Le(size, 8));
      assert Pow256(8) == U64_LIMIT;
      LeSmall(size, 8);
    }
  }

  /** A start header reads back, with the low 32 bits of its size, and unless those are all
      zero it is never taken for a lost one. */
  lemma RoundTrip(hash: bytes -> u32, offset: u64, size: nat, crc: u32, rest: bytes)
    requires size % 0x1_0000_0000 != 0
    ensures GetSignatureHeader(hash, PutSignatureHeader(hash, offset, size, crc) + rest)
         == Ok(StartHeader(offset, size % 0x1_0000_0000, crc))
  {
    hide GetFields, PutStart, AllZero, FromLe, Le;
    var start := PutStart(offset, size, crc);
    var s3 := start + rest;
    var s2 := Le(hash(start), 4) + s3;
    var s1 := [0, 4] + s2;
    assert PutSignatureHeader(hash, offset, size, crc) + rest == SIGNATURE + s1;
    GetExactAppend(SIGNATURE, s1);
    GetExactAppend([0, 4], s2);
    U32RoundTrip(hash(start), s3);
    GetExactAppend(start, rest);
    FieldsRead(offset, size, crc);
  }
}
