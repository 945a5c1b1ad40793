/** Bytes, machine integers, results, and the byte-level reader and writer that
    every part of the archive codec works on. */
module Wire {
  type byte = x: int | 0 <= x < 0x100
  type u16 = x: int | 0 <= x < 0x1_0000
  type u32 = x: int | 0 <= x < 0x1_0000_0000
  type u64 = x: int | 0 <= x < 0x1_0000_0000_0000_0000
  type bytes = seq<byte>

  const U64_LIMIT := 0x1_0000_0000_0000_0000

  /** The room for the start header. */
  const SIGNATURE_HEADER_SIZE := 32

  // Tags of the header's sections.
  const K_END: byte := 0x00
  const K_HEADER: byte := 0x01
  const K_ARCHIVE_PROPERTIES: byte := 0x02
  const K_ADDITIONAL_STREAMS_INFO: byte := 0x03
  const K_MAIN_STREAMS_INFO: byte := 0x04
  const K_FILES_INFO: byte := 0x05
  const K_PACK_INFO: byte := 0x06
  const K_UNPACK_INFO: byte := 0x07
  const K_SUB_STREAMS_INFO: byte := 0x08
  const K_SIZE: byte := 0x09
  const K_CRC: byte := 0x0A
  const K_FOLDER: byte := 0x0B
  const K_CODERS_UNPACK_SIZE: byte := 0x0C
  const K_NUM_UNPACK_STREAM: byte := 0x0D
  const K_EMPTY_STREAM: byte := 0x0E
  const K_EMPTY_FILE: byte := 0x0F
  const K_ANTI: byte := 0x10
  const K_NAME: byte := 0x11
  const K_C_TIME: byte := 0x12
  const K_A_TIME: byte := 0x13
  const K_M_TIME: byte := 0x14
  const K_WIN_ATTRIBUTES: byte := 0x15
  const K_COMMENT: byte := 0x16
  const K_ENCODED_HEADER: byte := 0x17
  const K_START_POS: byte := 0x18

  /** The ways reading can fail. `Panic` stands for an index out of range or an
      arithmetic overflow that the program checks at run time. */
  datatype Error =
    | UnexpectedEof
    | Panic
    | BadSignature
    | UnsupportedVersion
    | ChecksumVerificationFailed
    | NextHeaderCrcMismatch
    | NoHeader
    | NoBlocks
    | NoPackedStreams
    | AdditionalStreams
    | BadTerminatedHeader(nid: byte)
    | BadTerminatedStreamsInfo(nid: byte)
    | BadTerminatedPackInfo(nid: byte)
    | BadTerminatedUnpackInfo
    | BadTerminatedSubStreamsInfo
    | ExpectedFolder(nid: byte)
    | ExpectedUnpackSize(nid: byte)
    | External
    | AlternativeMethods
    | NoOutputStreams
    | TooFewInputStreams
    | NoUnboundInput
    | SubStreamSum
    | EmptyStreamMissing
    | NameLength
    | NameCount
    | NoSubStreams
    | TooFewBlocks
    | SeekBeforeStart
    | FileNotFound
    | NoBlockForFile
    | UnsupportedMethod
    | BindPairMissing
    | TooManyCoders
    | BrokenPipe
    | IllegalBlockSize
    | EndlessChain
    | BadProperties
    | PasswordRequired
    | StartHeaderLost

  datatype Option<+T> = None | Some(value: T)

  datatype Result<+T> = Ok(value: T) | Err(error: Error) {
    predicate IsFailure() {
      Err?
    }

    function PropagateFailure<U>(): Result<U>
      requires Err?
    {
      Err(error)
    }

    function Extract(): T
      requires Ok?
    {
      value
    }
  }

  /** What a parser returns: the value and the bytes after it. */
  type Parsed<+T> = Result<(T, bytes)>

  /** A method that returned `r` and left `rest` did what `spec` says. */
  ghost predicate Follows<T>(spec: Parsed<T>, r: Result<T>, rest: bytes) {
    match spec
    case Ok(p) => r == Ok(p.0) && rest == p.1
    case Err(e) => r == Err(e)
  }

  function Min(a: int, b: int): int {
    if a <= b then a else b
  }

  function Pow2(n: nat): (p: nat)
    ensures p >= 1
  {
    if n == 0 then 1 else 2 * Pow2(n - 1)
  }

  function Pow256(n: nat): (p: nat)
    ensures p >= 1
  {
    if n == 0 then 1 else 0x100 * Pow256(n - 1)
  }

  /** The little-endian image of `v` on `n` bytes. */
  function Le(v: nat, n: nat): (b: bytes)
    ensures |b| == n
  {
    if n == 0 then [] else [v % 0x100] + Le(v / 0x100, n - 1)
  }

  function FromLe(b: bytes): (v: nat)
    ensures v < Pow256(|b|)
  {
    if b == [] then 0 else b[0] + 0x100 * FromLe(b[1..])
  }

  lemma {:induction false} LeRoundTrip(v: nat, n: nat)
    ensures FromLe(Le(v, n)) == v % Pow256(n)
  {
    if n > 0 {
      LeRoundTrip(v / 0x100, n - 1);
      assert Le(v, n)[1..] == Le(v / 0x100, n - 1);
      ModByParts(v, Pow256(n - 1));
    }
  }

  lemma ModByParts(v: nat, p: nat)
    requires p > 0
    ensures v % (0x100 * p) == v % 0x100 + 0x100 * ((v / 0x100) % p)
  {
    var q, r := (v / 0x100) / p, (v / 0x100) % p;
    DivMod(v / 0x100, p);
    assert v == q * (0x100 * p) + (v % 0x100 + 0x100 * r) by {
      assert 0x100 * (q * p) == q * (0x100 * p);
    }
    ModUnique(v, 0x100 * p, q, v % 0x100 + 0x100 * r);
  }

  lemma ModUnique(v: int, m: int, q: int, r: int)
    requires m > 0 && 0 <= r < m && v == q * m + r
    ensures v % m == r && v / m == q
  {
    var d := v / m;
    if q > d {
      MulStep(d, q, m);
    } else if q < d {
      MulStep(q, d, m);
    }
  }

  lemma {:induction false} MulStep(a: int, b: int, m: int)
    requires a < b && m > 0
    ensures a * m + m <= b * m
    decreases b - a
  {
    assert (a + 1) * m == a * m + m;
    if a + 1 < b {
      MulStep(a + 1, b, m);
    }
  }

  lemma DivMod(v: nat, m: nat)
    requires m > 0
    ensures v == v / m * m + v % m
  {
  }

  lemma LeSmall(v: nat, n: nat)
    requires v < Pow256(n)
    ensures FromLe(Le(v, n)) == v
  {
    LeRoundTrip(v, n);
    ModUnique(v, Pow256(n), 0, v);
  }

  // ----- parsers on byte sequences

  function GetExact(s: bytes, n: nat): Parsed<bytes> {
    if n <= |s| then Ok((s[..n], s[n..])) else Err(UnexpectedEof)
  }

  function GetU8(s: bytes): Parsed<byte> {
    if s != [] then Ok((s[0], s[1..])) else Err(UnexpectedEof)
  }

  function GetU32(s: bytes): Parsed<u32> {
    var (b, rest) :- GetExact(s, 4);
    assert Pow256(4) == 0x1_0000_0000;
    Ok((FromLe(b), rest))
  }

  function GetU64(s: bytes): Parsed<u64> {
    var (b, rest) :- GetExact(s, 8);
    assert Pow256(8) == U64_LIMIT;
    Ok((FromLe(b), rest))
  }

  lemma GetU8Cons(b: byte, rest: bytes)
    ensures GetU8([b] + rest) == Ok((b, rest))
  {
    assert ([b] + rest)[1..] == rest;
  }

  lemma GetExactAppend(b: bytes, rest: bytes)
    ensures GetExact(b + rest, |b|) == Ok((b, rest))
  {
    assert (b + rest)[..|b|] == b && (b + rest)[|b|..] == rest;
  }

  lemma U32RoundTrip(v: u32, rest: bytes)
    ensures GetU32(Le(v, 4) + rest) == Ok((v, rest))
  {
    GetExactAppend(Le(v, 4), rest);
    assert Pow256(4) == 0x1_0000_0000;
    LeSmall(v, 4);
  }

  lemma U64RoundTrip(v: u64, rest: bytes)
    ensures GetU64(Le(v, 8) + rest) == Ok((v, rest))
  {
    GetExactAppend(Le(v, 8), rest);
    assert Pow256(8) == U64_LIMIT;
    LeSmall(v, 8);
  }

  // ----- appending piece by piece is appending the whole

  lemma Cat2(o: bytes, a: bytes, b: bytes)
    ensures o + a + b == o + (a + b)
  {
  }

  lemma Cat3(o: bytes, a: bytes, b: bytes, c: bytes)
    ensures o + a + b + c == o + (a + (b + c))
  {
    Cat2(o + a, b, c);
    Cat2(o, a, b + c);
  }

  lemma Cat4(o: bytes, a: bytes, b: bytes, c: bytes, d: bytes)
    ensures o + a + b + c + d == o + (a + (b + (c + d)))
  {
    Cat2(o + a + b, c, d);
    Cat3(o, a, b, c + d);
  }

  lemma Cat5(o: bytes, a: bytes, b: bytes, c: bytes, d: bytes, e: bytes)
    ensures o + a + b + c + d + e == o + (a + (b + (c + (d + e))))
  {
    Cat2(o + a + b + c, d, e);
    Cat4(o, a, b, c, d + e);
  }

  lemma Cat6(o: bytes, a: bytes, b: bytes, c: bytes, d: bytes, e: bytes, f: bytes)
    ensures o + a + b + c + d + e + f == o + (a + (b + (c + (d + (e + f)))))
  {
    Cat2(o + a + b + c + d, e, f);
    Cat5(o, a, b, c, d, e + f);
  }

  lemma Cat7(o: bytes, a: bytes, b: bytes, c: bytes, d: bytes, e: bytes, f: bytes, g: bytes)
    ensures o + a + b + c + d + e + f + g == o + (a + (b + (c + (d + (e + (f + g))))))
  {
    Cat2(o + a + b + c + d + e, f, g);
    Cat6(o, a, b, c, d, e, f + g);
  }

  lemma Cat8(o: bytes, a: bytes, b: bytes, c: bytes, d: bytes, e: bytes, f: bytes, g: bytes, h: bytes)
    ensures o + a + b + c + d + e + f + g + h == o + (a + (b + (c + (d + (e + (f + (g + h)))))))
  {
    Cat2(o + a + b + c + d + e + f, g, h);
    Cat7(o, a, b, c, d, e, f, g + h);
  }

  // ----- the reader and the writer

  /** A `Read` over bytes in memory: reading takes bytes off the front. */
  class Source {
    var rest: bytes

    constructor (data: bytes)
      ensures rest == data
    {
      rest := data;
    }

    method ReadExact(n: nat) returns (r: Result<bytes>)
      modifies this
      ensures Follows(GetExact(old(rest), n), r, rest)
    {
      if n > |rest| {
        return Err(UnexpectedEof);
      }
      r := Ok(rest[..n]);
      rest := rest[n..];
    }

    method ReadU8() returns (r: Result<byte>)
      modifies this
      ensures Follows(GetU8(old(rest)), r, rest)
    {
      var b :- ReadExact(1);
      r := Ok(b[0]);
    }

    method ReadU32() returns (r: Result<u32>)
      modifies this
      ensures Follows(GetU32(old(rest)), r, rest)
    {
      var b :- ReadExact(4);
      assert Pow256(4) == 0x1_0000_0000;
      r := Ok(FromLe(b));
    }

    method ReadU64() returns (r: Result<u64>)
      modifies this
      ensures Follows(GetU64(old(rest)), r, rest)
    {
      var b :- ReadExact(8);
      assert Pow256(8) == U64_LIMIT;
      r := Ok(FromLe(b));
    }
  }

  /** Writing `b` at `pos` into a file: a gap is filled with zeros. */
  function Splice(out: bytes, pos: nat, b: bytes): (r: bytes) {
    if b == [] then out
    else
      var padded := if |out| < pos then out + seq(pos - |out|, i => 0) else out;
      padded[..pos] + b + (if pos + |b| <= |out| then out[pos + |b|..] else [])
  }

  /** A `Write` into a growing buffer. */
  class Sink {
    var data: bytes

    constructor ()
      ensures data == []
    {
      data := [];
    }

    method WriteAll(b: bytes)
      modifies this
      ensures data == old(data) + b
    {
      data := data + b;
    }

    method WriteU8(b: byte)
      modifies this
      ensures data == old(data) + [b]
    {
      WriteAll([b]);
    }

    method WriteU32(v: u32)
      modifies this
      ensures data == old(data) + Le(v, 4)
    {
      WriteAll(Le(v, 4));
    }

    method WriteLe64(v: u64)
      modifies this
      ensures data == old(data) + Le(v, 8)
    {
      WriteAll(Le(v, 8));
    }
  }
}
