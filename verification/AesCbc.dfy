/** AES in CBC mode (section 6.2 of NIST SP 800-38A) as a stream: a writer that buffers to
    whole blocks and pads at the end, and a reader that deciphers whatever its source gives. */
module AesCbc {
  import opened Wire
  import opened Repeats

  const BLOCK := 16
  const U32_LIMIT := 0x1_0000_0000

  /** The block cipher under some key. */
  datatype BlockCipher = BlockCipher(enc: bytes -> bytes, dec: bytes -> bytes) {
    ghost predicate Inverts() {
      forall b: bytes :: |b| == BLOCK ==> |enc(b)| == BLOCK && dec(enc(b)) == b
    }
  }

  /** Bitwise exclusive or of two numbers of `n` bits. */
  function XorBits(a: nat, b: nat, n: nat): (r: nat)
    ensures r < Pow2(n)
  {
    if n == 0 then 0 else (if a % 2 == b % 2 then 0 else 1) + 2 * XorBits(a / 2, b / 2, n - 1)
  }

  lemma {:induction false} XorBitsTwice(a: nat, b: nat, n: nat)
    requires a < Pow2(n)
    ensures XorBits(XorBits(a, b, n), b, n) == a
  {
    if n > 0 {
      XorBitsTwice(a / 2, b / 2, n - 1);
      var x := XorBits(a, b, n);
      assert x / 2 == XorBits(a / 2, b / 2, n - 1) && x % 2 == (if a % 2 == b % 2 then 0 else 1);
    }
  }

  lemma EightBits()
    ensures Pow2(8) == 0x100
  {
    assert Pow2(4) == 0x10;
  }

  function XorByte(a: byte, b: byte): byte {
    EightBits();
    XorBits(a, b, 8)
  }

  function Xor(a: bytes, b: bytes): (r: bytes)
    ensures |r| == Min(|a|, |b|)
  {
    seq(Min(|a|, |b|), i requires 0 <= i < |a| && i < |b| => XorByte(a[i], b[i]))
  }

  lemma XorTwice(a: bytes, b: bytes)
    requires |a| == |b|
    ensures Xor(Xor(a, b), b) == a
  {
    hide XorBits, Pow2;
    forall i | 0 <= i < |a|
      ensures XorByte(XorByte(a[i], b[i]), b[i]) == a[i]
    {
      EightBits();
      XorBitsTwice(a[i], b[i], 8);
    }
  }

  /** CBC of whole blocks; a last partial block is left out. */
  function Cbc(k: BlockCipher, iv: bytes, x: bytes): bytes
    decreases |x|
  {
    if |x| < BLOCK then []
    else
      var e := k.enc(Xor(x[..BLOCK], iv));
      e + Cbc(k, e, x[BLOCK..])
  }

  function Uncbc(k: BlockCipher, iv: bytes, y: bytes): bytes
    decreases |y|
  {
    if |y| < BLOCK then [] else Xor(k.dec(y[..BLOCK]), iv) + Uncbc(k, y[..BLOCK], y[BLOCK..])
  }

  /** The chaining value after enciphering `x`, and after deciphering `y`. */
  function ChainIn(k: BlockCipher, iv: bytes, x: bytes): bytes
    decreases |x|
  {
    if |x| < BLOCK then iv else ChainIn(k, k.enc(Xor(x[..BLOCK], iv)), x[BLOCK..])
  }

  function ChainOut(iv: bytes, y: bytes): bytes
    decreases |y|
  {
    if |y| < BLOCK then iv else ChainOut(y[..BLOCK], y[BLOCK..])
  }

  lemma {:induction false} RoundTrip(k: BlockCipher, iv: bytes, x: bytes)
    requires k.Inverts() && |iv| == BLOCK && |x| % BLOCK == 0
    ensures Uncbc(k, iv, Cbc(k, iv, x)) == x
    ensures |Cbc(k, iv, x)| == |x|
    decreases |x|
  {
    hide Xor;
    if |x| >= BLOCK {
      var e := k.enc(Xor(x[..BLOCK], iv));
      RoundTrip(k, e, x[BLOCK..]);
      var y := Cbc(k, iv, x);
      assert y[..BLOCK] == e && y[BLOCK..] == Cbc(k, e, x[BLOCK..]);
      XorTwice(x[..BLOCK], iv);
    }
  }

  /** One more block. */
  lemma {:induction false} CbcSnoc(k: BlockCipher, iv: bytes, x: bytes, b: bytes)
    requires |x| % BLOCK == 0 && |b| == BLOCK
    ensures Cbc(k, iv, x + b) == Cbc(k, iv, x) + k.enc(Xor(b, ChainIn(k, iv, x)))
    ensures ChainIn(k, iv, x + b) == k.enc(Xor(b, ChainIn(k, iv, x)))
    decreases |x|
  {
    if |x| < BLOCK {
      assert x + b == b && b[..BLOCK] == b && b[BLOCK..] == [];
    } else {
      var e := k.enc(Xor(x[..BLOCK], iv));
      CbcSnoc(k, e, x[BLOCK..], b);
      assert (x + b)[..BLOCK] == x[..BLOCK] && (x + b)[BLOCK..] == x[BLOCK..] + b;
    }
  }

  lemma {:induction false} UncbcConcat(k: BlockCipher, iv: bytes, a: bytes, b: bytes)
    requires |a| % BLOCK == 0
    ensures Uncbc(k, iv, a + b) == Uncbc(k, iv, a) + Uncbc(k, ChainOut(iv, a), b)
    ensures ChainOut(iv, a + b) == ChainOut(ChainOut(iv, a), b)
    decreases |a|
  {
    hide Xor;
    if |a| < BLOCK {
      assert a + b == b;
    } else {
      UncbcConcat(k, a[..BLOCK], a[BLOCK..], b);
      assert (a + b)[..BLOCK] == a[..BLOCK] && (a + b)[BLOCK..] == a[BLOCK..] + b;
    }
  }

  /** Zeros up to the next block boundary. */
  function Pad(x: bytes): (r: bytes)
    ensures |r| % BLOCK == 0 && x <= r && |r| < |x| + BLOCK
  {
    x + seq((BLOCK - |x| % BLOCK) % BLOCK, i => 0)
  }

  // ----- the writer

  class Encoder {
    const output: Sink
    const k: BlockCipher
    /** Built with overflow checks. */
    const checked: bool
    ghost const iv: bytes
    ghost const before: bytes
    var chain: bytes
    var buffer: bytes
    var finished: bool
    /** The bytes put out, counted on 32 bits. */
    var writeSize: nat
    /** An overflow check has stopped the program; what is said of the rest then holds only of a
        build without checks. */
    var stopped: bool
    /** The accepted bytes that have been enciphered. */
    ghost var sealed: bytes

    constructor (output: Sink, k: BlockCipher, iv: bytes, checked: bool)
      ensures this.output == output && this.k == k && this.iv == iv && this.checked == checked && before == output.data
      ensures Valid() && Accepted() == [] && !finished
    {
      this.output, this.k, this.iv, this.checked, before := output, k, iv, checked, output.data;
      chain, buffer, finished, sealed, writeSize, stopped := iv, [], false, [], 0, false;
    }

    /** Everything accepted so far, padding included once it is there. */
    ghost function Accepted(): bytes
      reads this
    {
      sealed + buffer
    }

    ghost predicate Sealed()
      reads this, output
    {
      && |sealed| % BLOCK == 0 && chain == ChainIn(k, iv, sealed) && output.data == before + Cbc(k, iv, sealed)
      && Counted(|sealed|)
    }

    ghost predicate Valid()
      reads this, output
    {
      Sealed() && |buffer| < BLOCK && (finished ==> buffer == [])
    }

    /** The count after `n` bytes, and whether a check has stopped it. */
    ghost predicate Counted(n: nat)
      reads this`writeSize, this`stopped
    {
      writeSize == n % U32_LIMIT && stopped == (checked && n >= U32_LIMIT)
    }

    /** `write_size += block.len() as u32`. */
    method CountBlock(ghost n: nat)
      requires Counted(n)
      modifies this`writeSize, this`stopped
      ensures Counted(n + BLOCK)
    {
      CountStep(n);
      if writeSize + BLOCK >= U32_LIMIT {
        stopped := stopped || checked;
      }
      writeSize := (writeSize + BLOCK) % U32_LIMIT;
    }

    method WriteBlock(b: bytes)
      requires |b| == BLOCK && Sealed()
      modifies this`chain, this`sealed, this`writeSize, this`stopped, output
      ensures Sealed() && sealed == old(sealed) + b
    {
      hide Xor, Cbc, ChainIn, Encoder.Counted;
      CbcSnoc(k, iv, sealed, b);
      chain := k.enc(Xor(b, chain));
      Cat2(before, Cbc(k, iv, sealed), chain);
      output.WriteAll(chain);
      CountBlock(|sealed|);
      WholeBlocks(|sealed|);
      sealed := sealed + b;
    }

    /** `write`. Data is always taken whole; an empty write pads and finishes, and nothing is
        taken after that. */
    method Write(buf: bytes) returns (n: nat)
      requires Valid()
      modifies this, output
      ensures Valid()
      ensures n == if old(finished) then 0 else |buf|
      ensures finished == (old(finished) || buf == [])
      ensures Accepted() == if old(finished) then old(Accepted()) else if buf == [] then Pad(old(Accepted())) else old(Accepted()) + buf
      ensures old(finished) ==> output.data == old(output.data)
    {
      hide Cbc, ChainIn, Pad, Encoder.Counted;
      if finished && buf != [] {
        return 0;
      }
      if buf == [] {
        PadTwice(Accepted());
        finished := true;
        Flush();
        return 0;
      }
      n := |buf|;
      var rest := buf;
      if buffer != [] {
        if |buf| + |buffer| >= BLOCK {
          rest := Complete(buf);
        } else {
          Cat2(sealed, buffer, buf);
          buffer := buffer + buf;
          return n;
        }
      } else {
        assert sealed + [] == sealed;
      }
      WriteChunks(rest);
    }

    /** The waiting bytes and the front of `buf` make a block; the rest of `buf` is left. */
    method Complete(buf: bytes) returns (rest: bytes)
      requires Valid() && buffer != [] && |buf| + |buffer| >= BLOCK
      modifies this, output
      ensures Valid() && buffer == [] && finished == old(finished)
      ensures sealed + rest == old(Accepted()) + buf
    {
      hide Cbc, ChainIn, Encoder.Counted;
      var end := BLOCK - |buffer|;
      WriteBlock(buffer + buf[..end]);
      buffer := [];
      rest := buf[end..];
      Cat2(old(sealed), old(buffer), buf[..end]);
      TakeFront(sealed, old(Accepted()), buf, end);
    }

    /** The loop over the chunks of sixteen bytes. */
    method WriteChunks(buf: bytes)
      requires Valid() && buffer == [] && !finished
      modifies this, output
      ensures Valid() && Accepted() == old(sealed) + buf && !finished
    {
      hide Cbc, ChainIn, Encoder.Counted;
      var i := 0;
      assert sealed + buf[0..] == sealed + buf;
      while i < |buf|
        invariant 0 <= i <= |buf| && buffer == [] && !finished
        invariant Sealed() && sealed + buf[i..] == old(sealed) + buf
        decreases |buf| - i
      {
        if |buf| - i < BLOCK {
          buffer := buf[i..];
          return;
        }
        Cat2(sealed, buf[i..i + BLOCK], buf[i + BLOCK..]);
        assert buf[i..i + BLOCK] + buf[i + BLOCK..] == buf[i..];
        WriteBlock(buf[i..i + BLOCK]);
        i := i + BLOCK;
      }
    }

    /** `flush`: does something only after the finishing write. */
    method Flush()
      requires Sealed() && |buffer| < BLOCK
      modifies this, output
      ensures Valid() && finished == old(finished)
      ensures Accepted() == if finished then Pad(old(Accepted())) else old(Accepted())
      ensures !finished || old(buffer) == [] ==> output.data == old(output.data)
    {
      hide Cbc, ChainIn, Pad, Encoder.Counted;
      if buffer != [] && finished {
        PadCompletes(sealed, buffer);
        WriteBlock(buffer + seq(BLOCK - |buffer|, i => 0));
        buffer := [];
      }
      PadWhole(sealed);
      assert sealed + [] == sealed;
    }
  }

  /** The 32-bit count of a block more. */
  lemma CountStep(n: nat)
    ensures (n % U32_LIMIT + BLOCK) % U32_LIMIT == (n + BLOCK) % U32_LIMIT
    ensures n < U32_LIMIT ==> (n % U32_LIMIT + BLOCK >= U32_LIMIT <==> n + BLOCK >= U32_LIMIT)
  {
    var q, r := n / U32_LIMIT, n % U32_LIMIT;
    if r + BLOCK < U32_LIMIT {
      ModUnique(n + BLOCK, U32_LIMIT, q, r + BLOCK);
    } else {
      ModUnique(r + BLOCK, U32_LIMIT, 1, r + BLOCK - U32_LIMIT);
      ModUnique(n + BLOCK, U32_LIMIT, q + 1, r + BLOCK - U32_LIMIT);
    }
  }

  lemma WholeBlocks(n: nat)
    requires n % BLOCK == 0
    ensures (n + BLOCK) % BLOCK == 0
  {
  }

  lemma PadCompletes(sealed: bytes, buffer: bytes)
    requires |sealed| % BLOCK == 0 && 0 < |buffer| < BLOCK
    ensures Pad(sealed + buffer) == sealed + (buffer + seq(BLOCK - |buffer|, i => 0))
  {
    assert |sealed + buffer| % BLOCK == |buffer|;
  }

  lemma PadWhole(x: bytes)
    ensures |x| % BLOCK == 0 ==> Pad(x) == x
  {
  }

  lemma PadTwice(x: bytes)
    ensures Pad(Pad(x)) == Pad(x)
  {
    hide Pad;
    PadWhole(Pad(x));
  }

  lemma TakeFront(sealed: bytes, accepted: bytes, buf: bytes, end: nat)
    requires end <= |buf| && sealed == accepted + buf[..end]
    ensures sealed + buf[end..] == accepted + buf
  {
  }

  // ----- whole runs of the writer

  /** What a run of writes hands over: the pieces up to the first empty one. */
  function Taken(pieces: seq<bytes>): bytes {
    if pieces == [] || pieces[0] == [] then [] else pieces[0] + Taken(pieces[1..])
  }

  lemma {:induction false} TakenWhole(pieces: seq<bytes>)
    requires [] !in pieces
    ensures Taken(pieces) == Flatten(pieces)
  {
    if pieces != [] {
      TakenWhole(pieces[1..]);
    }
  }

  /** Any pieces, flushes anywhere between them, and a last empty write: the output is CBC of
      the padded whole. An empty piece ends the message early. A build with overflow checks stops
      on the way if and only if the padded whole is of 4 GiB or more. */
  method EncipherPieces(output: Sink, k: BlockCipher, iv: bytes, pieces: seq<bytes>, checked: bool) returns (stopped: bool)
    modifies output
    ensures stopped <==> checked && |Pad(Taken(pieces))| >= U32_LIMIT
    ensures output.data == old(output.data) + Cbc(k, iv, Pad(Taken(pieces)))
    ensures [] !in pieces ==> output.data == old(output.data) + Cbc(k, iv, Pad(Flatten(pieces)))
  {
    hide Cbc, Pad;
    var e := new Encoder(output, k, iv, checked);
    ghost var all := Taken(pieces);
    assert [] + Taken(pieces[0..]) == all by {
      assert pieces[0..] == pieces;
    }
    for i := 0 to |pieces|
      invariant fresh(e) && e.Valid() && e.output == output && e.k == k && e.iv == iv && e.checked == checked && e.before == old(output.data)
      invariant e.finished ==> e.Accepted() == Pad(all)
      invariant !e.finished ==> e.Accepted() + Taken(pieces[i..]) == all
    {
      var flush: bool := *;
      if flush {
        ghost var accepted := e.Accepted();
        if e.finished {
          PadTwice(all);
        }
        e.Flush();
      }
      assert pieces[i..][1..] == pieces[i + 1..];
      Cat2(e.Accepted(), pieces[i], Taken(pieces[i + 1..]));
      assert e.Accepted() + [] == e.Accepted();
      var _ := e.Write(pieces[i]);
    }
    assert e.Accepted() + [] == e.Accepted();
    var _ := e.Write([]);
    assert e.sealed + [] == e.sealed;
    if [] !in pieces {
      TakenWhole(pieces);
    }
    stopped := e.stopped;
  }

  // ----- the reader

  /** How many of `n` bytes make whole blocks. */
  function Whole(n: nat): (r: nat)
    ensures r <= n < r + BLOCK && r % BLOCK == 0 && n == r + n % BLOCK
  {
    n - n % BLOCK
  }

  /** `Cipher`: deciphers what it is given up to the last whole block and holds the rest. */
  class Cipher {
    const k: BlockCipher
    var chain: bytes
    var buf: bytes

    constructor (k: BlockCipher, iv: bytes)
      ensures this.k == k && chain == iv && buf == []
    {
      this.k, chain, buf := k, iv, [];
    }

    /** `update`. A held partial block has to be completed by the data given: if there is too
        little, the program stops. */
    method Update(data: bytes) returns (r: Result<bytes>)
      requires |buf| < BLOCK
      modifies this
      ensures r.Err? <==> old(buf) != [] && |old(buf)| + |data| < BLOCK
      ensures r.Err? ==> r == Err(Panic)
      ensures r.Ok? ==> (
                var all := old(buf) + data;
                var n := Whole(|all|);
                && r.value == Uncbc(k, old(chain), all[..n])
                && buf == all[n..] && chain == ChainOut(old(chain), all[..n]))
    {
      hide Uncbc, ChainOut, Whole;
      EmptyDeciphers(k, chain);
      if buf != [] {
        var end := BLOCK - |buf|;
        if end > |data| {
          return Err(Panic);
        }
        ghost var first := buf + data[..end];
        assert [] + first == first && first + data[end..] == buf + data;
        var out := DecryptBlock(buf + data[..end], []);
        assert [] + out == out;
        buf := [];
        var more := UpdateWhole(data[end..], old(chain), first, out);
        r := Ok(more);
      } else {
        assert buf + data == data && [] + data == data;
        var out := UpdateWhole(data, chain, [], []);
        r := Ok(out);
      }
    }

    /** The loop over the chunks of sixteen bytes, after `first` has been deciphered to `out0`. */
    method UpdateWhole(data: bytes, ghost iv: bytes, ghost first: bytes, out0: bytes) returns (out: bytes)
      requires buf == [] && |first| % BLOCK == 0 && out0 == Uncbc(k, iv, first) && chain == ChainOut(iv, first)
      modifies this
      ensures var all := first + data;
              var n := Whole(|all|);
              out == Uncbc(k, iv, all[..n]) && buf == all[n..] && chain == ChainOut(iv, all[..n])
    {
      hide Uncbc, ChainOut, Whole;
      out := out0;
      var i := 0;
      assert first + data[..0] == first;
      while i < |data|
        invariant 0 <= i <= |data| && buf == [] && i % BLOCK == 0
        invariant out == Uncbc(k, iv, first + data[..i]) && chain == ChainOut(iv, first + data[..i])
        decreases |data| - i
      {
        if |data| - i < BLOCK {
          buf := data[i..];
          Behind(first, data, i);
          return;
        }
        var plain := DecryptBlock(data[i..i + BLOCK], first + data[..i]);
        assert first + data[..i] + data[i..i + BLOCK] == first + data[..i + BLOCK];
        out, i := out + plain, i + BLOCK;
      }
      Behind(first, data, i);
    }

    /** The next block after `before`. */
    method DecryptBlock(b: bytes, ghost before: bytes) returns (plain: bytes)
      requires |b| == BLOCK && |before| % BLOCK == 0
      modifies this`chain
      ensures plain == Xor(k.dec(b), old(chain)) && chain == b
      ensures forall iv: bytes :: old(chain) == ChainOut(iv, before) ==>
        Uncbc(k, iv, before + b) == Uncbc(k, iv, before) + plain && ChainOut(iv, before + b) == chain
    {
      hide Xor;
      assert b[..BLOCK] == b && b[BLOCK..] == [];
      plain := Xor(k.dec(b), chain);
      forall iv: bytes | chain == ChainOut(iv, before)
        ensures Uncbc(k, iv, before + b) == Uncbc(k, iv, before) + plain && ChainOut(iv, before + b) == b
      {
        UncbcConcat(k, iv, before, b);
      }
      chain := b;
    }
  }

  lemma Behind(first: bytes, data: bytes, i: nat)
    requires |first| % BLOCK == 0 && i % BLOCK == 0 && i <= |data| < i + BLOCK
    ensures var all := first + data;
            Whole(|all|) == |first| + i && all[..|first| + i] == first + data[..i] && all[|first| + i..] == data[i..]
  {
    var n := Whole(|first + data|);
    assert n % BLOCK == 0 && (|first| + i) % BLOCK == 0;
  }

  lemma EmptyDeciphers(k: BlockCipher, iv: bytes)
    ensures Uncbc(k, iv, []) == [] && ChainOut(iv, []) == iv
  {
  }

  /** A source by what its reads give, one piece at a time, and then nothing. */
  predicate IsSchedule(pieces: seq<bytes>) {
    forall p :: p in pieces ==> 0 < |p| <= 512
  }

  /** Everything the reader will give from here on. */
  function Deciphered(k: BlockCipher, chain: bytes, held: bytes, pieces: seq<bytes>): Result<bytes>
    decreases |pieces|
  {
    if pieces == [] then (if held == [] then Ok([]) else Err(IllegalBlockSize))
    else if held != [] && |held| + |pieces[0]| < BLOCK then Err(Panic)
    else
      var all := held + pieces[0];
      var n := Whole(|all|);
      var rest :- Deciphered(k, ChainOut(chain, all[..n]), all[n..], pieces[1..]);
      Ok(Uncbc(k, chain, all[..n]) + rest)
  }

  function Prepend(x: bytes, r: Result<bytes>): Result<bytes> {
    match r
    case Ok(y) => Ok(x + y)
    case Err(e) => Err(e)
  }

  lemma PrependTwice(x: bytes, y: bytes, r: Result<bytes>)
    ensures Prepend(x, Prepend(y, r)) == Prepend(x + y, r)
    ensures Prepend([], r) == r
  {
    if r.Ok? {
      assert x + (y + r.value) == (x + y) + r.value && [] + r.value == r.value;
    }
  }

  class Decoder {
    const cipher: Cipher
    var pieces: seq<bytes>
    var done: bool
    var obuffer: bytes
    var ostart: nat
    var ofinish: nat
    var pos: nat

    constructor (k: BlockCipher, iv: bytes, pieces: seq<bytes>)
      requires IsSchedule(pieces)
      ensures fresh(cipher) && Valid() && ToCome() == Deciphered(k, iv, [], pieces)
    {
      cipher := new Cipher(k, iv);
      this.pieces, done, obuffer, ostart, ofinish, pos := pieces, false, [], 0, 0, 0;
      new;
      PrependTwice([], [], Deciphered(k, iv, [], pieces));
    }

    ghost predicate Valid()
      reads this, cipher
    {
      IsSchedule(pieces) && ostart <= ofinish == |obuffer| && |cipher.buf| < BLOCK
    }

    ghost function Later(): Result<bytes>
      reads this, cipher
    {
      if done then Ok([]) else Deciphered(cipher.k, cipher.chain, cipher.buf, pieces)
    }

    /** What is deciphered and not yet handed out, and what is still to come. */
    ghost function ToCome(): Result<bytes>
      requires Valid()
      reads this, cipher
    {
      Prepend(obuffer[ostart..ofinish], Later())
    }

    /** One read of the source into a buffer of 512 bytes. */
    method ReadInput() returns (data: bytes)
      requires IsSchedule(pieces)
      modifies this`pieces
      ensures IsSchedule(pieces)
      ensures data == if old(pieces) == [] then [] else old(pieces)[0]
      ensures pieces == if old(pieces) == [] then [] else old(pieces)[1..]
    {
      if pieces == [] {
        return [];
      }
      data, pieces := pieces[0], pieces[1..];
    }

    /** `get_more_data`: at most one read of the source. */
    method GetMoreData() returns (r: Result<nat>)
      requires Valid() && ostart == ofinish
      modifies this, cipher
      ensures r.Err? ==> old(ToCome()) == Err(r.error)
      ensures r.Ok? ==> Valid() && ToCome() == old(ToCome()) && r.value == ofinish - ostart
      ensures r.Ok? && done ==> Later() == Ok([])
      ensures r.Ok? ==> |pieces| <= |old(pieces)| && (done || |pieces| < |old(pieces)|)
      ensures r.Ok? && done ==> r.value == 0
    {
      hide Uncbc, ChainOut;
      assert obuffer[ostart..ofinish] == [];
      PrependTwice([], [], Later());
      if done {
        return Ok(0);
      }
      ofinish, ostart, obuffer := 0, 0, [];
      var data := ReadInput();
      if data == [] {
        done := true;
        if cipher.buf != [] {
          return Err(IllegalBlockSize);
        }
        PrependTwice([], [], Later());
        return Ok(0);
      }
      var out := cipher.Update(data);
      if out.Err? {
        return Err(out.error);
      }
      obuffer, ofinish := out.value, |out.value|;
      PrependTwice([], out.value, Later());
      assert obuffer[0..ofinish] == obuffer;
      r := Ok(ofinish);
    }

    /** Reads the source until something is deciphered or nothing is left. */
    method Fill() returns (r: Result<nat>)
      requires Valid() && ostart == ofinish
      modifies this, cipher
      ensures r.Err? ==> old(ToCome()) == Err(r.error)
      ensures r.Ok? ==> Valid() && ToCome() == old(ToCome()) && r.value == ofinish - ostart
      ensures r.Ok? && r.value == 0 ==> ToCome() == Ok([])
      ensures r.Ok? ==> |pieces| <= |old(pieces)| && (r.value == 0 || |pieces| < |old(pieces)|)
    {
      hide Later;
      var n :- GetMoreData();
      while n == 0 && !done
        invariant Valid() && ToCome() == old(ToCome()) && n == ofinish - ostart
        invariant done ==> Later() == Ok([])
        invariant |pieces| <= |old(pieces)| && (n == 0 || |pieces| < |old(pieces)|)
        decreases |pieces|, !done
      {
        n :- GetMoreData();
      }
      if n == 0 {
        assert obuffer[ostart..ofinish] == [];
        PrependTwice([], [], Later());
      }
      r := Ok(n);
    }

    /** `read`, whatever the size of the caller's buffer. */
    method Read(room: nat) returns (r: Result<bytes>)
      requires Valid()
      modifies this, cipher
      ensures r.Err? ==> old(ToCome()) == Err(r.error)
      ensures r.Ok? ==> Valid() && |r.value| <= room && old(ToCome()) == Prepend(r.value, ToCome())
      ensures r.Ok? && r.value == [] ==> ToCome() == Ok([]) || room == 0
      ensures r.Ok? ==> |pieces| <= |old(pieces)|
      ensures r.Ok? && r.value != [] && |pieces| == |old(pieces)| ==> Left() < old(Left())
    {
      hide Deciphered;
      PrependTwice([], [], ToCome());
      if ostart >= ofinish {
        var n :- Fill();
        PrependTwice([], [], ToCome());
        if n == 0 {
          return Ok([]);
        }
      }
      if room == 0 {
        return Ok([]);
      }
      var size := Min(ofinish - ostart, room);
      r := Ok(obuffer[ostart..ostart + size]);
      assert obuffer[ostart..ofinish] == obuffer[ostart..ostart + size] + obuffer[ostart + size..ofinish];
      PrependTwice(obuffer[ostart..ostart + size], obuffer[ostart + size..ofinish], Later());
      ostart := ostart + size;
      pos := pos + size;
    }

    ghost function Left(): int
      reads this
    {
      ofinish - ostart
    }
  }

  /** Draining the reader with buffers of any sizes. */
  method Decipher(k: BlockCipher, iv: bytes, pieces: seq<bytes>) returns (r: Result<bytes>)
    requires IsSchedule(pieces)
    ensures r == Deciphered(k, iv, [], pieces)
  {
    hide Deciphered;
    var d := new Decoder(k, iv, pieces);
    var got: bytes := [];
    PrependTwice([], [], d.ToCome());
    while true
      invariant fresh(d) && fresh(d.cipher) && d.Valid()
      invariant Deciphered(k, iv, [], pieces) == Prepend(got, d.ToCome())
      decreases |d.pieces|, d.ofinish - d.ostart
    {
      var room: nat :| room > 0;
      ghost var before := d.ToCome();
      var chunk :- d.Read(room);
      PrependTwice(got, chunk, d.ToCome());
      if chunk == [] {
        assert got + [] == got;
        break;
      }
      got := got + chunk;
    }
    r := Ok(got);
  }

  // ----- when it succeeds

  /** No read of the source leaves a held partial block without its missing bytes. */
  predicate NeverShort(held: nat, pieces: seq<bytes>)
    decreases |pieces|
  {
    pieces == [] ||
    ((held == 0 || held + |pieces[0]| >= BLOCK) && NeverShort((held + |pieces[0]|) % BLOCK, pieces[1..]))
  }

  /** The reader gives CBC's inverse on all its source's bytes if and only if these make whole
      blocks and no read falls short of completing a block. */
  lemma {:induction false} DeciphersIff(k: BlockCipher, chain: bytes, held: bytes, pieces: seq<bytes>)
    requires |held| < BLOCK
    ensures var all := held + Flatten(pieces);
            Deciphered(k, chain, held, pieces)
            == if !NeverShort(|held|, pieces) then Err(Panic)
               else if |all| % BLOCK != 0 then Err(IllegalBlockSize)
               else Ok(Uncbc(k, chain, all))
    decreases |pieces|
  {
    hide Xor, Uncbc, ChainOut, Whole, Flatten;
    if pieces == [] {
      EmptyOrHeld(k, chain, held);
    } else if held == [] || |held| + |pieces[0]| >= BLOCK {
      var first := held + pieces[0];
      var n := Whole(|first|);
      DeciphersIff(k, ChainOut(chain, first[..n]), first[n..], pieces[1..]);
      SplitAtBlocks(k, chain, held, pieces, n);
      SameRemainder(n, |first[n..] + Flatten(pieces[1..])|);
    }
  }

  lemma EmptyOrHeld(k: BlockCipher, chain: bytes, held: bytes)
    ensures held + Flatten([]) == held && Uncbc(k, chain, []) == []
  {
  }

  lemma SameRemainder(n: nat, t: nat)
    requires n % BLOCK == 0
    ensures (n + t) % BLOCK == t % BLOCK
  {
  }

  lemma SplitAtBlocks(k: BlockCipher, chain: bytes, held: bytes, pieces: seq<bytes>, n: nat)
    requires pieces != [] && n <= |held + pieces[0]| && n % BLOCK == 0
    ensures var all, first := held + Flatten(pieces), held + pieces[0];
            var tail := first[n..] + Flatten(pieces[1..]);
            && Uncbc(k, chain, all) == Uncbc(k, chain, first[..n]) + Uncbc(k, ChainOut(chain, first[..n]), tail)
            && |all| == n + |tail|
  {
    hide Xor, Uncbc, ChainOut;
    var all, first := held + Flatten(pieces), held + pieces[0];
    var tail := first[n..] + Flatten(pieces[1..]);
    Cat2(held, pieces[0], Flatten(pieces[1..]));
    assert first == first[..n] + first[n..];
    Cat2(first[..n], first[n..], Flatten(pieces[1..]));
    UncbcConcat(k, chain, first[..n], tail);
  }

  /** What the writer made of a message comes back padded, from any source that never leaves a
      partial block short. */
  lemma StreamRoundTrip(k: BlockCipher, iv: bytes, x: bytes, pieces: seq<bytes>)
    requires k.Inverts() && |iv| == BLOCK
    requires Flatten(pieces) == Cbc(k, iv, Pad(x)) && NeverShort(0, pieces)
    ensures Deciphered(k, iv, [], pieces) == Ok(Pad(x))
  {
    hide Cbc, Uncbc, Deciphered, NeverShort;
    RoundTrip(k, iv, Pad(x));
    DeciphersIff(k, iv, [], pieces);
    assert [] + Flatten(pieces) == Flatten(pieces);
  }
}
