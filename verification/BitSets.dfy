/** The bit set of the archive code and its bitmap on the wire, most significant bit first. */
module BitSets {
  import opened Wire
  import opened VarInt

  /** A machine word, as its 64 bits from the least significant one up. */
  type Word = w: seq<bool> | |w| == 64 witness seq(64, i => false)

  const ZERO: Word := seq(64, i => false)
  const ONES: Word := seq(64, i => true)

  /** The word `w | ((1 << n) - 1)`. */
  function OrLow(w: Word, n: nat): (r: Word)
    requires n < 64
  {
    seq(64, i requires 0 <= i < 64 => w[i] || i < n)
  }

  function CountOnes(w: seq<bool>): (n: nat)
    ensures n <= |w|
  {
    if w == [] then 0 else (if w[|w| - 1] then 1 else 0) + CountOnes(w[..|w| - 1])
  }

  function BlocksForBits(bits: nat): nat {
    if bits == 0 then 0 else (bits - 1) / 64 + 1
  }

  class BitSet {
    var bits: seq<Word>
    var bitCount: nat

    ghost predicate Valid()
      reads this
    {
      && |bits| == BlocksForBits(bitCount)
      && (forall i :: bitCount <= i < 64 * |bits| ==> !bits[i / 64][i % 64])
    }

    /** The set as one flag for each of its `bitCount` positions. */
    function Flags(): (f: seq<bool>)
      requires Valid()
      reads this
      ensures |f| == bitCount
    {
      seq(bitCount, i requires 0 <= i < bitCount && Valid() reads this => bits[i / 64][i % 64])
    }

    /** The set as the mathematical set it stands for. */
    ghost function Members(): (s: set<nat>)
      requires Valid()
      reads this
      ensures forall i :: i in s ==> i < bitCount
    {
      set i | 0 <= i < bitCount && Flags()[i]
    }

    constructor ()
      ensures Valid() && bitCount == 0 && Members() == {}
    {
      bits := [];
      bitCount := 0;
    }

    constructor WithCapacity(count: nat)
      ensures Valid() && bitCount == count && Members() == {}
      ensures Flags() == seq(count, i => false)
    {
      bits := seq(BlocksForBits(count), i => ZERO);
      bitCount := count;
    }

    method Contains(value: nat) returns (r: bool)
      requires Valid()
      ensures r <==> value in Members()
      ensures r <==> value < bitCount && Flags()[value]
    {
      if value >= bitCount {
        return false;
      }
      var block, bit := value / 64, value % 64;
      if block >= |bits| {
        return false;
      }
      r := bits[block][bit];
    }

    method Grow(count: nat)
      requires Valid()
      modifies this
      ensures Valid() && Members() == old(Members())
      ensures bitCount == if count <= old(bitCount) then old(bitCount) else count
      ensures forall i :: 0 <= i < old(bitCount) ==> Flags()[i] == old(Flags())[i]
    {
      if count <= bitCount {
        return;
      }
      var blocks := BlocksForBits(count);
      if blocks > |bits| {
        bits := bits + seq(blocks - |bits|, i => ZERO);
      }
      bitCount := count;
      assert forall i :: 0 <= i < bitCount ==> Flags()[i] == (i in old(Members()));
    }

    method Insert(value: nat) returns (added: bool)
      requires Valid()
      modifies this
      ensures Valid() && Members() == old(Members()) + {value}
      ensures added <==> value !in old(Members())
      ensures bitCount == if value < old(bitCount) then old(bitCount) else value + 1
      ensures value < old(bitCount) ==> Flags() == old(Flags())[value := true]
    {
      if value >= bitCount {
        Grow(value + 1);
      }
      var block, bit := value / 64, value % 64;
      added := !bits[block][bit];
      ghost var before := Flags();
      bits := bits[block := bits[block][bit := true]];
      assert Flags() == before[value := true] by {
        SameFlags(before, value, true);
      }
    }

    method Remove(value: nat) returns (present: bool)
      requires Valid()
      modifies this
      ensures Valid() && bitCount == old(bitCount) && Members() == old(Members()) - {value}
      ensures present <==> value in old(Members())
    {
      if value >= bitCount {
        return false;
      }
      var block, bit := value / 64, value % 64;
      if block >= |bits| {
        return false;
      }
      present := bits[block][bit];
      ghost var before := Flags();
      bits := bits[block := bits[block][bit := false]];
      assert Flags() == before[value := false] by {
        SameFlags(before, value, false);
      }
    }

    lemma SameFlags(before: seq<bool>, value: nat, b: bool)
      requires Valid() && |before| == bitCount && value < bitCount
      requires bits[value / 64][value % 64] == b
      requires forall i :: 0 <= i < bitCount && i != value ==> bits[i / 64][i % 64] == before[i]
      ensures Flags() == before[value := b]
    {
    }

    method ReserveLenExact(count: nat)
      requires Valid()
      modifies this
      ensures Valid() && Members() == old(Members())
      ensures bitCount == if count <= old(bitCount) then old(bitCount) else count
    {
      if count > bitCount {
        Grow(count);
      }
    }

    /** Adds every value below `count`: whole words first, then the low bits of one more. */
    method SetAll(count: nat)
      requires Valid()
      modifies this
      ensures Valid()
      ensures forall i: nat :: i in Members() <==> i in old(Members()) || i < count
      ensures bitCount == if count <= old(bitCount) then old(bitCount) else count
    {
      if count == 0 {
        return;
      }
      if count > bitCount {
        Grow(count);
      }
      ghost var was, n := bits, bitCount;
      assert forall i: nat :: i < n ==> (i in old(Members()) <==> was[i / 64][i % 64]);
      Fill(count);
      FilledBelow(was, bits, count);
    }

    /** The words below `count` filled, and the low bits of the next one. */
    method Fill(count: nat)
      requires count <= 64 * |bits|
      modifies this`bits
      ensures |bits| == |old(bits)|
      ensures forall k :: 0 <= k < |bits| ==>
        bits[k] == if k < count / 64 then ONES else if k == count / 64 && count % 64 > 0 then OrLow(old(bits)[k], count % 64) else old(bits)[k]
    {
      hide OrLow;
      var full, rest := count / 64, count % 64;
      for b := 0 to full
        invariant |bits| == |old(bits)|
        invariant forall k :: 0 <= k < |bits| ==> bits[k] == if k < b then ONES else old(bits)[k]
      {
        bits := bits[b := ONES];
      }
      if rest > 0 && full < |bits| {
        bits := bits[full := OrLow(bits[full], rest)];
      }
    }

    lemma FilledBelow(was: seq<Word>, now: seq<Word>, count: nat)
      requires |was| == |now| && count <= 64 * |now|
      requires forall k :: 0 <= k < |now| ==>
        now[k] == if k < count / 64 then ONES else if k == count / 64 && count % 64 > 0 then OrLow(was[k], count % 64) else was[k]
      ensures forall i: nat :: i < 64 * |now| ==> (now[i / 64][i % 64] <==> was[i / 64][i % 64] || i < count)
    {
      forall i: nat | i < 64 * |now|
        ensures now[i / 64][i % 64] <==> was[i / 64][i % 64] || i < count
      {
        var k := i / 64;
        assert now[k] == if k < count / 64 then ONES else if k == count / 64 && count % 64 > 0 then OrLow(was[k], count % 64) else was[k];
      }
    }

    method Len() returns (n: nat)
      requires Valid()
      ensures n == |Members()|
    {
      n := 0;
      ghost var seen: set<nat> := {};
      for b := 0 to |bits|
        invariant n == CountUpTo(64 * b)
      {
        n := n + CountOnes(bits[b]);
        CountWord(b, 64);
        assert bits[b][..64] == bits[b];
      }
      CountIsCardinality(64 * |bits|);
      assert SetUpTo(64 * |bits|) == Members();
    }

    /** The number of set bits below position `n`. */
    ghost function CountUpTo(n: nat): nat
      requires n <= 64 * |bits|
      reads this
    {
      if n == 0 then 0 else CountUpTo(n - 1) + (if bits[(n - 1) / 64][(n - 1) % 64] then 1 else 0)
    }

    ghost function SetUpTo(n: nat): set<nat>
      requires n <= 64 * |bits|
      reads this
    {
      set i | 0 <= i < n && bits[i / 64][i % 64]
    }

    lemma {:induction false} CountWord(b: nat, k: nat)
      requires b < |bits| && k <= 64
      ensures CountUpTo(64 * b + k) == CountUpTo(64 * b) + CountOnes(bits[b][..k])
    {
      if k > 0 {
        CountWord(b, k - 1);
        var last := 64 * b + (k - 1);
        assert last / 64 == b && last % 64 == k - 1;
        assert bits[b][..k][..k - 1] == bits[b][..k - 1];
      }
    }

    lemma {:induction false} CountIsCardinality(n: nat)
      requires n <= 64 * |bits|
      ensures CountUpTo(n) == |SetUpTo(n)|
    {
      if n > 0 {
        CountIsCardinality(n - 1);
        SetUpToNext(n - 1);
      } else {
        assert SetUpTo(n) == {};
      }
    }

    lemma SetUpToNext(n: nat)
      requires n < 64 * |bits|
      ensures SetUpTo(n + 1) == if bits[n / 64][n % 64] then SetUpTo(n) + {n} else SetUpTo(n)
    {
    }
  }

  // ----- the bitmap on the wire

  /** The first `m` bits of the byte that starts at flag `base`. */
  function Acc(f: seq<bool>, base: nat, m: nat): (a: nat)
    requires m <= 8
    ensures a <= 0x100 - Bit(8 - m)
  {
    if m == 0 then 0
    else Acc(f, base, m - 1) + (if base + m - 1 < |f| && f[base + m - 1] then Bit(8 - m) else 0)
  }

  function BytesFor(n: nat): nat {
    (n + 7) / 8
  }

  function PackBits(f: seq<bool>): (b: bytes)
    ensures |b| == BytesFor(|f|)
  {
    seq(BytesFor(|f|), k requires 0 <= k => Acc(f, 8 * k, 8))
  }

  predicate BitAt(b: byte, j: nat)
    requires j < 8
  {
    (b / Bit(7 - j)) % 2 == 1
  }

  function GetBits(s: bytes, n: nat): Parsed<seq<bool>> {
    var (b, rest) :- GetExact(s, BytesFor(n));
    Ok((seq(n, i requires 0 <= i < n => BitAt(b[i / 8], i % 8)), rest))
  }

  /** The flags extended with clear ones up to length `n`. */
  function Padded(f: seq<bool>, n: nat): (g: seq<bool>) {
    seq(n, i requires 0 <= i => i < |f| && f[i])
  }

  lemma AccBit(f: seq<bool>, base: nat, j: nat)
    requires j < 8
    ensures BitAt(Acc(f, base, 8), j) <==> base + j < |f| && f[base + j]
  {
    AccMultiple(f, base, j);
    AccLow(f, base, j + 1);
    BitHalves(7 - j);
    SplitAtBit(Acc(f, base, j) / Bit(8 - j), Bit(7 - j), if base + j < |f| && f[base + j] then 1 else 0,
               Acc(f, base, 8) - Acc(f, base, j + 1));
  }

  lemma BitHalves(i: nat)
    requires i < 8
    ensures Bit(i + 1) == 2 * Bit(i)
  {
  }

  lemma SplitAtBit(h: int, u: int, c: int, low: int)
    requires 0 <= low < u && 0 <= c <= 1
    ensures ((h * (2 * u) + c * u + low) / u) % 2 == c
  {
    assert h * (2 * u) + c * u == (2 * h + c) * u;
    ModUnique(h * (2 * u) + c * u + low, u, 2 * h + c, low);
  }

  /** The bits after the first `m` only fill in below them. */
  lemma {:induction false} AccLow(f: seq<bool>, base: nat, m: nat)
    requires m <= 8
    ensures 0 <= Acc(f, base, 8) - Acc(f, base, m) < Bit(8 - m)
    decreases 8 - m
  {
    if m < 8 {
      AccLow(f, base, m + 1);
    }
  }

  lemma MultipleOfHalf(a: nat, h: nat, u: nat, c: nat)
    requires u > 0 && a == h * (2 * u)
    ensures a + c * u == (a + c * u) / u * u
  {
    assert a + c * u == (2 * h + c) * u;
    ModUnique(a + c * u, u, 2 * h + c, 0);
  }

  lemma {:induction false} AccMultiple(f: seq<bool>, base: nat, m: nat)
    requires m <= 8
    ensures Acc(f, base, m) == Acc(f, base, m) / Bit(8 - m) * Bit(8 - m)
  {
    if m == 0 {
    } else {
      hide Bit;
      AccMultiple(f, base, m - 1);
      var a, u := Acc(f, base, m - 1), Bit(8 - m);
      BitHalves(8 - m);
      MultipleOfHalf(a, a / Bit(9 - m), u, if base + m - 1 < |f| && f[base + m - 1] then 1 else 0);
    }
  }

  lemma {:induction false} AccTail(f: seq<bool>, base: nat, m: nat)
    requires m <= 8 && base + m >= |f|
    ensures Acc(f, base, m) == Acc(f, base, 8)
    decreases 8 - m
  {
    if m < 8 {
      AccTail(f, base, m + 1);
    }
  }

  /** Reading `n` flags from a bitmap written for `f` gives `f` cut or padded to length
      `n`, whenever the two lengths need the same number of bytes. */
  lemma PaddedRoundTrip(f: seq<bool>, n: nat, rest: bytes)
    requires BytesFor(n) == BytesFor(|f|)
    ensures GetBits(PackBits(f) + rest, n) == Ok((Padded(f, n), rest))
  {
    var b := PackBits(f);
    GetExactAppend(b, rest);
    forall i | 0 <= i < n
      ensures BitAt(b[i / 8], i % 8) == (i < |f| && f[i])
    {
      AccBit(f, 8 * (i / 8), i % 8);
    }
    assert seq(n, i requires 0 <= i < n => BitAt(b[i / 8], i % 8)) == Padded(f, n);
  }

  lemma BitsRoundTrip(f: seq<bool>, rest: bytes)
    ensures GetBits(PackBits(f) + rest, |f|) == Ok((f, rest))
  {
    PaddedRoundTrip(f, |f|, rest);
    assert Padded(f, |f|) == f;
  }

  /** The reader stops right after the bitmap exactly when the lengths agree in bytes. */
  lemma BitsInStep(f: seq<bool>, n: nat, rest: bytes)
    ensures (GetBits(PackBits(f) + rest, n).Ok? && GetBits(PackBits(f) + rest, n).value.1 == rest)
       <==> BytesFor(n) == BytesFor(|f|)
  {
    if BytesFor(n) == BytesFor(|f|) {
      PaddedRoundTrip(f, n, rest);
    } else if GetBits(PackBits(f) + rest, n).Ok? {
      assert |GetBits(PackBits(f) + rest, n).value.1| == BytesFor(|f|) + |rest| - BytesFor(n);
    }
  }

  lemma AccIsByte(f: seq<bool>, base: nat, m: nat)
    requires m <= 8
    ensures Acc(f, base, m) < 0x100
  {
  }

  lemma AccNext(f: seq<bool>, base: nat, m: nat)
    requires m < 8
    ensures Acc(f, base, m + 1) == Acc(f, base, m) + (if base + m < |f| && f[base + m] then Bit(7 - m) else 0)
  {
  }

  /** The first `k` bytes of the bitmap, and its last one if that is not full. */
  lemma PackNext(f: seq<bool>, k: nat)
    ensures 8 * k + 8 <= |f| ==> PackBits(f)[..k + 1] == PackBits(f)[..k] + [Acc(f, 8 * k, 8)]
    ensures 8 * k < |f| < 8 * k + 8 ==> PackBits(f) == PackBits(f)[..k] + [Acc(f, 8 * k, 8)]
    ensures |f| == 8 * k ==> PackBits(f) == PackBits(f)[..k]
    ensures Acc(f, 8 * k, 0) == 0 && PackBits(f)[..0] == []
  {
  }

  /** `write_bit_set`: bits go into a byte from the top; full bytes are written out. */
  method WriteBitSet(out: Sink, bs: BitSet)
    requires bs.Valid()
    modifies out
    ensures out.data == old(out.data) + PackBits(bs.Flags())
  {
    hide Acc, PackBits, Bit;
    ghost var f := bs.Flags();
    var byteSoFar, bitPos := 0, 7;
    ghost var k := 0;
    PackNext(f, 0);
    for i := 0 to bs.bitCount
      invariant 0 <= bitPos <= 7 && i == 8 * k + (7 - bitPos)
      invariant byteSoFar == Acc(f, 8 * k, 7 - bitPos)
      invariant out.data == old(out.data) + PackBits(f)[..k]
    {
      var block, bit := i / 64, i % 64;
      var isSet := block < |bs.bits| && bs.bits[block][bit];
      assert isSet == f[i];
      AccNext(f, 8 * k, 7 - bitPos);
      byteSoFar := byteSoFar + (if isSet then Bit(bitPos) else 0);
      bitPos := bitPos - 1;
      if bitPos < 0 {
        AccIsByte(f, 8 * k, 8);
        PackNext(f, k);
        PackNext(f, k + 1);
        Cat2(old(out.data), PackBits(f)[..k], [byteSoFar]);
        out.WriteU8(byteSoFar);
        bitPos := 7;
        byteSoFar := 0;
        k := k + 1;
      }
    }
    PackNext(f, k);
    if bitPos != 7 {
      AccTail(f, 8 * k, 7 - bitPos);
      AccIsByte(f, 8 * k, 8);
      Cat2(old(out.data), PackBits(f)[..k], [byteSoFar]);
      out.WriteU8(byteSoFar);
    }
  }

  /** Flag `i` of the bitmap `s`, clear past its end. */
  predicate FlagIn(s: bytes, i: nat) {
    i / 8 < |s| && BitAt(s[i / 8], i % 8)
  }

  /** `read_bits`: one byte at a time, its bits from the top. */
  method ReadBits(header: Source, size: nat) returns (r: Result<BitSet>)
    modifies header
    ensures match GetBits(old(header.rest), size)
            case Ok(p) => r.Ok? && fresh(r.value) && r.value.Valid() && r.value.Flags() == p.0 && header.rest == p.1
            case Err(e) => r == Err(e)
    ensures r.Ok? ==> r.value.bitCount == size
  {
    var set0 := new BitSet.WithCapacity(size);
    ghost var s := header.rest;
    var mask, cache := 8, 0;  // `mask` stands for the mask 0x80 >> mask; 8 for the mask 0
    ghost var k := 0;
    for i := 0 to size
      invariant fresh(set0) && set0.Valid() && set0.bitCount == size
      invariant k <= |s| && header.rest == s[k..]
      invariant 0 < mask <= 8 && i == 8 * k - 8 + mask
      invariant mask < 8 ==> k > 0 && cache == s[k - 1]
      invariant forall j :: 0 <= j < size ==> set0.Flags()[j] == (j < i && FlagIn(s, j))
    {
      if mask == 8 {
        mask := 0;
        var b :- header.ReadU8();
        cache := b;
        k := k + 1;
      }
      assert i / 8 == k - 1 && i % 8 == mask;
      if BitAt(cache, mask) {
        var _ := set0.Insert(i);
      }
      mask := mask + 1;
    }
    assert k == BytesFor(size);
    assert GetBits(s, size).Ok?;
    assert set0.Flags() == GetBits(s, size).value.0;
    r := Ok(set0);
  }

  /** A set preceded by a byte that says "all defined" or announces a bitmap. */
  function GetAllOrBits(s: bytes, n: nat): Parsed<seq<bool>> {
    var (all, s1) :- GetU8(s);
    if all != 0 then Ok((seq(n, i => true), s1)) else GetBits(s1, n)
  }

  function PutAllOrBits(f: seq<bool>): bytes {
    if false !in f then [1] else [0] + PackBits(f)
  }

  /** Both ways of writing a set read back as that set. */
  lemma AllOrBitsRoundTrip(f: seq<bool>, rest: bytes)
    ensures GetAllOrBits(PutAllOrBits(f) + rest, |f|) == Ok((f, rest))
    ensures GetAllOrBits([0] + PackBits(f) + rest, |f|) == Ok((f, rest))
  {
    assert [0] + PackBits(f) + rest == [0] + (PackBits(f) + rest);
    GetU8Cons(0, PackBits(f) + rest);
    BitsRoundTrip(f, rest);
    if false !in f {
      GetU8Cons(1, rest);
      assert seq(|f|, i => true) == f;
    }
  }

  method ReadAllOrBits(header: Source, size: nat) returns (r: Result<BitSet>)
    modifies header
    ensures match GetAllOrBits(old(header.rest), size)
            case Ok(p) => r.Ok? && fresh(r.value) && r.value.Valid() && r.value.Flags() == p.0 && header.rest == p.1
            case Err(e) => r == Err(e)
    ensures r.Ok? ==> r.value.bitCount == size
  {
    var all :- header.ReadU8();
    if all != 0 {
      var set0 := new BitSet.WithCapacity(size);
      set0.SetAll(size);
      assert set0.Flags() == seq(size, i => true) by {
        assert forall i :: 0 <= i < size ==> i in set0.Members() && set0.Flags()[i];
      }
      r := Ok(set0);
    } else {
      r := ReadBits(header, size);
    }
  }
}
