/** The variable-length integers of the archive header. The leading one bits of the
    first byte say how many bytes follow; its remaining bits are the top of the value. */
module VarInt {
  import opened Wire

  // Powers of two as tables: 2^i, 256^i and 2^(7(i+1)).

  function Bit(i: nat): (p: nat)
    requires i <= 8
  {
    match i
    case 0 => 1
    case 1 => 2
    case 2 => 4
    case 3 => 8
    case 4 => 0x10
    case 5 => 0x20
    case 6 => 0x40
    case 7 => 0x80
    case _ => 0x100
  }

  function Radix(i: nat): (p: nat)
    requires i <= 8
    ensures p == Pow256(i)
  {
    RadixIsPower();
    match i
    case 0 => 1
    case 1 => 0x100
    case 2 => 0x1_0000
    case 3 => 0x100_0000
    case 4 => 0x1_0000_0000
    case 5 => 0x100_0000_0000
    case 6 => 0x1_0000_0000_0000
    case 7 => 0x100_0000_0000_0000
    case _ => U64_LIMIT
  }

  lemma RadixIsPower()
    ensures Pow256(0) == 1 && Pow256(1) == 0x100 && Pow256(2) == 0x1_0000
    ensures Pow256(3) == 0x100_0000 && Pow256(4) == 0x1_0000_0000
    ensures Pow256(5) == 0x100_0000_0000 && Pow256(6) == 0x1_0000_0000_0000
    ensures Pow256(7) == 0x100_0000_0000_0000 && Pow256(8) == U64_LIMIT
  {
  }

  function Limit(i: nat): (p: nat)
    requires i < 8
  {
    match i
    case 0 => 0x80
    case 1 => 0x4000
    case 2 => 0x20_0000
    case 3 => 0x1000_0000
    case 4 => 0x8_0000_0000
    case 5 => 0x400_0000_0000
    case 6 => 0x2_0000_0000_0000
    case _ => 0x100_0000_0000_0000
  }

  /** How many bytes follow the first one in the encoding of `v`. */
  function Extra(v: u64): (k: nat)
    ensures k <= 8
    ensures forall i :: 0 <= i < k ==> v >= Limit(i)
    ensures k < 8 ==> v < Limit(k)
  {
    if v < Limit(0) then 0
    else if v < Limit(1) then 1
    else if v < Limit(2) then 2
    else if v < Limit(3) then 3
    else if v < Limit(4) then 4
    else if v < Limit(5) then 5
    else if v < Limit(6) then 6
    else if v < Limit(7) then 7
    else 8
  }

  /** The number of leading one bits of a byte. */
  function LeadingOnes(b: byte): (k: nat)
    ensures k <= 8
  {
    if b < 0x80 then 0
    else if b < 0xC0 then 1
    else if b < 0xE0 then 2
    else if b < 0xF0 then 3
    else if b < 0xF8 then 4
    else if b < 0xFC then 5
    else if b < 0xFE then 6
    else if b < 0xFF then 7
    else 8
  }

  /** `top` fits in the bits below the marker bits of a first byte announcing `k` more. */
  predicate TopFits(k: nat, top: nat)
    requires k <= 8
  {
    if k == 8 then top == 0 else top < Bit(7 - k)
  }

  /** The byte that announces `k` more bytes and carries `top`. */
  function First(k: nat, top: nat): byte
    requires k <= 8 && TopFits(k, top)
  {
    0x100 - Bit(8 - k) + top
  }

  /** What a first byte contributes above the bytes that follow it. */
  function Top(b: byte): (t: nat)
    ensures TopFits(LeadingOnes(b), t)
  {
    b - (0x100 - Bit(8 - LeadingOnes(b)))
  }

  lemma FirstReads(k: nat, top: nat)
    requires k <= 8 && TopFits(k, top)
    ensures LeadingOnes(First(k, top)) == k && Top(First(k, top)) == top
  {
  }

  function Enc(v: u64): (b: bytes)
    ensures |b| == 1 + Extra(v)
  {
    EncTop(v, Extra(v));
    [First(Extra(v), v / Radix(Extra(v)))] + Le(v, Extra(v))
  }

  lemma EncTop(v: u64, k: nat)
    requires k <= 8 && (k < 8 ==> v < Limit(k))
    ensures TopFits(k, v / Radix(k))
  {
    if k == 0 {
    } else if k == 1 {
    } else if k == 2 {
    } else if k == 3 {
    } else if k == 4 {
    } else if k == 5 {
    } else if k == 6 {
    } else if k == 7 {
    } else {
    }
  }

  function Dec(s: bytes): Parsed<u64> {
    var (first, s1) :- GetU8(s);
    var k := LeadingOnes(first);
    var (low, rest) :- GetExact(s1, k);
    DecFits(k, FromLe(low), Top(first));
    Ok((FromLe(low) + Top(first) * Radix(k), rest))
  }

  lemma DecFits(k: nat, low: nat, top: nat)
    requires k <= 8 && low < Radix(k) && TopFits(k, top)
    ensures low + top * Radix(k) < U64_LIMIT
    ensures k < 8 ==> low + top * Radix(k) < Limit(k)
  {
    if k == 0 {
    } else if k == 1 {
    } else if k == 2 {
    } else if k == 3 {
    } else if k == 4 {
    } else if k == 5 {
    } else if k == 6 {
    } else if k == 7 {
    } else {
    }
  }

  /** A small value is its own byte. */
  lemma EncSmall(v: nat)
    requires v < 0x80
    ensures Enc(v) == [v]
  {
    hide Le, First, Extra, Radix, Bit;
    NoExtra(v);
    assert Enc(v) == [First(0, v / Radix(0))] + Le(v, 0);
  }

  lemma NoExtra(v: nat)
    requires v < 0x80
    ensures Extra(v) == 0 && v / Radix(0) == v && TopFits(0, v) && First(0, v) == v && Le(v, 0) == []
  {
  }

  /** A first byte of 0x80 or more has others behind it. */
  lemma DecTakesMore(s: bytes)
    requires s != [] && s[0] >= 0x80 && Dec(s).Ok?
    ensures |Dec(s).value.1| + 2 <= |s|
  {
  }

  /** Reading what was written gives the value back and stops right after it. */
  lemma RoundTrip(v: u64, rest: bytes)
    ensures Dec(Enc(v) + rest) == Ok((v, rest))
  {
    hide Le, FromLe, Pow256, Bit, Limit, Extra, Radix, LeadingOnes, Top, First, TopFits;
    var k := Extra(v);
    EncTop(v, k);
    var first, low := First(k, v / Radix(k)), Le(v, k);
    FirstReads(k, v / Radix(k));
    assert Enc(v) + rest == [first] + (low + rest);
    GetU8Cons(first, low + rest);
    GetExactAppend(low, rest);
    LeRoundTrip(v, k);
    DivMod(v, Radix(k));
  }

  /** No byte string that decodes to `v` is shorter than the one the writer emits. */
  lemma Minimal(s: bytes)
    requires Dec(s).Ok?
    ensures |Enc(Dec(s).value.0)| <= |s| - |Dec(s).value.1|
  {
    var first := s[0];
    var k := LeadingOnes(first);
    DecFits(k, FromLe(s[1..][..k]), Top(first));
  }

  /** `write_u64`: find the length while building the first byte, then emit the rest. */
  method WriteVar(header: Sink, v: u64)
    modifies header
    ensures header.data == old(header.data) + Enc(v)
  {
    hide Enc, Extra, Limit, Radix, TopFits, Le;
    var first, mask, i := 0, 0x80, 0;
    while i < 8 && v >= Limit(i)
      invariant 0 <= i <= Extra(v)
      invariant i < 8 ==> mask == Bit(7 - i)
      invariant first == 0x100 - Bit(8 - i)
    {
      first := first + mask;  // the bit is still clear, so `|=` adds it
      mask := mask / 2;
      i := i + 1;
    }
    assert i == Extra(v);
    EncTop(v, i);
    if i < 8 {
      first := first + v / Radix(i);
    }
    LastTop(v);
    assert first == First(i, v / Radix(i));
    header.WriteU8(first % 0x100);
    WriteLow(header, v, i);
    EncIs(v);
    Cat2(old(header.data), [First(i, v / Radix(i))], Le(v, i));
  }

  /** Eight bytes leave nothing above them. */
  lemma LastTop(v: u64)
    ensures v / Radix(8) == 0
  {
  }

  lemma EncIs(v: u64)
    ensures TopFits(Extra(v), v / Radix(Extra(v)))
    ensures Enc(v) == [First(Extra(v), v / Radix(Extra(v)))] + Le(v, Extra(v))
  {
    hide Extra, Limit, Radix, TopFits, Le, First;
    EncTop(v, Extra(v));
  }

  /** The second loop of `write_u64`: `n` low bytes, least significant first. */
  method WriteLow(header: Sink, v: nat, n: nat)
    modifies header
    ensures header.data == old(header.data) + Le(v, n)
  {
    var value, i := v, n;
    while i > 0
      invariant 0 <= i <= n
      invariant header.data + Le(value, i) == old(header.data) + Le(v, n)
    {
      ghost var before := header.data;
      header.WriteU8(value % 0x100);
      assert before + ([value % 0x100] + Le(value / 0x100, i - 1))
        == header.data + Le(value / 0x100, i - 1);
      value := value / 0x100;
      i := i - 1;
    }
  }

  /** `read_variable_u64`: test the bits of the first byte from the top. */
  method ReadVar(reader: Source) returns (r: Result<u64>)
    modifies reader
    ensures Follows(Dec(old(reader.rest)), r, reader.rest)
  {
    hide FromLe, Pow256, LeadingOnes, Radix, Dec;
    NoBytes();
    DecFirst(reader.rest);
    var first :- reader.ReadU8();
    ghost var s1 := reader.rest;
    assert old(reader.rest) == [first] + s1;
    var value, i := 0, 0;
    while i < 8 && (first / Bit(7 - i)) % 2 == 1
      invariant 0 <= i <= LeadingOnes(first)
      invariant i <= |s1| && reader.rest == s1[i..] && value == FromLe(s1[..i])
    {
      BitsFromTop(first, i);
      var b :- reader.ReadU8();
      LeSnoc(s1[..i], b);
      assert s1[..i + 1] == s1[..i] + [b];
      value := value + b * Radix(i);
      i := i + 1;
    }
    DecAt(first, s1, i);
    if i < 8 {
      value := value + (first % Bit(7 - i)) * Radix(i);
    }
    r := Ok(value);
  }

  lemma NoBytes()
    ensures FromLe([]) == 0
  {
  }

  lemma DecFirst(s: bytes)
    ensures s == [] ==> Dec(s) == Err(UnexpectedEof)
    ensures s != [] && |s| - 1 < LeadingOnes(s[0]) ==> Dec(s) == Err(UnexpectedEof)
  {
  }

  /** The value `read_variable_u64` returns when its loop stops at `i`. */
  lemma DecAt(first: byte, s1: bytes, i: nat)
    requires i <= LeadingOnes(first) && i <= |s1|
    requires i < 8 ==> (first / Bit(7 - i)) % 2 == 0
    ensures var v := FromLe(s1[..i]) + (if i < 8 then (first % Bit(7 - i)) * Radix(i) else 0);
            0 <= v < U64_LIMIT && Dec([first] + s1) == Ok((v, s1[i..]))
  {
    hide FromLe, LeadingOnes, Top, Radix, Bit, Dec;
    if i < 8 {
      BitsFromTop(first, i);
    } else {
      FullTop(first);
    }
    DecParts(first, s1);
  }

  lemma FullTop(first: byte)
    requires LeadingOnes(first) >= 8
    ensures LeadingOnes(first) == 8 && Top(first) * Radix(8) == 0
  {
  }

  lemma DecParts(first: byte, s1: bytes)
    requires LeadingOnes(first) <= |s1|
    ensures var k := LeadingOnes(first);
            var v := FromLe(s1[..k]) + Top(first) * Radix(k);
            0 <= v < U64_LIMIT && Dec([first] + s1) == Ok((v, s1[k..]))
  {
    hide LeadingOnes, Top, Radix, FromLe;
    var k := LeadingOnes(first);
    LowFits(s1[..k]);
    DecFits(k, FromLe(s1[..k]), Top(first));
    GetU8Cons(first, s1);
  }

  lemma LowFits(b: bytes)
    requires |b| <= 8
    ensures FromLe(b) < Radix(|b|)
  {
    hide FromLe;
    RadixIsPower();
  }

  lemma {:induction false} LeSnoc(b: bytes, x: byte)
    ensures FromLe(b + [x]) == FromLe(b) + x * Pow256(|b|)
  {
    if b == [] {
      assert (b + [x])[1..] == [];
    } else {
      LeSnoc(b[1..], x);
      assert (b + [x])[1..] == b[1..] + [x] && (b + [x])[0] == b[0];
      ShiftSum(FromLe(b[1..]), x, Pow256(|b| - 1));
    }
  }

  lemma ShiftSum(f: int, x: int, p: int)
    ensures 0x100 * (f + x * p) == 0x100 * f + x * (0x100 * p)
  {
  }

  /** Bit `7 - i` of the first byte is set exactly while ones still lead; at the first
      zero the bits below it are the top of the value. */
  lemma BitsFromTop(first: byte, i: nat)
    requires i < 8 && i <= LeadingOnes(first)
    ensures (first / Bit(7 - i)) % 2 == 1 <==> i < LeadingOnes(first)
    ensures i == LeadingOnes(first) ==> first % Bit(7 - i) == Top(first)
  {
    var q := 2 * (Bit(i) - 1) + (if i < LeadingOnes(first) then 1 else 0);
    if i == 0 {
      ModUnique(first, 0x80, q, first - q * 0x80);
    } else if i == 1 {
      ModUnique(first, 0x40, q, first - q * 0x40);
    } else if i == 2 {
      ModUnique(first, 0x20, q, first - q * 0x20);
    } else if i == 3 {
      ModUnique(first, 0x10, q, first - q * 0x10);
    } else if i == 4 {
      ModUnique(first, 8, q, first - q * 8);
    } else if i == 5 {
      ModUnique(first, 4, q, first - q * 4);
    } else if i == 6 {
      ModUnique(first, 2, q, first - q * 2);
    } else {
      ModUnique(first, 1, q, first - q);
    }
  }
}
