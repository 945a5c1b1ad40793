/** The dictionary size of an LZMA2 coder in its one property byte. */
module Lzma2Dict {
  import opened Wire

  const DICT_SIZE_MIN := 4096

  /** The position of the highest bit set. */
  function HighBit(x: nat): (k: nat)
    requires x > 0
    ensures Pow2(k) <= x < 2 * Pow2(k)
  {
    if x == 1 then 0 else HighBit(x / 2) + 1
  }

  function LeadingZeros(x: u32): (r: nat)
    requires x > 0
    ensures r <= 31 && r == 31 - HighBit(x)
  {
    BitsOfU32(HighBit(x));
    31 - HighBit(x)
  }

  lemma {:induction false} PowersGrow(a: nat, b: nat)
    requires a <= b
    ensures Pow2(a) <= Pow2(b)
    ensures a < b ==> 2 * Pow2(a) <= Pow2(b)
  {
    if a < b {
      PowersGrow(a, b - 1);
    }
  }

  lemma Powers()
    ensures Pow2(11) == 0x800 && Pow2(12) == 0x1000 && Pow2(32) == 0x1_0000_0000
  {
    assert Pow2(4) == 0x10;
    assert Pow2(8) == 0x100;
    assert Pow2(16) == 0x1_0000 by {
      assert Pow2(12) == 0x1000;
    }
    assert Pow2(20) == 0x10_0000;
    assert Pow2(24) == 0x100_0000;
    assert Pow2(28) == 0x1000_0000;
  }

  lemma BitsOfU32(k: nat)
    ensures Pow2(k) < 0x1_0000_0000 ==> k <= 31
  {
    Powers();
    if k > 31 {
      PowersGrow(32, k);
    }
  }

  /** A size shifted right so that its two highest bits remain. */
  function HighTwo(size: u32): (r: nat)
    requires size >= DICT_SIZE_MIN
    ensures 2 <= r <= 3
  {
    HighBitOfSize(size);
    size / Pow2(30 - LeadingZeros(size))
  }

  /** The LZMA2 arm of `get_options_as_properties`, for the sizes the options allow. */
  function Encode(size: u32): nat
    requires size >= DICT_SIZE_MIN
  {
    HighBitOfSize(size);
    (19 - LeadingZeros(size)) * 2 + (HighTwo(size) - 2)
  }

  /** `get_lzma2_dic_size`. */
  function Decode(properties: bytes): Result<u32> {
    if properties == [] then Err(BadProperties)
    else if properties[0] >= 0x40 then Err(UnsupportedMethod)
    else if properties[0] > 40 then Err(UnsupportedMethod)
    else if properties[0] == 40 then Ok(0xFFFF_FFFF)
    else
      SizeFits(properties[0]);
      Ok(SizeOf(properties[0]))
  }

  /** Two or three times a power of two. */
  function SizeOf(b: nat): nat {
    (2 + b % 2) * Pow2(b / 2 + 11)
  }

  lemma SizeFits(b: nat)
    requires b <= 39
    ensures SizeOf(b) < 0x1_0000_0000
  {
    hide Pow2;
    Powers();
    PowersGrow(b / 2 + 11, 30);
    HalfPower(31);
    HalfPower(32);
    if b % 2 == 0 {
      assert SizeOf(b) == 2 * Pow2(b / 2 + 11);
    } else {
      assert SizeOf(b) == 3 * Pow2(b / 2 + 11);
    }
  }

  lemma HighBitOfSize(size: u32)
    requires size >= DICT_SIZE_MIN
    ensures 12 <= HighBit(size) <= 31
    ensures Pow2(HighBit(size)) == 2 * Pow2(HighBit(size) - 1)
    ensures var p := Pow2(HighBit(size) - 1);
            && (size / p == 2 || size / p == 3) && size / p * p <= size < size / p * p + p
  {
    hide HighBit;
    Powers();
    BitsOfU32(HighBit(size));
    if HighBit(size) < 12 {
      PowersGrow(HighBit(size), 11);
    }
    HalfPower(HighBit(size));
    Divides(size, Pow2(HighBit(size) - 1));
  }

  lemma HalfPower(k: nat)
    requires k > 0
    ensures Pow2(k) == 2 * Pow2(k - 1)
  {
  }

  lemma Divides(size: nat, p: nat)
    requires p > 0 && 2 * p <= size < 4 * p
    ensures size / p == 2 || size / p == 3
    ensures size / p * p <= size < size / p * p + p
  {
    if size < 3 * p {
      ModUnique(size, p, 2, size - 2 * p);
    } else {
      ModUnique(size, p, 3, size - 3 * p);
    }
  }

  lemma NextSize(b: nat)
    ensures b % 2 == 0 ==> SizeOf(b) == 2 * Pow2(b / 2 + 11) && SizeOf(b + 1) == 3 * Pow2(b / 2 + 11)
    ensures b % 2 == 1 ==> SizeOf(b) == 3 * Pow2(b / 2 + 11) && SizeOf(b + 1) == 4 * Pow2(b / 2 + 11)
  {
    HalfPower(b / 2 + 12);
    if b % 2 == 0 {
      assert (b + 1) / 2 == b / 2 && (b + 1) % 2 == 1;
    } else {
      assert (b + 1) / 2 == b / 2 + 1 && (b + 1) % 2 == 0;
    }
  }

  /** The sizes a byte can stand for grow with the byte. */
  lemma {:induction false} SizesGrow(a: nat, b: nat)
    requires a < b
    ensures SizeOf(a) < SizeOf(b)
    decreases b - a
  {
    hide SizeOf, Pow2;
    NextSize(b - 1);
    if a + 1 < b {
      SizesGrow(a, b - 1);
    }
  }

  /** The byte written for a size. */
  lemma EncodedSize(size: u32)
    requires size >= DICT_SIZE_MIN
    ensures Encode(size) <= 39
    ensures SizeOf(Encode(size)) <= size < SizeOf(Encode(size) + 1)
    ensures 2 * size < 3 * SizeOf(Encode(size))
  {
    hide HighBit, Pow2, SizeOf;
    HighBitOfSize(size);
    var k := HighBit(size);
    var e, s := Encode(size), size / Pow2(k - 1) - 2;
    assert e == (k - 12) * 2 + s;
    assert e / 2 == k - 12 && e % 2 == s;
    NextSize(e);
  }

  /** The byte reads back as the largest size a byte up to 39 can stand for that is not over
      the one asked for; it is more than two thirds of it, and all of it if it is such a size. */
  lemma RoundTrip(size: u32)
    requires size >= DICT_SIZE_MIN
    ensures Encode(size) <= 39
    ensures var d := Decode([Encode(size)]);
            && d.Ok? && d.value <= size && 2 * size < 3 * d.value
            && (forall b: byte :: b <= 39 && SizeOf(b) <= size ==> SizeOf(b) <= d.value)
            && (size == d.value <==> exists b: byte :: b <= 39 && SizeOf(b) == size)
  {
    hide Encode, SizeOf;
    EncodedSize(size);
    var e := Encode(size);
    assert Decode([e]) == Ok(SizeOf(e));
    forall b: byte | b <= 39 && SizeOf(b) <= size
      ensures SizeOf(b) <= SizeOf(e)
    {
      LargestIs(size, e, b);
    }
  }

  lemma LargestIs(size: nat, e: nat, b: nat)
    requires SizeOf(e) <= size < SizeOf(e + 1) && SizeOf(b) <= size
    ensures SizeOf(b) <= SizeOf(e)
  {
    hide SizeOf;
    if b > e + 1 {
      SizesGrow(e + 1, b);
    } else if b < e {
      SizesGrow(b, e);
    }
  }
}
