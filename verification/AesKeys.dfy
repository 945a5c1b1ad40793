/** The key of an encrypted stream: the coder's property bytes, and the password hashed in
    many rounds with a counter. */
module AesKeys {
  import opened Wire

  datatype Parameters = Parameters(cycles: nat, salt: bytes, iv: bytes)

  const PLAIN_KEY := 0x3F
  const KEY_SIZE := 32
  const IV_SIZE := 16

  /** The first `n` bytes of `b`, with zeros after it if it is shorter. */
  function Fitted(b: bytes, n: nat): (r: bytes)
    ensures |r| == n
  {
    if |b| >= n then b[..n] else b + Zeros(n - |b|)
  }

  /** The front of `get_aes_key`. A single property byte stands for itself and a zero. */
  function Parse(properties: bytes): Result<Parameters> {
    if properties == [] then Err(BadProperties)
    else
      var p := if |properties| == 1 then properties + [0] else properties;
      var ivSize, saltSize := (p[0] / 0x40) % 2 + p[1] % 0x10, p[0] / 0x80 + p[1] / 0x10;
      if 2 + saltSize + ivSize > |p| then Err(BadProperties)
      else Ok(Parameters(p[0] % 0x40, p[2..2 + saltSize], Fitted(p[2 + saltSize..2 + saltSize + ivSize], IV_SIZE)))
  }

  /** `properties`: the writer's side, with full-size salt and vector. */
  function Properties(cycles: byte, salt: bytes, iv: bytes): bytes {
    [cycles % 0x40 + 0xC0, 0xFF] + (salt + iv)
  }

  lemma PropertiesRead(cycles: byte, salt: bytes, iv: bytes)
    requires |salt| == 16 && |iv| == IV_SIZE
    ensures Parse(Properties(cycles, salt, iv)) == Ok(Parameters(cycles % 0x40, salt, iv))
  {
    var p := Properties(cycles, salt, iv);
    assert p[0] / 0x80 == 1 && (p[0] / 0x40) % 2 == 1 && p[0] % 0x40 == cycles % 0x40;
    assert p[2..18] == salt && p[18..34] == iv && iv[..IV_SIZE] == iv;
  }

  /** What the first `n` rounds feed to the hash. */
  function Rounds(salt: bytes, password: bytes, n: nat): bytes {
    if n == 0 then [] else Rounds(salt, password, n - 1) + (salt + password + Le((n - 1) % U64_LIMIT, 8))
  }

  /** The number of rounds, `1 << power` on 32 bits. A shift by 32 or more stops a build with
      overflow checks; without them the shift is by the low five bits. */
  function RoundCount(power: nat, checked: bool): Result<nat> {
    if power < 32 then Ok(Pow2(power)) else if checked then Err(Panic) else Ok(Pow2(power % 32))
  }

  /** The rest of `get_aes_key`. The branch for a plain key copies the salt, at most 16 bytes,
      over all 32 bytes of the key at once, which stops the program. */
  function DeriveKey(sha: bytes -> bytes, p: Parameters, password: bytes, checked: bool): Result<bytes> {
    if password == [] then Err(PasswordRequired)
    else if p.cycles == PLAIN_KEY then (if |p.salt| == KEY_SIZE then Ok(p.salt) else Err(Panic))
    else
      var n :- RoundCount(p.cycles, checked);
      Ok(sha(Rounds(p.salt, password, n)))
  }

  /** A key comes out exactly when there is a password, the plain key is not asked for and,
      with overflow checks, the count of rounds is below 2 to the 32. */
  lemma KeyIff(sha: bytes -> bytes, properties: bytes, password: bytes, checked: bool)
    requires Parse(properties).Ok?
    ensures var power, r := properties[0] % 0x40, DeriveKey(sha, Parse(properties).value, password, checked);
            && (r.Ok? <==> password != [] && power != PLAIN_KEY && (power < 32 || !checked))
            && (power == PLAIN_KEY && password != [] ==> r == Err(Panic))
  {
  }

  /** Without the checks, asking for 2 to the 32 times as many rounds gives the same key. */
  lemma RoundsLost(sha: bytes -> bytes, p: Parameters, password: bytes)
    requires p.cycles < 31
    ensures DeriveKey(sha, p.(cycles := p.cycles + 32), password, false) == DeriveKey(sha, p, password, false)
  {
    assert (p.cycles + 32) % 32 == p.cycles;
  }

  lemma {:induction false} LowByteFirst(v: nat, n: nat)
    requires n > 0
    ensures Le(v, n)[0] == v % 0x100 && Le(v, n)[1..] == Le(v / 0x100, n - 1)
  {
  }

  /** `s` with its first `k` bytes zeroed and the one after them one larger. */
  function Bumped(s: bytes, k: nat): bytes
    requires k <= |s| && (k < |s| ==> s[k] != 0xFF)
  {
    Zeros(k) + (if k < |s| then [s[k] + 1] + s[k + 1..] else [])
  }

  lemma BumpedBehind(s: bytes, k: nat)
    requires 0 < k <= |s| && (k < |s| ==> s[k] != 0xFF)
    ensures Bumped(s, k) == [0] + Bumped(s[1..], k - 1)
  {
    assert [0] + Zeros(k - 1) == Zeros(k);
  }

  /** The image of the next number: the bytes that were 0xFF become zero, and the first one
      that was not grows by one. */
  lemma {:induction false} NextLe(v: nat, n: nat, k: nat)
    requires k <= n && (forall i :: 0 <= i < k ==> Le(v, n)[i] == 0xFF)
    requires k < n ==> Le(v, n)[k] != 0xFF
    ensures Le(v + 1, n) == Bumped(Le(v, n), k)
  {
    if n > 0 {
      hide Bumped;
      var s := Le(v, n);
      var rest := Le(v / 0x100, n - 1);
      LowByteFirst(v, n);
      if k == 0 {
        NoCarry(v);
        FirstBumped(s);
      } else {
        Carry(v);
        forall i | 0 <= i < k - 1
          ensures rest[i] == 0xFF
        {
          assert s[i + 1] == 0xFF;
        }
        NextLe(v / 0x100, n - 1, k - 1);
        BumpedBehind(s, k);
      }
    }
  }

  lemma FirstBumped(s: bytes)
    requires s != [] && s[0] != 0xFF
    ensures Bumped(s, 0) == [s[0] + 1] + s[1..]
  {
  }

  function Zeros(n: nat): (r: bytes)
    ensures |r| == n
  {
    seq(n, i => 0)
  }

  lemma NoCarry(v: nat)
    ensures v % 0x100 != 0xFF ==> (v + 1) % 0x100 == v % 0x100 + 1 && (v + 1) / 0x100 == v / 0x100
  {
  }

  lemma Carry(v: nat)
    ensures v % 0x100 == 0xFF ==> (v + 1) % 0x100 == 0 && (v + 1) / 0x100 == v / 0x100 + 1
  {
  }

  /** The eight counter bytes, incremented in place with a carry. */
  method Increment(extra: array<byte>, ghost v: nat)
    requires extra.Length == 8 && extra[..] == Le(v, 8)
    modifies extra
    ensures extra[..] == Le(v + 1, 8)
  {
    hide Le;
    ghost var was := Le(v, 8);
    var i := 0;
    while i < 8
      invariant 0 <= i <= 8
      invariant forall j :: 0 <= j < i ==> was[j] == 0xFF && extra[j] == 0
      invariant extra[i..] == was[i..]
    {
      assert extra[i] == extra[i..][0] == was[i];
      var next := extra[i] as int + 1;
      extra[i] := next % 0x100;
      if extra[i] != 0 {
        assert extra[i + 1..] == was[i..][1..] == was[i + 1..];
        break;
      }
      assert extra[i + 1..] == was[i..][1..];
      i := i + 1;
    }
    NextLe(v, 8, i);
    assert extra[..i] == Zeros(i);
    assert extra[..] == extra[..i] + extra[i..];
    if i < 8 {
      assert extra[i..] == [extra[i]] + extra[i + 1..];
    }
  }

  method GetAesKey(sha: bytes -> bytes, properties: bytes, password: bytes, checked: bool) returns (r: Result<(bytes, bytes)>)
    ensures r == match Parse(properties)
                 case Err(e) => Err(e)
                 case Ok(p) =>
                   match DeriveKey(sha, p, password, checked)
                   case Err(e) => Err(e)
                   case Ok(key) => Ok((key, p.iv))
  {
    hide Pow2, Rounds;
    var p :- ReadParameters(properties);
    if password == [] {
      return Err(PasswordRequired);
    }
    if p.cycles == PLAIN_KEY {
      if |p.salt| != KEY_SIZE {
        return Err(Panic);
      }
      return Ok((p.salt, p.iv));
    }
    if p.cycles >= 32 && checked {
      return Err(Panic);
    }
    var power := if p.cycles < 32 then p.cycles else p.cycles % 32;
    assert power <= 31;
    SmallPower(power, 31);
    var hashed := HashRounds(p.salt, password, Pow2(power));
    r := Ok((sha(hashed), p.iv));
  }

  lemma {:induction false} SmallPower(a: nat, b: nat)
    requires a <= b
    ensures Pow2(a) <= Pow2(b)
    ensures Pow2(31) == 0x8000_0000
  {
    assert Pow2(8) == 0x100 by {
      assert Pow2(4) == 0x10;
    }
    assert Pow2(16) == 0x1_0000 by {
      assert Pow2(12) == 0x1000;
    }
    assert Pow2(24) == 0x100_0000 by {
      assert Pow2(20) == 0x10_0000;
    }
    assert Pow2(28) == 0x1000_0000;
    if a < b {
      SmallPower(a, b - 1);
    }
  }

  method ReadParameters(properties: bytes) returns (r: Result<Parameters>)
    ensures r == Parse(properties)
  {
    if properties == [] {
      return Err(BadProperties);
    }
    var p := properties;
    if |p| == 1 {
      p := p + [0];
    }
    var saltSize, ivSize := p[0] / 0x80 + p[1] / 0x10, (p[0] / 0x40) % 2 + p[1] % 0x10;
    if 2 + saltSize + ivSize > |p| {
      return Err(BadProperties);
    }
    r := Ok(Parameters(p[0] % 0x40, p[2..2 + saltSize], Fitted(p[2 + saltSize..2 + saltSize + ivSize], IV_SIZE)));
  }

  lemma RoundAdded(salt: bytes, password: bytes, i: nat)
    requires i < U64_LIMIT
    ensures Rounds(salt, password, i + 1) == Rounds(salt, password, i) + (salt + password + Le(i, 8))
  {
    hide Le;
    assert i % U64_LIMIT == i;
  }

  lemma ZeroCounter(salt: bytes, password: bytes, extra: bytes)
    requires |extra| == 8 && forall i :: 0 <= i < 8 ==> extra[i] == 0
    ensures extra == Le(0, 8) && Rounds(salt, password, 0) == []
  {
    AllZeroLe(8);
    assert extra == seq(8, i => 0);
  }

  lemma {:induction false} AllZeroLe(n: nat)
    ensures Le(0, n) == seq(n, i => 0)
  {
    if n > 0 {
      AllZeroLe(n - 1);
    }
  }

  method HashRounds(salt: bytes, password: bytes, n: nat) returns (hashed: bytes)
    requires n < 0x1_0000_0000
    ensures hashed == Rounds(salt, password, n)
  {
    hide Rounds, Le;
    hashed := [];
    var extra := new byte[8](i => 0);
    ZeroCounter(salt, password, extra[..]);
    for i := 0 to n
      invariant hashed == Rounds(salt, password, i) && extra[..] == Le(i, 8)
    {
      RoundAdded(salt, password, i);
      hashed := hashed + (salt + password + extra[..]);
      Increment(extra, i);
    }
  }
}
