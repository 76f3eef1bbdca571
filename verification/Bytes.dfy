/** Bytes, machine integers, and their fixed-width little-endian encodings. */
module Bytes {
  const U16_MAX: int := 0xFFFF
  const U32_MAX: int := 0xFFFF_FFFF
  const U64_MAX: int := 0xFFFF_FFFF_FFFF_FFFF
  const I64_MAX: int := 0x7FFF_FFFF_FFFF_FFFF
  const I64_MIN: int := -0x8000_0000_0000_0000

  type Byte = x: int | 0 <= x < 256
  type U16 = x: int | 0 <= x <= U16_MAX
  type U32 = x: int | 0 <= x <= U32_MAX
  type U64 = x: int | 0 <= x <= U64_MAX
  type I64 = x: int | I64_MIN <= x <= I64_MAX

  /** A 32-byte value: a SHA-256 digest or a public key. */
  type Bytes32 = s: seq<Byte> | |s| == 32 witness Zeros(32)
  type Signature = s: seq<Byte> | |s| == 64 witness Zeros(64)
  type Pubkey = Bytes32
  type Digest = Bytes32

  /** SHA-256, as an arbitrary function from byte strings to digests. */
  type Hash = seq<Byte> -> Digest

  function Zeros(n: nat): (s: seq<Byte>)
    ensures |s| == n
  {
    seq(n, _ => 0)
  }

  /** The bytes of an ASCII string. */
  function Ascii(s: string): (b: seq<Byte>)
    ensures |b| == |s|
  {
    seq(|s|, i requires 0 <= i < |s| => (s[i] as int) % 256)
  }

  /** 256 to the power k. */
  function Pow256(k: nat): (p: nat)
    ensures p >= 1
  {
    if k == 0 then 1 else 256 * Pow256(k - 1)
  }

  /** The k low bytes of n, least significant first (`to_le_bytes`). */
  function LittleEndian(n: nat, k: nat): (s: seq<Byte>)
    ensures |s| == k
    decreases n, k
  {
    if k == 0 then [] else [n % 256] + LittleEndian(n / 256, k - 1)
  }

  function FromLittleEndian(s: seq<Byte>): nat {
    if s == [] then 0 else s[0] + 256 * FromLittleEndian(s[1..])
  }

  lemma {:induction false} FromLittleEndianBound(s: seq<Byte>)
    ensures FromLittleEndian(s) < Pow256(|s|)
  {
    if s != [] {
      FromLittleEndianBound(s[1..]);
    }
  }

  lemma {:induction false} DecodeEncode(n: nat, k: nat)
    requires n < Pow256(k)
    ensures FromLittleEndian(LittleEndian(n, k)) == n
  {
    if k > 0 {
      DecodeEncode(n / 256, k - 1);
      assert LittleEndian(n, k)[1..] == LittleEndian(n / 256, k - 1);
    }
  }

  lemma {:induction false} EncodeDecode(s: seq<Byte>)
    ensures LittleEndian(FromLittleEndian(s), |s|) == s
  {
    if s != [] {
      EncodeDecode(s[1..]);
      var rest := FromLittleEndian(s[1..]);
      assert (s[0] + 256 * rest) % 256 == s[0] && (s[0] + 256 * rest) / 256 == rest;
    }
  }

  lemma Pow256Of8()
    ensures Pow256(8) == U64_MAX + 1
  {
    assert Pow256(4) == 0x1_0000_0000;
    assert Pow256(8) == 256 * (256 * (256 * (256 * Pow256(4))));
  }

  /** `u64::to_le_bytes`. */
  function U64Le(n: U64): (s: seq<Byte>)
    ensures |s| == 8
  {
    LittleEndian(n, 8)
  }

  function FromU64Le(s: seq<Byte>): (n: U64)
    requires |s| == 8
  {
    FromLittleEndianBound(s);
    Pow256Of8();
    FromLittleEndian(s)
  }

  /** The 64-bit two's-complement pattern of a signed integer. */
  function TwosComplement(x: I64): (n: U64) {
    if x < 0 then x + U64_MAX + 1 else x
  }

  function FromTwosComplement(n: U64): (x: I64) {
    if n > I64_MAX then n - U64_MAX - 1 else n
  }

  /** `i64::to_le_bytes`. */
  function I64Le(x: I64): (s: seq<Byte>)
    ensures |s| == 8
  {
    U64Le(TwosComplement(x))
  }

  function FromI64Le(s: seq<Byte>): (x: I64)
    requires |s| == 8
  {
    FromTwosComplement(FromU64Le(s))
  }

  /** Both integer encodings lose nothing, in either direction. */
  lemma U64RoundTrip(n: U64)
    ensures FromU64Le(U64Le(n)) == n
  {
    Pow256Of8();
    DecodeEncode(n, 8);
  }

  lemma U64EncodeDecode(s: seq<Byte>)
    requires |s| == 8
    ensures U64Le(FromU64Le(s)) == s
  {
    EncodeDecode(s);
  }

  lemma I64RoundTrip(x: I64)
    ensures FromI64Le(I64Le(x)) == x
  {
    U64RoundTrip(TwosComplement(x));
  }

  lemma I64EncodeDecode(s: seq<Byte>)
    requires |s| == 8
    ensures I64Le(FromI64Le(s)) == s
  {
    U64EncodeDecode(s);
  }

  // ---- which byte is worth what ----

  lemma Worth(s: seq<Byte>)
    requires s != []
    ensures FromLittleEndian(s) == s[0] + 256 * FromLittleEndian(s[1..])
  {
  }

  /** Eight bytes, the first worth least. */
  lemma U64LeWorth(s: seq<Byte>)
    requires |s| == 8
    ensures FromU64Le(s) == s[0] as int + 0x100 * s[1] as int + 0x1_0000 * s[2] as int + 0x100_0000 * s[3] as int
      + 0x1_0000_0000 * s[4] as int + 0x100_0000_0000 * s[5] as int
      + 0x1_0000_0000_0000 * s[6] as int + 0x100_0000_0000_0000 * s[7] as int
  {
    Worth(s);
    Worth(s[1..]);
    Worth(s[1..][1..]);
    Worth(s[1..][1..][1..]);
    Worth(s[1..][1..][1..][1..]);
    Worth(s[1..][1..][1..][1..][1..]);
    Worth(s[1..][1..][1..][1..][1..][1..]);
    Worth(s[1..][1..][1..][1..][1..][1..][1..]);
  }

  /** ... and for a signed number the same, less two to the 64th when the top bit is set. */
  lemma I64LeWorth(s: seq<Byte>)
    requires |s| == 8
    ensures FromI64Le(s) == FromU64Le(s) - (if s[7] >= 128 then 0x1_0000_0000_0000_0000 else 0)
  {
    U64LeWorth(s);
  }
}
