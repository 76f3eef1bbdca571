/**
 Base 58 as the SDK does it (`sdk/src/client.ts`): one big number, with each
 leading zero byte written as a leading '1'.
 */
module Base58 {
  import opened Bytes
  import opened Wrappers

  // ---- positional notation, in any base ----

  type Base = b: int | b >= 2 witness 2

  predicate DigitsOf(s: seq<nat>, base: Base) {
    forall i :: 0 <= i < |s| ==> s[i] < base
  }

  /** Most significant digit first. */
  function Value(s: seq<nat>, base: Base): nat {
    if s == [] then 0 else Value(s[..|s| - 1], base) * base + s[|s| - 1]
  }

  function Digits(n: nat, base: Base): (s: seq<nat>)
    ensures DigitsOf(s, base)
    ensures s == [] <==> n == 0
    ensures n > 0 ==> s[0] > 0
    decreases n
  {
    if n == 0 then [] else DivisionShrinks(n, base); Digits(n / base, base) + [n % base]
  }

  lemma DivisionShrinks(n: nat, base: Base)
    requires n > 0
    ensures 0 <= n / base < n
  {
  }

  lemma Divide(n: nat, base: Base)
    ensures (n / base) * base + n % base == n
  {
  }

  lemma LastDigit(s: seq<nat>, d: nat, base: Base)
    ensures Value(s + [d], base) == Value(s, base) * base + d
  {
    assert (s + [d])[..|s|] == s;
  }

  lemma {:induction false} ValueOfDigits(n: nat, base: Base)
    ensures Value(Digits(n, base), base) == n
    decreases n
  {
    if n > 0 {
      DivisionShrinks(n, base);
      ValueOfDigits(n / base, base);
      LastDigit(Digits(n / base, base), n % base, base);
      Divide(n, base);
    }
  }

  lemma MultipleIsFar(x: int, base: Base)
    ensures x >= 1 ==> x * base >= base as int
    ensures x <= -1 ==> x * base <= -(base as int)
  {
    if x >= 1 {
      assert x * base == base as int + (x - 1) * base;
    } else if x <= -1 {
      assert x * base == (x + 1) * base - base as int;
    }
  }

  lemma QuotientOf(q: nat, base: Base, d: nat)
    requires d < base
    ensures (q * base + d) / base == q && (q * base + d) % base == d
  {
    var n := q * base + d;
    Divide(n, base);
    assert (n / base - q) * base == d - n % base;
    MultipleIsFar(n / base - q, base);
  }

  lemma {:induction false} ValuePositive(s: seq<nat>, base: Base)
    requires s != [] && s[0] > 0
    ensures Value(s, base) > 0
  {
    if |s| > 1 {
      ValuePositive(s[..|s| - 1], base);
    }
  }

  /** A number's digits are the only ones that do not start with zero. */
  lemma {:induction false} DigitsOfValue(s: seq<nat>, base: Base)
    requires DigitsOf(s, base) && (s != [] ==> s[0] > 0)
    ensures Digits(Value(s, base), base) == s
  {
    if s != [] {
      var (init, last) := (s[..|s| - 1], s[|s| - 1]);
      ValuePositive(s, base);
      DigitsOfValue(init, base);
      QuotientOf(Value(init, base), base, last);
    }
  }

  // ---- leading zeros ----

  function LeadingZeros(s: seq<nat>): (k: nat)
    ensures k <= |s|
    ensures forall i :: 0 <= i < k ==> s[i] == 0
    ensures k < |s| ==> s[k] != 0
  {
    if s == [] || s[0] != 0 then 0 else 1 + LeadingZeros(s[1..])
  }

  function ZeroDigits(k: nat): (s: seq<nat>)
    ensures |s| == k && forall i :: 0 <= i < k ==> s[i] == 0
  {
    seq(k, _ => 0)
  }

  lemma {:induction false} ZerosAreWorthless(k: nat, s: seq<nat>, base: Base)
    ensures Value(ZeroDigits(k) + s, base) == Value(s, base)
    decreases |s|, k
  {
    var whole := ZeroDigits(k) + s;
    if s != [] {
      assert whole[..|whole| - 1] == ZeroDigits(k) + s[..|s| - 1];
      ZerosAreWorthless(k, s[..|s| - 1], base);
    } else if k > 0 {
      assert whole[..|whole| - 1] == ZeroDigits(k - 1) + [];
      ZerosAreWorthless(k - 1, [], base);
    }
  }

  lemma SplitZeros(s: seq<nat>)
    ensures s == ZeroDigits(LeadingZeros(s)) + s[LeadingZeros(s)..]
  {
  }

  lemma {:induction false} CountZeros(k: nat, s: seq<nat>)
    requires s != [] ==> s[0] != 0
    ensures LeadingZeros(ZeroDigits(k) + s) == k
  {
    var whole := ZeroDigits(k) + s;
    assert s != [] ==> whole[k] == s[0];
    assert forall i :: 0 <= i < k ==> whole[i] == 0;
  }

  /** Rewrites a string of digits in another base, keeping its leading zeros. */
  function Recode(s: seq<nat>, from: Base, to: Base): (r: seq<nat>)
    ensures DigitsOf(r, to)
  {
    ZeroDigits(LeadingZeros(s)) + Digits(Value(s, from), to)
  }

  /** Rewriting there and back is the identity, for any two bases. */
  lemma RecodeInverts(s: seq<nat>, from: Base, to: Base)
    requires DigitsOf(s, from)
    ensures Recode(Recode(s, from, to), to, from) == s
  {
    var (k, n) := (LeadingZeros(s), Value(s, from));
    var rest := s[k..];
    SplitZeros(s);
    ZerosAreWorthless(k, rest, from);
    CountZeros(k, Digits(n, to));
    ZerosAreWorthless(k, Digits(n, to), to);
    ValueOfDigits(n, to);
    DigitsOfValue(rest, from);
  }

  /** The digits written name the same number, behind as many zeros. */
  lemma RecodeKeepsNumber(s: seq<nat>, from: Base, to: Base)
    ensures Value(Recode(s, from, to), to) == Value(s, from)
    ensures LeadingZeros(Recode(s, from, to)) == LeadingZeros(s)
  {
    var (k, n) := (LeadingZeros(s), Value(s, from));
    CountZeros(k, Digits(n, to));
    ZerosAreWorthless(k, Digits(n, to), to);
    ValueOfDigits(n, to);
  }

  // ---- the alphabet ----

  /** Six runs of consecutive characters: the digits and letters without 0, O, I and l. */
  function CharAt(i: nat): char
    requires i < 58
  {
    if i < 9 then '1' + i as char
    else if i < 17 then 'A' + (i - 9) as char
    else if i < 22 then 'J' + (i - 17) as char
    else if i < 33 then 'P' + (i - 22) as char
    else if i < 44 then 'a' + (i - 33) as char
    else 'm' + (i - 44) as char
  }

  function Alphabet(): (table: string)
    ensures |table| == 58
    ensures forall i :: 0 <= i < 58 ==> table[i] == CharAt(i)
  {
    seq(58, i requires 0 <= i < 58 => CharAt(i))
  }

  const B58: string := Alphabet()

  /** The table, spelled out. */
  lemma TableReads()
    ensures B58 == "123456789" + "ABCDEFGH" + "JKLMN" + "PQRSTUVWXYZ" + "abcdefghijk" + "mnopqrstuvwxyz"
  {
    var (a, b, c, d, e, f) := ("123456789", "ABCDEFGH", "JKLMN", "PQRSTUVWXYZ", "abcdefghijk", "mnopqrstuvwxyz");
    assert B58[..9] == a;
    assert B58[9..17] == b;
    assert B58[17..22] == c;
    assert B58[22..33] == d;
    assert B58[33..44] == e;
    assert B58[44..] == f;
    assert B58 == B58[..9] + B58[9..17] + B58[17..22] + B58[22..33] + B58[33..44] + B58[44..];
  }

  /** `B58.indexOf(ch)`; None for -1. */
  function IndexOf(ch: char, table: string): (i: Option<nat>)
    ensures i.Some? ==> i.value < |table| && table[i.value] == ch
    ensures i.None? <==> ch !in table
  {
    if table == "" then None
    else if table[0] == ch then Some(0)
    else
      var later := IndexOf(ch, table[1..]);
      if later.None? then None else Some(later.value + 1)
  }

  function DigitChar(d: nat): char
    requires d < 58
  {
    B58[d]
  }

  lemma TableDistinct(i: nat, j: nat)
    requires i < 58 && j < 58 && B58[i] == B58[j]
    ensures i == j
  {
    assert CharAt(i) == CharAt(j);
  }

  lemma IndexOfChar(d: nat)
    requires d < 58
    ensures IndexOf(DigitChar(d), B58) == Some(d)
  {
    TableDistinct(d, IndexOf(B58[d], B58).value);
  }

  predicate IsBase58(s: string) {
    forall i :: 0 <= i < |s| ==> s[i] in B58
  }

  function CharDigits(s: string): (d: seq<nat>)
    requires IsBase58(s)
    ensures |d| == |s| && DigitsOf(d, 58)
    ensures forall i :: 0 <= i < |s| ==> B58[d[i]] == s[i]
  {
    seq(|s|, i requires 0 <= i < |s| => IndexOf(s[i], B58).value)
  }

  function DigitChars(d: seq<nat>): (s: string)
    requires DigitsOf(d, 58)
    ensures |s| == |d| && IsBase58(s)
    ensures forall i :: 0 <= i < |d| ==> s[i] == B58[d[i]]
  {
    seq(|d|, i requires 0 <= i < |d| => DigitChar(d[i]))
  }

  lemma CharsRoundTrip(d: seq<nat>)
    requires DigitsOf(d, 58)
    ensures CharDigits(DigitChars(d)) == d
  {
    forall i | 0 <= i < |d| ensures CharDigits(DigitChars(d))[i] == d[i] {
      IndexOfChar(d[i]);
    }
  }

  // ---- the codec ----

  function Octets(d: seq<nat>): (b: seq<Byte>)
    requires DigitsOf(d, 256)
    ensures |b| == |d| && forall i :: 0 <= i < |d| ==> b[i] == d[i]
  {
    seq(|d|, i requires 0 <= i < |d| => d[i] as Byte)
  }

  function Naturals(b: seq<Byte>): (d: seq<nat>)
    ensures |d| == |b| && DigitsOf(d, 256) && forall i :: 0 <= i < |b| ==> d[i] == b[i]
  {
    seq(|b|, i requires 0 <= i < |b| => b[i] as nat)
  }

  function Decoded(s: string): Option<seq<Byte>> {
    if IsBase58(s) then Some(Octets(Recode(CharDigits(s), 58, 256))) else None
  }

  /** The empty byte string is written "1", like a single zero byte. */
  function Encoded(b: seq<Byte>): string {
    var s := DigitChars(Recode(Naturals(b), 256, 58));
    if s == "" then "1" else s
  }

  lemma CharDigitsAppend(s: string, ch: char)
    requires IsBase58(s) && ch in B58
    ensures IsBase58(s + [ch]) && CharDigits(s + [ch]) == CharDigits(s) + [IndexOf(ch, B58).value]
  {
  }

  lemma ReadStep(s: string, i: nat)
    requires i < |s| && IsBase58(s[..i]) && s[i] in B58
    ensures IsBase58(s[..i + 1])
    ensures Value(CharDigits(s[..i + 1]), 58) == Value(CharDigits(s[..i]), 58) * 58 + IndexOf(s[i], B58).value
  {
    assert s[..i + 1] == s[..i] + [s[i]];
    CharDigitsAppend(s[..i], s[i]);
    LastDigit(CharDigits(s[..i]), IndexOf(s[i], B58).value, 58);
  }

  /** Reads the string as one number. */
  method ReadNumber(s: string) returns (n: Option<nat>)
    ensures n.Some? <==> IsBase58(s)
    ensures n.Some? ==> n.value == Value(CharDigits(s), 58)
  {
    var sum: nat := 0;
    for i := 0 to |s|
      invariant IsBase58(s[..i]) && sum == Value(CharDigits(s[..i]), 58)
    {
      var d := IndexOf(s[i], B58);
      if d.None? {
        return None;
      }
      ReadStep(s, i);
      sum := sum * 58 + d.value;
    }
    assert s[..|s|] == s;
    return Some(sum);
  }

  lemma OctetsAppend(s: seq<nat>, d: nat)
    requires DigitsOf(s, 256) && d < 256
    ensures Octets(s + [d]) == Octets(s) + [d as Byte]
  {
  }

  lemma CharsAppend(s: seq<nat>, d: nat)
    requires DigitsOf(s, 58) && d < 58
    ensures DigitChars(s + [d]) == DigitChars(s) + [DigitChar(d)]
  {
  }

  lemma NextOctet(n: nat)
    requires n > 0
    ensures Octets(Digits(n, 256)) == Octets(Digits(n / 256, 256)) + [(n % 256) as Byte]
  {
    DivisionShrinks(n, 256);
    OctetsAppend(Digits(n / 256, 256), n % 256);
  }

  lemma NextChar(n: nat)
    requires n > 0
    ensures DigitChars(Digits(n, 58)) == DigitChars(Digits(n / 58, 58)) + [DigitChar(n % 58)]
  {
    DivisionShrinks(n, 58);
    CharsAppend(Digits(n / 58, 58), n % 58);
  }

  /** A number's bytes, most significant first, each put in front of those below it. */
  method WriteBytes(n: nat) returns (bytes: seq<Byte>)
    ensures bytes == Octets(Digits(n, 256))
  {
    var rest := n;
    bytes := [];
    while rest > 0
      invariant Octets(Digits(n, 256)) == Octets(Digits(rest, 256)) + bytes
    {
      NextOctet(rest);
      DivisionShrinks(rest, 256);
      bytes := [(rest % 256) as Byte] + bytes;
      rest := rest / 256;
    }
  }

  function Ones(k: nat): (s: string)
    ensures |s| == k
  {
    seq(k, _ => '1')
  }

  lemma ZeroOctets(k: nat, s: seq<nat>)
    requires DigitsOf(s, 256)
    ensures Octets(ZeroDigits(k) + s) == Zeros(k) + Octets(s)
  {
  }

  lemma ZeroChars(k: nat, s: seq<nat>)
    requires DigitsOf(s, 58)
    ensures DigitChars(ZeroDigits(k) + s) == Ones(k) + DigitChars(s)
  {
    assert DigitChar(0) == '1';
  }

  /** The leading ones are the leading zero digits. */
  lemma OneMeansZero(s: string, i: nat)
    requires IsBase58(s) && i < |s|
    ensures CharDigits(s)[i] == 0 <==> s[i] == '1'
  {
    OneIsZero(s[i]);
  }

  lemma ZerosCounted(s: seq<nat>, k: nat)
    requires k <= |s| && (forall i :: 0 <= i < k ==> s[i] == 0) && (k < |s| ==> s[k] != 0)
    ensures k == LeadingZeros(s)
  {
  }

  /** Puts a zero byte in front for every leading one. */
  method PrependZeros(s: string, low: seq<Byte>) returns (bytes: seq<Byte>)
    requires IsBase58(s)
    ensures bytes == Zeros(LeadingZeros(CharDigits(s))) + low
  {
    bytes := low;
    var zeros := 0;
    while zeros < |s| && s[zeros] == '1'
      invariant zeros <= |s| && forall i :: 0 <= i < zeros ==> CharDigits(s)[i] == 0
      invariant bytes == Zeros(zeros) + low
    {
      OneMeansZero(s, zeros);
      bytes := [0] + bytes;
      zeros := zeros + 1;
    }
    if zeros < |s| {
      OneMeansZero(s, zeros);
    }
    ZerosCounted(CharDigits(s), zeros);
  }

  method Base58Decode(s: string) returns (r: Option<seq<Byte>>)
    ensures r == Decoded(s)
  {
    var n := ReadNumber(s);
    if n.None? {
      return None;
    }
    var bytes := WriteBytes(n.value);
    bytes := PrependZeros(s, bytes);
    ZeroOctets(LeadingZeros(CharDigits(s)), Digits(n.value, 256));
    return Some(bytes);
  }

  lemma OneIsZero(ch: char)
    ensures '1' in B58 && IndexOf('1', B58) == Some(0)
    ensures ch in B58 ==> (ch == '1' <==> IndexOf(ch, B58) == Some(0))
  {
    assert B58[0] == '1';
    IndexOfChar(0);
  }

  /** Reads the bytes as one number. */
  method ReadBytes(bytes: seq<Byte>) returns (n: nat)
    ensures n == Value(Naturals(bytes), 256)
  {
    n := 0;
    for i := 0 to |bytes|
      invariant n == Value(Naturals(bytes[..i]), 256)
    {
      assert Naturals(bytes[..i + 1]) == Naturals(bytes[..i]) + [bytes[i] as nat];
      LastDigit(Naturals(bytes[..i]), bytes[i], 256);
      n := n * 256 + bytes[i] as nat;
    }
    assert bytes[..|bytes|] == bytes;
  }

  lemma NextCharJoined(n: nat, out: string)
    requires n > 0
    ensures n / 58 >= 0 && DigitChars(Digits(n, 58)) + out == DigitChars(Digits(n / 58, 58)) + ([DigitChar(n % 58)] + out)
  {
    DivisionShrinks(n, 58);
    NextChar(n);
    Regroup(DigitChars(Digits(n / 58, 58)), [DigitChar(n % 58)], out);
  }

  lemma Regroup(a: string, b: string, c: string)
    ensures a + b + c == a + (b + c)
  {
  }

  method WriteNumber(n: nat) returns (out: string)
    ensures out == DigitChars(Digits(n, 58))
  {
    var rest := n;
    out := "";
    while rest > 0
      invariant DigitChars(Digits(n, 58)) == DigitChars(Digits(rest, 58)) + out
    {
      NextCharJoined(rest, out);
      DivisionShrinks(rest, 58);
      out := [DigitChar(rest % 58)] + out;
      rest := rest / 58;
    }
  }

  /** Puts a one in front for every leading zero byte. */
  method PrependOnes(bytes: seq<Byte>, low: string) returns (out: string)
    ensures out == Ones(LeadingZeros(Naturals(bytes))) + low
  {
    out := low;
    var zeros := 0;
    while zeros < |bytes| && bytes[zeros] == 0
      invariant zeros <= |bytes| && forall i :: 0 <= i < zeros ==> Naturals(bytes)[i] == 0
      invariant out == Ones(zeros) + low
    {
      out := "1" + out;
      zeros := zeros + 1;
    }
    ZerosCounted(Naturals(bytes), zeros);
  }

  method Base58Encode(bytes: seq<Byte>) returns (out: string)
    ensures out == Encoded(bytes)
  {
    var n := ReadBytes(bytes);
    out := WriteNumber(n);
    out := PrependOnes(bytes, out);
    ZeroChars(LeadingZeros(Naturals(bytes)), Digits(n, 58));
    if out == "" {
      out := "1";
    }
  }

  // ---- round trips ----

  lemma NonEmptyRecodes(s: seq<nat>, from: Base, to: Base)
    requires DigitsOf(s, from)
    ensures Recode(s, from, to) == [] <==> s == []
  {
    RecodeInverts(s, from, to);
  }

  /** Decoding inverts encoding exactly on the non-empty byte strings, leading zeros included. */
  lemma {:induction false} DecodeInvertsEncode(b: seq<Byte>)
    ensures Decoded(Encoded(b)) == Some(b) <==> b != []
  {
    var d := Naturals(b);
    NonEmptyRecodes(d, 256, 58);
    if b != [] {
      CharsRoundTrip(Recode(d, 256, 58));
      RecodeInverts(d, 256, 58);
      assert Octets(d) == b;
    } else {
      OneIsZero('1');
      assert CharDigits("1") == [0];
      assert LeadingZeros([0]) == 1;
    }
  }

  /** Encoding inverts decoding exactly on the non-empty strings over the alphabet. */
  lemma {:induction false} EncodeInvertsDecode(s: string)
    ensures Decoded(s).Some? <==> IsBase58(s)
    ensures Decoded(s).Some? ==> (Encoded(Decoded(s).value) == s <==> s != "")
  {
    if IsBase58(s) {
      var d := CharDigits(s);
      var b := Octets(Recode(d, 58, 256));
      assert Naturals(b) == Recode(d, 58, 256);
      RecodeInverts(d, 58, 256);
      assert DigitChars(d) == s;
    }
  }
}
