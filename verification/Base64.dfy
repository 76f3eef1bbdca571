/**
 The gateway's base64 decoder for the claim header (`gateway/src/routes.rs`), against
 the encoding of section 4 of RFC 4648.
 */
module Base64 {
  import opened Bytes
  import opened Wrappers

  // ---- the alphabet, as bytes ----

  const PAD: Byte := 61

  /** A-Z, a-z, 0-9, + and /. */
  function SymbolOf(v: nat): Byte
    requires v < 64
  {
    if v < 26 then 65 + v else if v < 52 then 97 + (v - 26) else if v < 62 then 48 + (v - 52) else if v == 62 then 43 else 47
  }

  /** The position of a byte in the alphabet. */
  function PositionOf(c: Byte): (v: Option<nat>)
    ensures v.Some? ==> v.value < 64 && SymbolOf(v.value) == c
    ensures v.None? ==> forall k :: 0 <= k < 64 ==> SymbolOf(k) != c
  {
    if 65 <= c < 91 then Some(c - 65)
    else if 97 <= c < 123 then Some(c - 97 + 26)
    else if 48 <= c < 58 then Some(c - 48 + 52)
    else if c == 43 then Some(62)
    else if c == 47 then Some(63)
    else None
  }

  lemma PositionOfSymbol(v: nat)
    requires v < 64
    ensures PositionOf(SymbolOf(v)) == Some(v)
  {
  }

  function UPPER(): string { "ABCDEFGHIJKLMNOPQRSTUVWXYZ" }
  function LOWER(): string { "abcdefghijklmnopqrstuvwxyz" }

  /** The table, spelled out. */
  lemma AlphabetReads(v: nat)
    requires v < 64
    ensures v < 26 ==> SymbolOf(v) == UPPER()[v] as int
    ensures 26 <= v < 52 ==> SymbolOf(v) == LOWER()[v - 26] as int
    ensures 52 <= v < 62 ==> SymbolOf(v) == "0123456789"[v - 52] as int
    ensures v >= 62 ==> SymbolOf(v) == "+/"[v - 62] as int
  {
  }

  // ---- the encoding ----

  /** The 24-bit group of one to three bytes, missing ones zero. */
  function Word(b: seq<Byte>): nat
    requires 1 <= |b| <= 3
  {
    b[0] as int * 65536 + (if |b| > 1 then b[1] as int * 256 else 0) + (if |b| > 2 then b[2] as int else 0)
  }

  /** The six bits of place i, highest first. */
  function Sextet(w: nat, i: nat): (v: nat)
    requires i < 4
    ensures v < 64
  {
    if i == 0 then (w / 262144) % 64 else if i == 1 then (w / 4096) % 64 else if i == 2 then (w / 64) % 64 else w % 64
  }

  /** One group's symbols, without padding. */
  function GroupSymbols(b: seq<Byte>): (s: seq<Byte>)
    requires 1 <= |b| <= 3
    ensures |s| == |b| + 1
  {
    seq(|b| + 1, i requires 0 <= i < |b| + 1 => SymbolOf(Sextet(Word(b), i)))
  }

  function Padding(n: nat): (s: seq<Byte>)
    ensures |s| == n
  {
    seq(n, _ => PAD)
  }

  /** Section 4 of RFC 4648. */
  function Encode(b: seq<Byte>): seq<Byte> {
    if b == [] then []
    else if |b| <= 3 then GroupSymbols(b) + Padding(3 - |b|)
    else GroupSymbols(b[..3]) + Encode(b[3..])
  }

  // ---- the decoder ----

  predicate IsIgnored(c: Byte) {
    c == 32 || c == 9 || c == 10 || c == 12 || c == 13 || c == PAD
  }

  /** What the filter keeps. */
  function Clean(s: seq<Byte>): seq<Byte> {
    if s == [] then [] else Clean(s[..|s| - 1]) + (if IsIgnored(s[|s| - 1]) then [] else [s[|s| - 1]])
  }

  predicate AllSymbols(s: seq<Byte>) {
    forall i :: 0 <= i < |s| ==> PositionOf(s[i]).Some?
  }

  function Weight(i: nat): nat {
    if i == 0 then 262144 else if i == 1 then 4096 else if i == 2 then 64 else 1
  }

  /** The bits collected from the first symbols of a chunk. */
  function Collected(chunk: seq<Byte>): nat
    requires |chunk| <= 4 && AllSymbols(chunk)
  {
    if chunk == [] then 0
    else Collected(chunk[..|chunk| - 1]) + PositionOf(chunk[|chunk| - 1]).value * Weight(|chunk| - 1)
  }

  function ChunkBytes(chunk: seq<Byte>): seq<Byte>
    requires 1 <= |chunk| <= 4 && AllSymbols(chunk)
  {
    var buf := Collected(chunk);
    [(buf / 65536) % 256] + (if |chunk| > 2 then [(buf / 256) % 256] else []) + (if |chunk| > 3 then [buf % 256] else [])
  }

  /** Chunks of four, the last one of whatever is left. */
  function DecodeChunks(clean: seq<Byte>): seq<Byte>
    requires AllSymbols(clean)
  {
    if clean == [] then []
    else if |clean| <= 4 then ChunkBytes(clean)
    else ChunkBytes(clean[..4]) + DecodeChunks(clean[4..])
  }

  function Decode(s: seq<Byte>): Option<seq<Byte>> {
    if AllSymbols(Clean(s)) then Some(DecodeChunks(Clean(s))) else None
  }

  method Filter(s: seq<Byte>) returns (clean: seq<Byte>)
    ensures clean == Clean(s)
  {
    clean := [];
    for i := 0 to |s|
      invariant clean == Clean(s[..i])
    {
      assert s[..i + 1][..i] == s[..i];
      if !IsIgnored(s[i]) {
        clean := clean + [s[i]];
      }
    }
    assert s[..|s|] == s;
  }

  /** One chunk's symbols packed into a 24-bit buffer; None at the first byte outside the alphabet. */
  method Collect(chunk: seq<Byte>) returns (buf: Option<nat>)
    requires |chunk| <= 4
    ensures buf.Some? <==> AllSymbols(chunk)
    ensures buf.Some? ==> buf.value == Collected(chunk)
  {
    var bits: nat := 0;
    for i := 0 to |chunk|
      invariant AllSymbols(chunk[..i]) && bits == Collected(chunk[..i])
    {
      var v := PositionOf(chunk[i]);
      if v.None? {
        return None;
      }
      assert chunk[..i + 1][..i] == chunk[..i];
      bits := bits + v.value * Weight(i);
    }
    assert chunk[..|chunk|] == chunk;
    return Some(bits);
  }

  method DecodeChunk(chunk: seq<Byte>) returns (bytes: Option<seq<Byte>>)
    requires 1 <= |chunk| <= 4
    ensures bytes.Some? <==> AllSymbols(chunk)
    ensures bytes.Some? ==> bytes.value == ChunkBytes(chunk)
  {
    var buf := Collect(chunk);
    if buf.None? {
      return None;
    }
    var out: seq<Byte> := [(buf.value / 65536) % 256];
    if |chunk| > 2 {
      out := out + [(buf.value / 256) % 256];
    }
    if |chunk| > 3 {
      out := out + [buf.value % 256];
    }
    return Some(out);
  }

  function ChunkLen(clean: seq<Byte>, i: nat): (n: nat)
    requires i < |clean|
    ensures 1 <= n <= 4 && i + n <= |clean|
  {
    if |clean| - i <= 4 then |clean| - i else 4
  }

  lemma ChunkFirst(clean: seq<Byte>, i: nat)
    requires AllSymbols(clean) && i < |clean|
    ensures
      var n := ChunkLen(clean, i);
      DecodeChunks(clean[i..]) == ChunkBytes(clean[i..i + n]) + DecodeChunks(clean[i + n..])
  {
    var (n, rest) := (ChunkLen(clean, i), clean[i..]);
    assert clean[i..i + n] == rest[..n];
    assert clean[i + n..] == rest[n..];
    if |rest| <= 4 {
      assert rest[..n] == rest && rest[n..] == [];
    }
  }

  lemma SymbolsSplit(a: seq<Byte>, i: nat, n: nat)
    requires i + n <= |a|
    ensures AllSymbols(a[..i + n]) <==> AllSymbols(a[..i]) && AllSymbols(a[i..i + n])
  {
    var (whole, chunk) := (a[..i + n], a[i..i + n]);
    assert forall k :: 0 <= k < i ==> whole[k] == a[..i][k];
    assert forall k :: 0 <= k < n ==> whole[i + k] == chunk[k];
    assert forall k :: i <= k < i + n ==> whole[k] == chunk[k - i];
  }

  /** The first i bytes are symbols, and if all are, what is decoded so far is the start of the whole. */
  predicate DecodedSoFar(clean: seq<Byte>, i: nat, out: seq<Byte>) {
    && i <= |clean| && AllSymbols(clean[..i])
    && (AllSymbols(clean) ==> DecodeChunks(clean) == out + DecodeChunks(clean[i..]))
  }

  lemma DecodedFurther(clean: seq<Byte>, i: nat, out: seq<Byte>, bytes: seq<Byte>)
    requires i < |clean| && DecodedSoFar(clean, i, out)
    requires AllSymbols(clean[i..i + ChunkLen(clean, i)]) && bytes == ChunkBytes(clean[i..i + ChunkLen(clean, i)])
    ensures DecodedSoFar(clean, i + ChunkLen(clean, i), out + bytes)
  {
    SymbolsSplit(clean, i, ChunkLen(clean, i));
    if AllSymbols(clean) {
      ChunkFirst(clean, i);
      assert out + (bytes + DecodeChunks(clean[i + ChunkLen(clean, i)..])) == out + bytes + DecodeChunks(clean[i + ChunkLen(clean, i)..]);
    }
  }

  lemma DecodedAll(clean: seq<Byte>, out: seq<Byte>)
    requires DecodedSoFar(clean, |clean|, out)
    ensures AllSymbols(clean) && out == DecodeChunks(clean)
  {
    assert clean[..|clean|] == clean && clean[|clean|..] == [];
  }

  method Base64Decode(s: seq<Byte>) returns (r: Option<seq<Byte>>)
    ensures r == Decode(s)
  {
    var clean := Filter(s);
    var out: seq<Byte> := [];
    var i := 0;
    assert clean[0..] == clean;
    while i < |clean|
      invariant 0 <= i <= |clean| && DecodedSoFar(clean, i, out)
    {
      var n := ChunkLen(clean, i);
      var bytes := DecodeChunk(clean[i..i + n]);
      if bytes.None? {
        BadChunk(clean, i, n);
        return None;
      }
      DecodedFurther(clean, i, out, bytes.value);
      out := out + bytes.value;
      i := i + n;
    }
    DecodedAll(clean, out);
    return Some(out);
  }

  lemma BadChunk(clean: seq<Byte>, i: nat, n: nat)
    requires i + n <= |clean| && !AllSymbols(clean[i..i + n])
    ensures !AllSymbols(clean)
  {
    var k :| 0 <= k < n && PositionOf(clean[i..i + n][k]).None?;
    assert clean[i + k] == clean[i..i + n][k];
  }

  // ---- the round trip ----

  lemma {:induction false} CleanSplits(a: seq<Byte>, b: seq<Byte>)
    ensures Clean(a + b) == Clean(a) + Clean(b)
    decreases |b|
  {
    if b == [] {
      assert a + b == a;
    } else {
      CleanSplits(a, b[..|b| - 1]);
      assert (a + b)[..|a + b| - 1] == a + b[..|b| - 1];
    }
  }

  lemma {:induction false} CleanKeeps(s: seq<Byte>)
    requires AllSymbols(s)
    ensures Clean(s) == s
  {
    if s != [] {
      CleanKeeps(s[..|s| - 1]);
    }
  }

  lemma {:induction false} CleanDropsPadding(n: nat)
    ensures Clean(Padding(n)) == []
  {
    if n > 0 {
      assert Padding(n)[..n - 1] == Padding(n - 1);
      CleanDropsPadding(n - 1);
    }
  }

  lemma GroupIsSymbols(b: seq<Byte>)
    requires 1 <= |b| <= 3
    ensures AllSymbols(GroupSymbols(b))
  {
  }

  /** The symbols without any padding. */
  function Symbols(b: seq<Byte>): seq<Byte> {
    if b == [] then [] else if |b| <= 3 then GroupSymbols(b) else GroupSymbols(b[..3]) + Symbols(b[3..])
  }

  lemma {:induction false} CleanOfEncoding(b: seq<Byte>)
    ensures AllSymbols(Symbols(b)) && Clean(Encode(b)) == Symbols(b)
  {
    if b != [] {
      var n := if |b| <= 3 then |b| else 3;
      GroupIsSymbols(b[..n]);
      CleanKeeps(GroupSymbols(b[..n]));
      if |b| <= 3 {
        assert b[..n] == b;
        CleanDropsPadding(3 - n);
        CleanSplits(GroupSymbols(b), Padding(3 - n));
      } else {
        CleanOfEncoding(b[3..]);
        CleanSplits(GroupSymbols(b[..3]), Encode(b[3..]));
      }
    }
  }

  lemma CollectedStep(b: seq<Byte>, k: nat)
    requires 1 <= |b| <= 3 && k <= |b| && AllSymbols(GroupSymbols(b))
    ensures Collected(GroupSymbols(b)[..k + 1]) == Collected(GroupSymbols(b)[..k]) + Sextet(Word(b), k) * Weight(k)
  {
    var s := GroupSymbols(b);
    assert s[..k + 1][..k] == s[..k];
    PositionOfSymbol(Sextet(Word(b), k));
  }

  lemma SixBitsOf(w: nat)
    requires w < 0x1_000000
    ensures w == Sextet(w, 0) * 262144 + Sextet(w, 1) * 4096 + Sextet(w, 2) * 64 + Sextet(w, 3)
  {
    assert w / 262144 < 64;
    assert w / 4096 == (w / 262144) * 64 + (w / 4096) % 64;
    assert w / 64 == (w / 4096) * 64 + (w / 64) % 64;
  }

  /** A group of fewer bytes leaves the low places empty. */
  lemma WordShape(b: seq<Byte>)
    requires 1 <= |b| <= 3
    ensures Word(b) < 0x1_000000
    ensures |b| == 1 ==> Sextet(Word(b), 2) == 0 && Sextet(Word(b), 3) == 0
    ensures |b| == 2 ==> Sextet(Word(b), 3) == 0
  {
    var w := Word(b);
    if |b| == 1 {
      assert w == 64 * (b[0] as int * 1024) && b[0] as int * 1024 == 64 * (b[0] as int * 16);
    } else if |b| == 2 {
      assert w == 64 * (b[0] as int * 1024 + b[1] as int * 4);
    }
  }

  lemma FirstTwoCollected(b: seq<Byte>)
    requires 1 <= |b| <= 3 && AllSymbols(GroupSymbols(b))
    ensures Collected(GroupSymbols(b)[..2]) == Sextet(Word(b), 0) * 262144 + Sextet(Word(b), 1) * 4096
  {
    CollectedStep(b, 0);
    CollectedStep(b, 1);
    assert GroupSymbols(b)[..0] == [];
  }

  lemma AllCollected(b: seq<Byte>)
    requires 1 <= |b| <= 3 && AllSymbols(GroupSymbols(b))
    ensures Collected(GroupSymbols(b)) == Sextet(Word(b), 0) * 262144 + Sextet(Word(b), 1) * 4096
      + (if |b| > 1 then Sextet(Word(b), 2) * 64 else 0) + (if |b| > 2 then Sextet(Word(b), 3) else 0)
  {
    var s := GroupSymbols(b);
    FirstTwoCollected(b);
    if |b| > 1 {
      CollectedStep(b, 2);
    }
    if |b| > 2 {
      CollectedStep(b, 3);
    }
    assert s[..|s|] == s;
  }

  /** What the decoder collects from a group's symbols is the group's 24-bit word. */
  lemma CollectedIsWord(b: seq<Byte>)
    requires 1 <= |b| <= 3
    ensures AllSymbols(GroupSymbols(b)) && Collected(GroupSymbols(b)) == Word(b)
  {
    GroupIsSymbols(b);
    AllCollected(b);
    WordShape(b);
    SixBitsOf(Word(b));
  }

  lemma BytesOfWord(b: seq<Byte>)
    requires 1 <= |b| <= 3
    ensures (Word(b) / 65536) % 256 == b[0]
    ensures |b| > 1 ==> (Word(b) / 256) % 256 == b[1]
    ensures |b| > 2 ==> Word(b) % 256 == b[2]
  {
    var w := Word(b);
    var (hi, mid, lo) := (b[0] as int, if |b| > 1 then b[1] as int else 0, if |b| > 2 then b[2] as int else 0);
    assert w == 256 * (256 * hi + mid) + lo;
    assert w / 256 == 256 * hi + mid;
    assert w / 65536 == hi;
  }

  /** Each symbol's six bits, from the bytes: the first takes the top six of the first byte, and so on across. */
  lemma SymbolsOfGroup(b: seq<Byte>)
    requires 1 <= |b| <= 3
    ensures
      var (x, s) := (b[0] as int, GroupSymbols(b));
      var y := if |b| > 1 then b[1] as int else 0;
      var z := if |b| > 2 then b[2] as int else 0;
      && s[0] == SymbolOf(x / 4)
      && s[1] == SymbolOf(x % 4 * 16 + y / 16)
      && (|b| > 1 ==> s[2] == SymbolOf(y % 16 * 4 + z / 64))
      && (|b| > 2 ==> s[3] == SymbolOf(z % 64))
  {
    var (x, y, z) := (b[0] as int, if |b| > 1 then b[1] as int else 0, if |b| > 2 then b[2] as int else 0);
    SextetsOfBytes(x, y, z);
  }

  lemma SextetsOfBytes(x: nat, y: nat, z: nat)
    requires x < 256 && y < 256 && z < 256
    ensures
      var w := x * 65536 + y * 256 + z;
      Sextet(w, 0) == x / 4 && Sextet(w, 1) == x % 4 * 16 + y / 16 && Sextet(w, 2) == y % 16 * 4 + z / 64 && Sextet(w, 3) == z % 64
  {
    var (x', y', z') := (x / 4, y / 16, z / 64);
    assert x == 4 * x' + x % 4 && y == 16 * y' + y % 16 && z == 64 * z' + z % 64;
    SextetsOfParts(x', x % 4 * 16 + y', y % 16 * 4 + z', z % 64);
  }

  lemma SextetsOfParts(a: nat, b: nat, c: nat, d: nat)
    requires a < 64 && b < 64 && c < 64 && d < 64
    ensures
      var w := a * 262144 + b * 4096 + c * 64 + d;
      Sextet(w, 0) == a && Sextet(w, 1) == b && Sextet(w, 2) == c && Sextet(w, 3) == d
  {
    var w := a * 262144 + b * 4096 + c * 64 + d;
    assert w / 64 == a * 4096 + b * 64 + c;
    assert w / 4096 == a * 64 + b;
    assert w / 262144 == a;
  }

  /** Three bytes make four symbols; a last one or two make two or three, padded to four with `=`. */
  lemma EncodesByGroups(b: seq<Byte>)
    ensures b == [] ==> Encode(b) == []
    ensures |b| == 1 ==> Encode(b) == GroupSymbols(b) + [61, 61]
    ensures |b| == 2 ==> Encode(b) == GroupSymbols(b) + [61]
    ensures |b| >= 3 ==> Encode(b) == GroupSymbols(b[..3]) + Encode(b[3..])
  {
    if |b| == 3 {
      assert b[..3] == b && b[3..] == [];
    } else if 0 < |b| < 3 {
      assert Padding(3 - |b|) == if |b| == 1 then [61, 61] else [61];
    }
  }

  lemma GroupRoundTrip(b: seq<Byte>)
    requires 1 <= |b| <= 3
    ensures AllSymbols(GroupSymbols(b)) && ChunkBytes(GroupSymbols(b)) == b
  {
    CollectedIsWord(b);
    BytesOfWord(b);
  }

  lemma {:induction false} ChunksOfSymbols(b: seq<Byte>)
    ensures AllSymbols(Symbols(b)) && DecodeChunks(Symbols(b)) == b
  {
    CleanOfEncoding(b);
    if b != [] {
      if |b| <= 3 {
        GroupRoundTrip(b);
      } else {
        GroupRoundTrip(b[..3]);
        ChunksOfSymbols(b[3..]);
        var (head, tail) := (GroupSymbols(b[..3]), Symbols(b[3..]));
        assert (head + tail)[..4] == head && (head + tail)[4..] == tail;
      }
    }
  }

  /** Decoding inverts the standard encoding, for every byte string. */
  lemma DecodeInvertsEncode(b: seq<Byte>)
    ensures Decode(Encode(b)) == Some(b)
  {
    CleanOfEncoding(b);
    ChunksOfSymbols(b);
  }

  /** ... and still does with the padding left off, or with white space and padding anywhere in between. */
  lemma DecodeIgnoresLayout(b: seq<Byte>, text: seq<Byte>)
    requires Clean(text) == Clean(Encode(b))
    ensures Decode(text) == Some(b)
  {
    DecodeInvertsEncode(b);
  }

  /** The decoder refuses a text exactly when some byte is neither ignored nor in the alphabet. */
  lemma {:induction false} RefusesExactly(s: seq<Byte>)
    ensures Decode(s).None? <==> exists i :: 0 <= i < |s| && s[i] !in [9, 10, 12, 13, 32, 61] && PositionOf(s[i]).None?
  {
    SymbolsOfClean(s);
  }

  lemma {:induction false} SymbolsOfClean(s: seq<Byte>)
    ensures AllSymbols(Clean(s)) <==> forall i :: 0 <= i < |s| ==> IsIgnored(s[i]) || PositionOf(s[i]).Some?
  {
    if s != [] {
      var (init, last) := (s[..|s| - 1], s[|s| - 1]);
      SymbolsOfClean(init);
      assert !IsIgnored(last) ==> Clean(s)[|Clean(init)|] == last;
      assert forall i :: 0 <= i < |Clean(init)| ==> Clean(s)[i] == Clean(init)[i];
    }
  }
  /** The symbol at position i, and nothing past the end. */
  function PartAt(clean: seq<Byte>, i: nat): (v: nat)
    requires AllSymbols(clean)
    ensures v < 64
  {
    if i < |clean| then PositionOf(clean[i]).value else 0
  }

  lemma CollectedParts(chunk: seq<Byte>)
    requires 1 <= |chunk| <= 4 && AllSymbols(chunk)
    ensures Collected(chunk) == PartAt(chunk, 0) * 262144 + PartAt(chunk, 1) * 4096 + PartAt(chunk, 2) * 64 + PartAt(chunk, 3)
  {
    assert chunk[..1][..0] == [];
    if |chunk| > 1 {
      assert chunk[..2][..1] == chunk[..1];
    }
    if |chunk| > 2 {
      assert chunk[..3][..2] == chunk[..2];
    }
    assert chunk[..|chunk|] == chunk;
  }

  lemma BytesOfParts(p: nat, q: nat, r: nat, s: nat)
    requires p < 64 && q < 64 && r < 64 && s < 64
    ensures
      var buf := p * 262144 + q * 4096 + r * 64 + s;
      && buf / 65536 % 256 == p * 4 + q / 16
      && buf / 256 % 256 == q % 16 * 16 + r / 4
      && buf % 256 == r % 4 * 64 + s
  {
    var (x, y, z) := (p * 4 + q / 16, q % 16 * 16 + r / 4, r % 4 * 64 + s);
    assert p * 262144 + q * 4096 + r * 64 + s == x * 65536 + y * 256 + z;
    ThreeDigits(x, y, z);
  }

  lemma ThreeDigits(x: nat, y: nat, z: nat)
    requires x < 256 && y < 256 && z < 256
    ensures
      var n := x * 65536 + y * 256 + z;
      n / 65536 % 256 == x && n / 256 % 256 == y && n % 256 == z
  {
    LastByte(x * 256 + y, z);
    LastByte(x, y);
    assert (x * 256 + y) * 256 + z == x * 65536 + y * 256 + z;
    assert (x * 65536 + y * 256 + z) / 65536 == x;
  }

  lemma LastByte(q: nat, r: nat)
    requires r < 256
    ensures (q * 256 + r) / 256 == q && (q * 256 + r) % 256 == r
  {
  }

  /** Each byte takes its bits from two symbols; one symbol alone still makes a byte, and a longer group one byte fewer than it has symbols. */
  lemma BytesOfChunk(chunk: seq<Byte>)
    requires 1 <= |chunk| <= 4 && AllSymbols(chunk)
    ensures
      var (p, q, r, s) := (PartAt(chunk, 0), PartAt(chunk, 1), PartAt(chunk, 2), PartAt(chunk, 3));
      var whole := [p * 4 + q / 16, q % 16 * 16 + r / 4, r % 4 * 64 + s];
      ChunkBytes(chunk) == whole[..if |chunk| == 1 then 1 else |chunk| - 1]
  {
    CollectedParts(chunk);
    BytesOfParts(PartAt(chunk, 0), PartAt(chunk, 1), PartAt(chunk, 2), PartAt(chunk, 3));
  }
}
