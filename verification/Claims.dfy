/**
 The claim an agent signs, and its three independent 73-byte encoders:
 the gateway (`gateway/src/claim.rs`), the program (`programs/agentpay/src/lib.rs`)
 and the SDK (`sdk/src/claim.ts`).
 */
module Claims {
  import opened Bytes
  import opened Wrappers

  const CLAIM_DOMAIN: seq<Byte> := Ascii("agentpay:claim:v1")
  const CLAIM_MESSAGE_LEN: nat := 17 + 32 + 8 + 8 + 8
  const CLOCK_SKEW_TOLERANCE_SECS: int := 30

  const OFF_DOMAIN: nat := 0
  const OFF_SESSION: nat := 17
  const OFF_CUMULATIVE: nat := 49
  const OFF_NONCE: nat := 57
  const OFF_EXPIRY: nat := 65

  datatype Claim = Claim(session: Pubkey, cumulativeAmount: U64, nonce: U64, expiresAt: I64) {
    /** Past the expiry plus skew; an expiry too large to add the skew to is never past. */
    predicate IsExpired(now: I64) {
      if expiresAt + CLOCK_SKEW_TOLERANCE_SECS <= I64_MAX
      then now > expiresAt + CLOCK_SKEW_TOLERANCE_SECS
      else false
    }

    /** The gateway's encoder: five slices of a zeroed buffer. */
    method SigningBytes() returns (buf: array<Byte>)
      ensures fresh(buf) && buf[..] == BuildClaimMessage(session, cumulativeAmount, nonce, expiresAt)
    {
      buf := new Byte[CLAIM_MESSAGE_LEN](_ => 0);
      CopyInto(buf, OFF_DOMAIN, CLAIM_DOMAIN);
      CopyInto(buf, OFF_SESSION, session);
      CopyInto(buf, OFF_CUMULATIVE, U64Le(cumulativeAmount));
      CopyInto(buf, OFF_NONCE, U64Le(nonce));
      CopyInto(buf, OFF_EXPIRY, I64Le(expiresAt));
      assert buf[..] == buf[..73];
    }
  }

  /** Overwrites one region of a buffer and nothing else. */
  method CopyInto(buf: array<Byte>, off: nat, src: seq<Byte>)
    requires off + |src| <= buf.Length
    modifies buf
    ensures buf[off..off + |src|] == src
    ensures buf[..off + |src|] == old(buf[..off]) + src
    ensures forall i :: 0 <= i < buf.Length && !(off <= i < off + |src|) ==> buf[i] == old(buf[i])
  {
    for k := 0 to |src|
      invariant forall i :: 0 <= i < k ==> buf[off + i] == src[i]
      invariant forall i :: 0 <= i < buf.Length && !(off <= i < off + k) ==> buf[i] == old(buf[i])
    {
      buf[off + k] := src[k];
    }
    assert buf[..off] == old(buf[..off]) && buf[off..off + |src|] == src;
    assert buf[..off + |src|] == buf[..off] + buf[off..off + |src|];
  }

  lemma MessageFromRegions(buf: seq<Byte>, c: Claim)
    requires |buf| == CLAIM_MESSAGE_LEN
    requires buf[..17] == CLAIM_DOMAIN && buf[17..49] == c.session
    requires buf[49..57] == U64Le(c.cumulativeAmount) && buf[57..65] == U64Le(c.nonce)
    requires buf[65..73] == I64Le(c.expiresAt)
    ensures buf == MessageOf(c)
  {
    assert buf == buf[..17] + buf[17..49] + buf[49..57] + buf[57..65] + buf[65..73];
  }

  /** The program's encoder: five appended fields. */
  function BuildClaimMessage(session: Pubkey, cumulativeAmount: U64, nonce: U64, claimExpiresAt: I64): (msg: seq<Byte>)
    ensures |msg| == CLAIM_MESSAGE_LEN
  {
    CLAIM_DOMAIN + session + U64Le(cumulativeAmount) + U64Le(nonce) + I64Le(claimExpiresAt)
  }

  function MessageOf(c: Claim): seq<Byte> {
    BuildClaimMessage(c.session, c.cumulativeAmount, c.nonce, c.expiresAt)
  }

  datatype EncodeError = SessionNotThirtyTwoBytes | Negative | DoesNotFit

  /** Whether the SDK's untyped fields are a claim at all. */
  predicate EncodableFields(session: seq<Byte>, cumulativeAmount: int, nonce: int, expiresAt: int) {
    |session| == 32 && 0 <= cumulativeAmount <= U64_MAX && 0 <= nonce <= U64_MAX && I64_MIN <= expiresAt <= I64_MAX
  }

  /**
   The SDK's encoder: unbounded integers in, checked field by field, written at
   an advancing offset. The writers refuse what does not fit in 64 bits.
   */
  method ClaimMessage(session: seq<Byte>, cumulativeAmount: int, nonce: int, expiresAt: int)
      returns (r: Result<seq<Byte>, EncodeError>)
    ensures r.Ok? <==> EncodableFields(session, cumulativeAmount, nonce, expiresAt)
    ensures r.Ok? ==> r.value == BuildClaimMessage(session, cumulativeAmount, nonce, expiresAt)
    ensures r == Err(SessionNotThirtyTwoBytes) <==> |session| != 32
    ensures r == Err(Negative) <==> |session| == 32 && (cumulativeAmount < 0 || nonce < 0)
  {
    if |session| != 32 {
      return Err(SessionNotThirtyTwoBytes);
    }
    if cumulativeAmount < 0 || nonce < 0 {
      return Err(Negative);
    }
    var buf := new Byte[CLAIM_MESSAGE_LEN](_ => 0);
    var o := 0;
    CopyInto(buf, o, CLAIM_DOMAIN);
    o := o + |CLAIM_DOMAIN|;
    CopyInto(buf, o, session);
    o := o + 32;
    if cumulativeAmount > U64_MAX {
      return Err(DoesNotFit);
    }
    CopyInto(buf, o, U64Le(cumulativeAmount));
    o := o + 8;
    if nonce > U64_MAX {
      return Err(DoesNotFit);
    }
    CopyInto(buf, o, U64Le(nonce));
    o := o + 8;
    if expiresAt < I64_MIN || expiresAt > I64_MAX {
      return Err(DoesNotFit);
    }
    CopyInto(buf, o, I64Le(expiresAt));
    assert buf[..] == buf[..73];
    return Ok(buf[..]);
  }

  /** Reads a message back: 73 bytes under the claim domain, fields at fixed offsets. */
  function DecodeMessage(msg: seq<Byte>): Option<Claim> {
    if |msg| == CLAIM_MESSAGE_LEN && msg[..17] == CLAIM_DOMAIN
    then Some(Claim(msg[17..49], FromU64Le(msg[49..57]), FromU64Le(msg[57..65]), FromI64Le(msg[65..73])))
    else None
  }

  /** Encoding loses nothing: every claim, at every u64 and i64 value, is read back. */
  lemma DecodeInvertsEncode(c: Claim)
    ensures DecodeMessage(MessageOf(c)) == Some(c)
  {
    var m := MessageOf(c);
    assert m[..17] == CLAIM_DOMAIN && m[17..49] == c.session;
    assert m[49..57] == U64Le(c.cumulativeAmount) && m[57..65] == U64Le(c.nonce);
    assert m[65..73] == I64Le(c.expiresAt);
    U64RoundTrip(c.cumulativeAmount);
    U64RoundTrip(c.nonce);
    I64RoundTrip(c.expiresAt);
  }

  /** ... and every 73-byte string under the domain is the encoding of the claim it decodes to. */
  lemma EncodeInvertsDecode(msg: seq<Byte>)
    ensures DecodeMessage(msg).Some? ==> MessageOf(DecodeMessage(msg).value) == msg
  {
    if DecodeMessage(msg).Some? {
      U64EncodeDecode(msg[49..57]);
      U64EncodeDecode(msg[57..65]);
      I64EncodeDecode(msg[65..73]);
      MessageFromRegions(msg, DecodeMessage(msg).value);
    }
  }

  /** No two distinct claims share a signed message. */
  lemma MessageInjective(c: Claim, d: Claim)
    requires MessageOf(c) == MessageOf(d)
    ensures c == d
  {
    DecodeInvertsEncode(c);
    DecodeInvertsEncode(d);
  }

  /** Where each field of the 73 bytes sits, and the domain letter by letter. */
  lemma MessageLayout(c: Claim)
    ensures
      var m := MessageOf(c);
      && |m| == 73
      && m[..17] == [97, 103, 101, 110, 116, 112, 97, 121, 58, 99, 108, 97, 105, 109, 58, 118, 49]
      && m[17..49] == c.session
      && FromU64Le(m[49..57]) == c.cumulativeAmount
      && FromU64Le(m[57..65]) == c.nonce
      && FromI64Le(m[65..73]) == c.expiresAt
  {
    DecodeInvertsEncode(c);
    assert MessageOf(c)[..17] == CLAIM_DOMAIN;
    DomainLetters();
  }

  lemma DomainLetters()
    ensures CLAIM_DOMAIN == [97, 103, 101, 110, 116, 112, 97, 121, 58, 99, 108, 97, 105, 109, 58, 118, 49]
  {
    var text := "agentpay:claim:v1";
    assert |text| == 17;
    assert text == ['a', 'g', 'e', 'n', 't', 'p', 'a', 'y', ':', 'c', 'l', 'a', 'i', 'm', ':', 'v', '1'];
  }

  /** A claim is expired from the 31st second past its expiry on, and never when that is past the last second. */
  lemma ExpiredExactly(c: Claim, now: I64)
    ensures c.IsExpired(now) <==> c.expiresAt + 30 <= I64_MAX && c.expiresAt + 31 <= now
  {
  }
}
