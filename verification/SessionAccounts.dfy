/**
 The on-chain session account's byte layout in its two versions, and the
 reconciliation the gateway does against it (`gateway/src/chain.rs`). The program
 writes its struct field by field after an 8-byte discriminator
 (`programs/agentpay/src/lib.rs`).
 */
module SessionAccounts {
  import opened Bytes
  import opened Wrappers

  const SESSION_DISCRIMINATOR: seq<Byte> := [243, 81, 72, 115, 214, 188, 72, 144]
  const SESSION_ACCOUNT_LEN_V1: nat := 187
  const SESSION_ACCOUNT_LEN_V2: nat := 219

  type SessionId = s: seq<Byte> | |s| == 16 witness Zeros(16)

  /** A v1 account has no settlement authority at all. */
  datatype SessionAccount = SessionAccount(
    agent: Pubkey, provider: Pubkey, settlementAuthority: Option<Pubkey>, mint: Pubkey, vault: Pubkey,
    depositedTotal: U64, cumulativeSettled: U64, refundedTotal: U64, expiresAt: I64,
    sessionId: SessionId, bump: Byte, vaultBump: Byte, isSettled: bool)

  datatype VerificationError =
    | RpcUnavailable | AccountNotFound | WrongProgramOwner | InvalidAccountData(len: nat) | NotASessionAccount
    | AlreadySettled | DepositMismatch | FieldMismatch(field: string)

  /** The part both versions share, after provider and authority. */
  function Tail(a: SessionAccount): (s: seq<Byte>)
    ensures |s| == 115
  {
    a.mint + a.vault + U64Le(a.depositedTotal) + U64Le(a.cumulativeSettled) + U64Le(a.refundedTotal)
    + I64Le(a.expiresAt) + a.sessionId + [a.bump, a.vaultBump, if a.isSettled then 1 else 0]
  }

  /** What the program writes. */
  function Serialize(a: SessionAccount): (s: seq<Byte>)
    ensures |s| == if a.settlementAuthority.Some? then SESSION_ACCOUNT_LEN_V2 else SESSION_ACCOUNT_LEN_V1
  {
    SESSION_DISCRIMINATOR + a.agent + a.provider
    + (if a.settlementAuthority.Some? then a.settlementAuthority.value else []) + Tail(a)
  }

  /** One offset table per version, chosen by the exact length. */
  function Parse(data: seq<Byte>): Result<SessionAccount, VerificationError> {
    if |data| < 8 then Err(InvalidAccountData(|data|))
    else if data[..8] != SESSION_DISCRIMINATOR then Err(NotASessionAccount)
    else if |data| == SESSION_ACCOUNT_LEN_V1 then
      if data[186] > 1 then Err(NotASessionAccount)
      else Ok(SessionAccount(
        data[8..40], data[40..72], None, data[72..104], data[104..136],
        FromU64Le(data[136..144]), FromU64Le(data[144..152]), FromU64Le(data[152..160]), FromI64Le(data[160..168]),
        data[168..184], data[184], data[185], data[186] == 1))
    else if |data| == SESSION_ACCOUNT_LEN_V2 then
      if data[218] > 1 then Err(NotASessionAccount)
      else Ok(SessionAccount(
        data[8..40], data[40..72], Some(data[72..104]), data[104..136], data[136..168],
        FromU64Le(data[168..176]), FromU64Le(data[176..184]), FromU64Le(data[184..192]), FromI64Le(data[192..200]),
        data[200..216], data[216], data[217], data[218] == 1))
    else Err(InvalidAccountData(|data|))
  }

  /** Where each field of the shared tail sits, in whatever it ends. */
  lemma TailRegions(d: seq<Byte>, o: nat, a: SessionAccount)
    requires |d| == o + 115 && d[o..] == Tail(a)
    ensures d[o..o + 32] == a.mint && d[o + 32..o + 64] == a.vault
    ensures d[o + 64..o + 72] == U64Le(a.depositedTotal) && d[o + 72..o + 80] == U64Le(a.cumulativeSettled)
    ensures d[o + 80..o + 88] == U64Le(a.refundedTotal) && d[o + 88..o + 96] == I64Le(a.expiresAt)
    ensures d[o + 96..o + 112] == a.sessionId
    ensures d[o + 112] == a.bump && d[o + 113] == a.vaultBump && d[o + 114] == (if a.isSettled then 1 else 0)
  {
    var t := Tail(a);
    assert t[..32] == a.mint && t[32..64] == a.vault;
    assert t[64..72] == U64Le(a.depositedTotal) && t[72..80] == U64Le(a.cumulativeSettled);
    assert t[80..88] == U64Le(a.refundedTotal) && t[88..96] == I64Le(a.expiresAt);
    assert t[96..112] == a.sessionId && t[112..] == [a.bump, a.vaultBump, if a.isSettled then 1 else 0];
    assert d[o..][112] == t[112..][0] && d[o..][113] == t[112..][1] && d[o..][114] == t[112..][2];
  }

  lemma NumbersRoundTrip(a: SessionAccount)
    ensures FromU64Le(U64Le(a.depositedTotal)) == a.depositedTotal
    ensures FromU64Le(U64Le(a.cumulativeSettled)) == a.cumulativeSettled
    ensures FromU64Le(U64Le(a.refundedTotal)) == a.refundedTotal
    ensures FromI64Le(I64Le(a.expiresAt)) == a.expiresAt
  {
    U64RoundTrip(a.depositedTotal);
    U64RoundTrip(a.cumulativeSettled);
    U64RoundTrip(a.refundedTotal);
    I64RoundTrip(a.expiresAt);
  }

  lemma ParseSerializeV1(a: SessionAccount)
    requires a.settlementAuthority.None?
    ensures Parse(Serialize(a)) == Ok(a)
  {
    var d := Serialize(a);
    NumbersRoundTrip(a);
    assert d[..8] == SESSION_DISCRIMINATOR && d[8..40] == a.agent && d[40..72] == a.provider;
    TailRegions(d, 72, a);
  }

  lemma ParseSerializeV2(a: SessionAccount)
    requires a.settlementAuthority.Some?
    ensures Parse(Serialize(a)) == Ok(a)
  {
    var d := Serialize(a);
    NumbersRoundTrip(a);
    assert d[..8] == SESSION_DISCRIMINATOR && d[8..40] == a.agent && d[40..72] == a.provider;
    assert d[72..104] == a.settlementAuthority.value;
    TailRegions(d, 104, a);
  }

  /** Whatever session the program writes, of either version, the gateway reads exactly that session. */
  lemma ParseInvertsSerialize(a: SessionAccount)
    ensures Parse(Serialize(a)) == Ok(a)
  {
    if a.settlementAuthority.None? {
      ParseSerializeV1(a);
    } else {
      ParseSerializeV2(a);
    }
  }

  /** Where every field of either version sits, the settlement authority of version 2 after the provider. */
  lemma AccountLayout(a: SessionAccount)
    ensures
      var (d, v2) := (Serialize(a), a.settlementAuthority.Some?);
      var o := if v2 then 104 else 72;
      && |d| == o + 115
      && d[..8] == [243, 81, 72, 115, 214, 188, 72, 144]
      && d[8..40] == a.agent && d[40..72] == a.provider && (v2 ==> d[72..104] == a.settlementAuthority.value)
      && d[o..o + 32] == a.mint && d[o + 32..o + 64] == a.vault
      && FromU64Le(d[o + 64..o + 72]) == a.depositedTotal && FromU64Le(d[o + 72..o + 80]) == a.cumulativeSettled
      && FromU64Le(d[o + 80..o + 88]) == a.refundedTotal && FromI64Le(d[o + 88..o + 96]) == a.expiresAt
      && d[o + 96..o + 112] == a.sessionId
      && d[o + 112] == a.bump && d[o + 113] == a.vaultBump && d[o + 114] == (if a.isSettled then 1 else 0)
  {
    var d := Serialize(a);
    NumbersRoundTrip(a);
    assert d[..8] == SESSION_DISCRIMINATOR && d[8..40] == a.agent && d[40..72] == a.provider;
    if a.settlementAuthority.Some? {
      assert d[72..104] == a.settlementAuthority.value;
      TailRegions(d, 104, a);
    } else {
      TailRegions(d, 72, a);
    }
  }

  lemma TailOfRegions(d: seq<Byte>, o: nat, a: SessionAccount)
    requires |d| == o + 115
    requires d[o..o + 32] == a.mint && d[o + 32..o + 64] == a.vault
    requires d[o + 64..o + 72] == U64Le(a.depositedTotal) && d[o + 72..o + 80] == U64Le(a.cumulativeSettled)
    requires d[o + 80..o + 88] == U64Le(a.refundedTotal) && d[o + 88..o + 96] == I64Le(a.expiresAt)
    requires d[o + 96..o + 112] == a.sessionId
    requires d[o + 112] == a.bump && d[o + 113] == a.vaultBump && d[o + 114] == (if a.isSettled then 1 else 0)
    ensures d[o..] == Tail(a)
  {
    assert d[o..] == d[o..o + 32] + d[o + 32..o + 64] + d[o + 64..o + 72] + d[o + 72..o + 80]
      + d[o + 80..o + 88] + d[o + 88..o + 96] + d[o + 96..o + 112] + [d[o + 112], d[o + 113], d[o + 114]];
  }

  /** Bytes that parse are what the program would write for the parsed session: no two layouts overlap. */
  lemma SerializeInvertsParse(data: seq<Byte>)
    ensures Parse(data).Ok? ==> Serialize(Parse(data).value) == data
  {
    if Parse(data).Ok? {
      var a := Parse(data).value;
      var o := if a.settlementAuthority.Some? then 104 else 72;
      U64EncodeDecode(data[o + 64..o + 72]);
      U64EncodeDecode(data[o + 72..o + 80]);
      U64EncodeDecode(data[o + 80..o + 88]);
      I64EncodeDecode(data[o + 88..o + 96]);
      TailOfRegions(data, o, a);
      assert data == data[..8] + data[8..40] + data[40..72] + data[72..o] + data[o..];
    }
  }

  // ---- reconciliation ----

  datatype ClaimedSession = ClaimedSession(agent: Pubkey, provider: Pubkey, mint: Pubkey, depositedTotal: U64, expiresAt: I64)

  datatype Fetched = Unreachable | Missing | Found(owner: Pubkey, data: seq<Byte>)

  function VerifyOnChainSession(fetched: Fetched, programId: Pubkey, legacyProgramId: Option<Pubkey>, claimed: ClaimedSession): Result<SessionAccount, VerificationError> {
    match fetched
    case Unreachable => Err(RpcUnavailable)
    case Missing => Err(AccountNotFound)
    case Found(owner, data) =>
      if !(owner == programId || legacyProgramId == Some(owner)) then Err(WrongProgramOwner)
      else
        match Parse(data)
        case Err(e) => Err(e)
        case Ok(account) =>
          if account.isSettled then Err(AlreadySettled)
          else if account.depositedTotal != claimed.depositedTotal then Err(DepositMismatch)
          else if account.agent != claimed.agent then Err(FieldMismatch("agent"))
          else if account.provider != claimed.provider then Err(FieldMismatch("provider"))
          else if account.mint != claimed.mint then Err(FieldMismatch("mint"))
          else if account.expiresAt != claimed.expiresAt then Err(FieldMismatch("expires_at"))
          else Ok(account)
  }

  /**
   A session reconciles exactly when one of the two known programs holds, at that
   address, an unsettled session with the claimed terms; and what is returned is
   the session the program wrote.
   */
  lemma ReconcilesExactly(fetched: Fetched, programId: Pubkey, legacyProgramId: Option<Pubkey>, claimed: ClaimedSession, a: SessionAccount)
    ensures VerifyOnChainSession(fetched, programId, legacyProgramId, claimed) == Ok(a) <==>
      && fetched.Found? && (fetched.owner == programId || legacyProgramId == Some(fetched.owner))
      && fetched.data == Serialize(a)
      && !a.isSettled
      && claimed == ClaimedSession(a.agent, a.provider, a.mint, a.depositedTotal, a.expiresAt)
  {
    if fetched.Found? {
      SerializeInvertsParse(fetched.data);
      ParseInvertsSerialize(a);
    }
  }
  /** Which disagreement is reported, when one of the two programs holds a session there. */
  lemma ReconcileAnswers(owner: Pubkey, programId: Pubkey, legacyProgramId: Option<Pubkey>, claimed: ClaimedSession, a: SessionAccount)
    ensures
      var r := VerifyOnChainSession(Found(owner, Serialize(a)), programId, legacyProgramId, claimed);
      var known := owner == programId || legacyProgramId == Some(owner);
      var unsettled := known && !a.isSettled;
      var funded := unsettled && a.depositedTotal == claimed.depositedTotal;
      && (r == Err(WrongProgramOwner) <==> !known)
      && (r == Err(AlreadySettled) <==> known && a.isSettled)
      && (r == Err(DepositMismatch) <==> unsettled && !funded)
      && (r == Err(FieldMismatch("agent")) <==> funded && a.agent != claimed.agent)
      && (r == Err(FieldMismatch("provider")) <==> funded && a.agent == claimed.agent && a.provider != claimed.provider)
      && (r.Ok? <==> funded && claimed == ClaimedSession(a.agent, a.provider, a.mint, a.depositedTotal, a.expiresAt))
  {
    ParseInvertsSerialize(a);
    assert "agent" != "provider" && "agent" != "mint" && "agent"[0] != "expires_at"[0] && "provider"[0] != "mint"[0] && "provider"[0] != "expires_at"[0];
  }
}
