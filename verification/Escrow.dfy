/**
 The escrow program (`programs/agentpay/src/lib.rs`): one session's account, its
 vault, its settlement record and the parties' token balances. Account constraints
 (which vault, which mint, whose token account) are built into the state; a
 refused instruction leaves everything unchanged.
 */
module Escrow {
  import opened Bytes
  import opened Wrappers
  import opened Claims
  import opened Ed25519
  import opened SessionAccounts

  const MAX_SESSION_DURATION_SECS: int := 30 * 24 * 60 * 60

  datatype SettlementRecord = SettlementRecord(claimHash: Digest, merkleRoot: Digest, settledAt: I64, settledAmount: U64)

  /** `paidProvider`, `paidAgent` and `donated` total the transfers out of and into the vault. */
  datatype State = State(
    key: Pubkey, session: Option<SessionAccount>, record: Option<SettlementRecord>,
    vault: U64, agentTokens: U64, providerTokens: U64,
    paidProvider: nat, paidAgent: nat, donated: nat)

  datatype ProgramError =
    | ZeroDeposit | ExpiryInPast | ExpiryTooDistant | SessionExpired | ClaimExpired | ClaimNotMonotonic
    | ClaimExceedsDeposit | PayoutExceedsDeposit | UnauthorizedSettler | UnauthorizedRefund | SessionStillActive
    | NothingToRefund | ArithmeticOverflow | Precompile(cause: EdError)
    | AccountInUse | AccountMissing | TransferFailed

  type ProgramResult = Result<(), ProgramError>

  datatype OpenArgs = OpenArgs(
    agent: Pubkey, provider: Pubkey, settlementAuthority: Pubkey, mint: Pubkey, vault: Pubkey,
    sessionId: SessionId, depositAmount: U64, expiresAt: I64, bump: Byte, vaultBump: Byte)

  /** `previous` is the instruction just before this one in the transaction. */
  datatype SettleArgs = SettleArgs(
    settler: Pubkey, cumulativeAmount: U64, nonce: U64, claimExpiresAt: I64, merkleRoot: Digest,
    previous: Option<Instruction>)

  /** `checked_add` of the skew. */
  function WithSkew(expiresAt: I64): Result<I64, ProgramError> {
    if expiresAt + CLOCK_SKEW_TOLERANCE_SECS <= I64_MAX then Ok(expiresAt + CLOCK_SKEW_TOLERANCE_SECS) else Err(ArithmeticOverflow)
  }

  /** A token transfer succeeds when the source covers it and the destination can hold it. */
  predicate CanTransfer(from: U64, to: U64, amount: U64) {
    amount <= from && to + amount <= U64_MAX
  }

  // ---- the three instructions ----

  function OpenSession(st: State, now: I64, args: OpenArgs): (State, ProgramResult) {
    if st.session.Some? then (st, Err(AccountInUse))
    else if args.depositAmount == 0 then (st, Err(ZeroDeposit))
    else if args.expiresAt <= now then (st, Err(ExpiryInPast))
    else if args.expiresAt - now > I64_MAX then (st, Err(ArithmeticOverflow))
    else if args.expiresAt - now > MAX_SESSION_DURATION_SECS then (st, Err(ExpiryTooDistant))
    else if !CanTransfer(st.agentTokens, st.vault, args.depositAmount) then (st, Err(TransferFailed))
    else
      var session := SessionAccount(
        args.agent, args.provider, Some(args.settlementAuthority), args.mint, args.vault,
        args.depositAmount, 0, 0, args.expiresAt, args.sessionId, args.bump, args.vaultBump, false);
      (st.(session := Some(session), agentTokens := st.agentTokens - args.depositAmount, vault := st.vault + args.depositAmount), Ok(()))
  }

  /** Everything `settle_session` requires before money moves, in order. */
  function SettleChecks(st: State, now: I64, args: SettleArgs): ProgramResult {
    if st.session.None? then Err(AccountMissing)
    else
      var s := st.session.value;
      if !(Some(args.settler) == s.settlementAuthority || args.settler == s.provider) then Err(UnauthorizedSettler)
      else if WithSkew(s.expiresAt).Err? then Err(ArithmeticOverflow)
      else if now > WithSkew(s.expiresAt).value then Err(SessionExpired)
      else if WithSkew(args.claimExpiresAt).Err? then Err(ArithmeticOverflow)
      else if now > WithSkew(args.claimExpiresAt).value then Err(ClaimExpired)
      else if args.cumulativeAmount <= s.cumulativeSettled then Err(ClaimNotMonotonic)
      else if args.cumulativeAmount > s.depositedTotal then Err(ClaimExceedsDeposit)
      else
        match VerifyEd25519Claim(args.previous, s.agent, BuildClaimMessage(st.key, args.cumulativeAmount, args.nonce, args.claimExpiresAt))
        case Err(e) => Err(Precompile(e))
        case Ok(_) =>
          if args.cumulativeAmount + s.refundedTotal > U64_MAX then Err(ArithmeticOverflow)
          else if args.cumulativeAmount + s.refundedTotal > s.depositedTotal then Err(PayoutExceedsDeposit)
          else Ok(())
  }

  function SettleSession(h: Hash, st: State, now: I64, args: SettleArgs): (State, ProgramResult) {
    var checks := SettleChecks(st, now, args);
    if checks.Err? then (st, checks)
    else
      var s := st.session.value;
      var delta := args.cumulativeAmount - s.cumulativeSettled;
      if !CanTransfer(st.vault, st.providerTokens, delta) then (st, Err(TransferFailed))
      else
        var message := BuildClaimMessage(st.key, args.cumulativeAmount, args.nonce, args.claimExpiresAt);
        (st.(vault := st.vault - delta, providerTokens := st.providerTokens + delta, paidProvider := st.paidProvider + delta,
             session := Some(s.(cumulativeSettled := args.cumulativeAmount, isSettled := true)),
             record := Some(SettlementRecord(h(message), args.merkleRoot, now, args.cumulativeAmount))),
         Ok(()))
  }

  /** Everything `refund_session` requires, and the amount it would return. */
  function RefundChecks(st: State, now: I64, caller: Pubkey): Result<U64, ProgramError> {
    if st.session.None? then Err(AccountMissing)
    else
      var s := st.session.value;
      if WithSkew(s.expiresAt).Err? then Err(ArithmeticOverflow)
      else
        var expired := now > WithSkew(s.expiresAt).value;
        if !expired && caller != s.agent then Err(UnauthorizedRefund)
        else if !expired && !s.isSettled then Err(SessionStillActive)
        else if s.depositedTotal < s.cumulativeSettled then Err(ArithmeticOverflow)
        else if s.depositedTotal - s.cumulativeSettled < s.refundedTotal then Err(ArithmeticOverflow)
        else if s.depositedTotal - s.cumulativeSettled - s.refundedTotal == 0 then Err(NothingToRefund)
        else Ok(s.depositedTotal - s.cumulativeSettled - s.refundedTotal)
  }

  function RefundSession(st: State, now: I64, caller: Pubkey): (State, ProgramResult) {
    match RefundChecks(st, now, caller)
    case Err(e) => (st, Err(e))
    case Ok(remaining) =>
      var s := st.session.value;
      if !CanTransfer(st.vault, st.agentTokens, remaining) then (st, Err(TransferFailed))
      else if s.refundedTotal + remaining > U64_MAX then (st, Err(ArithmeticOverflow))
      else
        (st.(vault := st.vault - remaining, agentTokens := st.agentTokens + remaining, paidAgent := st.paidAgent + remaining,
             session := Some(s.(refundedTotal := s.refundedTotal + remaining))),
         Ok(()))
  }

  // ---- each instruction in plain arithmetic ----

  /** The session a party asked for, with nothing settled or refunded yet. */
  predicate OpenedAs(terms: OpenArgs, s: SessionAccount) {
    && s.agent == terms.agent && s.provider == terms.provider && s.settlementAuthority == Some(terms.settlementAuthority)
    && s.mint == terms.mint && s.vault == terms.vault && s.sessionId == terms.sessionId
    && s.depositedTotal == terms.depositAmount && s.expiresAt == terms.expiresAt
    && s.bump == terms.bump && s.vaultBump == terms.vaultBump
  }

  /**
   Opening succeeds exactly for a positive deposit the agent has and the vault can hold,
   and an expiry after now and within thirty days; then the session is the one asked for,
   and exactly the deposit has moved from the agent to the vault. Otherwise nothing changes.
   */
  lemma OpensExactly(st: State, now: I64, terms: OpenArgs)
    ensures
      var (st', r) := OpenSession(st, now, terms);
      && (r.Ok? <==>
            && st.session.None? && terms.depositAmount > 0
            && now < terms.expiresAt <= now + 2592000
            && terms.depositAmount <= st.agentTokens && st.vault + terms.depositAmount <= 0xFFFF_FFFF_FFFF_FFFF)
      && (r.Err? ==> st' == st)
      && (r.Ok? ==>
            && st'.session.Some? && OpenedAs(terms, st'.session.value)
            && st'.session.value.cumulativeSettled == 0 && st'.session.value.refundedTotal == 0 && !st'.session.value.isSettled
            && st'.agentTokens + terms.depositAmount == st.agentTokens
            && st'.vault == st.vault + terms.depositAmount
            && st' == st.(session := st'.session, agentTokens := st'.agentTokens, vault := st'.vault))
  {
  }

  /** Now is at most half a minute past the expiry, and that moment can be written down. */
  predicate WithinSkew(now: I64, expiresAt: I64) {
    expiresAt + 30 <= 0x7FFF_FFFF_FFFF_FFFF && now <= expiresAt + 30
  }

  /** The previous instruction is a precompile call checking one signature, in its own data, of this key over this message. */
  predicate PrecompileCovers(previous: Option<Instruction>, key: Pubkey, message: seq<Byte>) {
    && previous.Some? && previous.value.programId == ED25519_PROGRAM_ID
    && PrecompileChecks(previous.value.data).Some? && previous.value.data[1] == 0
    && PrecompileChecks(previous.value.data).value.key == key
    && PrecompileChecks(previous.value.data).value.message == message
  }

  /**
   Settling succeeds exactly when an entitled key presents, in time, an amount above what
   is settled and within what is not refunded, covered by the agent's signature over this
   session's claim; then exactly the difference moves to the provider and the receipt
   records the claim's hash, the root, the moment and the amount. Otherwise nothing changes.
   */
  lemma SettlesExactly(h: Hash, st: State, now: I64, args: SettleArgs)
    ensures
      var (st', r) := SettleSession(h, st, now, args);
      && (r.Err? ==> st' == st)
      && (r.Ok? <==>
            && st.session.Some?
            && var s := st.session.value;
               && (Some(args.settler) == s.settlementAuthority || args.settler == s.provider)
               && WithinSkew(now, s.expiresAt) && WithinSkew(now, args.claimExpiresAt)
               && s.cumulativeSettled < args.cumulativeAmount && args.cumulativeAmount + s.refundedTotal <= s.depositedTotal
               && PrecompileCovers(args.previous, s.agent, MessageOf(Claim(st.key, args.cumulativeAmount, args.nonce, args.claimExpiresAt)))
               && args.cumulativeAmount - s.cumulativeSettled <= st.vault
               && st.providerTokens + args.cumulativeAmount - s.cumulativeSettled <= 0xFFFF_FFFF_FFFF_FFFF)
      && (r.Ok? ==>
            && st'.session.Some? && st'.record.Some?
            && var (s, delta) := (st.session.value, args.cumulativeAmount - st.session.value.cumulativeSettled);
               && st'.session.value == s.(cumulativeSettled := args.cumulativeAmount, isSettled := true)
               && st'.vault + delta == st.vault && st'.providerTokens == st.providerTokens + delta
               && st'.paidProvider == st.paidProvider + delta
               && st' == st.(session := st'.session, record := st'.record, vault := st'.vault,
                             providerTokens := st'.providerTokens, paidProvider := st'.paidProvider)
               && st'.record.value.claimHash == h(MessageOf(Claim(st.key, args.cumulativeAmount, args.nonce, args.claimExpiresAt)))
               && st'.record.value.merkleRoot == args.merkleRoot
               && st'.record.value.settledAt == now && st'.record.value.settledAmount == args.cumulativeAmount)
  {
    if st.session.Some? {
      AcceptsExactlyTheCheckedTuple(args.previous, st.session.value.agent,
        MessageOf(Claim(st.key, args.cumulativeAmount, args.nonce, args.claimExpiresAt)));
    }
  }

  /**
   Refunding succeeds exactly when something is left and either half a minute has passed
   since the expiry, for anyone, or the agent asks after a settlement; then exactly what is
   left moves to the agent. Otherwise nothing changes.
   */
  lemma RefundsExactly(st: State, now: I64, caller: Pubkey)
    ensures
      var (st', r) := RefundSession(st, now, caller);
      && (r.Err? ==> st' == st)
      && (r.Ok? <==>
            && st.session.Some?
            && var s := st.session.value;
               var rest := s.depositedTotal - s.cumulativeSettled - s.refundedTotal;
               && s.expiresAt + 30 <= 0x7FFF_FFFF_FFFF_FFFF
               && (s.expiresAt + 30 < now || (caller == s.agent && s.isSettled))
               && 0 < rest <= st.vault && st.agentTokens + rest <= 0xFFFF_FFFF_FFFF_FFFF)
      && (r.Ok? ==>
            && st'.session.Some?
            && var s := st.session.value;
               var rest := s.depositedTotal - s.cumulativeSettled - s.refundedTotal;
               && st'.session.value == s.(refundedTotal := s.refundedTotal + rest)
               && st'.vault + rest == st.vault && st'.agentTokens == st.agentTokens + rest && st'.paidAgent == st.paidAgent + rest
               && st' == st.(session := st'.session, vault := st'.vault, agentTokens := st'.agentTokens, paidAgent := st'.paidAgent))
  {
  }

  // ---- what a refused caller hears ----

  /** An opening is refused for the first of its failing conditions. */
  lemma OpenAnswers(st: State, now: I64, terms: OpenArgs)
    requires st.session.None?
    ensures
      var (r, length) := (OpenSession(st, now, terms).1, terms.expiresAt - now);
      && (r == Err(ZeroDeposit) <==> terms.depositAmount == 0)
      && (r == Err(ExpiryInPast) <==> terms.depositAmount > 0 && length <= 0)
      && (r == Err(ArithmeticOverflow) <==> terms.depositAmount > 0 && length > 0x7FFF_FFFF_FFFF_FFFF)
      && (r == Err(ExpiryTooDistant) <==> terms.depositAmount > 0 && 2592000 < length <= 0x7FFF_FFFF_FFFF_FFFF)
  {
  }

  /** A settlement is refused for who asks, then for the two expiries, then for the amount, then for the signature. */
  lemma SettleAnswers(h: Hash, st: State, now: I64, args: SettleArgs)
    requires st.session.Some?
    ensures
      var (r, s) := (SettleSession(h, st, now, args).1, st.session.value);
      var entitled := Some(args.settler) == s.settlementAuthority || args.settler == s.provider;
      var representable := s.expiresAt + 30 <= 0x7FFF_FFFF_FFFF_FFFF && args.claimExpiresAt + 30 <= 0x7FFF_FFFF_FFFF_FFFF;
      var inTime := WithinSkew(now, s.expiresAt) && WithinSkew(now, args.claimExpiresAt);
      var rises := s.cumulativeSettled < args.cumulativeAmount;
      && (r == Err(UnauthorizedSettler) <==> !entitled)
      && (representable ==>
            && (r == Err(SessionExpired) <==> entitled && s.expiresAt + 30 < now)
            && (r == Err(ClaimExpired) <==> entitled && now <= s.expiresAt + 30 && args.claimExpiresAt + 30 < now))
      && (entitled && !representable && now <= s.expiresAt + 30 ==> r == Err(ArithmeticOverflow))
      && (r == Err(ClaimNotMonotonic) <==> entitled && inTime && !rises)
      && (r == Err(ClaimExceedsDeposit) <==> entitled && inTime && rises && s.depositedTotal < args.cumulativeAmount)
      && (entitled && inTime && rises && args.cumulativeAmount <= s.depositedTotal
            && !PrecompileCovers(args.previous, s.agent, MessageOf(Claim(st.key, args.cumulativeAmount, args.nonce, args.claimExpiresAt)))
          <==> r.Err? && r.error.Precompile?)
  {
  }

  /** A refund is refused to strangers before expiry, to the agent before settlement, and when nothing is left. */
  lemma RefundAnswers(st: State, now: I64, caller: Pubkey)
    requires st.session.Some? && st.session.value.expiresAt + 30 <= 0x7FFF_FFFF_FFFF_FFFF
    requires st.session.value.cumulativeSettled + st.session.value.refundedTotal <= st.session.value.depositedTotal
    ensures
      var (r, s) := (RefundSession(st, now, caller).1, st.session.value);
      var early := now <= s.expiresAt + 30;
      && (r == Err(UnauthorizedRefund) <==> early && caller != s.agent)
      && (r == Err(SessionStillActive) <==> early && caller == s.agent && !s.isSettled)
      && (r == Err(NothingToRefund) <==>
            (!early || (caller == s.agent && s.isSettled)) && s.cumulativeSettled + s.refundedTotal == s.depositedTotal)
  {
  }

  /** The program acting on its accounts, instruction by instruction. */
  class Program {
    var key: Pubkey
    var session: Option<SessionAccount>
    var record: Option<SettlementRecord>
    var vault: U64
    var agentTokens: U64
    var providerTokens: U64
    ghost var paidProvider: nat
    ghost var paidAgent: nat
    ghost var donated: nat

    ghost function View(): State
      reads this
    {
      State(key, session, record, vault, agentTokens, providerTokens, paidProvider, paidAgent, donated)
    }

    constructor (key: Pubkey, agentTokens: U64, providerTokens: U64)
      ensures View() == State(key, None, None, 0, agentTokens, providerTokens, 0, 0, 0)
    {
      this.key, this.session, this.record := key, None, None;
      this.vault, this.agentTokens, this.providerTokens := 0, agentTokens, providerTokens;
      this.paidProvider, this.paidAgent, this.donated := 0, 0, 0;
    }

    method Open(now: I64, args: OpenArgs) returns (r: ProgramResult)
      modifies this
      ensures (View(), r) == OpenSession(old(View()), now, args)
    {
      if session.Some? {
        return Err(AccountInUse);
      }
      if args.depositAmount == 0 {
        return Err(ZeroDeposit);
      }
      if args.expiresAt <= now {
        return Err(ExpiryInPast);
      }
      if args.expiresAt - now > I64_MAX {
        return Err(ArithmeticOverflow);
      }
      if args.expiresAt - now > MAX_SESSION_DURATION_SECS {
        return Err(ExpiryTooDistant);
      }
      if !CanTransfer(agentTokens, vault, args.depositAmount) {
        return Err(TransferFailed);
      }
      session := Some(SessionAccount(
        args.agent, args.provider, Some(args.settlementAuthority), args.mint, args.vault,
        args.depositAmount, 0, 0, args.expiresAt, args.sessionId, args.bump, args.vaultBump, false));
      agentTokens := agentTokens - args.depositAmount;
      vault := vault + args.depositAmount;
      return Ok(());
    }

    method Settle(h: Hash, now: I64, args: SettleArgs) returns (r: ProgramResult)
      modifies this
      ensures (View(), r) == SettleSession(h, old(View()), now, args)
    {
      if session.None? {
        return Err(AccountMissing);
      }
      var s := session.value;
      if Some(args.settler) != s.settlementAuthority && args.settler != s.provider {
        return Err(UnauthorizedSettler);
      }
      var sessionLimit := WithSkew(s.expiresAt);
      if sessionLimit.Err? {
        return Err(ArithmeticOverflow);
      }
      if now > sessionLimit.value {
        return Err(SessionExpired);
      }
      var claimLimit := WithSkew(args.claimExpiresAt);
      if claimLimit.Err? {
        return Err(ArithmeticOverflow);
      }
      if now > claimLimit.value {
        return Err(ClaimExpired);
      }
      if args.cumulativeAmount <= s.cumulativeSettled {
        return Err(ClaimNotMonotonic);
      }
      if args.cumulativeAmount > s.depositedTotal {
        return Err(ClaimExceedsDeposit);
      }
      var expected := BuildClaimMessage(key, args.cumulativeAmount, args.nonce, args.claimExpiresAt);
      var verified := VerifyEd25519Claim(args.previous, s.agent, expected);
      if verified.Err? {
        return Err(Precompile(verified.error));
      }
      var delta := args.cumulativeAmount - s.cumulativeSettled;
      if args.cumulativeAmount + s.refundedTotal > U64_MAX {
        return Err(ArithmeticOverflow);
      }
      if args.cumulativeAmount + s.refundedTotal > s.depositedTotal {
        return Err(PayoutExceedsDeposit);
      }
      if !CanTransfer(vault, providerTokens, delta) {
        return Err(TransferFailed);
      }
      vault := vault - delta;
      providerTokens := providerTokens + delta;
      paidProvider := paidProvider + delta;
      session := Some(s.(cumulativeSettled := args.cumulativeAmount).(isSettled := true));
      record := Some(SettlementRecord(h(expected), args.merkleRoot, now, args.cumulativeAmount));
      return Ok(());
    }

    method Refund(now: I64, caller: Pubkey) returns (r: ProgramResult)
      modifies this
      ensures (View(), r) == RefundSession(old(View()), now, caller)
    {
      if session.None? {
        return Err(AccountMissing);
      }
      var s := session.value;
      var limit := WithSkew(s.expiresAt);
      if limit.Err? {
        return Err(ArithmeticOverflow);
      }
      var expired := now > limit.value;
      if !expired {
        if caller != s.agent {
          return Err(UnauthorizedRefund);
        }
        if !s.isSettled {
          return Err(SessionStillActive);
        }
      }
      if s.depositedTotal < s.cumulativeSettled {
        return Err(ArithmeticOverflow);
      }
      var unsettled := s.depositedTotal - s.cumulativeSettled;
      if unsettled < s.refundedTotal {
        return Err(ArithmeticOverflow);
      }
      var remaining := unsettled - s.refundedTotal;
      if remaining == 0 {
        return Err(NothingToRefund);
      }
      if !CanTransfer(vault, agentTokens, remaining) {
        return Err(TransferFailed);
      }
      if s.refundedTotal + remaining > U64_MAX {
        return Err(ArithmeticOverflow);
      }
      vault := vault - remaining;
      agentTokens := agentTokens + remaining;
      paidAgent := paidAgent + remaining;
      session := Some(s.(refundedTotal := s.refundedTotal + remaining));
      return Ok(());
    }
  }

  // ---- runs ----

  /** What can happen to the accounts. Anyone may send tokens to the vault; the parties may move their own tokens. */
  datatype Action =
    | DoOpen(terms: OpenArgs)
    | DoSettle(settlement: SettleArgs)
    | DoRefund(caller: Pubkey)
    | Donate(amount: U64)
    | MoveOwnTokens(agentTokens: U64, providerTokens: U64)

  /** The mint's supply fits in a u64, so the three balances together do. */
  predicate WithinSupply(st: State) {
    st.vault + st.agentTokens + st.providerTokens <= U64_MAX
  }

  function Act(h: Hash, st: State, now: I64, action: Action): (State, ProgramResult) {
    match action
    case DoOpen(args) => OpenSession(st, now, args)
    case DoSettle(args) => SettleSession(h, st, now, args)
    case DoRefund(caller) => RefundSession(st, now, caller)
    case Donate(amount) =>
      if st.session.None? || st.vault + st.agentTokens + st.providerTokens + amount > U64_MAX then (st, Err(TransferFailed))
      else (st.(vault := st.vault + amount, donated := st.donated + amount), Ok(()))
    case MoveOwnTokens(a, p) =>
      if st.vault + a + p > U64_MAX then (st, Err(TransferFailed))
      else (st.(agentTokens := a, providerTokens := p), Ok(()))
  }

  datatype Timed = Timed(now: I64, action: Action)

  function ActAll(h: Hash, st: State, actions: seq<Timed>): State
    decreases |actions|
  {
    if actions == [] then st
    else Act(h, ActAll(h, st, actions[..|actions| - 1]), actions[|actions| - 1].now, actions[|actions| - 1].action).0
  }

  /** Before the session exists. */
  predicate Unopened(st: State) {
    && st.session.None? && st.record.None? && st.vault == 0
    && st.paidProvider == st.paidAgent == st.donated == 0
    && WithinSupply(st)
  }

  /** Every token that entered or left the vault is accounted for by the session's own fields. */
  predicate Balanced(st: State) {
    && WithinSupply(st)
    && match st.session
       case None => Unopened(st)
       case Some(s) =>
         && s.settlementAuthority.Some? && s.depositedTotal > 0
         && s.cumulativeSettled + s.refundedTotal <= s.depositedTotal
         && st.vault == s.depositedTotal - s.cumulativeSettled - s.refundedTotal + st.donated
         && st.paidProvider == s.cumulativeSettled
         && st.paidAgent == s.refundedTotal
         && (s.isSettled <==> s.cumulativeSettled > 0)
         && (s.refundedTotal == 0 || s.cumulativeSettled + s.refundedTotal == s.depositedTotal)
         && st.record.Some? == s.isSettled
         && (st.record.Some? ==> st.record.value.settledAmount == s.cumulativeSettled)
  }

  lemma ActKeepsBalanced(h: Hash, st: State, now: I64, action: Action)
    requires Balanced(st)
    ensures Balanced(Act(h, st, now, action).0)
  {
  }

  /**
   Conservation, after any sequence of instructions by anyone at any times: the
   vault holds exactly deposit minus settled minus refunded plus donations, the
   provider has been paid exactly the settled amount and the agent exactly the
   refunded one, together they never exceed the deposit, and the settled flag and
   the receipt stand for a positive settled amount.
   */
  lemma {:induction false} Conservation(h: Hash, st: State, actions: seq<Timed>)
    requires Unopened(st)
    ensures Balanced(ActAll(h, st, actions))
    decreases |actions|
  {
    if actions != [] {
      Conservation(h, st, actions[..|actions| - 1]);
      ActKeepsBalanced(h, ActAll(h, st, actions[..|actions| - 1]), actions[|actions| - 1].now, actions[|actions| - 1].action);
    }
  }

  // ---- authorization ----

  /**
   A transaction reaches the program only if its precompile instruction passes: the
   tuple that instruction checks, if it checks one, is validly signed.
   */
  predicate PrecompilePasses(signed: (Pubkey, seq<Byte>, Signature) -> bool, action: Action) {
    action.DoSettle? && action.settlement.previous.Some? ==>
      var ix := action.settlement.previous.value;
      var checked := PrecompileChecks(ix.data);
      ix.programId == ED25519_PROGRAM_ID && checked.Some? ==>
        signed(checked.value.key, checked.value.message, checked.value.signature)
  }

  /** The agent signed a claim of this amount on this session. */
  ghost predicate AgentSigned(signed: (Pubkey, seq<Byte>, Signature) -> bool, agent: Pubkey, key: Pubkey, amount: U64) {
    exists claim: Claim, signature: Signature ::
      claim.session == key && claim.cumulativeAmount == amount && signed(agent, MessageOf(claim), signature)
  }

  ghost predicate SettledIsSigned(signed: (Pubkey, seq<Byte>, Signature) -> bool, st: State) {
    st.session.Some? && st.session.value.cumulativeSettled > 0 ==>
      AgentSigned(signed, st.session.value.agent, st.key, st.session.value.cumulativeSettled)
  }

  lemma SettleNeedsSignature(signed: (Pubkey, seq<Byte>, Signature) -> bool, h: Hash, st: State, now: I64, args: SettleArgs)
    requires PrecompilePasses(signed, DoSettle(args)) && SettleSession(h, st, now, args).1.Ok?
    ensures SettledIsSigned(signed, SettleSession(h, st, now, args).0)
  {
    var claim := Claim(st.key, args.cumulativeAmount, args.nonce, args.claimExpiresAt);
    AcceptsExactlyTheCheckedTuple(args.previous, st.session.value.agent, MessageOf(claim));
    var checked := PrecompileChecks(args.previous.value.data).value;
    assert signed(st.session.value.agent, MessageOf(claim), checked.signature);
  }

  lemma ActKeepsSigned(signed: (Pubkey, seq<Byte>, Signature) -> bool, h: Hash, st: State, now: I64, action: Action)
    requires PrecompilePasses(signed, action) && SettledIsSigned(signed, st)
    ensures SettledIsSigned(signed, Act(h, st, now, action).0)
  {
    if action.DoSettle? && Act(h, st, now, action).1.Ok? {
      SettleNeedsSignature(signed, h, st, now, action.settlement);
    }
  }

  /**
   Over every run of transactions whose precompiles pass, whoever sends them, with
   whatever bytes before the settlement: what has been settled is an amount the
   session's agent signed for this session, and the provider has been paid no more.
   */
  lemma {:induction false} OnlySignedAmountsSettle(
      signed: (Pubkey, seq<Byte>, Signature) -> bool, h: Hash, st: State, actions: seq<Timed>)
    requires Unopened(st) && forall i :: 0 <= i < |actions| ==> PrecompilePasses(signed, actions[i].action)
    ensures SettledIsSigned(signed, ActAll(h, st, actions))
    ensures ActAll(h, st, actions).paidProvider > 0 ==>
      ActAll(h, st, actions).session.Some? &&
      ActAll(h, st, actions).session.value.cumulativeSettled == ActAll(h, st, actions).paidProvider
    decreases |actions|
  {
    Conservation(h, st, actions);
    if actions != [] {
      var (init, last) := (actions[..|actions| - 1], actions[|actions| - 1]);
      OnlySignedAmountsSettle(signed, h, st, init);
      ActKeepsSigned(signed, h, ActAll(h, st, init), last.now, last.action);
    }
  }

  /** Action i of the run opened the session, on these terms. */
  predicate OpenedAt(h: Hash, st: State, actions: seq<Timed>, i: nat) {
    i < |actions| && actions[i].action.DoOpen? && Act(h, ActAll(h, st, actions[..i]), actions[i].now, actions[i].action).1.Ok?
  }

  lemma ActKeepsParties(h: Hash, st: State, now: I64, action: Action)
    ensures st.session.None? && Act(h, st, now, action).0.session.Some? ==>
      action.DoOpen? && Act(h, st, now, action).1.Ok? && OpenedAs(action.terms, Act(h, st, now, action).0.session.value)
    ensures st.session.Some? ==>
      && Act(h, st, now, action).0.session.Some?
      && forall terms :: OpenedAs(terms, st.session.value) ==> OpenedAs(terms, Act(h, st, now, action).0.session.value)
    ensures Act(h, st, now, action).0.key == st.key
  {
  }

  /** In every run the session's parties, deposit and expiry are those of the one opening that succeeded. */
  lemma {:induction false} SessionIsAsOpened(h: Hash, st: State, actions: seq<Timed>) returns (i: nat)
    requires Unopened(st) && ActAll(h, st, actions).session.Some?
    ensures OpenedAt(h, st, actions, i) && OpenedAs(actions[i].action.terms, ActAll(h, st, actions).session.value)
    ensures ActAll(h, st, actions).key == st.key
    decreases |actions|
  {
    var (init, last) := (actions[..|actions| - 1], actions[|actions| - 1]);
    var before := ActAll(h, st, init);
    ActKeepsParties(h, before, last.now, last.action);
    KeyStays(h, st, actions);
    if before.session.Some? {
      i := SessionIsAsOpened(h, st, init);
      assert actions[..i] == init[..i];
    } else {
      i := |actions| - 1;
    }
  }

  lemma {:induction false} KeyStays(h: Hash, st: State, actions: seq<Timed>)
    ensures ActAll(h, st, actions).key == st.key
    decreases |actions|
  {
    if actions != [] {
      KeyStays(h, st, actions[..|actions| - 1]);
      ActKeepsParties(h, ActAll(h, st, actions[..|actions| - 1]), actions[|actions| - 1].now, actions[|actions| - 1].action);
    }
  }

  /**
   Whoever a session was opened for is who it serves, over every run of transactions whose
   precompiles pass: only amounts that agent signed are settled, only that agent is refunded
   before the expiry, and settlements are submitted only by the authority or the provider
   named at the opening.
   */
  lemma {:induction false} OpenerIsServed(
      signed: (Pubkey, seq<Byte>, Signature) -> bool, h: Hash, st: State, actions: seq<Timed>) returns (i: nat)
    requires Unopened(st) && ActAll(h, st, actions).session.Some?
    requires forall k :: 0 <= k < |actions| ==> PrecompilePasses(signed, actions[k].action)
    ensures OpenedAt(h, st, actions, i)
    ensures
      var (end, terms) := (ActAll(h, st, actions), actions[i].action.terms);
      && OpenedAs(terms, end.session.value)
      && (end.session.value.cumulativeSettled > 0 ==> AgentSigned(signed, terms.agent, st.key, end.session.value.cumulativeSettled))
      && (forall later: I64, caller :: RefundSession(end, later, caller).1.Ok? && later <= terms.expiresAt + 30 ==> caller == terms.agent)
      && (forall later: I64, args :: SettleSession(h, end, later, args).1.Ok? ==>
            args.settler == terms.settlementAuthority || args.settler == terms.provider)
  {
    i := SessionIsAsOpened(h, st, actions);
    OnlySignedAmountsSettle(signed, h, st, actions);
    var end := ActAll(h, st, actions);
    forall later: I64, caller | RefundSession(end, later, caller).1.Ok? && later <= actions[i].action.terms.expiresAt + 30
      ensures caller == actions[i].action.terms.agent
    {
      RefundsExactly(end, later, caller);
    }
    forall later: I64, args | SettleSession(h, end, later, args).1.Ok?
      ensures args.settler == actions[i].action.terms.settlementAuthority || args.settler == actions[i].action.terms.provider
    {
      SettlesExactly(h, end, later, args);
    }
  }

  // ---- finality ----

  predicate Refunded(st: State) {
    st.session.Some? && st.session.value.refundedTotal > 0
  }

  lemma RefundIsFinalStep(h: Hash, st: State, now: I64, action: Action)
    requires Balanced(st) && Refunded(st)
    requires action.DoSettle? || action.DoRefund? || action.DoOpen?
    ensures Act(h, st, now, action).1.Err?
  {
  }

  /** Once a refund has succeeded, no settlement and no further refund ever succeeds, whoever tries and whenever. */
  lemma {:induction false} RefundIsFinal(h: Hash, st: State, actions: seq<Timed>)
    requires Balanced(st) && Refunded(st)
    ensures Balanced(ActAll(h, st, actions))
    ensures ActAll(h, st, actions).session == st.session
    ensures ActAll(h, st, actions).paidProvider == st.paidProvider && ActAll(h, st, actions).paidAgent == st.paidAgent
    decreases |actions|
  {
    if actions != [] {
      var (init, last) := (actions[..|actions| - 1], actions[|actions| - 1]);
      RefundIsFinal(h, st, init);
      ActKeepsBalanced(h, ActAll(h, st, init), last.now, last.action);
      if last.action.DoSettle? || last.action.DoRefund? || last.action.DoOpen? {
        RefundIsFinalStep(h, ActAll(h, st, init), last.now, last.action);
      }
    }
  }

  /** A successful refund takes the whole entitlement, so it leaves a refunded state. */
  lemma RefundTakesEverything(st: State, now: I64, caller: Pubkey)
    requires Balanced(st) && RefundSession(st, now, caller).1.Ok?
    ensures
      var st' := RefundSession(st, now, caller).0;
      && Refunded(st')
      && st'.vault == st'.donated
      && st'.paidAgent - st.paidAgent == st.session.value.depositedTotal - st.session.value.cumulativeSettled
      && st'.paidProvider == st.paidProvider
  {
  }

  /** At no moment can both a settlement and a stranger's refund succeed. */
  lemma SettleAndStrangerRefundExclude(h: Hash, st: State, now: I64, args: SettleArgs, caller: Pubkey)
    requires st.session.Some? && caller != st.session.value.agent
    ensures SettleSession(h, st, now, args).1.Err? || RefundSession(st, now, caller).1.Err?
  {
  }

  /** Some amount of the deposit is neither settled nor refunded. */
  predicate MoneyLeft(st: State) {
    st.session.Some? && st.session.value.cumulativeSettled + st.session.value.refundedTotal < st.session.value.depositedTotal
  }

  /** Once the expiry and the skew have passed, anyone's refund succeeds and empties the entitlement. */
  lemma {:induction false} StrangerRecovers(h: Hash, st: State, actions: seq<Timed>, now: I64, caller: Pubkey)
    requires Unopened(st) && MoneyLeft(ActAll(h, st, actions))
    requires now > ActAll(h, st, actions).session.value.expiresAt + CLOCK_SKEW_TOLERANCE_SECS
    ensures
      var end := ActAll(h, st, actions);
      var (st', r) := RefundSession(end, now, caller);
      && r.Ok?
      && !MoneyLeft(st')
      && st'.vault == st'.donated
      && st'.paidProvider + st'.paidAgent == end.session.value.depositedTotal
  {
    Conservation(h, st, actions);
  }

  /**
   When the recovery is possible at all: there is a moment at which anyone can
   refund the money left, exactly when the session's expiry is more than the skew
   below the last representable second. `open_session` does not ensure it.
   */
  lemma {:induction false} RecoverableIff(h: Hash, st: State, actions: seq<Timed>, caller: Pubkey)
    requires Unopened(st) && MoneyLeft(ActAll(h, st, actions))
    requires caller != ActAll(h, st, actions).session.value.agent
    ensures (exists now: I64 :: RefundSession(ActAll(h, st, actions), now, caller).1.Ok?)
       <==> ActAll(h, st, actions).session.value.expiresAt <= I64_MAX - CLOCK_SKEW_TOLERANCE_SECS - 1
  {
    if ActAll(h, st, actions).session.value.expiresAt <= I64_MAX - CLOCK_SKEW_TOLERANCE_SECS - 1 {
      StrangerRecovers(h, st, actions, I64_MAX, caller);
    }
  }

  /** Only tokens sent in from outside can still move. */
  predicate Untouched(end: State, st: State) {
    && end.session == st.session && end.record == st.record
    && end.paidProvider == st.paidProvider && end.paidAgent == st.paidAgent
    && end.vault - end.donated == st.vault - st.donated
  }

  lemma StuckStep(h: Hash, st: State, now: I64, action: Action)
    requires st.session.Some? && st.session.value.expiresAt > I64_MAX - CLOCK_SKEW_TOLERANCE_SECS
    ensures Untouched(Act(h, st, now, action).0, st)
    ensures action.DoSettle? || action.DoRefund? || action.DoOpen? ==> Act(h, st, now, action).1.Err?
  {
  }

  /**
   A session opened within the skew of the end of time is accepted, and after any
   actions by anyone at any times every settlement and every refund still fails:
   the deposit never leaves the vault.
   */
  lemma {:induction false} EndOfTimeSessionIsStuck(h: Hash, st: State, now: I64, args: OpenArgs, actions: seq<Timed>)
    requires OpenSession(st, now, args).1.Ok? && args.expiresAt > I64_MAX - CLOCK_SKEW_TOLERANCE_SECS
    ensures
      var start := OpenSession(st, now, args).0;
      var end := ActAll(h, start, actions);
      && Untouched(end, start)
      && (forall later: I64, settle :: SettleSession(h, end, later, settle).1.Err?)
      && (forall later: I64, caller :: RefundSession(end, later, caller).1.Err?)
    decreases |actions|
  {
    if actions != [] {
      var (init, last) := (actions[..|actions| - 1], actions[|actions| - 1]);
      EndOfTimeSessionIsStuck(h, st, now, args, init);
      StuckStep(h, ActAll(h, OpenSession(st, now, args).0, init), last.now, last.action);
    }
  }

  // ---- batching ----

  predicate OnlySettles(actions: seq<Timed>) {
    forall i :: 0 <= i < |actions| ==> actions[i].action.DoSettle?
  }

  lemma {:induction false} SettlementsPreserveSums(h: Hash, st: State, actions: seq<Timed>)
    requires st.session.Some? && OnlySettles(actions)
    ensures
      var end := ActAll(h, st, actions);
      var (s, s') := (st.session.value, if end.session.Some? then end.session.value else st.session.value);
      && end.session.Some?
      && s' == s.(cumulativeSettled := s'.cumulativeSettled, isSettled := s'.isSettled)
      && s'.cumulativeSettled >= s.cumulativeSettled
      && end.vault + s'.cumulativeSettled == st.vault + s.cumulativeSettled
      && end.providerTokens - s'.cumulativeSettled == st.providerTokens - s.cumulativeSettled
      && end.paidProvider - s'.cumulativeSettled == st.paidProvider - s.cumulativeSettled
      && end.agentTokens == st.agentTokens
    decreases |actions|
  {
    if actions != [] {
      SettlementsPreserveSums(h, st, actions[..|actions| - 1]);
      assert actions[|actions| - 1].action.DoSettle?;
    }
  }

  /** Any two ways of batching settlements that end at one cumulative amount leave every balance the same. */
  lemma {:induction false} BatchingIsIrrelevant(h: Hash, st: State, one: seq<Timed>, other: seq<Timed>)
    requires st.session.Some? && OnlySettles(one) && OnlySettles(other)
    requires ActAll(h, st, one).session.Some? && ActAll(h, st, other).session.Some?
    requires ActAll(h, st, one).session.value.cumulativeSettled == ActAll(h, st, other).session.value.cumulativeSettled
    ensures
      var (a, b) := (ActAll(h, st, one), ActAll(h, st, other));
      a.vault == b.vault && a.providerTokens == b.providerTokens && a.agentTokens == b.agentTokens && a.paidProvider == b.paidProvider
  {
    SettlementsPreserveSums(h, st, one);
    SettlementsPreserveSums(h, st, other);
  }
}
