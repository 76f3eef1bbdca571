/**
 The claim-ordering rule and the in-memory store (`gateway/src/state.rs`).
 */
module Admission {
  import opened Bytes
  import opened Wrappers
  import opened Claims

  datatype SignedClaim = SignedClaim(claim: Claim, signature: Signature)

  datatype SessionRecord = SessionRecord(
    session: Pubkey, agent: Pubkey, provider: Pubkey, mint: Pubkey,
    depositedTotal: U64, expiresAt: I64,
    cumulativeAccepted: U64, lastNonce: Option<U64>, highestClaim: Option<SignedClaim>,
    isSettled: bool, chainVerified: bool)

  /** `SessionRecord::new`, with the chain flag the open route then sets. */
  function NewRecord(session: Pubkey, agent: Pubkey, provider: Pubkey, mint: Pubkey,
                     depositedTotal: U64, expiresAt: I64, chainVerified: bool): SessionRecord
  {
    SessionRecord(session, agent, provider, mint, depositedTotal, expiresAt, 0, None, None, false, chainVerified)
  }

  datatype ClaimRejection = SessionExpired | SessionSettled | NotMonotonic | NonceNotMonotonic | ExceedsDeposit

  datatype ClaimAccepted = ClaimAccepted(cumulativeAmount: U64, previousCumulative: U64, delta: U64, nonce: U64)

  type Verdict = Result<ClaimAccepted, ClaimRejection>

  /** `i64::checked_add(..).unwrap_or(i64::MAX)` */
  function ExpiryLimit(expiresAt: I64): I64 {
    if expiresAt + CLOCK_SKEW_TOLERANCE_SECS <= I64_MAX then expiresAt + CLOCK_SKEW_TOLERANCE_SECS else I64_MAX
  }

  function EvaluateClaim(record: SessionRecord, claim: Claim, now: I64): Verdict {
    if record.isSettled then Err(SessionSettled)
    else if now > ExpiryLimit(record.expiresAt) then Err(SessionExpired)
    else if claim.cumulativeAmount <= record.cumulativeAccepted then Err(NotMonotonic)
    else if record.lastNonce.Some? && claim.nonce <= record.lastNonce.value then Err(NonceNotMonotonic)
    else if claim.cumulativeAmount > record.depositedTotal then Err(ExceedsDeposit)
    else Ok(ClaimAccepted(claim.cumulativeAmount, record.cumulativeAccepted,
                          claim.cumulativeAmount - record.cumulativeAccepted, claim.nonce))
  }

  /** The 31st second past the expiry is the first that counts as expired; a sum past the last second never comes. */
  predicate PastExpiry(record: SessionRecord, now: I64) {
    record.expiresAt + 30 < now
  }

  /** Each refusal is the first of the five checks that fails, in plain arithmetic; no failure is acceptance. */
  lemma EvaluatesExactly(record: SessionRecord, claim: Claim, now: I64)
    ensures
      var v := EvaluateClaim(record, claim, now);
      var open_ := !record.isSettled;
      var inTime := open_ && !PastExpiry(record, now);
      var rises := inTime && claim.cumulativeAmount > record.cumulativeAccepted;
      var freshNonce := rises && (record.lastNonce.None? || claim.nonce > record.lastNonce.value);
      && (v == Err(SessionSettled) <==> !open_)
      && (v == Err(SessionExpired) <==> open_ && !inTime)
      && (v == Err(NotMonotonic) <==> inTime && !rises)
      && (v == Err(NonceNotMonotonic) <==> rises && !freshNonce)
      && (v == Err(ExceedsDeposit) <==> freshNonce && claim.cumulativeAmount > record.depositedTotal)
      && (v.Ok? <==> freshNonce && claim.cumulativeAmount <= record.depositedTotal)
      && (v.Ok? ==>
            && v.value.cumulativeAmount == claim.cumulativeAmount
            && v.value.previousCumulative == record.cumulativeAccepted
            && v.value.previousCumulative + v.value.delta == claim.cumulativeAmount
            && v.value.nonce == claim.nonce)
  {
  }

  // ---- the store as a serial machine ----

  datatype StoreError = Unavailable | AlreadyOpen | Unknown

  type Store = map<Pubkey, SessionRecord>

  datatype Op =
    | Open(record: SessionRecord)
    | Admit(claim: Claim, signature: Signature, now: I64)
    | MarkSettled(session: Pubkey)
    | MarkChainVerified(session: Pubkey)

  datatype Reply = Done | Failed(error: StoreError) | Decided(verdict: Verdict)

  /** What an accepted claim does to its record. */
  function Advance(record: SessionRecord, claim: Claim, signature: Signature): SessionRecord {
    record.(cumulativeAccepted := claim.cumulativeAmount, lastNonce := Some(claim.nonce),
            highestClaim := Some(SignedClaim(claim, signature)))
  }

  function StoreStep(store: Store, op: Op): (Store, Reply) {
    match op
    case Open(record) =>
      if record.session in store then (store, Failed(AlreadyOpen)) else (store[record.session := record], Done)
    case Admit(claim, signature, now) =>
      if claim.session !in store then (store, Failed(Unknown))
      else
        var verdict := EvaluateClaim(store[claim.session], claim, now);
        (if verdict.Ok? then store[claim.session := Advance(store[claim.session], claim, signature)] else store,
         Decided(verdict))
    case MarkSettled(session) =>
      if session !in store then (store, Failed(Unknown))
      else (store[session := store[session].(isSettled := true)], Done)
    case MarkChainVerified(session) =>
      if session !in store then (store, Failed(Unknown))
      else (store[session := store[session].(chainVerified := true)], Done)
  }

  function StoreRun(store: Store, ops: seq<Op>): Store
    decreases |ops|
  {
    if ops == [] then store else StoreStep(StoreRun(store, ops[..|ops| - 1]), ops[|ops| - 1]).0
  }

  class InMemorySessionStore {
    var inner: Store

    constructor ()
      ensures inner == map[]
    {
      inner := map[];
    }

    method Open(record: SessionRecord) returns (r: Reply)
      modifies this
      ensures (inner, r) == StoreStep(old(inner), Op.Open(record))
    {
      if record.session in inner {
        return Failed(AlreadyOpen);
      }
      inner := inner[record.session := record];
      return Done;
    }

    method Get(session: Pubkey) returns (r: Result<SessionRecord, StoreError>)
      ensures r == if session in inner then Ok(inner[session]) else Err(Unknown)
    {
      if session !in inner {
        return Err(Unknown);
      }
      return Ok(inner[session]);
    }

    method AdmitClaim(claim: Claim, signature: Signature, now: I64) returns (r: Reply)
      modifies this
      ensures (inner, r) == StoreStep(old(inner), Admit(claim, signature, now))
    {
      if claim.session !in inner {
        return Failed(Unknown);
      }
      var record := inner[claim.session];
      var verdict := EvaluateClaim(record, claim, now);
      if verdict.Ok? {
        record := record.(cumulativeAccepted := verdict.value.cumulativeAmount);
        record := record.(lastNonce := Some(verdict.value.nonce));
        record := record.(highestClaim := Some(SignedClaim(claim, signature)));
        inner := inner[claim.session := record];
      }
      return Decided(verdict);
    }

    method MarkSettled(session: Pubkey) returns (r: Reply)
      modifies this
      ensures (inner, r) == StoreStep(old(inner), Op.MarkSettled(session))
    {
      if session !in inner {
        return Failed(Unknown);
      }
      inner := inner[session := inner[session].(isSettled := true)];
      return Done;
    }

    method MarkChainVerified(session: Pubkey) returns (r: Reply)
      modifies this
      ensures (inner, r) == StoreStep(old(inner), Op.MarkChainVerified(session))
    {
      if session !in inner {
        return Failed(Unknown);
      }
      inner := inner[session := inner[session].(chainVerified := true)];
      return Done;
    }
  }

  /** A fresh record carries the terms it was given and nothing accepted yet. */
  lemma NewRecordTerms(session: Pubkey, agent: Pubkey, provider: Pubkey, mint: Pubkey, deposit: U64, expiresAt: I64, verified: bool)
    ensures
      var r := NewRecord(session, agent, provider, mint, deposit, expiresAt, verified);
      && r.session == session && r.agent == agent && r.provider == provider && r.mint == mint
      && r.depositedTotal == deposit && r.expiresAt == expiresAt && r.chainVerified == verified
      && r.cumulativeAccepted == 0 && r.lastNonce.None? && r.highestClaim.None? && !r.isSettled
  {
  }

  /**
   What a session's record is after each operation: stored as given when opened, advanced
   to the accepted claim with its signature, one flag raised; and in every other case,
   and for every other session, what it was.
   */
  lemma RecordAfter(store: Store, op: Op, s: Pubkey)
    ensures
      var (store', reply) := StoreStep(store, op);
      match op
      case Open(record) =>
        && (s in store' <==> s in store || s == record.session)
        && (s in store' ==> store'[s] == if s in store then store[s] else record)
        && (reply == Done <==> record.session !in store)
      case Admit(claim, signature, now) =>
        && (s in store' <==> s in store)
        && (s in store ==>
              if s == claim.session && EvaluateClaim(store[s], claim, now).Ok? then
                && store'[s].cumulativeAccepted == claim.cumulativeAmount && store'[s].lastNonce == Some(claim.nonce)
                && store'[s].highestClaim == Some(SignedClaim(claim, signature))
                && store[s] == store'[s].(cumulativeAccepted := store[s].cumulativeAccepted, lastNonce := store[s].lastNonce,
                                          highestClaim := store[s].highestClaim)
              else store'[s] == store[s])
      case MarkSettled(session) =>
        && (s in store' <==> s in store)
        && (s in store ==> store'[s] == if s == session then store[s].(isSettled := true) else store[s])
      case MarkChainVerified(session) =>
        && (s in store' <==> s in store)
        && (s in store ==> store'[s] == if s == session then store[s].(chainVerified := true) else store[s])
  {
  }

  // ---- what every run keeps ----

  /** `later` is the same session as `earlier`, at or beyond it. */
  predicate NotBehind(earlier: SessionRecord, later: SessionRecord) {
    && later.session == earlier.session && later.agent == earlier.agent
    && later.provider == earlier.provider && later.mint == earlier.mint
    && later.depositedTotal == earlier.depositedTotal && later.expiresAt == earlier.expiresAt
    && later.cumulativeAccepted >= earlier.cumulativeAccepted
    && (earlier.lastNonce.Some? ==> later.lastNonce.Some? && later.lastNonce.value >= earlier.lastNonce.value)
    && (earlier.isSettled ==> later.isSettled)
    && (earlier.chainVerified ==> later.chainVerified)
  }

  lemma {:induction false} StoreRunSplit(store: Store, ops: seq<Op>, more: seq<Op>)
    ensures StoreRun(store, ops + more) == StoreRun(StoreRun(store, ops), more)
    decreases |more|
  {
    if more == [] {
      assert ops + more == ops;
    } else {
      StoreRunSplit(store, ops, more[..|more| - 1]);
      assert (ops + more)[..|ops + more| - 1] == ops + more[..|more| - 1];
    }
  }

  /** In every run of every store, marks, nonces and flags only rise and the terms never change. */
  lemma {:induction false} MarksOnlyRise(store: Store, ops: seq<Op>, s: Pubkey)
    requires s in store
    ensures s in StoreRun(store, ops)
    ensures NotBehind(store[s], StoreRun(store, ops)[s])
    decreases |ops|
  {
    if ops != [] {
      MarksOnlyRise(store, ops[..|ops| - 1], s);
    }
  }

  /** The verdict on operation i of a run. */
  function ReplyAt(store: Store, ops: seq<Op>, i: nat): Reply
    requires i < |ops|
  {
    StoreStep(StoreRun(store, ops[..i]), ops[i]).1
  }

  predicate AcceptedAt(store: Store, ops: seq<Op>, i: nat)
    requires i < |ops|
  {
    ops[i].Admit? && ReplyAt(store, ops, i).Decided? && ReplyAt(store, ops, i).verdict.Ok?
  }

  /**
   Whatever else happens in between, a later accepted claim on the same session
   is strictly above an earlier one in both amount and nonce. So of any number of
   identical claims at most one is ever admitted.
   */
  lemma {:induction false} AcceptedClaimsIncrease(store: Store, ops: seq<Op>, i: nat, j: nat)
    requires i < j < |ops|
    requires AcceptedAt(store, ops, i) && AcceptedAt(store, ops, j)
    requires ops[i].claim.session == ops[j].claim.session
    ensures ops[i].claim.cumulativeAmount < ops[j].claim.cumulativeAmount
    ensures ops[i].claim.nonce < ops[j].claim.nonce
    ensures ops[i].claim != ops[j].claim
  {
    var s := ops[i].claim.session;
    var after := StoreRun(store, ops[..i + 1]);
    assert ops[..i + 1][..i] == ops[..i];
    assert s in after && after[s].cumulativeAccepted == ops[i].claim.cumulativeAmount;
    StoreRunSplit(store, ops[..i + 1], ops[i + 1..j]);
    assert ops[..i + 1] + ops[i + 1..j] == ops[..j];
    MarksOnlyRise(after, ops[i + 1..j], s);
  }

  /** A record as the gateway itself produces them. */
  predicate RecordOk(s: Pubkey, r: SessionRecord) {
    && r.session == s
    && r.cumulativeAccepted <= r.depositedTotal
    && r.lastNonce.Some? == r.highestClaim.Some? == (r.cumulativeAccepted > 0)
    && (r.highestClaim.Some? ==>
          && r.highestClaim.value.claim.session == s
          && r.highestClaim.value.claim.cumulativeAmount == r.cumulativeAccepted
          && r.highestClaim.value.claim.nonce == r.lastNonce.value)
  }

  ghost predicate StoreOk(store: Store) {
    forall s :: s in store ==> RecordOk(s, store[s])
  }

  predicate FreshOpens(ops: seq<Op>) {
    forall i :: 0 <= i < |ops| && ops[i].Open? ==> IsFresh(ops[i].record)
  }

  predicate IsFresh(r: SessionRecord) {
    r == NewRecord(r.session, r.agent, r.provider, r.mint, r.depositedTotal, r.expiresAt, r.chainVerified)
  }

  /** The sum of what a run's accepted claims on s were charged. */
  function Charged(store: Store, ops: seq<Op>, s: Pubkey): nat
    decreases |ops|
  {
    if ops == [] then 0
    else
      var i := |ops| - 1;
      Charged(store, ops[..i], s) +
      (if AcceptedAt(store, ops, i) && ops[i].claim.session == s then ReplyAt(store, ops, i).verdict.value.delta else 0)
  }

  function MarkIn(store: Store, s: Pubkey): U64 {
    if s in store then store[s].cumulativeAccepted else 0
  }

  lemma StepKeepsStoreOk(store: Store, op: Op)
    requires StoreOk(store) && (op.Open? ==> IsFresh(op.record))
    ensures StoreOk(StoreStep(store, op).0)
  {
  }

  /** One operation raises a mark by exactly what it charged. */
  lemma StepCharges(store: Store, op: Op, s: Pubkey)
    requires op.Open? ==> IsFresh(op.record)
    ensures
      var (store', reply) := StoreStep(store, op);
      MarkIn(store', s) == MarkIn(store, s)
        + (if op.Admit? && reply.Decided? && reply.verdict.Ok? && op.claim.session == s then reply.verdict.value.delta else 0)
  {
  }

  /**
   From an empty store, after any run: the retained claim is exactly the mark, the
   mark is within the deposit, and it equals the sum of every charge made.
   */
  lemma {:induction false} MarkIsSumOfCharges(ops: seq<Op>, s: Pubkey)
    requires FreshOpens(ops)
    ensures StoreOk(StoreRun(map[], ops))
    ensures Charged(map[], ops, s) == MarkIn(StoreRun(map[], ops), s)
    decreases |ops|
  {
    if ops != [] {
      var i := |ops| - 1;
      var init := ops[..i];
      assert forall k :: 0 <= k < |init| ==> init[k] == ops[k];
      MarkIsSumOfCharges(init, s);
      StepKeepsStoreOk(StoreRun(map[], init), ops[i]);
      StepCharges(StoreRun(map[], init), ops[i], s);
    }
  }

  /** None of the run's operations from one index up to another admits a claim on s. */
  predicate NoneAdmitted(ops: seq<Op>, from: nat, to: nat, s: Pubkey)
    requires to <= |ops|
  {
    forall i :: from <= i < to ==> !AdmitsAt(ops, i, s)
  }

  predicate AdmitsAt(ops: seq<Op>, i: nat, s: Pubkey)
    requires i < |ops|
  {
    AcceptedAt(map[], ops, i) && ops[i].claim.session == s
  }

  lemma AcceptedAtPrefix(ops: seq<Op>, k: nat, i: nat)
    requires i < k <= |ops|
    ensures AcceptedAt(map[], ops[..k], i) == AcceptedAt(map[], ops, i) && ReplyAt(map[], ops[..k], i) == ReplyAt(map[], ops, i)
  {
    assert ops[..k][..i] == ops[..i];
  }

  lemma ChargedStep(ops: seq<Op>, i: nat, s: Pubkey)
    requires i < |ops|
    ensures Charged(map[], ops[..i + 1], s) >= Charged(map[], ops[..i], s)
    ensures Charged(map[], ops[..i + 1], s) == Charged(map[], ops[..i], s) <==> !AdmitsAt(ops, i, s)
  {
    assert ops[..i + 1][..i] == ops[..i];
    AcceptedAtPrefix(ops, i + 1, i);
  }

  /** f grows from i to i + 1 exactly where p holds, and never falls. */
  ghost predicate StepsUp(f: nat -> nat, p: nat -> bool, i: nat) {
    f(i + 1) >= f(i) && (f(i + 1) == f(i) <==> !p(i))
  }

  lemma {:induction false} StandsStillIff(f: nat -> nat, p: nat -> bool, k: nat, m: nat)
    requires k <= m && forall i :: k <= i < m ==> StepsUp(f, p, i)
    ensures f(k) <= f(m)
    ensures f(k) == f(m) <==> forall i :: k <= i < m ==> !p(i)
    decreases m
  {
    if k < m {
      StandsStillIff(f, p, k, m - 1);
      assert StepsUp(f, p, m - 1);
    }
  }

  /** Charges only add up, and stand still exactly while nothing is admitted. */
  lemma {:induction false} ChargedSince(ops: seq<Op>, k: nat, m: nat, s: Pubkey)
    requires k <= m <= |ops|
    ensures Charged(map[], ops[..k], s) <= Charged(map[], ops[..m], s)
    ensures Charged(map[], ops[..k], s) == Charged(map[], ops[..m], s) <==> NoneAdmitted(ops, k, m, s)
  {
    var f := (i: nat) => if i <= |ops| then Charged(map[], ops[..i], s) else 0;
    var p := (i: nat) => i < |ops| && AdmitsAt(ops, i, s);
    forall i | k <= i < m ensures StepsUp(f, p, i) {
      ChargedStep(ops, i, s);
    }
    StandsStillIff(f, p, k, m);
    forall i | k <= i < m ensures p(i) == AdmitsAt(ops, i, s) {
    }
    if NoneAdmitted(ops, k, m, s) {
      assert forall i :: k <= i < m ==> !p(i);
    }
    if forall i :: k <= i < m ==> !p(i) {
      forall i | k <= i < m ensures !AdmitsAt(ops, i, s) {
        assert !p(i);
      }
    }
  }

  /** The claim the SDK signs to ask for a plan (`control.rs`): the current mark and nonce, exactly. */
  predicate PlanBinds(record: SessionRecord, claim: Claim) {
    && claim.cumulativeAmount == record.cumulativeAccepted
    && claim.nonce == (if record.lastNonce.Some? then record.lastNonce.value else 0)
  }

  /** A planning claim buys nothing: no later state of the gateway admits it. */
  lemma {:induction false} PlanningClaimNeverAdmitted(store: Store, ops: seq<Op>, claim: Claim, now: I64)
    requires claim.session in store && PlanBinds(store[claim.session], claim)
    ensures claim.session in StoreRun(store, ops)
    ensures EvaluateClaim(StoreRun(store, ops)[claim.session], claim, now).Err?
  {
    MarksOnlyRise(store, ops, claim.session);
  }
}
