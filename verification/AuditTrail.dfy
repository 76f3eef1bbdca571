/**
 What the evidence log proves by itself (`gateway/src/db.rs`, `gateway/src/evidence.rs`).
 Statements are about the tables after any serial run of the store's operations,
 which by `Transactions.Serializable` are the tables after any concurrent run.
 */
module AuditTrail {
  import opened Bytes
  import opened Wrappers
  import opened Claims
  import opened Admission
  import opened Postgres
  import Evidence
  import Merkle
  import RootBinding
  import Transactions

  // ---- every committed chain verifies ----

  /** After every run, each session's log loads and is numbered from zero, linked and hashed without fault. */
  lemma {:induction false} EveryChainVerifies(h: Hash, ops: seq<Op>, s: Pubkey)
    ensures LoadEvidenceChain(TableRun(h, EMPTY_TABLES, ops), s).Ok?
    ensures Evidence.ChainOk(h, s, LoadEvidenceChain(TableRun(h, EMPTY_TABLES, ops), s).value)
  {
    TableRunOk(h, EMPTY_TABLES, ops);
    SoundLogVerifies(h, TableRun(h, EMPTY_TABLES, ops), s);
  }

  /** ... and therefore after every interleaving of concurrent admissions and crashes. */
  lemma {:induction false} EveryConcurrentChainVerifies(h: Hash, steps: seq<Transactions.Step>, s: Pubkey)
    ensures
      var loaded := LoadEvidenceChain(Transactions.WorldRun(h, Transactions.INITIAL, steps).tables, s);
      loaded.Ok? && Evidence.ChainOk(h, s, loaded.value)
  {
    Transactions.Serializable(h, steps);
    EveryChainVerifies(h, Transactions.Ops(Transactions.WorldRun(h, Transactions.INITIAL, steps).history), s);
  }

  // ---- the log is append-only and freezes at settlement ----

  lemma TableStepAppends(h: Hash, t: Tables, op: Op, s: Pubkey)
    requires TablesOk(h, t)
    ensures t.Rows(s) <= TableStep(h, t, op).Rows(s)
    ensures s in t.sessions && t.sessions[s].settled ==>
      && s in TableStep(h, t, op).sessions && TableStep(h, t, op).sessions[s].settled
      && TableStep(h, t, op).Rows(s) == t.Rows(s)
      && TableStep(h, t, op).Ticket(s) == t.Ticket(s)
  {
    if op.Admit? {
      AdmitKeepsTablesOk(h, t, op.claim, op.signature, op.now);
      if s == op.claim.session && s in t.sessions {
        AdmitShape(h, t, op.claim, op.signature, op.now);
      }
    }
  }

  function EvidenceRoot(h: Hash, t: Tables, s: Pubkey): Digest {
    Merkle.RootOf(h, LoadEvidenceLeaves(t, s))
  }

  /**
   Whatever follows, a session's log is only ever extended; and from settlement
   onward neither it nor the retained ticket changes, so its Merkle root is constant.
   */
  lemma {:induction false} LogOnlyExtends(h: Hash, t: Tables, ops: seq<Op>, s: Pubkey)
    requires TablesOk(h, t)
    ensures t.Rows(s) <= TableRun(h, t, ops).Rows(s)
    ensures s in t.sessions && t.sessions[s].settled ==>
      && s in TableRun(h, t, ops).sessions && TableRun(h, t, ops).sessions[s].settled
      && TableRun(h, t, ops).Rows(s) == t.Rows(s)
      && TableRun(h, t, ops).Ticket(s) == t.Ticket(s)
      && EvidenceRoot(h, TableRun(h, t, ops), s) == EvidenceRoot(h, t, s)
    decreases |ops|
  {
    if ops != [] {
      var (init, op) := (ops[..|ops| - 1], ops[|ops| - 1]);
      LogOnlyExtends(h, t, init, s);
      TableRunOk(h, t, init);
      TableStepAppends(h, TableRun(h, t, init), op, s);
    }
  }

  /** How many of a run's attempts on s were decided and recorded. */
  function Recorded(h: Hash, t: Tables, ops: seq<Op>, s: Pubkey): nat
    decreases |ops|
  {
    if ops == [] then 0
    else
      var (init, op) := (ops[..|ops| - 1], ops[|ops| - 1]);
      Recorded(h, t, init, s) + (if RecordsAttempt(h, TableRun(h, t, init), op, s) then 1 else 0)
  }

  /** An attempt on s that reached a decision and found it unsettled. */
  predicate RecordsAttempt(h: Hash, t: Tables, op: Op, s: Pubkey) {
    && op.Admit? && op.claim.session == s
    && s in t.sessions && !t.sessions[s].settled
    && AdmitAlone(h, t, op.claim, op.signature, op.now).1.Ok?
  }

  lemma StepCounts(h: Hash, t: Tables, op: Op, s: Pubkey)
    requires TablesOk(h, t)
    ensures |TableStep(h, t, op).Rows(s)| == |t.Rows(s)| + (if RecordsAttempt(h, t, op, s) then 1 else 0)
  {
    if op.Admit? {
      AdmitKeepsTablesOk(h, t, op.claim, op.signature, op.now);
    }
  }

  /** Exactly one entry per decided attempt, refusals included, and none otherwise. */
  lemma {:induction false} OneEntryPerDecision(h: Hash, t: Tables, ops: seq<Op>, s: Pubkey)
    requires TablesOk(h, t)
    ensures |TableRun(h, t, ops).Rows(s)| == |t.Rows(s)| + Recorded(h, t, ops, s)
    decreases |ops|
  {
    if ops != [] {
      var (init, op) := (ops[..|ops| - 1], ops[|ops| - 1]);
      OneEntryPerDecision(h, t, init, s);
      TableRunOk(h, t, init);
      StepCounts(h, TableRun(h, t, init), op, s);
    }
  }

  // ---- what a committed root commits to ----

  /** The log an auditor is given. */
  function Log(t: Tables, s: Pubkey): seq<Evidence.EvidenceEntry> {
    if LoadEvidenceChain(t, s).Ok? then LoadEvidenceChain(t, s).value else []
  }

  lemma LogFacts(h: Hash, t: Tables, s: Pubkey)
    requires TablesOk(h, t)
    ensures NonNegative(t.Rows(s)) && Log(t, s) == ToEntries(t.Rows(s))
    ensures Evidence.ChainOk(h, s, Log(t, s))
    ensures LoadEvidenceLeaves(t, s) == Evidence.EntryHashes(Log(t, s))
  {
    SoundLogVerifies(h, t, s);
    OrderIsInsertion(t.Rows(s));
    assert forall i :: 0 <= i < |t.Rows(s)| ==> LoadEvidenceLeaves(t, s)[i] == Log(t, s)[i].entryHash;
  }

  lemma LogGrows(h: Hash, t: Tables, ops: seq<Op>, s: Pubkey)
    requires TablesOk(h, t)
    ensures Log(t, s) <= Log(TableRun(h, t, ops), s)
    ensures |Log(TableRun(h, t, ops), s)| == |Log(t, s)| + Recorded(h, t, ops, s)
  {
    LogOnlyExtends(h, t, ops, s);
    OneEntryPerDecision(h, t, ops, s);
    TableRunOk(h, t, ops);
    LogFacts(h, t, s);
    LogFacts(h, TableRun(h, t, ops), s);
  }

  /**
   The root computed once is still the root later exactly when no attempt on the
   session was recorded in between, unless hashed bytes clash.
   */
  lemma {:induction false} RootUnchangedIff(h: Hash, t: Tables, more: seq<Op>, s: Pubkey)
    requires TablesOk(h, t)
    ensures
      var t' := TableRun(h, t, more);
      || (EvidenceRoot(h, t', s) == EvidenceRoot(h, t, s) <==> Recorded(h, t, more, s) == 0)
      || RootBinding.Clash(h, s, Log(t, s), s, Log(t', s))
  {
    var t' := TableRun(h, t, more);
    TableRunOk(h, t, more);
    LogGrows(h, t, more, s);
    LogFacts(h, t, s);
    LogFacts(h, t', s);
    if Recorded(h, t, more, s) == 0 {
      assert Log(t', s) == Log(t, s);
    }
    if EvidenceRoot(h, t', s) == EvidenceRoot(h, t, s) {
      RootBinding.RootBindsLog(h, s, Log(t, s), s, Log(t', s));
    }
  }

  /**
   What a committed root binds. The leaves are loaded after some operations; whatever
   follows, any log, alleged of any session, that passes the chain check and has that
   root is the log as it was loaded, the start of the log then held; and it is all of
   the log then held exactly when no attempt was recorded in between. Or hashed bytes
   clash.
   */
  lemma {:induction false} CommittedRootBindsLog(
      h: Hash, ops: seq<Op>, more: seq<Op>, s: Pubkey, other: Pubkey, alleged: seq<Evidence.EvidenceEntry>)
    requires Evidence.ChainOk(h, other, alleged)
    requires Merkle.RootOf(h, Evidence.EntryHashes(alleged)) == EvidenceRoot(h, TableRun(h, EMPTY_TABLES, ops), s)
    ensures
      var t := TableRun(h, EMPTY_TABLES, ops);
      var held := Log(TableRun(h, t, more), s);
      || (&& alleged == Log(t, s) && (alleged != [] ==> s == other)
          && alleged <= held
          && (alleged == held <==> Recorded(h, t, more, s) == 0))
      || RootBinding.Clash(h, s, Log(t, s), other, alleged)
  {
    var t := TableRun(h, EMPTY_TABLES, ops);
    TableRunOk(h, EMPTY_TABLES, ops);
    LogFacts(h, t, s);
    LogGrows(h, t, more, s);
    RootBinding.RootBindsLog(h, s, Log(t, s), other, alleged);
  }

  /** Nothing is recorded once a session is settled. */
  lemma {:induction false} SettledRecordsNothing(h: Hash, t: Tables, ops: seq<Op>, s: Pubkey)
    requires TablesOk(h, t) && s in t.sessions && t.sessions[s].settled
    ensures Recorded(h, t, ops, s) == 0
  {
    LogOnlyExtends(h, t, ops, s);
    OneEntryPerDecision(h, t, ops, s);
  }

  lemma {:induction false} RecordedSplit(h: Hash, t: Tables, ops: seq<Op>, more: seq<Op>, s: Pubkey)
    requires TablesOk(h, t)
    ensures Recorded(h, t, ops + more, s) == Recorded(h, t, ops, s) + Recorded(h, TableRun(h, t, ops), more, s)
  {
    TableRunOk(h, t, ops);
    OneEntryPerDecision(h, t, ops, s);
    OneEntryPerDecision(h, TableRun(h, t, ops), more, s);
    OneEntryPerDecision(h, t, ops + more, s);
    TableRunSplit(h, t, ops, more);
  }

  /**
   The settle route loads the leaves first and marks the session settled last. The
   root it committed is the root of the log held from then on exactly when no attempt
   on the session was recorded between the two, unless hashed bytes clash.
   */
  lemma {:induction false} CommittedRootIsHeldRootIff(h: Hash, before: seq<Op>, between: seq<Op>, after: seq<Op>, s: Pubkey)
    requires s in TableRun(h, TableRun(h, EMPTY_TABLES, before), between).sessions
    ensures
      var loaded := TableRun(h, EMPTY_TABLES, before);
      var held := TableRun(h, loaded, between + [MarkSettled(s)] + after);
      || (EvidenceRoot(h, held, s) == EvidenceRoot(h, loaded, s) <==> Recorded(h, loaded, between, s) == 0)
      || RootBinding.Clash(h, s, Log(loaded, s), s, Log(held, s))
  {
    var loaded := TableRun(h, EMPTY_TABLES, before);
    var settled := TableRun(h, loaded, between + [MarkSettled(s)]);
    TableRunOk(h, EMPTY_TABLES, before);
    TableRunOk(h, loaded, between);
    TableRunSnoc(h, loaded, between, MarkSettled(s));
    TableStepOk(h, TableRun(h, loaded, between), MarkSettled(s));
    SettledRecordsNothing(h, settled, after, s);
    RecordedSplit(h, loaded, between + [MarkSettled(s)], after, s);
    RecordedSplit(h, loaded, between, [MarkSettled(s)], s);
    OneEntryPerDecision(h, TableRun(h, loaded, between), [MarkSettled(s)], s);
    MarkRecordsNothing(h, TableRun(h, loaded, between), s);
    RootUnchangedIff(h, loaded, between + [MarkSettled(s)] + after, s);
  }

  lemma MarkRecordsNothing(h: Hash, t: Tables, s: Pubkey)
    ensures Recorded(h, t, [MarkSettled(s)], s) == 0
  {
    assert [MarkSettled(s)][..0] == [];
    assert Recorded(h, t, [], s) == 0;
  }

  lemma {:induction false} SessionsStay(h: Hash, t: Tables, ops: seq<Op>, s: Pubkey)
    requires TablesOk(h, t) && s in t.sessions
    ensures s in TableRun(h, t, ops).sessions
    decreases |ops|
  {
    if ops != [] {
      var (init, op) := (ops[..|ops| - 1], ops[|ops| - 1]);
      SessionsStay(h, t, init, s);
      TableRunOk(h, t, init);
      if op.Admit? {
        AdmitKeepsTablesOk(h, TableRun(h, t, init), op.claim, op.signature, op.now);
      }
    }
  }

  /** So any attempt decided while a settlement is under way leaves the committed root behind the log, for good. */
  lemma {:induction false} LateAttemptBreaksRoot(h: Hash, before: seq<Op>, late: Claim, signature: Signature, now: I64, after: seq<Op>)
    requires
      var t := TableRun(h, EMPTY_TABLES, before);
      var s := late.session;
      s in t.sessions && !t.sessions[s].settled && AdmitAlone(h, t, late, signature, now).1.Ok?
    ensures
      var (s, loaded) := (late.session, TableRun(h, EMPTY_TABLES, before));
      var held := TableRun(h, loaded, [Admit(late, signature, now)] + [MarkSettled(s)] + after);
      EvidenceRoot(h, held, s) != EvidenceRoot(h, loaded, s) || RootBinding.Clash(h, s, Log(loaded, s), s, Log(held, s))
  {
    var loaded := TableRun(h, EMPTY_TABLES, before);
    var between := [Admit(late, signature, now)];
    assert between[..0] == [];
    assert TableRun(h, loaded, []) == loaded && Recorded(h, loaded, [], late.session) == 0;
    assert Recorded(h, loaded, between, late.session) == 1;
    TableRunOk(h, EMPTY_TABLES, before);
    SessionsStay(h, loaded, between, late.session);
    CommittedRootIsHeldRootIff(h, before, between, after, late.session);
  }

  /**
   Such a run from nothing: open, admit one claim, load the leaves for settlement,
   admit another claim, mark settled.
   */
  lemma {:induction false} LateAttemptRun(h: Hash, record: SessionRecord, first: Claim, late: Claim, signature: Signature, now: I64)
    requires IsFresh(record) && record.depositedTotal <= I64_MAX && now <= record.expiresAt
    requires first.session == record.session == late.session
    requires 0 < first.cumulativeAmount < late.cumulativeAmount <= record.depositedTotal
    requires first.nonce < late.nonce <= I64_MAX
    ensures
      var s := record.session;
      var loaded := TableRun(h, EMPTY_TABLES, [Open(record), Admit(first, signature, now)]);
      var held := TableRun(h, loaded, [Admit(late, signature, now)] + [MarkSettled(s)] + []);
      && |Log(loaded, s)| == 1 && |Log(held, s)| == 2
      && (EvidenceRoot(h, held, s) != EvidenceRoot(h, loaded, s) || RootBinding.Clash(h, s, Log(loaded, s), s, Log(held, s)))
  {
    var before := [Open(record), Admit(first, signature, now)];
    FirstClaimAccepted(h, record, first, signature, now);
    assert before == [Open(record)] + [Admit(first, signature, now)];
    TableRunSnoc(h, EMPTY_TABLES, [Open(record)], Admit(first, signature, now));
    SecondClaimDecided(h, record, first, late, signature, now);
    LateAttemptBreaksRoot(h, before, late, signature, now, []);
    LateAttemptLogs(h, TableRun(h, EMPTY_TABLES, before), late, signature, now);
  }

  lemma LateAttemptLogs(h: Hash, t: Tables, late: Claim, signature: Signature, now: I64)
    requires TablesOk(h, t) && late.session in t.sessions && !t.sessions[late.session].settled
    requires AdmitAlone(h, t, late, signature, now).1.Ok?
    ensures |Log(t, late.session)| == |t.Rows(late.session)|
    ensures |Log(TableRun(h, t, [Admit(late, signature, now)] + [MarkSettled(late.session)] + []), late.session)| == |t.Rows(late.session)| + 1
  {
    var (s, between) := (late.session, [Admit(late, signature, now)]);
    LogFacts(h, t, s);
    assert between[..0] == [] && TableRun(h, t, []) == t && Recorded(h, t, [], s) == 0;
    assert between + [MarkSettled(s)] + [] == between + [MarkSettled(s)];
    RecordedSplit(h, t, between, [MarkSettled(s)], s);
    MarkRecordsNothing(h, TableRun(h, t, between), s);
    LogGrows(h, t, between + [MarkSettled(s)], s);
  }

  /** The tables with one session opened and nothing else done. */
  lemma OpenedWith(h: Hash, record: SessionRecord) returns (t: Tables)
    requires IsFresh(record) && 0 < record.depositedTotal <= I64_MAX
    ensures t == TableRun(h, EMPTY_TABLES, [Open(record)])
    ensures TablesOk(h, t) && record.session in t.sessions
    ensures t.Ticket(record.session) == None && t.Rows(record.session) == []
    ensures
      var row := t.sessions[record.session];
      !row.settled && row.depositedTotal == record.depositedTotal && row.expiresAt == record.expiresAt
  {
    t := TableRun(h, EMPTY_TABLES, [Open(record)]);
    assert [Open(record)][..0] == [];
    assert TableRun(h, EMPTY_TABLES, []) == EMPTY_TABLES;
    TableRunOk(h, EMPTY_TABLES, [Open(record)]);
  }

  /** A first claim within the deposit and in time is accepted and becomes the ticket. */
  lemma FirstClaimAccepted(h: Hash, record: SessionRecord, first: Claim, signature: Signature, now: I64)
    requires IsFresh(record) && record.depositedTotal <= I64_MAX && now <= record.expiresAt
    requires first.session == record.session && 0 < first.cumulativeAmount <= record.depositedTotal && first.nonce <= I64_MAX
    ensures
      var s := record.session;
      var t := TableRun(h, EMPTY_TABLES, [Open(record)]);
      var (t', r) := AdmitAlone(h, t, first, signature, now);
      && r.Ok? && r.value.Ok? && TablesOk(h, t') && t'.sessions == t.sessions && |t'.Rows(s)| == 1
      && s in t.sessions && !t.sessions[s].settled
      && t.sessions[s].depositedTotal == record.depositedTotal && t.sessions[s].expiresAt == record.expiresAt
      && t'.Ticket(s) == Some(TicketRow(first.cumulativeAmount, first.nonce, first.expiresAt, signature))
  {
    var t := OpenedWith(h, record);
    AdmitShape(h, t, first, signature, now);
    AdmitKeepsTablesOk(h, t, first, signature, now);
  }

  lemma SecondClaimDecided(h: Hash, record: SessionRecord, first: Claim, late: Claim, signature: Signature, now: I64)
    requires IsFresh(record) && record.depositedTotal <= I64_MAX && now <= record.expiresAt
    requires first.session == record.session == late.session
    requires 0 < first.cumulativeAmount <= record.depositedTotal && first.nonce <= I64_MAX
    requires late.nonce <= I64_MAX || late.cumulativeAmount > record.depositedTotal
    ensures
      var t' := AdmitAlone(h, TableRun(h, EMPTY_TABLES, [Open(record)]), first, signature, now).0;
      AdmitAlone(h, t', late, signature, now).1.Ok?
  {
    FirstClaimAccepted(h, record, first, signature, now);
    AdmitShape(h, AdmitAlone(h, TableRun(h, EMPTY_TABLES, [Open(record)]), first, signature, now).0, late, signature, now);
  }

  // ---- the same under concurrency ----

  /** Later committed tables are a serial run of what was committed in between. */
  lemma LaterTablesAreARun(h: Hash, steps: seq<Transactions.Step>, more: seq<Transactions.Step>) returns (tail: seq<Op>)
    ensures
      var (w, w') := (Transactions.WorldRun(h, Transactions.INITIAL, steps), Transactions.WorldRun(h, Transactions.INITIAL, steps + more));
      && |w.history| <= |w'.history| && tail == Transactions.Ops(w'.history[|w.history|..])
      && TablesOk(h, w.tables)
      && w'.tables == TableRun(h, w.tables, tail)
  {
    Transactions.SerialTables(h, steps);
    Transactions.SerialTables(h, steps + more);
    tail := Transactions.LaterOps(h, steps, more);
    TableRunSplit(h, EMPTY_TABLES, Transactions.Ops(Transactions.WorldRun(h, Transactions.INITIAL, steps).history), tail);
  }

  /** However threads interleave and crash, the root moves exactly with the attempts committed in between. */
  lemma {:induction false} ConcurrentRootUnchangedIff(h: Hash, steps: seq<Transactions.Step>, more: seq<Transactions.Step>, s: Pubkey)
    ensures
      var w := Transactions.WorldRun(h, Transactions.INITIAL, steps);
      var w' := Transactions.WorldRun(h, Transactions.INITIAL, steps + more);
      && |w.history| <= |w'.history|
      && var tail := Transactions.Ops(w'.history[|w.history|..]);
         || (EvidenceRoot(h, w'.tables, s) == EvidenceRoot(h, w.tables, s) <==> Recorded(h, w.tables, tail, s) == 0)
         || RootBinding.Clash(h, s, Log(w.tables, s), s, Log(w'.tables, s))
  {
    var tail := LaterTablesAreARun(h, steps, more);
    RootUnchangedIff(h, Transactions.WorldRun(h, Transactions.INITIAL, steps).tables, tail, s);
  }

  // ---- the log explains itself ----

  /** The mark and the nonce an auditor has after replaying some entries. */
  datatype Replay = Replay(mark: U64, lastNonce: Option<U64>)

  predicate IsAllowed(e: Evidence.EvidenceEntry) {
    e.decision == Evidence.DecisionBytes(Evidence.Allowed)
  }

  function ReplayOf(entries: seq<Evidence.EvidenceEntry>): Replay
    decreases |entries|
  {
    if entries == [] then Replay(0, None)
    else
      var last := entries[|entries| - 1];
      if IsAllowed(last) then Replay(last.cumulative, Some(last.nonce)) else ReplayOf(entries[..|entries| - 1])
  }

  /** The ordering rule, on nothing but the deposit and the replayed state. Expiry is not in the log. */
  function Rederive(deposit: U64, r: Replay, cumulative: U64, nonce: U64): Evidence.Decision {
    if cumulative <= r.mark then Evidence.NotMonotonic
    else if r.lastNonce.Some? && nonce <= r.lastNonce.value then Evidence.NonceNotMonotonic
    else if cumulative > deposit then Evidence.ExceedsDeposit
    else Evidence.Allowed
  }

  predicate Explains(deposit: U64, entries: seq<Evidence.EvidenceEntry>, i: nat)
    requires i < |entries|
  {
    var e := entries[i];
    || e.decision == Evidence.DecisionBytes(Evidence.SessionExpired)
    || e.decision == Evidence.DecisionBytes(Rederive(deposit, ReplayOf(entries[..i]), e.cumulative, e.nonce))
  }

  /** The deposit and the last admitted nonce are below the column's maximum. */
  predicate BelowColumnMax(deposit: U64, r: Replay) {
    deposit < I64_MAX && (r.lastNonce.Some? ==> r.lastNonce.value < I64_MAX)
  }

  /** The amounts charged, as an auditor reads them off the allowed entries. */
  function AllowedDeltas(entries: seq<Evidence.EvidenceEntry>): int
    decreases |entries|
  {
    if entries == [] then 0
    else
      var (init, last) := (entries[..|entries| - 1], entries[|entries| - 1]);
      AllowedDeltas(init) + (if IsAllowed(last) then last.cumulative - ReplayOf(init).mark else 0)
  }

  ghost predicate TrailOk(deposit: U64, ticket: Option<TicketRow>, entries: seq<Evidence.EvidenceEntry>) {
    && ReplayOf(entries) == (if ticket.Some? && ticket.value.cumulative >= 0 && ticket.value.nonce >= 0
                             then Replay(ticket.value.cumulative, Some(ticket.value.nonce)) else Replay(0, None))
    && (forall i :: 0 <= i < |entries| ==> EntryStands(deposit, entries, i))
  }

  /** Entry i is explained where clamping is harmless, and raises the mark if allowed. */
  predicate EntryStands(deposit: U64, entries: seq<Evidence.EvidenceEntry>, i: nat)
    requires i < |entries|
  {
    && (BelowColumnMax(deposit, ReplayOf(entries[..i])) ==> Explains(deposit, entries, i))
    && (IsAllowed(entries[i]) ==> Increases(entries, i))
  }

  /** An allowed entry raises the mark, and the nonce if there was one. */
  predicate Increases(entries: seq<Evidence.EvidenceEntry>, i: nat)
    requires i < |entries|
  {
    var r := ReplayOf(entries[..i]);
    entries[i].cumulative > r.mark && (r.lastNonce.Some? ==> entries[i].nonce > r.lastNonce.value)
  }

  /**
   Clamping an amount and a nonce into the signed columns never changes what the
   rule says of them, exactly when deposit and last nonce are below the maximum.
   */
  lemma ClampHarmlessIff(deposit: U64, r: Replay)
    requires r.mark <= deposit <= I64_MAX && (r.lastNonce.Some? ==> r.lastNonce.value <= I64_MAX)
    ensures (forall c: U64, n: U64 :: Rederive(deposit, r, Clamp(c), Clamp(n)) == Rederive(deposit, r, c, n))
        <==> BelowColumnMax(deposit, r)
  {
    if !BelowColumnMax(deposit, r) {
      var (c, n) := (if deposit == I64_MAX then I64_MAX + 1 else I64_MAX, I64_MAX + 1);
      assert Rederive(deposit, r, Clamp(c), Clamp(n)) != Rederive(deposit, r, c, n);
    }
  }

  lemma DecisionBytesInjective(d: Evidence.Decision, e: Evidence.Decision)
    requires Evidence.DecisionBytes(d) == Evidence.DecisionBytes(e)
    ensures d == e
  {
    Evidence.ParsePrints(d);
    Evidence.ParsePrints(e);
  }

  /** Appending an entry changes nothing about those before it. */
  lemma OldEntriesStand(deposit: U64, ticket: Option<TicketRow>, entries: seq<Evidence.EvidenceEntry>, e: Evidence.EvidenceEntry, i: nat)
    requires TrailOk(deposit, ticket, entries) && i < |entries|
    ensures EntryStands(deposit, entries + [e], i)
  {
    assert EntryStands(deposit, entries, i);
    assert (entries + [e])[..i] == entries[..i];
  }

  lemma NewEntryStands(deposit: U64, entries: seq<Evidence.EvidenceEntry>, e: Evidence.EvidenceEntry, c: U64, n: U64, d: Evidence.Decision)
    requires ReplayOf(entries).mark <= deposit <= I64_MAX
    requires ReplayOf(entries).lastNonce.Some? ==> ReplayOf(entries).lastNonce.value <= I64_MAX
    requires e.cumulative == Clamp(c) && e.nonce == Clamp(n) && e.decision == Evidence.DecisionBytes(d)
    requires d == Evidence.SessionExpired || d == Rederive(deposit, ReplayOf(entries), c, n)
    requires d == Evidence.Allowed ==> n <= I64_MAX
    ensures IsAllowed(e) ==> d == Evidence.Allowed
    ensures EntryStands(deposit, entries + [e], |entries|)
  {
    assert (entries + [e])[..|entries|] == entries;
    if IsAllowed(e) {
      DecisionBytesInjective(d, Evidence.Allowed);
      AllowedRaises(deposit, ReplayOf(entries), c, n);
    }
    if BelowColumnMax(deposit, ReplayOf(entries)) {
      ClampKeepsDecision(deposit, ReplayOf(entries), c, n);
    }
  }

  lemma ClampKeepsDecision(deposit: U64, r: Replay, c: U64, n: U64)
    requires r.mark <= deposit <= I64_MAX && (r.lastNonce.Some? ==> r.lastNonce.value <= I64_MAX)
    requires BelowColumnMax(deposit, r)
    ensures Rederive(deposit, r, Clamp(c), Clamp(n)) == Rederive(deposit, r, c, n)
  {
    ClampHarmlessIff(deposit, r);
  }

  lemma AllowedRaises(deposit: U64, r: Replay, c: U64, n: U64)
    requires deposit <= I64_MAX && n <= I64_MAX && Rederive(deposit, r, c, n) == Evidence.Allowed
    ensures Clamp(c) > r.mark && (r.lastNonce.Some? ==> Clamp(n) > r.lastNonce.value)
  {
  }

  /** One more recorded decision keeps the trail explained. */
  lemma TrailExtends(deposit: U64, before: Option<TicketRow>, after: Option<TicketRow>, entries: seq<Evidence.EvidenceEntry>,
                     e: Evidence.EvidenceEntry, c: U64, n: U64, d: Evidence.Decision)
    requires deposit <= I64_MAX && TrailOk(deposit, before, entries)
    requires ReplayOf(entries).mark <= deposit
    requires ReplayOf(entries).lastNonce.Some? ==> ReplayOf(entries).lastNonce.value <= I64_MAX
    requires e.cumulative == Clamp(c) && e.nonce == Clamp(n) && e.decision == Evidence.DecisionBytes(d)
    requires d == Evidence.SessionExpired || d == Rederive(deposit, ReplayOf(entries), c, n)
    requires d == Evidence.Allowed ==> n <= I64_MAX && after.Some? && after.value.cumulative == c && after.value.nonce == n
    requires d != Evidence.Allowed ==> after == before
    ensures TrailOk(deposit, after, entries + [e])
  {
    var more := entries + [e];
    assert more[..|entries|] == entries;
    NewEntryStands(deposit, entries, e, c, n, d);
    forall i | 0 <= i < |more| ensures EntryStands(deposit, more, i) {
      if i < |entries| {
        OldEntriesStand(deposit, before, entries, e, i);
      }
    }
  }

  ghost predicate TrailFor(t: Tables, s: Pubkey)
    requires s in t.sessions
  {
    && t.sessions[s].depositedTotal > 0
    && NonNegative(t.Rows(s))
    && TrailOk(t.sessions[s].depositedTotal, t.Ticket(s), ToEntries(t.Rows(s)))
  }

  ghost predicate AllTrailsOk(t: Tables) {
    forall s :: s in t.sessions ==> TrailFor(t, s)
  }

  /** The recorded decision is the one an auditor re-derives from mark, nonce and deposit, unless it is expiry. */
  lemma VerdictIsRederived(record: SessionRecord, claim: Claim, now: I64, r: Replay, d: Evidence.Decision)
    requires r == Replay(record.cumulativeAccepted, record.lastNonce)
    requires RecordedDecision(EvaluateClaim(record, claim, now)) == Some(d)
    ensures d == Evidence.SessionExpired
         || d == Rederive(record.depositedTotal, r, claim.cumulativeAmount, claim.nonce)
  {
  }

  lemma ReplayIsTicket(h: Hash, t: Tables, s: Pubkey)
    requires TablesOk(h, t) && s in t.sessions && TrailFor(t, s)
    ensures JudgedRecord(s, t.sessions[s], t.Ticket(s)).Ok?
    ensures ReplayOf(ToEntries(t.Rows(s))) == Replay(JudgedIn(t, s).cumulativeAccepted, JudgedIn(t, s).lastNonce)
    ensures JudgedIn(t, s).cumulativeAccepted <= t.sessions[s].depositedTotal == JudgedIn(t, s).depositedTotal
  {
  }

  lemma AdmitKeepsTrail(h: Hash, t: Tables, claim: Claim, signature: Signature, now: I64)
    requires TablesOk(h, t) && claim.session in t.sessions && TrailFor(t, claim.session)
    requires AdmitAlone(h, t, claim, signature, now).0 != t
    ensures
      var s := claim.session;
      var t' := AdmitAlone(h, t, claim, signature, now).0;
      NonNegative(t'.Rows(s)) && TrailOk(t.sessions[s].depositedTotal, t'.Ticket(s), ToEntries(t'.Rows(s)))
  {
    var s := claim.session;
    var d, row := AdmitAppends(h, t, claim, signature, now);
    var (rows, t') := (t.Rows(s), AdmitAlone(h, t, claim, signature, now).0);
    assert ToEntries(rows + [row]) == ToEntries(rows) + [ToEntry(row)];
    ReplayIsTicket(h, t, s);
    VerdictIsRederived(JudgedIn(t, s), claim, now, ReplayOf(ToEntries(rows)), d);
    TrailExtends(t.sessions[s].depositedTotal, t.Ticket(s), t'.Ticket(s), ToEntries(rows), ToEntry(row),
                 claim.cumulativeAmount, claim.nonce, d);
  }

  lemma TableStepKeepsTrail(h: Hash, t: Tables, op: Op, s: Pubkey)
    requires TablesOk(h, t) && s in TableStep(h, t, op).sessions
    requires s in t.sessions ==> TrailFor(t, s)
    ensures TrailFor(TableStep(h, t, op), s)
  {
    var t' := TableStep(h, t, op);
    if op.Admit? {
      AdmitKeepsTablesOk(h, t, op.claim, op.signature, op.now);
      if s == op.claim.session && t' != t {
        AdmitKeepsTrail(h, t, op.claim, op.signature, op.now);
      } else {
        assert t'.Ticket(s) == t.Ticket(s) && t'.Rows(s) == t.Rows(s);
      }
    } else {
      assert t'.Ticket(s) == t.Ticket(s) && t'.Rows(s) == t.Rows(s);
    }
  }

  lemma TableStepKeepsTrails(h: Hash, t: Tables, op: Op)
    requires TablesOk(h, t) && AllTrailsOk(t)
    ensures AllTrailsOk(TableStep(h, t, op))
  {
    forall s | s in TableStep(h, t, op).sessions ensures TrailFor(TableStep(h, t, op), s) {
      TableStepKeepsTrail(h, t, op, s);
    }
  }

  lemma {:induction false} TableRunTrails(h: Hash, ops: seq<Op>)
    ensures AllTrailsOk(TableRun(h, EMPTY_TABLES, ops))
    decreases |ops|
  {
    if ops != [] {
      TableRunTrails(h, ops[..|ops| - 1]);
      TableRunOk(h, EMPTY_TABLES, ops[..|ops| - 1]);
      TableStepKeepsTrails(h, TableRun(h, EMPTY_TABLES, ops[..|ops| - 1]), ops[|ops| - 1]);
    }
  }

  lemma {:induction false} DeltasTelescope(entries: seq<Evidence.EvidenceEntry>)
    ensures AllowedDeltas(entries) == ReplayOf(entries).mark
    decreases |entries|
  {
    if entries != [] {
      DeltasTelescope(entries[..|entries| - 1]);
    }
  }

  /**
   The log explains itself. After every run, from a session's loaded log and its
   deposit alone: every decision but expiry is re-derived; the last ALLOWED entry
   is the retained ticket; every ALLOWED entry raises mark and nonce; and the
   ALLOWED deltas add up to the mark. Re-derivation covers each entry reached with
   deposit and admitted nonce below i64::MAX.
   */
  lemma {:induction false} LogExplainsItself(h: Hash, ops: seq<Op>, s: Pubkey)
    requires s in TableRun(h, EMPTY_TABLES, ops).sessions
    ensures
      var t := TableRun(h, EMPTY_TABLES, ops);
      var loaded := LoadEvidenceChain(t, s);
      && loaded.Ok?
      && t.sessions[s].depositedTotal > 0
      && (forall i :: 0 <= i < |loaded.value| && BelowColumnMax(t.sessions[s].depositedTotal, ReplayOf(loaded.value[..i]))
            ==> Explains(t.sessions[s].depositedTotal, loaded.value, i))
      && (forall i :: 0 <= i < |loaded.value| && IsAllowed(loaded.value[i]) ==> Increases(loaded.value, i))
      && ReplayOf(loaded.value).lastNonce.Some? == t.Ticket(s).Some?
      && (t.Ticket(s).Some? ==>
            && ReplayOf(loaded.value).mark == t.tickets[s].cumulative
            && ReplayOf(loaded.value).lastNonce.value == t.tickets[s].nonce)
      && AllowedDeltas(loaded.value) == ReplayOf(loaded.value).mark
  {
    var t := TableRun(h, EMPTY_TABLES, ops);
    TableRunOk(h, EMPTY_TABLES, ops);
    TableRunTrails(h, ops);
    SoundLogVerifies(h, t, s);
    LogFacts(h, t, s);
    assert TrailFor(t, s);
    StandingEntries(t.sessions[s].depositedTotal, t.Ticket(s), Log(t, s));
    DeltasTelescope(Log(t, s));
  }

  lemma StandingEntries(deposit: U64, ticket: Option<TicketRow>, entries: seq<Evidence.EvidenceEntry>)
    requires TrailOk(deposit, ticket, entries)
    ensures forall i :: 0 <= i < |entries| && BelowColumnMax(deposit, ReplayOf(entries[..i])) ==> Explains(deposit, entries, i)
    ensures forall i :: 0 <= i < |entries| && IsAllowed(entries[i]) ==> Increases(entries, i)
  {
    forall i | 0 <= i < |entries|
      ensures BelowColumnMax(deposit, ReplayOf(entries[..i])) ==> Explains(deposit, entries, i)
      ensures IsAllowed(entries[i]) ==> Increases(entries, i)
    {
      assert EntryStands(deposit, entries, i);
    }
  }

  // ---- exactly when the next entry explains itself ----

  /** The entry this attempt records is one the replay re-derives, or an expiry. */
  ghost predicate NextExplained(h: Hash, t: Tables, claim: Claim, signature: Signature, now: I64)
    requires claim.session in t.sessions
  {
    var s := claim.session;
    var rows := AdmitAlone(h, t, claim, signature, now).0.Rows(s);
    && t.sessions[s].depositedTotal > 0 && NonNegative(rows) && |rows| == |t.Rows(s)| + 1
    && Explains(t.sessions[s].depositedTotal, ToEntries(rows), |t.Rows(s)|)
  }

  lemma AttemptChanges(h: Hash, t: Tables, claim: Claim, signature: Signature, now: I64)
    requires TablesOk(h, t) && claim.session in t.sessions && !t.sessions[claim.session].settled
    requires AdmitAlone(h, t, claim, signature, now).1.Ok?
    ensures AdmitAlone(h, t, claim, signature, now).0 != t
    ensures |AdmitAlone(h, t, claim, signature, now).0.Rows(claim.session)| == |t.Rows(claim.session)| + 1
  {
    AdmitKeepsTablesOk(h, t, claim, signature, now);
  }

  lemma BelowMaxExplained(h: Hash, t: Tables, claim: Claim, signature: Signature, now: I64)
    requires TablesOk(h, t) && claim.session in t.sessions && !t.sessions[claim.session].settled && TrailFor(t, claim.session)
    requires AdmitAlone(h, t, claim, signature, now).1.Ok?
    requires BelowColumnMax(t.sessions[claim.session].depositedTotal, ReplayOf(ToEntries(t.Rows(claim.session))))
    ensures NextExplained(h, t, claim, signature, now)
  {
    AttemptChanges(h, t, claim, signature, now);
    var d, row := AdmitAppends(h, t, claim, signature, now);
    AdmitKeepsTrail(h, t, claim, signature, now);
    var rows := t.Rows(claim.session);
    assert ToEntries(rows + [row])[..|rows|] == ToEntries(rows);
    assert EntryStands(t.sessions[claim.session].depositedTotal, ToEntries(rows + [row]), |rows|);
  }

  /** A claim over the deposit with a fresh nonce, where clamping one of the two hides that. */
  predicate Misreads(deposit: U64, r: Replay, c: U64, n: U64) {
    && c > deposit && (r.lastNonce.Some? ==> n > r.lastNonce.value)
    && (deposit == I64_MAX || (r.lastNonce.Some? && r.lastNonce.value == I64_MAX))
  }

  lemma MisreadDecision(deposit: U64, r: Replay, c: U64, n: U64)
    requires r.mark <= deposit <= I64_MAX && (r.lastNonce.Some? ==> r.lastNonce.value <= I64_MAX)
    requires Misreads(deposit, r, c, n)
    ensures Rederive(deposit, r, c, n) == Evidence.ExceedsDeposit
    ensures Rederive(deposit, r, Clamp(c), Clamp(n)) != Evidence.ExceedsDeposit
  {
  }

  lemma MisreadEntry(deposit: U64, entries: seq<Evidence.EvidenceEntry>, e: Evidence.EvidenceEntry, c: U64, n: U64)
    requires ReplayOf(entries).mark <= deposit <= I64_MAX
    requires ReplayOf(entries).lastNonce.Some? ==> ReplayOf(entries).lastNonce.value <= I64_MAX
    requires Misreads(deposit, ReplayOf(entries), c, n)
    requires e.cumulative == Clamp(c) && e.nonce == Clamp(n) && e.decision == Evidence.DecisionBytes(Evidence.ExceedsDeposit)
    ensures !Explains(deposit, entries + [e], |entries|)
  {
    assert (entries + [e])[..|entries|] == entries;
    MisreadDecision(deposit, ReplayOf(entries), c, n);
    Evidence.ParsePrints(Evidence.ExceedsDeposit);
    Evidence.ParsePrints(Evidence.SessionExpired);
    Evidence.ParsePrints(Rederive(deposit, ReplayOf(entries), e.cumulative, e.nonce));
  }

  lemma MisreadVerdict(h: Hash, t: Tables, claim: Claim, now: I64)
    requires TablesOk(h, t) && claim.session in t.sessions && !t.sessions[claim.session].settled && TrailFor(t, claim.session)
    requires now <= t.sessions[claim.session].expiresAt
    requires Misreads(t.sessions[claim.session].depositedTotal, ReplayOf(ToEntries(t.Rows(claim.session))), claim.cumulativeAmount, claim.nonce)
    ensures JudgedRecord(claim.session, t.sessions[claim.session], t.Ticket(claim.session)).Ok?
    ensures EvaluateClaim(JudgedIn(t, claim.session), claim, now) == Err(ExceedsDeposit)
  {
    ReplayIsTicket(h, t, claim.session);
  }

  lemma RefusalRecorded(h: Hash, t: Tables, claim: Claim, signature: Signature, now: I64)
    requires TablesOk(h, t) && claim.session in t.sessions && RoomInLog(t, claim.session)
    requires JudgedRecord(claim.session, t.sessions[claim.session], t.Ticket(claim.session)).Ok?
    requires EvaluateClaim(JudgedIn(t, claim.session), claim, now) == Err(ExceedsDeposit)
    ensures !t.sessions[claim.session].settled && AdmitAlone(h, t, claim, signature, now).1.Ok?
  {
    AdmitShape(h, t, claim, signature, now);
  }

  /** The claim, recorded as over the deposit with its numbers clamped. */
  predicate ClampedRefusal(e: Evidence.EvidenceEntry, claim: Claim) {
    && e.decision == Evidence.DecisionBytes(Evidence.ExceedsDeposit)
    && e.cumulative == Clamp(claim.cumulativeAmount) && e.nonce == Clamp(claim.nonce)
  }

  /** Such a claim, in time on an unsettled session, is recorded as a refusal with its numbers clamped ... */
  lemma RefusalRow(h: Hash, t: Tables, claim: Claim, signature: Signature, now: I64) returns (row: EvidenceRow)
    requires TablesOk(h, t) && claim.session in t.sessions && !t.sessions[claim.session].settled && TrailFor(t, claim.session)
    requires RoomInLog(t, claim.session) && now <= t.sessions[claim.session].expiresAt
    requires Misreads(t.sessions[claim.session].depositedTotal, ReplayOf(ToEntries(t.Rows(claim.session))), claim.cumulativeAmount, claim.nonce)
    ensures AdmitAlone(h, t, claim, signature, now).1.Ok?
    ensures AdmitAlone(h, t, claim, signature, now).0.Rows(claim.session) == t.Rows(claim.session) + [row]
    ensures row.cumulative >= 0 && row.nonce >= 0 && ClampedRefusal(ToEntry(row), claim)
  {
    MisreadVerdict(h, t, claim, now);
    RefusalRecorded(h, t, claim, signature, now);
    AttemptChanges(h, t, claim, signature, now);
    var d;
    d, row := AdmitAppends(h, t, claim, signature, now);
  }

  lemma LogAppended(h: Hash, t: Tables, t': Tables, s: Pubkey, row: EvidenceRow)
    requires TablesOk(h, t) && TablesOk(h, t') && t'.Rows(s) == t.Rows(s) + [row] && row.cumulative >= 0 && row.nonce >= 0
    ensures Log(t', s) == Log(t, s) + [ToEntry(row)]
  {
    LogFacts(h, t, s);
    LogFacts(h, t', s);
  }

  /** ... and its entry misread. */
  lemma MisreadLogged(h: Hash, t: Tables, claim: Claim, signature: Signature, now: I64)
    requires TablesOk(h, t) && claim.session in t.sessions && !t.sessions[claim.session].settled && TrailFor(t, claim.session)
    requires RoomInLog(t, claim.session) && now <= t.sessions[claim.session].expiresAt
    requires Misreads(t.sessions[claim.session].depositedTotal, ReplayOf(Log(t, claim.session)), claim.cumulativeAmount, claim.nonce)
    ensures AdmitAlone(h, t, claim, signature, now).1.Ok?
    ensures
      var s := claim.session;
      var (before, after) := (Log(t, s), Log(AdmitAlone(h, t, claim, signature, now).0, s));
      && |after| == |before| + 1 && after[..|before|] == before
      && ClampedRefusal(after[|before|], claim)
      && !Explains(t.sessions[s].depositedTotal, after, |before|)
  {
    var s := claim.session;
    LogFacts(h, t, s);
    var row := RefusalRow(h, t, claim, signature, now);
    AdmitKeepsSound(h, t, claim, signature, now);
    LogAppended(h, t, AdmitAlone(h, t, claim, signature, now).0, s, row);
    ReplayIsTicket(h, t, s);
    MisreadEntry(t.sessions[s].depositedTotal, Log(t, s), ToEntry(row), claim.cumulativeAmount, claim.nonce);
  }

  lemma MisreadRecorded(h: Hash, t: Tables, claim: Claim, signature: Signature, now: I64)
    requires TablesOk(h, t) && claim.session in t.sessions && !t.sessions[claim.session].settled && TrailFor(t, claim.session)
    requires RoomInLog(t, claim.session) && now <= t.sessions[claim.session].expiresAt
    requires Misreads(t.sessions[claim.session].depositedTotal, ReplayOf(Log(t, claim.session)), claim.cumulativeAmount, claim.nonce)
    ensures AdmitAlone(h, t, claim, signature, now).1.Ok? && !NextExplained(h, t, claim, signature, now)
  {
    MisreadLogged(h, t, claim, signature, now);
    LogFacts(h, t, claim.session);
    AdmitKeepsSound(h, t, claim, signature, now);
    LogFacts(h, AdmitAlone(h, t, claim, signature, now).0, claim.session);
  }

  /**
   On the log itself: after any run, every attempt that can be recorded next leaves an
   entry that is re-derived or expired, if and only if the deposit and the last
   admitted nonce are below the column's maximum.
   */
  lemma {:induction false} NextEntryExplainedIff(h: Hash, ops: seq<Op>, s: Pubkey)
    requires
      var t := TableRun(h, EMPTY_TABLES, ops);
      s in t.sessions && !t.sessions[s].settled && RoomInLog(t, s)
    ensures
      var t := TableRun(h, EMPTY_TABLES, ops);
      && t.sessions[s].depositedTotal > 0
      && ((forall claim: Claim, signature, now ::
             claim.session == s && AdmitAlone(h, t, claim, signature, now).1.Ok? ==> NextExplained(h, t, claim, signature, now))
          <==> BelowColumnMax(t.sessions[s].depositedTotal, ReplayOf(Log(t, s))))
  {
    var t := TableRun(h, EMPTY_TABLES, ops);
    TableRunOk(h, EMPTY_TABLES, ops);
    TableRunTrails(h, ops);
    assert TrailFor(t, s);
    LogFacts(h, t, s);
    ReplayIsTicket(h, t, s);
    if BelowColumnMax(t.sessions[s].depositedTotal, ReplayOf(Log(t, s))) {
      forall claim: Claim, signature, now | claim.session == s && AdmitAlone(h, t, claim, signature, now).1.Ok?
        ensures NextExplained(h, t, claim, signature, now)
      {
        BelowMaxExplained(h, t, claim, signature, now);
      }
    } else {
      MisreadRecorded(h, t, Claim(s, I64_MAX + 1, I64_MAX + 1, 0), Zeros(64), t.sessions[s].expiresAt);
    }
  }

  // ---- runs that are misread, from nothing ----

  lemma {:induction false} MisreadRun(h: Hash, ops: seq<Op>, claim: Claim, signature: Signature, now: I64)
    requires
      var (t, s) := (TableRun(h, EMPTY_TABLES, ops), claim.session);
      && s in t.sessions && !t.sessions[s].settled && RoomInLog(t, s) && now <= t.sessions[s].expiresAt
      && t.sessions[s].depositedTotal > 0
      && Misreads(t.sessions[s].depositedTotal, ReplayOf(Log(t, s)), claim.cumulativeAmount, claim.nonce)
    ensures
      var (t, s) := (TableRun(h, EMPTY_TABLES, ops), claim.session);
      var entries := Log(TableRun(h, EMPTY_TABLES, ops + [Admit(claim, signature, now)]), s);
      && |entries| == |t.Rows(s)| + 1 && entries[..|t.Rows(s)|] == Log(t, s)
      && ClampedRefusal(entries[|t.Rows(s)|], claim)
      && !Explains(t.sessions[s].depositedTotal, entries, |t.Rows(s)|)
  {
    var t := TableRun(h, EMPTY_TABLES, ops);
    TableRunOk(h, EMPTY_TABLES, ops);
    TableRunTrails(h, ops);
    assert TrailFor(t, claim.session);
    LogFacts(h, t, claim.session);
    MisreadLogged(h, t, claim, signature, now);
    TableRunSnoc(h, EMPTY_TABLES, ops, Admit(claim, signature, now));
  }

  /**
   Open a session with a deposit of exactly i64::MAX and present a claim above it: the
   refusal is stored clamped to the deposit, and replays as allowed.
   */
  lemma {:induction false} ReplayFailsAtMaxDeposit(h: Hash, record: SessionRecord, claim: Claim, signature: Signature, now: I64)
    requires IsFresh(record) && record.depositedTotal == I64_MAX && now <= record.expiresAt
    requires claim.session == record.session && claim.cumulativeAmount > I64_MAX
    ensures
      var entries := Log(TableRun(h, EMPTY_TABLES, [Open(record)] + [Admit(claim, signature, now)]), record.session);
      && |entries| == 1 && ClampedRefusal(entries[0], claim)
      && Rederive(I64_MAX, ReplayOf(entries[..0]), entries[0].cumulative, entries[0].nonce) == Evidence.Allowed
      && !Explains(I64_MAX, entries, 0)
  {
    var t := OpenedWith(h, record);
    LogFacts(h, t, record.session);
    MisreadRun(h, [Open(record)], claim, signature, now);
  }

  /**
   Admit a nonce of exactly i64::MAX, then present a claim above both the deposit and
   that nonce: the refusal's nonce is stored clamped, and replays as not monotonic, in the
   nonce or, when the mark is at the maximum too, in the amount.
   */
  lemma {:induction false} ReplayFailsAtMaxNonce(h: Hash, record: SessionRecord, first: Claim, claim: Claim, signature: Signature, now: I64)
    requires IsFresh(record) && record.depositedTotal <= I64_MAX && now <= record.expiresAt
    requires first.session == claim.session == record.session
    requires 0 < first.cumulativeAmount <= record.depositedTotal < claim.cumulativeAmount
    requires first.nonce == I64_MAX < claim.nonce
    ensures
      var ops := [Open(record), Admit(first, signature, now)];
      var entries := Log(TableRun(h, EMPTY_TABLES, ops + [Admit(claim, signature, now)]), record.session);
      && |entries| == 2 && ClampedRefusal(entries[1], claim)
      && ReplayOf(entries[..1]) == Replay(first.cumulativeAmount, Some(first.nonce))
      && Rederive(record.depositedTotal, ReplayOf(entries[..1]), entries[1].cumulative, entries[1].nonce)
         == (if first.cumulativeAmount == I64_MAX then Evidence.NotMonotonic else Evidence.NonceNotMonotonic)
      && !Explains(record.depositedTotal, entries, 1)
  {
    AfterFirstClaim(h, record, first, signature, now);
    MisreadRun(h, [Open(record), Admit(first, signature, now)], claim, signature, now);
    MaxNonceRederives(record.depositedTotal, first.cumulativeAmount, claim.cumulativeAmount, claim.nonce);
  }

  /** The log and the session after opening and one accepted claim. */
  lemma {:induction false} AfterFirstClaim(h: Hash, record: SessionRecord, first: Claim, signature: Signature, now: I64)
    requires IsFresh(record) && record.depositedTotal <= I64_MAX && now <= record.expiresAt
    requires first.session == record.session && 0 < first.cumulativeAmount <= record.depositedTotal && first.nonce <= I64_MAX
    ensures
      var (s, t) := (record.session, TableRun(h, EMPTY_TABLES, [Open(record), Admit(first, signature, now)]));
      && s in t.sessions && !t.sessions[s].settled && t.sessions[s].depositedTotal == record.depositedTotal
      && t.sessions[s].expiresAt == record.expiresAt && |t.Rows(s)| == 1 && |Log(t, s)| == 1
      && ReplayOf(Log(t, s)) == Replay(first.cumulativeAmount, Some(first.nonce))
  {
    var ops := [Open(record), Admit(first, signature, now)];
    FirstClaimAccepted(h, record, first, signature, now);
    assert ops == [Open(record)] + [Admit(first, signature, now)];
    TableRunSnoc(h, EMPTY_TABLES, [Open(record)], Admit(first, signature, now));
    var t := TableRun(h, EMPTY_TABLES, ops);
    TableRunOk(h, EMPTY_TABLES, ops);
    TableRunTrails(h, ops);
    assert TrailFor(t, record.session);
    LogFacts(h, t, record.session);
    ReplayIsTicket(h, t, record.session);
  }

  lemma MaxNonceRederives(deposit: U64, mark: U64, c: U64, n: U64)
    requires 0 < mark <= deposit < c && deposit <= I64_MAX && n > I64_MAX
    ensures Rederive(deposit, Replay(mark, Some(I64_MAX)), Clamp(c), Clamp(n))
         == (if mark == I64_MAX then Evidence.NotMonotonic else Evidence.NonceNotMonotonic)
  {
  }
}
