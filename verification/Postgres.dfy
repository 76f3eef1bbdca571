/**
 The Postgres store (`gateway/src/db.rs`): three tables of signed 64-bit columns,
 and one admission as a transaction over them.
 */
module Postgres {
  import opened Bytes
  import opened Wrappers
  import opened Claims
  import opened Admission
  import Evidence

  datatype SessionRow = SessionRow(
    agent: Pubkey, provider: Pubkey, mint: Pubkey, depositedTotal: I64, expiresAt: I64,
    settled: bool, chainVerified: bool)

  datatype TicketRow = TicketRow(cumulative: I64, nonce: I64, expiresAt: I64, signature: Signature)

  datatype EvidenceRow = EvidenceRow(
    sequenceId: I64, cumulative: I64, nonce: I64, decision: seq<Byte>,
    prevHash: Digest, entryHash: Digest, signature: Signature)

  /** Each session's evidence rows are kept in insertion order; the queries do their own ordering. */
  datatype Tables = Tables(
    sessions: map<Pubkey, SessionRow>, tickets: map<Pubkey, TicketRow>, evidence: map<Pubkey, seq<EvidenceRow>>)
  {
    function Ticket(s: Pubkey): Option<TicketRow> {
      if s in tickets then Some(tickets[s]) else None
    }

    function Rows(s: Pubkey): seq<EvidenceRow> {
      if s in evidence then evidence[s] else []
    }
  }

  const EMPTY_TABLES: Tables := Tables(map[], map[], map[])

  datatype DbError = RowNotFound | OutOfRange | NegativeAmount | CheckViolation | UniqueViolation

  type DbResult<T> = Result<T, DbError>

  function Clamp(value: U64): I64 {
    if value <= I64_MAX then value else I64_MAX
  }

  // ---- statements ----

  /** INSERT .. ON CONFLICT DO NOTHING; the flag says whether a row was written. */
  function SaveSession(t: Tables, record: SessionRecord): DbResult<(Tables, bool)> {
    if record.depositedTotal > I64_MAX then Err(OutOfRange)
    else if record.depositedTotal <= 0 then Err(CheckViolation)
    else if record.session in t.sessions then Ok((t, false))
    else
      var row := SessionRow(record.agent, record.provider, record.mint, record.depositedTotal,
                            record.expiresAt, false, record.chainVerified);
      Ok((t.(sessions := t.sessions[record.session := row]), true))
  }

  /** A new row holds the record's terms under its session, unsettled. */
  lemma SavedRow(t: Tables, record: SessionRecord)
    requires SaveSession(t, record).Ok? && record.session !in t.sessions
    ensures SaveSession(t, record).value.1
    ensures
      var t' := SaveSession(t, record).value.0;
      && record.session in t'.sessions
      && var row := t'.sessions[record.session];
         && row.agent == record.agent && row.provider == record.provider && row.mint == record.mint
         && row.depositedTotal == record.depositedTotal && row.expiresAt == record.expiresAt
         && row.chainVerified == record.chainVerified && !row.settled
  {
  }

  /** UPDATE .. WHERE settled_at IS NULL; the flag says whether a row moved. */
  function MarkSessionSettled(t: Tables, s: Pubkey): (Tables, bool) {
    if s in t.sessions && !t.sessions[s].settled
    then (t.(sessions := t.sessions[s := t.sessions[s].(settled := true)]), true)
    else (t, false)
  }

  function MarkVerified(t: Tables, s: Pubkey): (Tables, bool) {
    if s in t.sessions
    then (t.(sessions := t.sessions[s := t.sessions[s].(chainVerified := true)]), true)
    else (t, false)
  }

  /** ORDER BY sequence_id DESC LIMIT 1 */
  function Latest(rows: seq<EvidenceRow>): Option<EvidenceRow> {
    if rows == [] then None
    else
      var (init, last) := (rows[..|rows| - 1], rows[|rows| - 1]);
      var best := Latest(init);
      if best.Some? && best.value.sequenceId > last.sequenceId then best else Some(last)
  }

  /** The row after `latest` in a session's chain: contents clamped first, then hashed, then stored. */
  function NextRow(h: Hash, latest: Option<EvidenceRow>, claim: Claim, decision: Evidence.Decision, signature: Signature): DbResult<EvidenceRow> {
    if latest.Some? && latest.value.sequenceId == I64_MAX then Err(OutOfRange)
    else
      var seqId := if latest.Some? then latest.value.sequenceId + 1 else 0;
      var prev := if latest.Some? then latest.value.entryHash else Evidence.GENESIS_PREV_HASH;
      var (c, n) := (Clamp(claim.cumulativeAmount), Clamp(claim.nonce));
      var text := Evidence.DecisionBytes(decision);
      Ok(EvidenceRow(seqId, c, n, text, prev, Evidence.ComputeEntryHash(h, prev, claim.session, c, n, text), signature))
  }

  /** INSERT into evidence_log under UNIQUE (session, sequence_id) and CHECK (sequence_id >= 0). */
  function InsertRow(rows: seq<EvidenceRow>, row: EvidenceRow): DbResult<seq<EvidenceRow>> {
    if row.sequenceId < 0 then Err(CheckViolation)
    else if exists i :: 0 <= i < |rows| && rows[i].sequenceId == row.sequenceId then Err(UniqueViolation)
    else Ok(rows + [row])
  }

  /** INSERT .. ON CONFLICT DO UPDATE .. WHERE both columns rise; None when zero rows were written. */
  function UpsertTicket(current: Option<TicketRow>, claim: Claim, accepted: ClaimAccepted, signature: Signature): DbResult<Option<TicketRow>> {
    if accepted.cumulativeAmount > I64_MAX || accepted.nonce > I64_MAX then Err(OutOfRange)
    else if accepted.cumulativeAmount <= 0 then Err(CheckViolation)
    else
      var row := TicketRow(accepted.cumulativeAmount, accepted.nonce, claim.expiresAt, signature);
      if current.Some? && !(row.cumulative > current.value.cumulative && row.nonce > current.value.nonce)
      then Ok(None) else Ok(Some(row))
  }

  // ---- reading rows back ----

  /** The record `evaluate_claim` is asked to judge inside a transaction. */
  function JudgedRecord(s: Pubkey, row: SessionRow, ticket: Option<TicketRow>): DbResult<SessionRecord> {
    if row.depositedTotal < 0 then Err(NegativeAmount)
    else if ticket.Some? && (ticket.value.cumulative < 0 || ticket.value.nonce < 0) then Err(NegativeAmount)
    else Ok(SessionRecord(s, row.agent, row.provider, row.mint, row.depositedTotal, row.expiresAt,
                          if ticket.Some? then ticket.value.cumulative else 0,
                          if ticket.Some? then Some(ticket.value.nonce) else None,
                          None, row.settled, row.chainVerified))
  }

  /** `row_to_record`: the record a reader of the tables sees. */
  function RowToRecord(s: Pubkey, row: SessionRow, ticket: Option<TicketRow>): DbResult<SessionRecord> {
    match JudgedRecord(s, row, ticket)
    case Err(e) => Err(e)
    case Ok(r) =>
      Ok(r.(highestClaim :=
        if ticket.Some? then Some(SignedClaim(Claim(s, r.cumulativeAccepted, r.lastNonce.value, ticket.value.expiresAt), ticket.value.signature))
        else None))
  }

  /** ORDER BY sequence_id ASC, by insertion. */
  function InsertBySeq(sorted: seq<EvidenceRow>, row: EvidenceRow): seq<EvidenceRow> {
    if sorted == [] || sorted[|sorted| - 1].sequenceId <= row.sequenceId then sorted + [row]
    else InsertBySeq(sorted[..|sorted| - 1], row) + [sorted[|sorted| - 1]]
  }

  function OrderBySeq(rows: seq<EvidenceRow>): seq<EvidenceRow> {
    if rows == [] then [] else InsertBySeq(OrderBySeq(rows[..|rows| - 1]), rows[|rows| - 1])
  }

  predicate NonNegative(rows: seq<EvidenceRow>) {
    forall i :: 0 <= i < |rows| ==> rows[i].cumulative >= 0 && rows[i].nonce >= 0
  }

  function ToEntry(row: EvidenceRow): Evidence.EvidenceEntry
    requires row.cumulative >= 0 && row.nonce >= 0
  {
    Evidence.EvidenceEntry(row.sequenceId, row.cumulative, row.nonce, row.decision, row.prevHash, row.entryHash)
  }

  function ToEntries(rows: seq<EvidenceRow>): (entries: seq<Evidence.EvidenceEntry>)
    requires NonNegative(rows)
    ensures |entries| == |rows|
  {
    seq(|rows|, i requires 0 <= i < |rows| => ToEntry(rows[i]))
  }

  /** `load_evidence_chain` */
  function LoadEvidenceChain(t: Tables, s: Pubkey): DbResult<seq<Evidence.EvidenceEntry>> {
    var rows := OrderBySeq(t.Rows(s));
    if NonNegative(rows) then Ok(ToEntries(rows)) else Err(NegativeAmount)
  }

  /** `load_evidence_leaves`: the Merkle leaves, in sequence order. */
  function LoadEvidenceLeaves(t: Tables, s: Pubkey): seq<Digest> {
    var rows := OrderBySeq(t.Rows(s));
    seq(|rows|, i requires 0 <= i < |rows| => rows[i].entryHash)
  }

  /** Which outcomes are written to the log; refusals after settlement are not. */
  function RecordedDecision(verdict: Verdict): Option<Evidence.Decision> {
    match verdict
    case Ok(_) => Some(Evidence.Allowed)
    case Err(NotMonotonic) => Some(Evidence.NotMonotonic)
    case Err(NonceNotMonotonic) => Some(Evidence.NonceNotMonotonic)
    case Err(ExceedsDeposit) => Some(Evidence.ExceedsDeposit)
    case Err(SessionExpired) => Some(Evidence.SessionExpired)
    case Err(SessionSettled) => None
  }

  // ---- one admission, start to finish, alone ----

  /** The tables and the answer after one whole transaction that nothing interrupts. */
  function AdmitAlone(h: Hash, t: Tables, claim: Claim, signature: Signature, now: I64): (Tables, DbResult<Verdict>) {
    var s := claim.session;
    if s !in t.sessions then (t, Err(RowNotFound))
    else
      match JudgedRecord(s, t.sessions[s], t.Ticket(s))
      case Err(e) => (t, Err(e))
      case Ok(record) =>
        var verdict := EvaluateClaim(record, claim, now);
        match RecordedDecision(verdict)
        case None => (t, Ok(verdict))
        case Some(decision) =>
          match NextRow(h, Latest(t.Rows(s)), claim, decision, signature)
          case Err(e) => (t, Err(e))
          case Ok(row) =>
            match InsertRow(t.Rows(s), row)
            case Err(e) => (t, Err(e))
            case Ok(rows) =>
              var logged := t.(evidence := t.evidence[s := rows]);
              if verdict.Err? then (logged, Ok(verdict))
              else
                match UpsertTicket(t.Ticket(s), claim, verdict.value, signature)
                case Err(e) => (t, Err(e))
                case Ok(None) => (t, Ok(Err(NotMonotonic)))
                case Ok(Some(ticket)) => (logged.(tickets := t.tickets[s := ticket]), Ok(verdict))
  }

  /** A transaction's private view: what it has written is invisible until it commits. */
  class Transaction {
    var work: Tables

    constructor Begin(committed: Tables)
      ensures work == committed
    {
      work := committed;
    }

    /** Appends one entry after the session's latest. */
    method AppendEvidence(h: Hash, claim: Claim, decision: Evidence.Decision, signature: Signature) returns (r: DbResult<()>)
      modifies this
      ensures
        var s := claim.session;
        var row := NextRow(h, Latest(old(work).Rows(s)), claim, decision, signature);
        var rows := if row.Err? then Err(row.error) else InsertRow(old(work).Rows(s), row.value);
        && (rows.Err? ==> r == Err(rows.error) && work == old(work))
        && (rows.Ok? ==> r == Ok(()) && work == old(work).(evidence := old(work).evidence[s := rows.value]))
      ensures r.Ok? ==>
        var rows := work.Rows(claim.session);
        && rows != []
        && HoldsClaim(h, rows[|rows| - 1], claim, decision, signature)
    {
      var s := claim.session;
      var last := Latest(work.Rows(s));
      var sequenceId: I64, prevHash := 0, Evidence.GENESIS_PREV_HASH;
      if last.Some? {
        if last.value.sequenceId == I64_MAX {
          return Err(OutOfRange);
        }
        sequenceId, prevHash := last.value.sequenceId + 1, last.value.entryHash;
      }
      var storedCumulative, storedNonce := Clamp(claim.cumulativeAmount), Clamp(claim.nonce);
      var text := Evidence.DecisionBytes(decision);
      var entryHash := Evidence.ComputeEntryHash(h, prevHash, s, storedCumulative, storedNonce, text);
      var row := EvidenceRow(sequenceId, storedCumulative, storedNonce, text, prevHash, entryHash, signature);
      var inserted := InsertRow(work.Rows(s), row);
      if inserted.Err? {
        return Err(inserted.error);
      }
      NextRowHolds(h, last, claim, decision, signature);
      work := work.(evidence := work.evidence[s := inserted.value]);
      return Ok(());
    }
  }

  class Database {
    var tables: Tables

    constructor ()
      ensures tables == EMPTY_TABLES
    {
      tables := EMPTY_TABLES;
    }

    /** The admission transaction, statement by statement, with its commits and rollbacks. */
    method UpsertClaimHighWaterMark(h: Hash, claim: Claim, signature: Signature, now: I64) returns (r: DbResult<Verdict>)
      modifies this
      ensures (tables, r) == AdmitAlone(h, old(tables), claim, signature, now)
    {
      var tx := new Transaction.Begin(tables);
      var s := claim.session;
      if s !in tx.work.sessions {
        return Err(RowNotFound);
      }
      var sessionRow := tx.work.sessions[s];
      var current := tx.work.Ticket(s);
      var record := JudgedRecord(s, sessionRow, current);
      if record.Err? {
        return Err(record.error);
      }
      var outcome := EvaluateClaim(record.value, claim, now);
      var decision := RecordedDecision(outcome);
      if decision.Some? {
        var appended := tx.AppendEvidence(h, claim, decision.value, signature);
        if appended.Err? {
          return Err(appended.error);
        }
      }
      if outcome.Err? {
        tables := tx.work;
        return Ok(outcome);
      }
      var written := UpsertTicket(current, claim, outcome.value, signature);
      if written.Err? {
        return Err(written.error);
      }
      if written.value.None? {
        return Ok(Err(NotMonotonic));
      }
      tx.work := tx.work.(tickets := tx.work.tickets[s := written.value.value]);
      tables := tx.work;
      return Ok(outcome);
    }
  }

  // ---- what every reachable set of tables satisfies ----

  predicate Contiguous(rows: seq<EvidenceRow>) {
    forall i :: 0 <= i < |rows| ==> rows[i].sequenceId == i
  }

  ghost predicate LogOk(h: Hash, s: Pubkey, rows: seq<EvidenceRow>) {
    NonNegative(rows) && Contiguous(rows) && Evidence.ChainOk(h, s, ToEntries(rows))
  }

  ghost predicate TablesOk(h: Hash, t: Tables) {
    && (forall s :: s in t.sessions ==> t.sessions[s].depositedTotal > 0)
    && (forall s :: s in t.tickets ==>
          s in t.sessions && 0 < t.tickets[s].cumulative <= t.sessions[s].depositedTotal && t.tickets[s].nonce >= 0)
    && (forall s :: s in t.evidence ==> s in t.sessions)
    && (forall s :: LogOk(h, s, t.Rows(s)))
  }

  /** On a contiguous log the latest row is the last one inserted ... */
  lemma {:induction false} LatestIsLast(rows: seq<EvidenceRow>)
    requires Contiguous(rows)
    ensures Latest(rows) == if rows == [] then None else Some(rows[|rows| - 1])
  {
    if rows != [] {
      LatestIsLast(rows[..|rows| - 1]);
    }
  }

  /** ... and ordering by sequence number is insertion order. */
  lemma {:induction false} OrderIsInsertion(rows: seq<EvidenceRow>)
    requires Contiguous(rows)
    ensures OrderBySeq(rows) == rows
  {
    if rows != [] {
      OrderIsInsertion(rows[..|rows| - 1]);
    }
  }

  lemma NewSequenceIsFree(rows: seq<EvidenceRow>, row: EvidenceRow)
    requires Contiguous(rows) && row.sequenceId == |rows|
    ensures InsertRow(rows, row) == Ok(rows + [row])
  {
  }

  lemma LogExtends(h: Hash, s: Pubkey, rows: seq<EvidenceRow>, row: EvidenceRow)
    requires LogOk(h, s, rows)
    requires row.sequenceId == |rows| && row.cumulative >= 0 && row.nonce >= 0
    requires row.prevHash == if rows == [] then Evidence.GENESIS_PREV_HASH else rows[|rows| - 1].entryHash
    requires row.entryHash == Evidence.ComputeEntryHash(h, row.prevHash, s, row.cumulative, row.nonce, row.decision)
    ensures LogOk(h, s, rows + [row])
  {
    var (before, e) := (ToEntries(rows), ToEntry(row));
    Evidence.ChainExtends(h, s, before, e);
    assert NonNegative(rows + [row]);
    assert ToEntries(rows + [row]) == before + [e];
  }

  lemma NextRowAfter(h: Hash, latest: Option<EvidenceRow>, claim: Claim, decision: Evidence.Decision, signature: Signature)
    requires latest.Some? ==> 0 <= latest.value.sequenceId < I64_MAX
    ensures
      var seqId := if latest.Some? then latest.value.sequenceId + 1 else 0;
      var prev := if latest.Some? then latest.value.entryHash else Evidence.GENESIS_PREV_HASH;
      var (c, n, text) := (Clamp(claim.cumulativeAmount), Clamp(claim.nonce), Evidence.DecisionBytes(decision));
      NextRow(h, latest, claim, decision, signature) ==
        Ok(EvidenceRow(seqId, c, n, text, prev, Evidence.ComputeEntryHash(h, prev, claim.session, c, n, text), signature))
  {
  }

  /** The row's hash is that of bytes holding exactly what the row stores. */
  ghost predicate HashedRow(h: Hash, s: Pubkey, row: EvidenceRow)
    requires row.cumulative >= 0 && row.nonce >= 0
  {
    exists p :: Evidence.HashedFields(p, row.prevHash, s, row.cumulative, row.nonce, row.decision) && row.entryHash == h(p)
  }

  /** A number as the column can hold it. */
  predicate Stored(column: I64, value: U64) {
    column == value || (column == 0x7FFF_FFFF_FFFF_FFFF && value > column)
  }

  /** What an auditor finds in a row written for a claim: its numbers, the decision's text, the signature, and an honest hash. */
  ghost predicate HoldsClaim(h: Hash, row: EvidenceRow, claim: Claim, decision: Evidence.Decision, signature: Signature) {
    && row.cumulative >= 0 && row.nonce >= 0
    && Stored(row.cumulative, claim.cumulativeAmount) && Stored(row.nonce, claim.nonce)
    && Evidence.ParseDecision(row.decision) == Some(decision)
    && row.signature == signature
    && HashedRow(h, claim.session, row)
  }

  /**
   A row built to follow another continues its number and links to its hash, or starts at
   zero from the zero digest; and it holds the claim it was built for.
   */
  lemma NextRowHolds(h: Hash, latest: Option<EvidenceRow>, claim: Claim, decision: Evidence.Decision, signature: Signature)
    requires latest.Some? ==> latest.value.sequenceId < I64_MAX
    ensures
      var r := NextRow(h, latest, claim, decision, signature);
      && r.Ok?
      && r.value.sequenceId == (if latest.Some? then latest.value.sequenceId + 1 else 0)
      && r.value.prevHash == (if latest.Some? then latest.value.entryHash else seq(32, _ => 0))
      && HoldsClaim(h, r.value, claim, decision, signature)
  {
    var row := NextRow(h, latest, claim, decision, signature).value;
    var p := Evidence.EntryPreimage(row.prevHash, claim.session, row.cumulative, row.nonce, row.decision);
    Evidence.ParsePrints(decision);
    Evidence.PreimageLayout(row.prevHash, claim.session, row.cumulative, row.nonce, row.decision, p);
    assert Zeros(32) == seq(32, _ => 0);
    assert row.entryHash == h(p);
  }

  /** The contents of the row the code builds next. */
  lemma NextRowFields(h: Hash, claim: Claim, rows: seq<EvidenceRow>, decision: Evidence.Decision, signature: Signature)
    requires Contiguous(rows) && |rows| <= I64_MAX
    ensures
      var row := NextRow(h, Latest(rows), claim, decision, signature);
      && row.Ok?
      && row.value.sequenceId == |rows|
      && row.value.cumulative == Clamp(claim.cumulativeAmount) && row.value.nonce == Clamp(claim.nonce)
      && row.value.decision == Evidence.DecisionBytes(decision)
      && row.value.prevHash == (if rows == [] then Evidence.GENESIS_PREV_HASH else rows[|rows| - 1].entryHash)
      && row.value.entryHash == Evidence.ComputeEntryHash(h, row.value.prevHash, claim.session, row.value.cumulative, row.value.nonce, row.value.decision)
  {
    LatestIsLast(rows);
    NextRowAfter(h, Latest(rows), claim, decision, signature);
  }

  lemma AppendedRowFits(h: Hash, claim: Claim, rows: seq<EvidenceRow>, decision: Evidence.Decision, signature: Signature)
    requires LogOk(h, claim.session, rows) && |rows| <= I64_MAX
    ensures
      var row := NextRow(h, Latest(rows), claim, decision, signature);
      row.Ok? && InsertRow(rows, row.value) == Ok(rows + [row.value]) && LogOk(h, claim.session, rows + [row.value])
  {
    NextRowFields(h, claim, rows, decision, signature);
    var row := NextRow(h, Latest(rows), claim, decision, signature).value;
    LogExtends(h, claim.session, rows, row);
    NewSequenceIsFree(rows, row);
  }

  /** A sound log stays sound under the row the code appends to it. */
  lemma AppendKeepsLogOk(h: Hash, claim: Claim, rows: seq<EvidenceRow>, decision: Evidence.Decision, signature: Signature)
    requires LogOk(h, claim.session, rows)
    ensures
      var row := NextRow(h, Latest(rows), claim, decision, signature);
      && (row.Err? <==> |rows| > I64_MAX)
      && (row.Err? ==> row.error == OutOfRange)
      && (row.Ok? ==>
            && InsertRow(rows, row.value) == Ok(rows + [row.value])
            && LogOk(h, claim.session, rows + [row.value]))
  {
    LatestIsLast(rows);
    if |rows| <= I64_MAX {
      AppendedRowFits(h, claim, rows, decision, signature);
    } else {
      assert rows[|rows| - 1].sequenceId == |rows| - 1;
    }
  }

  lemma SaveSessionKeepsTablesOk(h: Hash, t: Tables, record: SessionRecord)
    requires TablesOk(h, t)
    ensures SaveSession(t, record).Ok? ==> TablesOk(h, SaveSession(t, record).value.0)
  {
    if SaveSession(t, record).Ok? {
      var t' := SaveSession(t, record).value.0;
      assert forall s :: t'.Rows(s) == t.Rows(s);
    }
  }

  lemma UpdatesKeepTablesOk(h: Hash, t: Tables, s: Pubkey)
    requires TablesOk(h, t)
    ensures TablesOk(h, MarkSessionSettled(t, s).0)
    ensures TablesOk(h, MarkVerified(t, s).0)
  {
    assert forall k :: MarkSessionSettled(t, s).0.Rows(k) == t.Rows(k);
    assert forall k :: MarkVerified(t, s).0.Rows(k) == t.Rows(k);
  }

  /** The log of a session has not used up the signed 64-bit sequence numbers. */
  predicate RoomInLog(t: Tables, s: Pubkey) {
    |t.Rows(s)| <= I64_MAX
  }

  /** The record judged, and the row the judgement would append. */
  function JudgedIn(t: Tables, s: Pubkey): SessionRecord
    requires s in t.sessions && JudgedRecord(s, t.sessions[s], t.Ticket(s)).Ok?
  {
    JudgedRecord(s, t.sessions[s], t.Ticket(s)).value
  }

  /**
   What an admission amounts to on sound tables: settled sessions are left alone;
   otherwise one row is appended, and an acceptance also replaces the ticket. The
   unique constraint never fires and the conditional upsert never writes zero rows.
   */
  lemma AdmitShape(h: Hash, t: Tables, claim: Claim, signature: Signature, now: I64)
    requires TablesOk(h, t) && claim.session in t.sessions
    ensures JudgedRecord(claim.session, t.sessions[claim.session], t.Ticket(claim.session)).Ok?
    ensures
      var s := claim.session;
      var (t', r) := AdmitAlone(h, t, claim, signature, now);
      var verdict := EvaluateClaim(JudgedIn(t, s), claim, now);
      if t.sessions[s].settled then t' == t && r == Ok(Err(SessionSettled)) && verdict == Err(SessionSettled)
      else if !RoomInLog(t, s) then t' == t && r == Err(OutOfRange) && verdict != Err(SessionSettled)
      else if verdict.Ok? && claim.nonce > I64_MAX then t' == t && r == Err(OutOfRange)
      else
        && RecordedDecision(verdict).Some?
        && NextRow(h, Latest(t.Rows(s)), claim, RecordedDecision(verdict).value, signature).Ok?
        && r == Ok(verdict)
        && t'.sessions == t.sessions
        && t'.evidence == t.evidence[s := t.Rows(s) + [NextRow(h, Latest(t.Rows(s)), claim, RecordedDecision(verdict).value, signature).value]]
        && t'.tickets == (if verdict.Ok? then t.tickets[s := TicketRow(claim.cumulativeAmount, claim.nonce, claim.expiresAt, signature)] else t.tickets)
  {
    var s := claim.session;
    var verdict := EvaluateClaim(JudgedIn(t, s), claim, now);
    if RecordedDecision(verdict).Some? {
      AppendKeepsLogOk(h, claim, t.Rows(s), RecordedDecision(verdict).value, signature);
    }
  }

  /** What a transaction that changes anything leaves behind: one row, and a ticket if it accepted. */
  lemma AdmitAppends(h: Hash, t: Tables, claim: Claim, signature: Signature, now: I64) returns (d: Evidence.Decision, row: EvidenceRow)
    requires TablesOk(h, t) && claim.session in t.sessions
    requires AdmitAlone(h, t, claim, signature, now).0 != t
    ensures JudgedRecord(claim.session, t.sessions[claim.session], t.Ticket(claim.session)).Ok?
    ensures RecordedDecision(EvaluateClaim(JudgedIn(t, claim.session), claim, now)) == Some(d)
    ensures row.cumulative == Clamp(claim.cumulativeAmount) && row.nonce == Clamp(claim.nonce)
    ensures row.decision == Evidence.DecisionBytes(d)
    ensures AdmitAlone(h, t, claim, signature, now).1 == Ok(EvaluateClaim(JudgedIn(t, claim.session), claim, now))
    ensures
      var t' := AdmitAlone(h, t, claim, signature, now).0;
      var s := claim.session;
      && t'.Rows(s) == t.Rows(s) + [row]
      && (d == Evidence.Allowed ==>
            claim.nonce <= I64_MAX
            && t'.Ticket(s) == Some(TicketRow(claim.cumulativeAmount, claim.nonce, claim.expiresAt, signature)))
      && (d != Evidence.Allowed ==> t'.Ticket(s) == t.Ticket(s))
  {
    var s := claim.session;
    AdmitShape(h, t, claim, signature, now);
    d := RecordedDecision(EvaluateClaim(JudgedIn(t, s), claim, now)).value;
    NextRowFields(h, claim, t.Rows(s), d, signature);
    row := NextRow(h, Latest(t.Rows(s)), claim, d, signature).value;
  }

  lemma AdmitKeepsLogs(h: Hash, t: Tables, claim: Claim, signature: Signature, now: I64, k: Pubkey)
    requires TablesOk(h, t)
    ensures LogOk(h, k, AdmitAlone(h, t, claim, signature, now).0.Rows(k))
  {
    var s := claim.session;
    var (t', r) := AdmitAlone(h, t, claim, signature, now);
    if s in t.sessions {
      AdmitShape(h, t, claim, signature, now);
      var decision := RecordedDecision(EvaluateClaim(JudgedIn(t, s), claim, now));
      if k != s || t' == t {
        assert t'.Rows(k) == t.Rows(k);
      } else {
        AppendKeepsLogOk(h, claim, t.Rows(s), decision.value, signature);
        assert t'.Rows(s) == t.Rows(s) + [NextRow(h, Latest(t.Rows(s)), claim, decision.value, signature).value];
      }
    }
  }

  lemma AdmitIsLocal(h: Hash, t: Tables, claim: Claim, signature: Signature, now: I64)
    requires TablesOk(h, t)
    ensures
      var (t', r) := AdmitAlone(h, t, claim, signature, now);
      && t'.sessions == t.sessions && (r.Err? ==> t' == t)
      && (forall k :: k != claim.session ==> t'.Ticket(k) == t.Ticket(k) && t'.Rows(k) == t.Rows(k))
  {
    if claim.session in t.sessions {
      AdmitShape(h, t, claim, signature, now);
    }
  }

  lemma AdmitKeepsSound(h: Hash, t: Tables, claim: Claim, signature: Signature, now: I64)
    requires TablesOk(h, t)
    ensures TablesOk(h, AdmitAlone(h, t, claim, signature, now).0)
  {
    forall k ensures LogOk(h, k, AdmitAlone(h, t, claim, signature, now).0.Rows(k)) {
      AdmitKeepsLogs(h, t, claim, signature, now, k);
    }
    if claim.session in t.sessions {
      AdmitShape(h, t, claim, signature, now);
    }
  }

  /**
   One admission keeps the tables sound. It adds exactly one row per decided
   attempt on an unsettled session, and none once settled; other sessions are
   untouched, and an error changes nothing.
   */
  lemma AdmitKeepsTablesOk(h: Hash, t: Tables, claim: Claim, signature: Signature, now: I64)
    requires TablesOk(h, t)
    ensures
      var (t', r) := AdmitAlone(h, t, claim, signature, now);
      var s := claim.session;
      && TablesOk(h, t')
      && t'.sessions == t.sessions
      && (forall k :: k != s ==> t'.Ticket(k) == t.Ticket(k) && t'.Rows(k) == t.Rows(k))
      && (r.Err? ==> t' == t)
      && (r.Ok? && s in t.sessions && !t.sessions[s].settled ==>
            |t'.Rows(s)| == |t.Rows(s)| + 1 && t'.Rows(s)[..|t.Rows(s)|] == t.Rows(s))
      && (s in t.sessions && t.sessions[s].settled ==> t' == t && r == Ok(Err(SessionSettled)))
  {
    AdmitIsLocal(h, t, claim, signature, now);
    AdmitKeepsSound(h, t, claim, signature, now);
    if claim.session in t.sessions {
      AdmitShape(h, t, claim, signature, now);
    }
  }

  /** Every sound log loads, in order, and passes the chain check. */
  lemma SoundLogVerifies(h: Hash, t: Tables, s: Pubkey)
    requires TablesOk(h, t)
    ensures LoadEvidenceChain(t, s).Ok?
    ensures |LoadEvidenceChain(t, s).value| == |t.Rows(s)|
    ensures Evidence.ChainOk(h, s, LoadEvidenceChain(t, s).value)
  {
    OrderIsInsertion(t.Rows(s));
  }

  // ---- the tables seen as the in-memory store ----

  /** Every session row can be read back, whatever its ticket. */
  ghost predicate Readable(t: Tables) {
    forall s :: s in t.sessions ==> RowToRecord(s, t.sessions[s], t.Ticket(s)).Ok?
  }

  /** Every session through `row_to_record`. */
  ghost function AsStore(t: Tables): Store
    requires Readable(t)
  {
    map s | s in t.sessions :: RowToRecord(s, t.sessions[s], t.Ticket(s)).value
  }

  lemma TablesOkReadable(h: Hash, t: Tables)
    requires TablesOk(h, t)
    ensures Readable(t)
  {
  }

  /** What a reader of session k sees. */
  ghost predicate ReadsAs(t: Tables, k: Pubkey, r: SessionRecord)
    requires k in t.sessions
  {
    RowToRecord(k, t.sessions[k], t.Ticket(k)) == Ok(r)
  }

  lemma StoreOfReadings(t: Tables, m: Store)
    requires m.Keys == t.sessions.Keys && forall k :: k in t.sessions ==> ReadsAs(t, k, m[k])
    ensures Readable(t) && AsStore(t) == m
  {
    forall k | k in t.sessions ensures RowToRecord(k, t.sessions[k], t.Ticket(k)).Ok? {
      assert ReadsAs(t, k, m[k]);
    }
    forall k | k in t.sessions ensures AsStore(t)[k] == m[k] {
      assert ReadsAs(t, k, m[k]);
    }
  }

  /** Judging the record inside the transaction is judging the record a reader sees. */
  lemma SameJudgement(t: Tables, claim: Claim, now: I64)
    requires Readable(t) && claim.session in t.sessions
    ensures EvaluateClaim(AsStore(t)[claim.session], claim, now) == EvaluateClaim(JudgedIn(t, claim.session), claim, now)
  {
  }

  /** Replacing one session's ticket changes that session's record and no other. */
  lemma TicketShowsInStore(t: Tables, t': Tables, claim: Claim, signature: Signature)
    requires Readable(t) && claim.session in t.sessions
    requires claim.cumulativeAmount <= I64_MAX && claim.nonce <= I64_MAX
    requires t'.sessions == t.sessions
    requires t'.tickets == t.tickets[claim.session := TicketRow(claim.cumulativeAmount, claim.nonce, claim.expiresAt, signature)]
    ensures Readable(t')
    ensures AsStore(t') == AsStore(t)[claim.session := Advance(AsStore(t)[claim.session], claim, signature)]
  {
    var s := claim.session;
    forall k | k in t.sessions && k != s ensures t'.Ticket(k) == t.Ticket(k) {
    }
    assert RowToRecord(s, t'.sessions[s], t'.Ticket(s)).value == Advance(AsStore(t)[s], claim, signature);
  }

  /** An accepted claim that commits replaces the ticket, and the reader sees the record advanced. */
  lemma AcceptedRefines(h: Hash, t: Tables, claim: Claim, signature: Signature, now: I64)
    requires TablesOk(h, t) && Readable(t) && claim.session in t.sessions
    requires EvaluateClaim(JudgedIn(t, claim.session), claim, now).Ok?
    ensures
      var (t', r) := AdmitAlone(h, t, claim, signature, now);
      r.Ok? ==>
        && r.value == EvaluateClaim(JudgedIn(t, claim.session), claim, now)
        && Readable(t') && AsStore(t') == AsStore(t)[claim.session := Advance(AsStore(t)[claim.session], claim, signature)]
  {
    AdmitShape(h, t, claim, signature, now);
    if AdmitAlone(h, t, claim, signature, now).1.Ok? {
      TicketShowsInStore(t, AdmitAlone(h, t, claim, signature, now).0, claim, signature);
    }
  }

  /** The log is not part of what the reader sees. */
  lemma LogIsInvisible(t: Tables, t': Tables)
    requires Readable(t) && t'.sessions == t.sessions && t'.tickets == t.tickets
    ensures Readable(t') && AsStore(t') == AsStore(t)
  {
    forall k | k in t'.sessions ensures ReadsAs(t', k, AsStore(t)[k]) {
      assert t'.Ticket(k) == t.Ticket(k);
    }
    StoreOfReadings(t', AsStore(t));
  }

  /** A refused claim writes to the log at most. */
  lemma RefusedRefines(h: Hash, t: Tables, claim: Claim, signature: Signature, now: I64)
    requires TablesOk(h, t) && Readable(t) && claim.session in t.sessions
    requires EvaluateClaim(JudgedIn(t, claim.session), claim, now).Err?
    ensures
      var (t', r) := AdmitAlone(h, t, claim, signature, now);
      r.Ok? ==>
        && r.value == EvaluateClaim(JudgedIn(t, claim.session), claim, now)
        && Readable(t') && AsStore(t') == AsStore(t)
  {
    AdmitShape(h, t, claim, signature, now);
    LogIsInvisible(t, AdmitAlone(h, t, claim, signature, now).0);
  }

  /**
   The Postgres admission refines the rule: whenever it commits, the tables seen
   through `row_to_record` and the verdict are those of the in-memory store.
   */
  lemma AdmitRefinesStore(h: Hash, t: Tables, claim: Claim, signature: Signature, now: I64)
    requires TablesOk(h, t)
    ensures Readable(t)
    ensures
      var (t', r) := AdmitAlone(h, t, claim, signature, now);
      r.Ok? ==>
        && Readable(t')
        && (AsStore(t'), Decided(r.value)) == StoreStep(AsStore(t), Admit(claim, signature, now))
  {
    TablesOkReadable(h, t);
    if claim.session in t.sessions {
      SameJudgement(t, claim, now);
      if EvaluateClaim(JudgedIn(t, claim.session), claim, now).Ok? {
        AcceptedRefines(h, t, claim, signature, now);
      } else {
        RefusedRefines(h, t, claim, signature, now);
      }
    }
  }

  /**
   It fails in exactly three cases, leaving the tables untouched: an unknown
   session, an accepted nonce above i64::MAX, or an exhausted sequence column.
   */
  lemma AdmitFailsExactlyWhen(h: Hash, t: Tables, claim: Claim, signature: Signature, now: I64)
    requires TablesOk(h, t)
    ensures Readable(t)
    ensures
      var (t', r) := AdmitAlone(h, t, claim, signature, now);
      var s := claim.session;
      && (r == Err(RowNotFound) <==> s !in t.sessions)
      && (r.Err? ==> t' == t)
      && (s in t.sessions ==>
            (r.Err? <==>
              var verdict := EvaluateClaim(AsStore(t)[s], claim, now);
              || (verdict.Ok? && claim.nonce > I64_MAX)
              || (verdict != Err(SessionSettled) && !RoomInLog(t, s))))
  {
    TablesOkReadable(h, t);
    if claim.session in t.sessions {
      AdmitShape(h, t, claim, signature, now);
      SameJudgement(t, claim, now);
    }
  }

  /** Writing one session's row changes that session's record and no other. */
  lemma RowShowsInStore(t: Tables, t': Tables, s: Pubkey, row: SessionRow, r: SessionRecord)
    requires Readable(t) && t'.tickets == t.tickets && t'.sessions == t.sessions[s := row]
    requires RowToRecord(s, row, t.Ticket(s)) == Ok(r)
    ensures Readable(t')
    ensures AsStore(t') == AsStore(t)[s := r]
  {
    var m := AsStore(t)[s := r];
    forall k | k in t'.sessions ensures ReadsAs(t', k, m[k]) {
      assert t'.Ticket(k) == t.Ticket(k);
    }
    assert m.Keys == t'.sessions.Keys;
    StoreOfReadings(t', m);
  }

  /** Opening refines the store's, for exactly the deposits the column can hold. */
  lemma OpenRefinesStore(h: Hash, t: Tables, record: SessionRecord)
    requires TablesOk(h, t)
    ensures Readable(t)
    ensures SaveSession(t, record).Err? <==> record.depositedTotal == 0 || record.depositedTotal > I64_MAX
    ensures SaveSession(t, record).Ok? && IsFresh(record) ==>
      var (t', inserted) := SaveSession(t, record).value;
      && Readable(t')
      && (AsStore(t'), if inserted then Done else Failed(AlreadyOpen)) == StoreStep(AsStore(t), Open(record))
  {
    TablesOkReadable(h, t);
    if SaveSession(t, record).Ok? && IsFresh(record) && record.session !in t.sessions {
      var t' := SaveSession(t, record).value.0;
      assert t.Ticket(record.session) == None;
      RowShowsInStore(t, t', record.session, t'.sessions[record.session], record);
    }
  }

  lemma FlagsShowInRecord(s: Pubkey, row: SessionRow, ticket: Option<TicketRow>, settled: bool, verified: bool)
    requires RowToRecord(s, row, ticket).Ok?
    ensures RowToRecord(s, row.(settled := settled, chainVerified := verified), ticket)
         == Ok(RowToRecord(s, row, ticket).value.(isSettled := settled, chainVerified := verified))
  {
  }

  /** Flags flow through to the reader's record and change nothing else. */
  lemma FlagsShowInStore(t: Tables, t': Tables, s: Pubkey, settled: bool, verified: bool)
    requires Readable(t) && s in t.sessions
    requires t'.tickets == t.tickets
    requires t'.sessions == t.sessions[s := t.sessions[s].(settled := settled, chainVerified := verified)]
    ensures Readable(t')
    ensures AsStore(t') == AsStore(t)[s := AsStore(t)[s].(isSettled := settled, chainVerified := verified)]
  {
    FlagsShowInRecord(s, t.sessions[s], t.Ticket(s), settled, verified);
    RowShowsInStore(t, t', s, t.sessions[s].(settled := settled, chainVerified := verified),
                    AsStore(t)[s].(isSettled := settled, chainVerified := verified));
  }

  lemma UpdatesRefineStore(t: Tables, s: Pubkey)
    requires Readable(t)
    ensures Readable(MarkSessionSettled(t, s).0) && Readable(MarkVerified(t, s).0)
    ensures AsStore(MarkSessionSettled(t, s).0) == StoreStep(AsStore(t), MarkSettled(s)).0
    ensures AsStore(MarkVerified(t, s).0) == StoreStep(AsStore(t), MarkChainVerified(s)).0
  {
    if s in t.sessions {
      var row := t.sessions[s];
      FlagsShowInStore(t, MarkSessionSettled(t, s).0, s, true, row.chainVerified);
      FlagsShowInStore(t, MarkVerified(t, s).0, s, row.settled, true);
    }
  }

  // ---- the tables after a serial run ----

  function TableStep(h: Hash, t: Tables, op: Op): Tables {
    match op
    case Open(record) => if SaveSession(t, record).Ok? then SaveSession(t, record).value.0 else t
    case Admit(claim, signature, now) => AdmitAlone(h, t, claim, signature, now).0
    case MarkSettled(s) => MarkSessionSettled(t, s).0
    case MarkChainVerified(s) => MarkVerified(t, s).0
  }

  function TableRun(h: Hash, t: Tables, ops: seq<Op>): Tables
    decreases |ops|
  {
    if ops == [] then t else TableStep(h, TableRun(h, t, ops[..|ops| - 1]), ops[|ops| - 1])
  }

  /** The operation ends in a commit, if only of what was there. */
  predicate Commits(h: Hash, t: Tables, op: Op) {
    match op
    case Open(record) => SaveSession(t, record).Ok?
    case Admit(claim, signature, now) => AdmitAlone(h, t, claim, signature, now).1.Ok?
    case _ => true
  }

  /** Every operation that commits is the in-memory store's, seen through the record reader. */
  lemma CommitRefinesStore(h: Hash, t: Tables, op: Op)
    requires TablesOk(h, t) && Commits(h, t, op) && (op.Open? ==> IsFresh(op.record))
    ensures Readable(t) && Readable(TableStep(h, t, op))
    ensures AsStore(TableStep(h, t, op)) == StoreStep(AsStore(t), op).0
  {
    TablesOkReadable(h, t);
    match op {
      case Open(record) => OpenRefinesStore(h, t, record);
      case Admit(claim, signature, now) => AdmitRefinesStore(h, t, claim, signature, now);
      case MarkSettled(s) => UpdatesRefineStore(t, s);
      case MarkChainVerified(s) => UpdatesRefineStore(t, s);
    }
  }

  lemma TableRunSnoc(h: Hash, t: Tables, ops: seq<Op>, op: Op)
    ensures TableRun(h, t, ops + [op]) == TableStep(h, TableRun(h, t, ops), op)
  {
    assert (ops + [op])[..|ops|] == ops;
  }

  lemma {:induction false} TableRunSplit(h: Hash, t: Tables, ops: seq<Op>, more: seq<Op>)
    ensures TableRun(h, t, ops + more) == TableRun(h, TableRun(h, t, ops), more)
    decreases |more|
  {
    if more == [] {
      assert ops + more == ops;
    } else {
      var (init, last) := (more[..|more| - 1], more[|more| - 1]);
      TableRunSplit(h, t, ops, init);
      assert ops + more == ops + init + [last];
      TableRunSnoc(h, t, ops + init, last);
    }
  }

  lemma TableStepOk(h: Hash, t: Tables, op: Op)
    requires TablesOk(h, t)
    ensures TablesOk(h, TableStep(h, t, op))
  {
    match op {
      case Open(record) => SaveSessionKeepsTablesOk(h, t, record);
      case Admit(claim, signature, now) => AdmitKeepsTablesOk(h, t, claim, signature, now);
      case MarkSettled(s) => UpdatesKeepTablesOk(h, t, s);
      case MarkChainVerified(s) => UpdatesKeepTablesOk(h, t, s);
    }
  }

  lemma {:induction false} TableRunOk(h: Hash, t: Tables, ops: seq<Op>)
    requires TablesOk(h, t)
    ensures TablesOk(h, TableRun(h, t, ops))
    decreases |ops|
  {
    if ops != [] {
      TableRunOk(h, t, ops[..|ops| - 1]);
      TableStepOk(h, TableRun(h, t, ops[..|ops| - 1]), ops[|ops| - 1]);
    }
  }
}
