/**
 Concurrent admissions (`gateway/src/db.rs`): any number of threads, each running
 the admission transaction one statement at a time, interleaved in any order with
 each other, with the single-statement updates, and with crashes at any point.
 Statements read the latest committed rows; a transaction's own writes stay
 private until it commits; SELECT .. FOR UPDATE takes the session's row lock and
 an UPDATE of that row waits for it.
 */
module Transactions {
  import opened Bytes
  import opened Wrappers
  import opened Claims
  import opened Admission
  import opened Postgres
  import Evidence

  type ThreadId = nat

  datatype Attempt = Attempt(claim: Claim, signature: Signature, now: I64)

  /** Where a thread stands inside its transaction, with what it has read and written so far. */
  datatype Phase =
    | Idle
    | Waiting(a: Attempt)
    | Locked(a: Attempt, row: SessionRow)
    | TicketRead(a: Attempt, row: SessionRow, ticket: Option<TicketRow>)
    | LatestRead(a: Attempt, verdict: Verdict, decision: Evidence.Decision, latest: Option<EvidenceRow>)
    | Inserted(a: Attempt, verdict: Verdict, newRow: EvidenceRow)
    | ReadyToCommit(a: Attempt, verdict: Verdict, newRowOrNone: Option<EvidenceRow>, newTicket: Option<TicketRow>)
  {
    predicate HoldsLock() {
      !Idle? && !Waiting?
    }
  }

  datatype Event = Event(op: Op, reply: Reply)

  datatype World = World(
    tables: Tables, locks: map<Pubkey, ThreadId>, threads: map<ThreadId, Phase>, history: seq<Event>)
  {
    function PhaseOf(tid: ThreadId): Phase {
      if tid in threads then threads[tid] else Idle
    }

    function At(tid: ThreadId, phase: Phase): World {
      this.(threads := threads[tid := phase])
    }

    /** Rollback: private writes are dropped and the lock, if held, released. */
    function Rollback(tid: ThreadId): World {
      var phase := PhaseOf(tid);
      if phase.HoldsLock()
      then this.(threads := threads[tid := Idle], locks := locks - {phase.a.claim.session})
      else this.(threads := threads[tid := Idle])
    }
  }

  const INITIAL: World := World(EMPTY_TABLES, map[], map[], [])

  type FreshRecord = r: SessionRecord | IsFresh(r)
    witness NewRecord(Zeros(32), Zeros(32), Zeros(32), Zeros(32), 0, 0, false)

  datatype Step =
    | Begin(tid: ThreadId, a: Attempt)
    | Run(tid: ThreadId)
    | Crash(tid: ThreadId)
    | OpenSession(record: FreshRecord)
    | Settle(session: Pubkey)
    | Verify(session: Pubkey)

  /** The tables with a finished transaction's writes made visible. */
  function Publish(t: Tables, s: Pubkey, newRow: Option<EvidenceRow>, newTicket: Option<TicketRow>): Tables {
    Tables(t.sessions,
           if newTicket.Some? then t.tickets[s := newTicket.value] else t.tickets,
           if newRow.Some? then t.evidence[s := t.Rows(s) + [newRow.value]] else t.evidence)
  }

  /** The next statement of one thread's transaction. A step that cannot be taken changes nothing. */
  function RunThread(h: Hash, w: World, tid: ThreadId): World {
    var t := w.tables;
    match w.PhaseOf(tid)
    case Idle => w
    case Waiting(a) =>
      var s := a.claim.session;
      if s !in t.sessions then w.Rollback(tid)
      else if s in w.locks then w
      else w.At(tid, Locked(a, t.sessions[s])).(locks := w.locks[s := tid])
    case Locked(a, row) =>
      w.At(tid, TicketRead(a, row, t.Ticket(a.claim.session)))
    case TicketRead(a, row, ticket) =>
      (match JudgedRecord(a.claim.session, row, ticket)
       case Err(_) => w.Rollback(tid)
       case Ok(record) =>
         var verdict := EvaluateClaim(record, a.claim, a.now);
         match RecordedDecision(verdict)
         case None => w.At(tid, ReadyToCommit(a, verdict, None, None))
         case Some(decision) => w.At(tid, LatestRead(a, verdict, decision, Latest(t.Rows(a.claim.session)))))
    case LatestRead(a, verdict, decision, latest) =>
      (match NextRow(h, latest, a.claim, decision, a.signature)
       case Err(_) => w.Rollback(tid)
       case Ok(row) =>
         if InsertRow(t.Rows(a.claim.session), row).Err? then w.Rollback(tid)
         else if verdict.Err? then w.At(tid, ReadyToCommit(a, verdict, Some(row), None))
         else w.At(tid, Inserted(a, verdict, row)))
    case Inserted(a, verdict, row) =>
      if verdict.Err? then w.Rollback(tid)
      else
        (match UpsertTicket(t.Ticket(a.claim.session), a.claim, verdict.value, a.signature)
         case Err(_) => w.Rollback(tid)
         case Ok(None) => w.Rollback(tid)
         case Ok(Some(ticket)) => w.At(tid, ReadyToCommit(a, verdict, Some(row), Some(ticket))))
    case ReadyToCommit(a, verdict, newRow, newTicket) =>
      w.Rollback(tid).(
        tables := Publish(t, a.claim.session, newRow, newTicket),
        history := w.history + [Event(Admit(a.claim, a.signature, a.now), Decided(verdict))])
  }

  function WorldStep(h: Hash, w: World, step: Step): World {
    match step
    case Begin(tid, a) => if w.PhaseOf(tid).Idle? then w.At(tid, Waiting(a)) else w
    case Run(tid) => RunThread(h, w, tid)
    case Crash(tid) => w.Rollback(tid)
    case OpenSession(record) =>
      (match SaveSession(w.tables, record)
       case Err(_) => w
       case Ok((t, inserted)) =>
         w.(tables := t,
            history := w.history + [Event(Open(record), if inserted then Done else Failed(AlreadyOpen))]))
    case Settle(s) =>
      if s in w.locks || s !in w.tables.sessions then w
      else w.(tables := MarkSessionSettled(w.tables, s).0, history := w.history + [Event(MarkSettled(s), Done)])
    case Verify(s) =>
      if s in w.locks || s !in w.tables.sessions then w
      else w.(tables := MarkVerified(w.tables, s).0, history := w.history + [Event(MarkChainVerified(s), Done)])
  }

  function WorldRun(h: Hash, w: World, steps: seq<Step>): World
    decreases |steps|
  {
    if steps == [] then w else WorldStep(h, WorldRun(h, w, steps[..|steps| - 1]), steps[|steps| - 1])
  }

  // ---- the invariant ----

  /** The rows one admission reads. */
  datatype Slice = Slice(row: SessionRow, ticket: Option<TicketRow>, rows: seq<EvidenceRow>)

  function SliceOf(t: Tables, s: Pubkey): Slice
    requires s in t.sessions
  {
    Slice(t.sessions[s], t.Ticket(s), t.Rows(s))
  }

  predicate VerdictOk(x: Slice, a: Attempt, verdict: Verdict) {
    var record := JudgedRecord(a.claim.session, x.row, x.ticket);
    record.Ok? && verdict == EvaluateClaim(record.value, a.claim, a.now)
  }

  predicate RowOk(h: Hash, x: Slice, a: Attempt, verdict: Verdict, row: EvidenceRow) {
    && RecordedDecision(verdict).Some?
    && NextRow(h, Latest(x.rows), a.claim, RecordedDecision(verdict).value, a.signature) == Ok(row)
    && InsertRow(x.rows, row).Ok?
  }

  /** What a thread holding the lock has read is still what is committed. */
  predicate PhaseOk(h: Hash, x: Slice, phase: Phase) {
    match phase
    case Idle => true
    case Waiting(_) => true
    case Locked(_, row) => row == x.row
    case TicketRead(_, row, ticket) => row == x.row && ticket == x.ticket
    case LatestRead(a, verdict, decision, latest) =>
      VerdictOk(x, a, verdict) && RecordedDecision(verdict) == Some(decision) && latest == Latest(x.rows)
    case Inserted(a, verdict, row) =>
      verdict.Ok? && VerdictOk(x, a, verdict) && RowOk(h, x, a, verdict, row)
    case ReadyToCommit(a, verdict, newRow, newTicket) =>
      && VerdictOk(x, a, verdict)
      && newRow.Some? == RecordedDecision(verdict).Some?
      && (newRow.Some? ==> RowOk(h, x, a, verdict, newRow.value))
      && newTicket.Some? == verdict.Ok?
      && (newTicket.Some? ==> UpsertTicket(x.ticket, a.claim, verdict.value, a.signature) == Ok(newTicket))
  }

  predicate ThreadOk(h: Hash, w: World, tid: ThreadId) {
    var phase := w.PhaseOf(tid);
    phase.HoldsLock() ==>
      var s := phase.a.claim.session;
      && s in w.locks && w.locks[s] == tid
      && s in w.tables.sessions
      && PhaseOk(h, SliceOf(w.tables, s), phase)
  }

  function Ops(history: seq<Event>): (ops: seq<Op>)
    ensures |ops| == |history|
  {
    seq(|history|, i requires 0 <= i < |history| => history[i].op)
  }

  /** The committed tables, read back, are the in-memory store after the committed operations in order, replies included. */
  ghost predicate Explained(t: Tables, history: seq<Event>) {
    && Readable(t)
    && AsStore(t) == StoreRun(map[], Ops(history))
    && (forall i :: 0 <= i < |history| ==> history[i].reply == ReplyAt(map[], Ops(history), i))
  }

  ghost predicate ThreadsOk(h: Hash, w: World) {
    forall tid :: ThreadOk(h, w, tid)
  }

  ghost predicate WorldOk(h: Hash, w: World) {
    TablesOk(h, w.tables) && ThreadsOk(h, w) && Explained(w.tables, w.history)
  }

  // ---- framing ----

  /** A change that leaves another session's rows alone leaves its lock holder's view intact. */
  lemma OthersUndisturbed(h: Hash, w: World, w': World, tid: ThreadId)
    requires ThreadOk(h, w, tid) && w'.PhaseOf(tid) == w.PhaseOf(tid)
    requires w.PhaseOf(tid).HoldsLock() ==>
      var s := w.PhaseOf(tid).a.claim.session;
      && s in w'.locks && w'.locks[s] == w.locks[s]
      && s in w'.tables.sessions && SliceOf(w'.tables, s) == SliceOf(w.tables, s)
    ensures ThreadOk(h, w', tid)
  {
  }

  lemma OpsAppend(history: seq<Event>, e: Event)
    ensures Ops(history + [e]) == Ops(history) + [e.op]
  {
  }

  /** Appending an operation the serial store agrees with keeps the history an explanation. */
  lemma ExplanationGrows(t: Tables, history: seq<Event>, t': Tables, e: Event)
    requires Explained(t, history) && Readable(t')
    requires (AsStore(t'), e.reply) == StoreStep(AsStore(t), e.op)
    ensures Explained(t', history + [e])
  {
    var (ops, more) := (Ops(history), Ops(history + [e]));
    OpsAppend(history, e);
    assert more[..|more| - 1] == ops;
    forall i | 0 <= i <= |history| ensures (history + [e])[i].reply == ReplyAt(map[], more, i) {
      assert more[..i] == ops[..i];
      if i == |history| {
        assert ops[..i] == ops;
      }
    }
  }

  /** What a ready transaction would publish is what running it alone, now, would give. */
  lemma CommitIsSerial(h: Hash, t: Tables, phase: Phase)
    requires phase.ReadyToCommit? && phase.a.claim.session in t.sessions
    requires PhaseOk(h, SliceOf(t, phase.a.claim.session), phase)
    ensures AdmitAlone(h, t, phase.a.claim, phase.a.signature, phase.a.now)
         == (Publish(t, phase.a.claim.session, phase.newRowOrNone, phase.newTicket), Ok(phase.verdict))
  {
  }

  // ---- every step keeps what the threads believe ----

  lemma ReadKeepsOwnThread(h: Hash, w: World, tid: ThreadId)
    requires ThreadOk(h, w, tid) && (w.PhaseOf(tid).Waiting? || w.PhaseOf(tid).Locked? || w.PhaseOf(tid).TicketRead?)
    ensures ThreadOk(h, RunThread(h, w, tid), tid)
  {
  }

  lemma InsertKeepsOwnThread(h: Hash, w: World, tid: ThreadId)
    requires ThreadOk(h, w, tid) && w.PhaseOf(tid).LatestRead?
    ensures ThreadOk(h, RunThread(h, w, tid), tid)
  {
  }

  lemma UpsertKeepsOwnThread(h: Hash, w: World, tid: ThreadId)
    requires ThreadOk(h, w, tid) && w.PhaseOf(tid).Inserted?
    ensures ThreadOk(h, RunThread(h, w, tid), tid)
  {
  }

  /** The thread that takes a step still believes only what is committed. */
  lemma RunKeepsOwnThread(h: Hash, w: World, tid: ThreadId)
    requires ThreadOk(h, w, tid)
    ensures ThreadOk(h, RunThread(h, w, tid), tid)
  {
    match w.PhaseOf(tid) {
      case Idle =>
      case ReadyToCommit(_, _, _, _) =>
      case LatestRead(_, _, _, _) => InsertKeepsOwnThread(h, w, tid);
      case Inserted(_, _, _) => UpsertKeepsOwnThread(h, w, tid);
      case _ => ReadKeepsOwnThread(h, w, tid);
    }
  }

  /** Only a commit changes what others can see. */
  lemma OnlyCommitPublishes(h: Hash, w: World, tid: ThreadId)
    ensures w.PhaseOf(tid).ReadyToCommit?
         || (RunThread(h, w, tid).tables == w.tables && RunThread(h, w, tid).history == w.history)
  {
  }

  /** A thread that has not committed has changed no table, and only its own lock. */
  lemma RunIsPrivate(h: Hash, w: World, tid: ThreadId, other: ThreadId)
    requires ThreadOk(h, w, tid) && ThreadOk(h, w, other) && other != tid
    requires !w.PhaseOf(tid).ReadyToCommit?
    ensures RunThread(h, w, tid).tables == w.tables && RunThread(h, w, tid).history == w.history
    ensures ThreadOk(h, RunThread(h, w, tid), other)
  {
  }

  lemma PublishIsLocal(t: Tables, s: Pubkey, newRow: Option<EvidenceRow>, newTicket: Option<TicketRow>, k: Pubkey)
    requires k in t.sessions && k != s
    ensures SliceOf(Publish(t, s, newRow, newTicket), k) == SliceOf(t, k)
  {
  }

  /** A commit touches only the session whose lock the committer holds. */
  lemma CommitIsLocal(h: Hash, w: World, tid: ThreadId, other: ThreadId)
    requires ThreadOk(h, w, tid) && ThreadOk(h, w, other) && other != tid
    requires w.PhaseOf(tid).ReadyToCommit?
    ensures ThreadOk(h, RunThread(h, w, tid), other)
  {
    var phase := w.PhaseOf(tid);
    if w.PhaseOf(other).HoldsLock() {
      PublishIsLocal(w.tables, phase.a.claim.session, phase.newRowOrNone, phase.newTicket, w.PhaseOf(other).a.claim.session);
    }
    OthersUndisturbed(h, w, RunThread(h, w, tid), other);
  }

  lemma RunKeepsThreads(h: Hash, w: World, tid: ThreadId)
    requires ThreadsOk(h, w)
    ensures ThreadsOk(h, RunThread(h, w, tid))
  {
    forall other ensures ThreadOk(h, RunThread(h, w, tid), other) {
      assert ThreadOk(h, w, tid) && ThreadOk(h, w, other);
      if other == tid {
        RunKeepsOwnThread(h, w, tid);
      } else if w.PhaseOf(tid).ReadyToCommit? {
        CommitIsLocal(h, w, tid, other);
      } else {
        RunIsPrivate(h, w, tid, other);
      }
    }
  }

  lemma BeginOrCrashKeepsThreads(h: Hash, w: World, step: Step, tid: ThreadId)
    requires step.Begin? || step.Crash?
    requires ThreadOk(h, w, tid) && ThreadOk(h, w, step.tid)
    ensures ThreadOk(h, WorldStep(h, w, step), tid)
  {
    if tid != step.tid {
      OthersUndisturbed(h, w, WorldStep(h, w, step), tid);
    }
  }

  /** Opening a session touches no row that exists, so none that is locked. */
  lemma OpenKeepsThread(h: Hash, w: World, record: FreshRecord, tid: ThreadId)
    requires ThreadOk(h, w, tid)
    ensures ThreadOk(h, WorldStep(h, w, OpenSession(record)), tid)
  {
    OthersUndisturbed(h, w, WorldStep(h, w, OpenSession(record)), tid);
  }

  /** An update waits for the row's lock. */
  lemma SettleKeepsThread(h: Hash, w: World, s: Pubkey, tid: ThreadId)
    requires ThreadOk(h, w, tid)
    ensures ThreadOk(h, WorldStep(h, w, Settle(s)), tid)
  {
    OthersUndisturbed(h, w, WorldStep(h, w, Settle(s)), tid);
  }

  lemma VerifyKeepsThread(h: Hash, w: World, s: Pubkey, tid: ThreadId)
    requires ThreadOk(h, w, tid)
    ensures ThreadOk(h, WorldStep(h, w, Verify(s)), tid)
  {
    OthersUndisturbed(h, w, WorldStep(h, w, Verify(s)), tid);
  }

  lemma StatementKeepsThread(h: Hash, w: World, step: Step, tid: ThreadId)
    requires ThreadsOk(h, w) && !step.Run?
    ensures ThreadOk(h, WorldStep(h, w, step), tid)
  {
    assert ThreadOk(h, w, tid);
    match step {
      case OpenSession(record) => OpenKeepsThread(h, w, record, tid);
      case Settle(s) => SettleKeepsThread(h, w, s, tid);
      case Verify(s) => VerifyKeepsThread(h, w, s, tid);
      case _ =>
        assert ThreadOk(h, w, step.tid);
        BeginOrCrashKeepsThreads(h, w, step, tid);
    }
  }

  lemma StepKeepsThreads(h: Hash, w: World, step: Step)
    requires ThreadsOk(h, w)
    ensures ThreadsOk(h, WorldStep(h, w, step))
  {
    if step.Run? {
      RunKeepsThreads(h, w, step.tid);
    } else {
      forall tid ensures ThreadOk(h, WorldStep(h, w, step), tid) {
        StatementKeepsThread(h, w, step, tid);
      }
    }
  }

  // ---- every step keeps the tables sound and explained ----

  lemma CommitKeepsTables(h: Hash, w: World, tid: ThreadId)
    requires WorldOk(h, w) && w.PhaseOf(tid).ReadyToCommit?
    ensures TablesOk(h, RunThread(h, w, tid).tables)
    ensures Explained(RunThread(h, w, tid).tables, RunThread(h, w, tid).history)
  {
    var phase := w.PhaseOf(tid);
    var a := phase.a;
    var t' := Publish(w.tables, a.claim.session, phase.newRowOrNone, phase.newTicket);
    assert ThreadOk(h, w, tid);
    CommitIsSerial(h, w.tables, phase);
    AdmitKeepsTablesOk(h, w.tables, a.claim, a.signature, a.now);
    AdmitRefinesStore(h, w.tables, a.claim, a.signature, a.now);
    ExplanationGrows(w.tables, w.history, t', Event(Admit(a.claim, a.signature, a.now), Decided(phase.verdict)));
  }

  lemma OpenKeepsTables(h: Hash, t: Tables, history: seq<Event>, record: FreshRecord)
    requires TablesOk(h, t) && Explained(t, history) && SaveSession(t, record).Ok?
    ensures
      var (t', inserted) := SaveSession(t, record).value;
      && TablesOk(h, t')
      && Explained(t', history + [Event(Open(record), if inserted then Done else Failed(AlreadyOpen))])
  {
    var (t', inserted) := SaveSession(t, record).value;
    SaveSessionKeepsTablesOk(h, t, record);
    OpenRefinesStore(h, t, record);
    ExplanationGrows(t, history, t', Event(Open(record), if inserted then Done else Failed(AlreadyOpen)));
  }

  lemma UpdateKeepsTables(h: Hash, t: Tables, history: seq<Event>, s: Pubkey)
    requires TablesOk(h, t) && Explained(t, history) && s in t.sessions
    ensures TablesOk(h, MarkSessionSettled(t, s).0) && TablesOk(h, MarkVerified(t, s).0)
    ensures Explained(MarkSessionSettled(t, s).0, history + [Event(MarkSettled(s), Done)])
    ensures Explained(MarkVerified(t, s).0, history + [Event(MarkChainVerified(s), Done)])
  {
    UpdatesKeepTablesOk(h, t, s);
    UpdatesRefineStore(t, s);
    ExplanationGrows(t, history, MarkSessionSettled(t, s).0, Event(MarkSettled(s), Done));
    ExplanationGrows(t, history, MarkVerified(t, s).0, Event(MarkChainVerified(s), Done));
  }

  lemma RunKeepsTables(h: Hash, w: World, tid: ThreadId)
    requires WorldOk(h, w)
    ensures TablesOk(h, RunThread(h, w, tid).tables)
    ensures Explained(RunThread(h, w, tid).tables, RunThread(h, w, tid).history)
  {
    if w.PhaseOf(tid).ReadyToCommit? {
      CommitKeepsTables(h, w, tid);
    } else {
      OnlyCommitPublishes(h, w, tid);
    }
  }

  lemma StepKeepsTables(h: Hash, w: World, step: Step)
    requires WorldOk(h, w)
    ensures TablesOk(h, WorldStep(h, w, step).tables)
    ensures Explained(WorldStep(h, w, step).tables, WorldStep(h, w, step).history)
  {
    if step.Run? {
      RunKeepsTables(h, w, step.tid);
    } else if WorldStep(h, w, step) != w {
      match step {
        case Begin(_, _) =>
        case Crash(_) =>
        case OpenSession(record) => OpenKeepsTables(h, w.tables, w.history, record);
        case Settle(s) => UpdateKeepsTables(h, w.tables, w.history, s);
        case Verify(s) => UpdateKeepsTables(h, w.tables, w.history, s);
      }
    }
  }

  lemma StepKeepsWorldOk(h: Hash, w: World, step: Step)
    requires WorldOk(h, w)
    ensures WorldOk(h, WorldStep(h, w, step))
  {
    StepKeepsThreads(h, w, step);
    StepKeepsTables(h, w, step);
  }

  /** The invariant holds after every interleaving and every pattern of crashes. */
  lemma {:induction false} RunWorldOk(h: Hash, steps: seq<Step>)
    ensures WorldOk(h, WorldRun(h, INITIAL, steps))
    decreases |steps|
  {
    if steps == [] {
      assert AsStore(EMPTY_TABLES) == map[];
    } else {
      RunWorldOk(h, steps[..|steps| - 1]);
      StepKeepsWorldOk(h, WorldRun(h, INITIAL, steps[..|steps| - 1]), steps[|steps| - 1]);
    }
  }

  // ---- the committed tables are a serial run's ----

  ghost predicate Serial(h: Hash, w: World) {
    w.tables == TableRun(h, EMPTY_TABLES, Ops(w.history))
  }

  lemma SerialGrows(h: Hash, w: World, t': Tables, e: Event)
    requires Serial(h, w) && t' == TableStep(h, w.tables, e.op)
    ensures t' == TableRun(h, EMPTY_TABLES, Ops(w.history + [e]))
  {
    OpsAppend(w.history, e);
    var more := Ops(w.history + [e]);
    assert more[..|more| - 1] == Ops(w.history);
  }

  lemma CommitKeepsSerial(h: Hash, w: World, tid: ThreadId)
    requires WorldOk(h, w) && Serial(h, w) && w.PhaseOf(tid).ReadyToCommit?
    ensures Serial(h, RunThread(h, w, tid))
  {
    var phase := w.PhaseOf(tid);
    var a := phase.a;
    assert ThreadOk(h, w, tid);
    CommitIsSerial(h, w.tables, phase);
    SerialGrows(h, w, RunThread(h, w, tid).tables, Event(Admit(a.claim, a.signature, a.now), Decided(phase.verdict)));
  }

  lemma StatementKeepsSerial(h: Hash, w: World, step: Step)
    requires Serial(h, w) && (step.OpenSession? || step.Settle? || step.Verify?)
    ensures Serial(h, WorldStep(h, w, step))
  {
    var w' := WorldStep(h, w, step);
    if w'.history != w.history {
      SerialGrows(h, w, w'.tables, w'.history[|w.history|]);
    }
  }

  lemma StepKeepsSerial(h: Hash, w: World, step: Step)
    requires WorldOk(h, w) && Serial(h, w)
    ensures Serial(h, WorldStep(h, w, step))
  {
    match step {
      case Begin(_, _) =>
      case Crash(_) =>
      case Run(tid) =>
        OnlyCommitPublishes(h, w, tid);
        if w.PhaseOf(tid).ReadyToCommit? {
          CommitKeepsSerial(h, w, tid);
        }
      case _ => StatementKeepsSerial(h, w, step);
    }
  }

  /**
   Serializability. After every interleaving of any number of admissions with
   each other, with opens, settlements and verifications, and with crashes at any
   statement, the committed tables are those of the committed operations run one
   at a time; read through `row_to_record` they are the in-memory store after the
   same operations; and every reply given was that store's reply.
   */
  lemma {:induction false} Serializable(h: Hash, steps: seq<Step>)
    ensures
      var w := WorldRun(h, INITIAL, steps);
      && w.tables == TableRun(h, EMPTY_TABLES, Ops(w.history))
      && Readable(w.tables)
      && AsStore(w.tables) == StoreRun(map[], Ops(w.history))
      && (forall i :: 0 <= i < |w.history| ==> w.history[i].reply == ReplyAt(map[], Ops(w.history), i))
    decreases |steps|
  {
    RunWorldOk(h, steps);
    if steps != [] {
      var before := steps[..|steps| - 1];
      Serializable(h, before);
      RunWorldOk(h, before);
      StepKeepsSerial(h, WorldRun(h, INITIAL, before), steps[|steps| - 1]);
    }
  }

  // ---- what each thread hears ----

  /** The answer a thread's next statement ends its transaction with, errors included; None while it goes on or waits. */
  function AnswerOf(h: Hash, w: World, tid: ThreadId): Option<DbResult<Verdict>> {
    var t := w.tables;
    match w.PhaseOf(tid)
    case Idle => None
    case Waiting(a) => if a.claim.session !in t.sessions then Some(Err(RowNotFound)) else None
    case Locked(_, _) => None
    case TicketRead(a, row, ticket) =>
      (match JudgedRecord(a.claim.session, row, ticket)
       case Err(e) => Some(Err(e))
       case Ok(_) => None)
    case LatestRead(a, verdict, decision, latest) =>
      (match NextRow(h, latest, a.claim, decision, a.signature)
       case Err(e) => Some(Err(e))
       case Ok(row) => if InsertRow(t.Rows(a.claim.session), row).Err? then Some(Err(InsertRow(t.Rows(a.claim.session), row).error)) else None)
    case Inserted(a, verdict, row) =>
      if verdict.Err? then Some(Ok(verdict))
      else
        (match UpsertTicket(t.Ticket(a.claim.session), a.claim, verdict.value, a.signature)
         case Err(e) => Some(Err(e))
         case Ok(None) => Some(Ok(Err(NotMonotonic)))
         case Ok(Some(_)) => None)
    case ReadyToCommit(_, verdict, _, _) => Some(Ok(verdict))
  }

  lemma AnswerEndsTransaction(h: Hash, w: World, tid: ThreadId)
    requires !w.PhaseOf(tid).Idle?
    ensures AnswerOf(h, w, tid).Some? <==> RunThread(h, w, tid).PhaseOf(tid).Idle?
  {
  }

  /** What a statement that ends the transaction answers and leaves is what the whole admission, run alone now, would. */
  lemma AnswerIsAlone(h: Hash, w: World, tid: ThreadId)
    requires ThreadOk(h, w, tid) && AnswerOf(h, w, tid).Some?
    ensures
      var a := w.PhaseOf(tid).a;
      AdmitAlone(h, w.tables, a.claim, a.signature, a.now) == (RunThread(h, w, tid).tables, AnswerOf(h, w, tid).value)
  {
    match w.PhaseOf(tid) {
      case ReadyToCommit(_, _, _, _) => CommitIsSerial(h, w.tables, w.PhaseOf(tid));
      case LatestRead(_, _, _, _) => InsertAnswers(h, w, tid);
      case Inserted(_, _, _) => UpsertAnswers(h, w, tid);
      case _ =>
    }
  }

  lemma InsertAnswers(h: Hash, w: World, tid: ThreadId)
    requires ThreadOk(h, w, tid) && w.PhaseOf(tid).LatestRead? && AnswerOf(h, w, tid).Some?
    ensures
      var a := w.PhaseOf(tid).a;
      AdmitAlone(h, w.tables, a.claim, a.signature, a.now) == (RunThread(h, w, tid).tables, AnswerOf(h, w, tid).value)
  {
  }

  lemma UpsertAnswers(h: Hash, w: World, tid: ThreadId)
    requires ThreadOk(h, w, tid) && w.PhaseOf(tid).Inserted? && AnswerOf(h, w, tid).Some?
    ensures
      var a := w.PhaseOf(tid).a;
      AdmitAlone(h, w.tables, a.claim, a.signature, a.now) == (RunThread(h, w, tid).tables, AnswerOf(h, w, tid).value)
  {
  }

  /**
   Every thread hears its own answer: under every interleaving, a transaction ends with
   exactly the answer, verdict or error, and leaves exactly the tables, that its
   admission run alone at that moment would.
   */
  lemma {:induction false} EveryAnswerIsSerial(h: Hash, steps: seq<Step>, tid: ThreadId)
    requires !WorldRun(h, INITIAL, steps).PhaseOf(tid).Idle?
    requires RunThread(h, WorldRun(h, INITIAL, steps), tid).PhaseOf(tid).Idle?
    ensures
      var w := WorldRun(h, INITIAL, steps);
      var a := w.PhaseOf(tid).a;
      && AnswerOf(h, w, tid).Some?
      && AdmitAlone(h, w.tables, a.claim, a.signature, a.now) == (RunThread(h, w, tid).tables, AnswerOf(h, w, tid).value)
  {
    RunWorldOk(h, steps);
    var w := WorldRun(h, INITIAL, steps);
    assert ThreadOk(h, w, tid);
    AnswerEndsTransaction(h, w, tid);
    AnswerIsAlone(h, w, tid);
  }

  // ---- nobody waits for ever ----

  /** How many statements a transaction may still need. */
  function StatementsLeft(phase: Phase): nat {
    match phase
    case Idle => 0
    case Waiting(_) => 6
    case Locked(_, _) => 5
    case TicketRead(_, _, _) => 4
    case LatestRead(_, _, _, _) => 3
    case Inserted(_, _, _) => 2
    case ReadyToCommit(_, _, _, _) => 1
  }

  /** A thread that holds its lock, or can take it. */
  predicate CanRun(w: World, tid: ThreadId) {
    var phase := w.PhaseOf(tid);
    phase.HoldsLock() || (phase.Waiting? && phase.a.claim.session !in w.locks)
  }

  function Runs(tid: ThreadId, n: nat): (steps: seq<Step>)
    ensures |steps| == n && forall i :: 0 <= i < n ==> steps[i] == Run(tid)
  {
    seq(n, _ => Run(tid))
  }

  /** Each statement brings such a thread closer to its end, where its lock is free again. */
  lemma RunAdvances(h: Hash, w: World, tid: ThreadId)
    requires CanRun(w, tid)
    ensures
      var (before, after) := (w.PhaseOf(tid), RunThread(h, w, tid).PhaseOf(tid));
      && StatementsLeft(after) < StatementsLeft(before)
      && (after.Idle? ==> before.a.claim.session !in RunThread(h, w, tid).locks)
      && (!after.Idle? ==> after.HoldsLock() && after.a == before.a)
  {
  }

  lemma RunSparesPhases(h: Hash, w: World, tid: ThreadId, other: ThreadId)
    requires other != tid
    ensures RunThread(h, w, tid).PhaseOf(other) == w.PhaseOf(other)
  {
  }

  /** It ends within as many statements, with its admission made as if alone, if nobody else moves. */
  lemma {:induction false} FinishesAlone(h: Hash, w: World, tid: ThreadId, other: ThreadId) returns (n: nat)
    requires CanRun(w, tid) && ThreadOk(h, w, tid)
    ensures n <= StatementsLeft(w.PhaseOf(tid))
    ensures
      var (end, a) := (WorldRun(h, w, Runs(tid, n)), w.PhaseOf(tid).a);
      && end.PhaseOf(tid).Idle?
      && end.tables == AdmitAlone(h, w.tables, a.claim, a.signature, a.now).0
      && a.claim.session !in end.locks
      && (other != tid ==> end.PhaseOf(other) == w.PhaseOf(other))
    decreases StatementsLeft(w.PhaseOf(tid))
  {
    var next := RunThread(h, w, tid);
    OneStatement(h, w, tid, other);
    if next.PhaseOf(tid).Idle? {
      n := 1;
      MoreRuns(h, w, tid, 0);
    } else {
      var m := FinishesAlone(h, next, tid, other);
      n := m + 1;
      MoreRuns(h, w, tid, m);
    }
  }

  lemma {:induction false} MoreRuns(h: Hash, w: World, tid: ThreadId, m: nat)
    ensures WorldRun(h, w, Runs(tid, m + 1)) == WorldRun(h, RunThread(h, w, tid), Runs(tid, m))
  {
    assert Runs(tid, 1)[..0] == [];
    assert WorldRun(h, w, Runs(tid, 1)) == RunThread(h, w, tid);
    assert Runs(tid, m + 1) == Runs(tid, 1) + Runs(tid, m);
    WorldRunSplit(h, w, Runs(tid, 1), Runs(tid, m));
  }

  /** A statement ends the transaction as its admission alone would, or leaves the tables, and so what that would be, as they were. */
  lemma OneStatement(h: Hash, w: World, tid: ThreadId, other: ThreadId)
    requires CanRun(w, tid) && ThreadOk(h, w, tid)
    ensures
      var (before, next) := (w.PhaseOf(tid), RunThread(h, w, tid));
      var after := next.PhaseOf(tid);
      && StatementsLeft(after) < StatementsLeft(before)
      && (after.Idle? ==>
            && next.tables == AdmitAlone(h, w.tables, before.a.claim, before.a.signature, before.a.now).0
            && before.a.claim.session !in next.locks)
      && (!after.Idle? ==> CanRun(next, tid) && ThreadOk(h, next, tid) && after.a == before.a && next.tables == w.tables)
      && (other != tid ==> next.PhaseOf(other) == w.PhaseOf(other))
  {
    RunAdvances(h, w, tid);
    if other != tid {
      RunSparesPhases(h, w, tid, other);
    }
    if RunThread(h, w, tid).PhaseOf(tid).Idle? {
      AnswerEndsTransaction(h, w, tid);
      AnswerIsAlone(h, w, tid);
    } else {
      RunKeepsOwnThread(h, w, tid);
      OnlyCommitPublishes(h, w, tid);
    }
  }

  /** A lock is held by a transaction on that session that is still going on. */
  predicate LockLives(w: World, s: Pubkey) {
    s in w.locks ==> w.PhaseOf(w.locks[s]).HoldsLock() && w.PhaseOf(w.locks[s]).a.claim.session == s
  }

  /** A statement takes or frees at most its own session's lock. */
  lemma RunTouchesOwnLock(h: Hash, w: World, tid: ThreadId)
    ensures
      var (before, w') := (w.PhaseOf(tid), RunThread(h, w, tid));
      var after := w'.PhaseOf(tid);
      && (before.Idle? ==> w' == w)
      && (before.HoldsLock() && after.HoldsLock() ==> w'.locks == w.locks && after.a == before.a)
      && (before.HoldsLock() && !after.HoldsLock() ==> w'.locks == w.locks - {before.a.claim.session})
      && (before.Waiting? && after.HoldsLock() ==> after.a == before.a && w'.locks == w.locks[before.a.claim.session := tid])
      && (before.Waiting? && !after.HoldsLock() ==> w'.locks == w.locks)
  {
  }

  lemma RunKeepsLock(h: Hash, w: World, tid: ThreadId, s: Pubkey)
    requires LockLives(w, s)
    ensures LockLives(RunThread(h, w, tid), s)
  {
    RunTouchesOwnLock(h, w, tid);
    if s in w.locks && w.locks[s] != tid {
      RunSparesPhases(h, w, tid, w.locks[s]);
    }
  }

  lemma StepKeepsLock(h: Hash, w: World, step: Step, s: Pubkey)
    requires LockLives(w, s)
    ensures LockLives(WorldStep(h, w, step), s)
  {
    if step.Run? {
      RunKeepsLock(h, w, step.tid, s);
    }
  }

  lemma {:induction false} LocksLive(h: Hash, steps: seq<Step>, s: Pubkey)
    ensures LockLives(WorldRun(h, INITIAL, steps), s)
    decreases |steps|
  {
    if steps != [] {
      LocksLive(h, steps[..|steps| - 1], s);
      StepKeepsLock(h, WorldRun(h, INITIAL, steps[..|steps| - 1]), steps[|steps| - 1], s);
    }
  }

  lemma {:induction false} FinishesAfterHolder(h: Hash, w: World, tid: ThreadId) returns (more: seq<Step>)
    requires ThreadsOk(h, w) && w.PhaseOf(tid).Waiting? && w.PhaseOf(tid).a.claim.session in w.locks
    requires LockLives(w, w.PhaseOf(tid).a.claim.session)
    ensures |more| <= 11 && forall i :: 0 <= i < |more| ==> more[i].Run?
    ensures WorldRun(h, w, more).PhaseOf(tid).Idle?
  {
    var holder := w.locks[w.PhaseOf(tid).a.claim.session];
    var m := FinishesAlone(h, w, holder, tid);
    var free := WorldRun(h, w, Runs(holder, m));
    var n := FinishesAlone(h, free, tid, tid);
    WorldRunSplit(h, w, Runs(holder, m), Runs(tid, n));
    more := Runs(holder, m) + Runs(tid, n);
  }

  /**
   No deadlock: whatever has happened, crashes included, every transaction under way can
   still be finished by at most eleven statements, those of whoever holds its lock and
   then its own.
   */
  lemma {:induction false} NoDeadlock(h: Hash, steps: seq<Step>, tid: ThreadId) returns (more: seq<Step>)
    requires !WorldRun(h, INITIAL, steps).PhaseOf(tid).Idle?
    ensures |more| <= 11 && forall i :: 0 <= i < |more| ==> more[i].Run?
    ensures WorldRun(h, INITIAL, steps + more).PhaseOf(tid).Idle?
  {
    var w := WorldRun(h, INITIAL, steps);
    RunWorldOk(h, steps);
    LocksLive(h, steps, w.PhaseOf(tid).a.claim.session);
    if CanRun(w, tid) {
      var n := FinishesAlone(h, w, tid, tid);
      more := Runs(tid, n);
    } else {
      more := FinishesAfterHolder(h, w, tid);
    }
    WorldRunSplit(h, INITIAL, steps, more);
  }

  // ---- consequences ----

  lemma {:induction false} HistoryGrows(h: Hash, w: World, steps: seq<Step>)
    ensures |w.history| <= |WorldRun(h, w, steps).history|
    ensures WorldRun(h, w, steps).history[..|w.history|] == w.history
    decreases |steps|
  {
    if steps != [] {
      HistoryGrows(h, w, steps[..|steps| - 1]);
      HistoryStep(h, WorldRun(h, w, steps[..|steps| - 1]), steps[|steps| - 1]);
    }
  }

  lemma HistoryStep(h: Hash, w: World, step: Step)
    ensures w.history <= WorldStep(h, w, step).history
  {
  }

  lemma {:induction false} WorldRunSplit(h: Hash, w: World, steps: seq<Step>, more: seq<Step>)
    ensures WorldRun(h, w, steps + more) == WorldRun(h, WorldRun(h, w, steps), more)
    decreases |more|
  {
    if more == [] {
      assert steps + more == steps;
    } else {
      WorldRunSplit(h, w, steps, more[..|more| - 1]);
      assert (steps + more)[..|steps + more| - 1] == steps + more[..|more| - 1];
    }
  }

  lemma OpsOfExtension(history: seq<Event>, longer: seq<Event>)
    requires |history| <= |longer| && longer[..|history|] == history
    ensures Ops(longer) == Ops(history) + Ops(longer[|history|..])
  {
  }

  /** What has been committed is only ever added to. */
  lemma LaterOps(h: Hash, steps: seq<Step>, more: seq<Step>) returns (tail: seq<Op>)
    ensures
      var (w, w') := (WorldRun(h, INITIAL, steps), WorldRun(h, INITIAL, steps + more));
      && |w.history| <= |w'.history|
      && tail == Ops(w'.history[|w.history|..])
      && Ops(w'.history) == Ops(w.history) + tail
  {
    var w := WorldRun(h, INITIAL, steps);
    WorldRunSplit(h, INITIAL, steps, more);
    HistoryGrows(h, w, more);
    var w' := WorldRun(h, INITIAL, steps + more);
    OpsOfExtension(w.history, w'.history);
    tail := Ops(w'.history[|w.history|..]);
  }

  lemma {:induction false} SerialTables(h: Hash, steps: seq<Step>)
    ensures TablesOk(h, WorldRun(h, INITIAL, steps).tables)
    ensures WorldRun(h, INITIAL, steps).tables == TableRun(h, EMPTY_TABLES, Ops(WorldRun(h, INITIAL, steps).history))
  {
    RunWorldOk(h, steps);
    Serializable(h, steps);
  }

  lemma LaterStoreIsARun(h: Hash, steps: seq<Step>, more: seq<Step>) returns (tail: seq<Op>)
    ensures Readable(WorldRun(h, INITIAL, steps).tables) && Readable(WorldRun(h, INITIAL, steps + more).tables)
    ensures AsStore(WorldRun(h, INITIAL, steps + more).tables) == StoreRun(AsStore(WorldRun(h, INITIAL, steps).tables), tail)
  {
    var (w, w') := (WorldRun(h, INITIAL, steps), WorldRun(h, INITIAL, steps + more));
    Serializable(h, steps);
    Serializable(h, steps + more);
    tail := LaterOps(h, steps, more);
    StoreRunSplit(map[], Ops(w.history), tail);
  }

  /** Marks and nonces only rise while the gateway runs, however its threads interleave. */
  lemma {:induction false} ConcurrentMarksOnlyRise(h: Hash, steps: seq<Step>, more: seq<Step>, s: Pubkey)
    requires s in WorldRun(h, INITIAL, steps).tables.sessions
    ensures Readable(WorldRun(h, INITIAL, steps).tables) && Readable(WorldRun(h, INITIAL, steps + more).tables)
    ensures s in WorldRun(h, INITIAL, steps + more).tables.sessions
    ensures NotBehind(AsStore(WorldRun(h, INITIAL, steps).tables)[s], AsStore(WorldRun(h, INITIAL, steps + more).tables)[s])
  {
    var tail := LaterStoreIsARun(h, steps, more);
    var store := AsStore(WorldRun(h, INITIAL, steps).tables);
    MarksOnlyRise(store, tail, s);
    assert s in AsStore(WorldRun(h, INITIAL, steps + more).tables);
  }

  predicate Accepted(e: Event) {
    e.op.Admit? && e.reply.Decided? && e.reply.verdict.Ok?
  }

  /** Of any number of identical claims, raced by any number of threads, at most one is ever admitted. */
  lemma {:induction false} AtMostOneAdmitted(h: Hash, steps: seq<Step>, i: nat, j: nat)
    requires i < j < |WorldRun(h, INITIAL, steps).history|
    requires Accepted(WorldRun(h, INITIAL, steps).history[i]) && Accepted(WorldRun(h, INITIAL, steps).history[j])
    ensures WorldRun(h, INITIAL, steps).history[i].op.claim != WorldRun(h, INITIAL, steps).history[j].op.claim
  {
    Serializable(h, steps);
    var ops := Ops(WorldRun(h, INITIAL, steps).history);
    if ops[i].claim.session == ops[j].claim.session {
      AcceptedClaimsIncrease(map[], ops, i, j);
    }
  }

  /** The unique constraint never refuses the row a thread is about to insert. */
  lemma {:induction false} UniqueNeverFires(h: Hash, steps: seq<Step>, tid: ThreadId)
    requires WorldRun(h, INITIAL, steps).PhaseOf(tid).LatestRead?
    ensures
      var w := WorldRun(h, INITIAL, steps);
      var phase := w.PhaseOf(tid);
      var row := NextRow(h, phase.latest, phase.a.claim, phase.decision, phase.a.signature);
      row.Ok? ==> InsertRow(w.tables.Rows(phase.a.claim.session), row.value).Ok?
  {
    RunWorldOk(h, steps);
    var w := WorldRun(h, INITIAL, steps);
    var phase := w.PhaseOf(tid);
    assert ThreadOk(h, w, tid);
    AppendKeepsLogOk(h, phase.a.claim, w.tables.Rows(phase.a.claim.session), phase.decision, phase.a.signature);
  }

  /** A lock holder's reads are current, so the ticket it is about to replace is below its claim. */
  lemma InsertedWrites(h: Hash, x: Slice, phase: Phase)
    requires phase.Inserted? && PhaseOk(h, x, phase)
    ensures
      var r := UpsertTicket(x.ticket, phase.a.claim, phase.verdict.value, phase.a.signature);
      if phase.a.claim.nonce > I64_MAX then r == Err(OutOfRange) else r.Ok? && r.value.Some?
  {
  }

  /** The conditional upsert of an accepted claim always writes its row, unless the nonce does not fit the column. */
  lemma {:induction false} UpsertAlwaysWrites(h: Hash, steps: seq<Step>, tid: ThreadId)
    requires WorldRun(h, INITIAL, steps).PhaseOf(tid).Inserted?
    ensures
      var w := WorldRun(h, INITIAL, steps);
      var phase := w.PhaseOf(tid);
      && phase.verdict.Ok?
      && var r := UpsertTicket(w.tables.Ticket(phase.a.claim.session), phase.a.claim, phase.verdict.value, phase.a.signature);
         (if phase.a.claim.nonce > I64_MAX then r == Err(OutOfRange) else r.Ok? && r.value.Some?)
  {
    RunWorldOk(h, steps);
    var w := WorldRun(h, INITIAL, steps);
    assert ThreadOk(h, w, tid);
    InsertedWrites(h, SliceOf(w.tables, w.PhaseOf(tid).a.claim.session), w.PhaseOf(tid));
  }
}
