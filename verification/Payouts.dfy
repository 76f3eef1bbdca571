/**
 The gateway and the escrow program together, for one escrow session: from
 reconciliation at open (`gateway/src/routes.rs`) through any admissions to the
 settlement transaction (`gateway/src/settle.rs`) and the payout it makes. The
 settle route is taken step by step, any number of its calls at once, with
 everything else free to happen between two steps.
 */
module Payouts {
  import opened Bytes
  import opened Wrappers
  import opened Claims
  import opened Admission
  import opened Postgres
  import opened Ed25519
  import opened SessionAccounts
  import opened Escrow
  import opened AuditTrail
  import RootBinding

  /** `signed` is Ed25519 verification, the same relation for the gateway and the precompile. */
  datatype Deployment = Deployment(
    hash: Hash, signed: (Pubkey, seq<Byte>, Signature) -> bool, programId: Pubkey, legacyProgramId: Option<Pubkey>)

  /**
   A call of the settle route, at the step it last took, with what it has read and
   how many operations had been committed when it read it.
   */
  datatype Route =
    | Loaded(settler: Pubkey, root: Digest, loadedAt: nat)
    | ReadRecord(settler: Pubkey, root: Digest, loadedAt: nat, record: SessionRecord, readAt: nat)
    | Confirmed(settler: Pubkey, root: Digest, loadedAt: nat, record: SessionRecord, readAt: nat)
    | Marked(settler: Pubkey, root: Digest, loadedAt: nat, record: SessionRecord, readAt: nat, markedAt: nat)
  {
    predicate OnChainDone() {
      Confirmed? || Marked?
    }
  }

  /** `ops` is every operation committed at the gateway; `clock` is the chain's. */
  datatype System = System(clock: I64, ops: seq<Op>, escrow: State, routes: map<nat, Route>) {
    function Store(): Store {
      StoreRun(map[], ops)
    }

    predicate Tracked() {
      escrow.key in Store()
    }

    function Record(): SessionRecord
      requires Tracked()
    {
      Store()[escrow.key]
    }

    function Tables(h: Hash): Tables {
      TableRun(h, EMPTY_TABLES, ops)
    }

    function With(op: Op): System {
      this.(ops := ops + [op])
    }

    function At(id: nat, r: Route): System {
      this.(routes := routes[id := r])
    }

    /** The route has returned an error. */
    function Ends(id: nat): System {
      this.(routes := routes - {id})
    }
  }

  datatype Event =
    | Tick(to: I64)
    | OnChain(action: Action)
    | OpenUnverified(terms: SessionRecord)
    | OpenVerified(terms: SessionRecord, answer: Fetched)
    | Reconcile(session: Pubkey, answer: Fetched)
    | VerifyClaim(claim: Claim, signature: Signature, now: I64)
    | LoadLeaves(id: nat, settler: Pubkey)
    | GetRecord(id: nat)
    | Submit(id: nat)
    | MarkLocally(id: nat)

  function ClaimedOf(r: SessionRecord): ClaimedSession {
    ClaimedSession(r.agent, r.provider, r.mint, r.depositedTotal, r.expiresAt)
  }

  /** The RPC may fail, but what it reports about our escrow's address is what the program stored there. */
  predicate Honest(d: Deployment, w: System, session: Pubkey, answer: Fetched) {
    session == w.escrow.key && !answer.Unreachable? ==>
      answer == (if w.escrow.session.None? then Missing else Found(d.programId, Serialize(w.escrow.session.value)))
  }

  predicate Reconciles(d: Deployment, w: System, session: Pubkey, r: SessionRecord, answer: Fetched) {
    Honest(d, w, session, answer) && VerifyOnChainSession(answer, d.programId, d.legacyProgramId, ClaimedOf(r)).Ok?
  }

  /** The fields the open route fills in; everything else starts blank. */
  function FromTerms(terms: SessionRecord, chainVerified: bool): SessionRecord {
    NewRecord(terms.session, terms.agent, terms.provider, terms.mint, terms.depositedTotal, terms.expiresAt, chainVerified)
  }

  /** A call to the store: it takes effect if it commits. */
  function Calls(d: Deployment, w: System, op: Op): System {
    if Commits(d.hash, w.Tables(d.hash), op) then w.With(op) else w
  }

  datatype RouteError = PrecompileFailed | Refused(error: ProgramError)

  /** The transaction of one settlement: the precompile over the record's retained claim, then the program. */
  function Submission(d: Deployment, w: System, settler: Pubkey, root: Digest, record: SessionRecord): (State, Result<(), RouteError>)
    requires record.highestClaim.Some?
  {
    var highest := record.highestClaim.value;
    var data := InstructionData(record.agent, highest.signature, MessageOf(highest.claim));
    var checked := PrecompileChecks(data);
    if checked.None? || !d.signed(checked.value.key, checked.value.message, checked.value.signature)
    then (w.escrow, Err(PrecompileFailed))
    else
      var (escrow', r) := SettleSession(d.hash, w.escrow, w.clock, SettlementOf(settler, root, record));
      if r.Err? then (w.escrow, Err(Refused(r.error))) else (escrow', Ok(()))
  }

  function SettlementOf(settler: Pubkey, root: Digest, record: SessionRecord): SettleArgs
    requires record.highestClaim.Some?
  {
    var highest := record.highestClaim.value;
    var data := InstructionData(record.agent, highest.signature, MessageOf(highest.claim));
    SettleArgs(settler, highest.claim.cumulativeAmount, highest.claim.nonce, highest.claim.expiresAt, root,
               Some(Instruction(ED25519_PROGRAM_ID, data)))
  }

  /** First step of the settle route: the leaves, and so the root, as the log now stands. */
  function Load(d: Deployment, w: System, id: nat, settler: Pubkey): System {
    if id in w.routes then w
    else w.At(id, Loaded(settler, EvidenceRoot(d.hash, w.Tables(d.hash), w.escrow.key), |w.ops|))
  }

  /** Second: the record, which must be unsettled and hold a claim. */
  function Get(w: System, id: nat): System {
    if id !in w.routes || !w.routes[id].Loaded? then w
    else if !w.Tracked() || w.Record().isSettled || w.Record().highestClaim.None? then w.Ends(id)
    else
      var r := w.routes[id];
      w.At(id, ReadRecord(r.settler, r.root, r.loadedAt, w.Record(), |w.ops|))
  }

  /** Third: the transaction. One that fails changes nothing. */
  function SubmitRoute(d: Deployment, w: System, id: nat): System {
    if !Submits(w, id) then w
    else if Attempted(d, w, id).1.Err? then w.Ends(id)
    else w.(escrow := Attempted(d, w, id).0).At(id, ConfirmedOf(w.routes[id]))
  }

  /** The call has read a record and its claim. */
  predicate Submits(w: System, id: nat) {
    id in w.routes && w.routes[id].ReadRecord? && w.routes[id].record.highestClaim.Some?
  }

  function Attempted(d: Deployment, w: System, id: nat): (State, Result<(), RouteError>)
    requires Submits(w, id)
  {
    Submission(d, w, w.routes[id].settler, w.routes[id].root, w.routes[id].record)
  }

  function ConfirmedOf(r: Route): Route
    requires r.ReadRecord?
  {
    Confirmed(r.settler, r.root, r.loadedAt, r.record, r.readAt)
  }

  /** Last, and only after the chain confirms: the local flag. */
  function MarkRoute(w: System, id: nat): System {
    if id !in w.routes || !w.routes[id].Confirmed? then w
    else
      var r := w.routes[id];
      w.At(id, Marked(r.settler, r.root, r.loadedAt, r.record, r.readAt, |w.ops|)).With(MarkSettled(w.escrow.key))
  }

  function Next(d: Deployment, w: System, e: Event): System {
    match e
    case Tick(to) => if to >= w.clock then w.(clock := to) else w
    case OnChain(action) =>
      if PrecompilePasses(d.signed, action) then w.(escrow := Act(d.hash, w.escrow, w.clock, action).0) else w
    case OpenUnverified(terms) => Calls(d, w, Op.Open(FromTerms(terms, false)))
    case OpenVerified(terms, answer) =>
      if Reconciles(d, w, terms.session, terms, answer) then Calls(d, w, Op.Open(FromTerms(terms, true))) else w
    case Reconcile(session, answer) =>
      if session in w.Store() && Reconciles(d, w, session, w.Store()[session], answer)
      then Calls(d, w, MarkChainVerified(session)) else w
    case VerifyClaim(claim, signature, now) =>
      if !claim.IsExpired(now) && claim.session in w.Store() && d.signed(w.Store()[claim.session].agent, MessageOf(claim), signature)
      then Calls(d, w, Admit(claim, signature, now)) else w
    case LoadLeaves(id, settler) => Load(d, w, id, settler)
    case GetRecord(id) => Get(w, id)
    case Submit(id) => SubmitRoute(d, w, id)
    case MarkLocally(id) => MarkRoute(w, id)
  }

  function Run(d: Deployment, w: System, events: seq<Event>): System
    decreases |events|
  {
    if events == [] then w else Next(d, Run(d, w, events[..|events| - 1]), events[|events| - 1])
  }

  /** Nothing has happened yet, on chain or at the gateway. */
  predicate Initial(w: System) {
    w.ops == [] && Unopened(w.escrow) && w.routes == map[]
  }

  // ---- which calls get through ----

  /** A settle call reads a record exactly if the session is tracked, unsettled and holds a claim, and it is that record. */
  lemma ReadsExactly(w: System, id: nat)
    requires id in w.routes && w.routes[id].Loaded?
    ensures
      var w' := Get(w, id);
      var ready := w.Tracked() && !w.Record().isSettled && w.Record().highestClaim.Some?;
      && (ready <==> id in w'.routes)
      && (ready ==> w'.routes[id].ReadRecord? && w'.routes[id].record == w.Record() && w'.routes[id].settler == w.routes[id].settler)
      && w'.ops == w.ops && w'.escrow == w.escrow
  {
  }

  /** Time passes on chain as far as it likes, never backwards, and moves nothing else. */
  lemma ClockOnlyAdvances(d: Deployment, w: System, e: Event)
    ensures e.Tick? && w.clock <= e.to ==> Next(d, w, e) == w.(clock := e.to)
    ensures w.clock <= Next(d, w, e).clock
    ensures !e.Tick? ==> Next(d, w, e).clock == w.clock
  {
  }

  /** Opening a session nobody has opened marks it verified exactly when it was reconciled; reconciling one later marks it. */
  lemma ReconciledIsMarked(d: Deployment, w: System, terms: SessionRecord, answer: Fetched)
    ensures
      var (plain, verified) := (Next(d, w, OpenUnverified(terms)), Next(d, w, OpenVerified(terms, answer)));
      var (s, reconciles) := (terms.session, Reconciles(d, w, terms.session, terms, answer));
      && (s !in w.Store() ==>
            && (Commits(d.hash, w.Tables(d.hash), Op.Open(FromTerms(terms, false))) ==>
                  s in plain.Store() && plain.Store()[s] == NewRecord(s, terms.agent, terms.provider, terms.mint, terms.depositedTotal, terms.expiresAt, false))
            && (Commits(d.hash, w.Tables(d.hash), Op.Open(FromTerms(terms, true))) && reconciles ==>
                  s in verified.Store() && verified.Store()[s] == NewRecord(s, terms.agent, terms.provider, terms.mint, terms.depositedTotal, terms.expiresAt, true)))
      && (!reconciles ==> verified == w)
  {
    CallsAppends(d, w, Op.Open(FromTerms(terms, false)));
    CallsAppends(d, w, Op.Open(FromTerms(terms, true)));
  }

  lemma LateReconciliationMarks(d: Deployment, w: System, session: Pubkey, answer: Fetched)
    requires session in w.Store() && Reconciles(d, w, session, w.Store()[session], answer)
    requires Commits(d.hash, w.Tables(d.hash), MarkChainVerified(session))
    ensures
      var store := Next(d, w, Reconcile(session, answer)).Store();
      session in store && store[session] == w.Store()[session].(chainVerified := true)
  {
    CallsAppends(d, w, MarkChainVerified(session));
  }

  lemma CallsAppends(d: Deployment, w: System, op: Op)
    ensures Commits(d.hash, w.Tables(d.hash), op) ==> Calls(d, w, op).Store() == StoreStep(w.Store(), op).0
    ensures !Commits(d.hash, w.Tables(d.hash), op) ==> Calls(d, w, op) == w
  {
    assert (w.ops + [op])[..|w.ops|] == w.ops;
  }

  /** A claim reaches the store only in time, for a tracked session, and signed by that session's agent. */
  lemma OnlyValidClaimsReachStore(d: Deployment, w: System, claim: Claim, signature: Signature, now: I64)
    requires Next(d, w, VerifyClaim(claim, signature, now)) != w
    ensures now <= claim.expiresAt + 30
    ensures claim.session in w.Store() && d.signed(w.Store()[claim.session].agent, MessageOf(claim), signature)
    ensures Next(d, w, VerifyClaim(claim, signature, now)) == w.With(Admit(claim, signature, now))
  {
    ExpiredExactly(claim, now);
  }

  // ---- what ties the two sides together ----

  predicate TermsOnChain(w: System, r: SessionRecord) {
    w.escrow.session.Some? &&
    var s := w.escrow.session.value;
    ClaimedOf(r) == ClaimedSession(s.agent, s.provider, s.mint, s.depositedTotal, s.expiresAt)
  }

  /** A verified record repeats the terms the program holds. */
  predicate SameTerms(w: System) {
    w.Tracked() && w.Record().chainVerified ==> TermsOnChain(w, w.Record())
  }

  predicate ClaimSigned(d: Deployment, r: SessionRecord) {
    r.highestClaim.Some? ==> d.signed(r.agent, MessageOf(r.highestClaim.value.claim), r.highestClaim.value.signature)
  }

  /** An unsettled session is refunded only after its expiry. */
  predicate RefundsComeLate(w: System) {
    w.escrow.session.Some? && w.escrow.session.value.refundedTotal > 0 && !w.escrow.session.value.isSettled ==>
      w.clock > w.escrow.session.value.expiresAt + CLOCK_SKEW_TOLERANCE_SECS
  }

  predicate Linked(d: Deployment, w: System) {
    FreshOpens(w.ops) && Balanced(w.escrow) && SameTerms(w) && (w.Tracked() ==> ClaimSigned(d, w.Record())) && RefundsComeLate(w)
  }

  /** The tables, read back, are the store. */
  ghost predicate Backed(d: Deployment, w: System) {
    TablesOk(d.hash, w.Tables(d.hash)) && Readable(w.Tables(d.hash)) && AsStore(w.Tables(d.hash)) == w.Store()
  }

  /** What a route has read is what was committed when it read it. */
  predicate RootRead(d: Deployment, w: System, r: Route) {
    r.loadedAt <= |w.ops| && r.root == EvidenceRoot(d.hash, TableRun(d.hash, EMPTY_TABLES, w.ops[..r.loadedAt]), w.escrow.key)
  }

  predicate RecordRead(d: Deployment, w: System, r: Route)
    requires !r.Loaded?
  {
    var key := w.escrow.key;
    && r.loadedAt <= r.readAt <= |w.ops|
    && key in StoreRun(map[], w.ops[..r.readAt]) && r.record == StoreRun(map[], w.ops[..r.readAt])[key]
    && key in TableRun(d.hash, EMPTY_TABLES, w.ops[..r.readAt]).sessions
    && r.record.highestClaim.Some? && ClaimSigned(d, r.record)
    && (r.record.chainVerified ==> TermsOnChain(w, r.record))
  }

  /** The chain has paid at least what the route read. */
  predicate PaidOut(w: System, r: Route)
    requires !r.Loaded? && r.record.highestClaim.Some?
  {
    w.escrow.session.Some? && w.escrow.session.value.isSettled
    && w.escrow.session.value.cumulativeSettled >= r.record.highestClaim.value.claim.cumulativeAmount
  }

  predicate RouteOk(d: Deployment, w: System, r: Route) {
    && RootRead(d, w, r)
    && (!r.Loaded? ==> RecordRead(d, w, r))
    && (r.OnChainDone() ==> PaidOut(w, r))
    && (r.Marked? ==> r.readAt <= r.markedAt < |w.ops| && w.ops[r.markedAt] == MarkSettled(w.escrow.key))
  }

  predicate RoutesOk(d: Deployment, w: System) {
    forall id :: id in w.routes ==> RouteOk(d, w, w.routes[id])
  }

  // ---- what one event keeps ----

  lemma WithSteps(d: Deployment, w: System, op: Op)
    ensures w.With(op).Store() == StoreStep(w.Store(), op).0
    ensures w.With(op).Tables(d.hash) == TableStep(d.hash, w.Tables(d.hash), op)
  {
    assert w.With(op).ops[..|w.ops|] == w.ops;
  }

  /** What a successful call to the program leaves alone. */
  lemma ActKeepsTerms(h: Hash, st: State, now: I64, action: Action)
    ensures Act(h, st, now, action).0.key == st.key
    ensures st.session.Some? ==>
      && Act(h, st, now, action).0.session.Some?
      && var (s, s') := (st.session.value, Act(h, st, now, action).0.session.value);
         && s' == s.(cumulativeSettled := s'.cumulativeSettled, refundedTotal := s'.refundedTotal, isSettled := s'.isSettled)
         && s'.cumulativeSettled >= s.cumulativeSettled && (s.isSettled ==> s'.isSettled)
  {
  }

  lemma OnChainKeepsLinked(d: Deployment, w: System, action: Action)
    requires Linked(d, w)
    ensures Linked(d, w.(escrow := Act(d.hash, w.escrow, w.clock, action).0))
  {
    ActKeepsBalanced(d.hash, w.escrow, w.clock, action);
    ActKeepsTerms(d.hash, w.escrow, w.clock, action);
  }

  /** An operation the gateway may send to its store. */
  predicate Sendable(d: Deployment, w: System, op: Op) {
    match op
    case Open(record) => IsFresh(record) && (record.chainVerified && record.session == w.escrow.key ==> TermsOnChain(w, record))
    case Admit(claim, signature, _) => claim.session in w.Store() ==> d.signed(w.Store()[claim.session].agent, MessageOf(claim), signature)
    case MarkChainVerified(s) => s == w.escrow.key && w.Tracked() ==> TermsOnChain(w, w.Record())
    case MarkSettled(_) => true
  }

  lemma WithKeepsLinked(d: Deployment, w: System, op: Op)
    requires Linked(d, w) && Sendable(d, w, op)
    ensures Linked(d, w.With(op))
  {
    WithSteps(d, w, op);
  }

  lemma WithKeepsBacked(d: Deployment, w: System, op: Op)
    requires Backed(d, w) && Commits(d.hash, w.Tables(d.hash), op) && (op.Open? ==> IsFresh(op.record))
    ensures Backed(d, w.With(op))
  {
    WithSteps(d, w, op);
    CommitRefinesStore(d.hash, w.Tables(d.hash), op);
    TableStepOk(d.hash, w.Tables(d.hash), op);
  }

  /** Later operations and later program calls leave what a route has read, and been paid, standing. */
  lemma RouteStays(d: Deployment, w: System, w': System, r: Route)
    requires RouteOk(d, w, r)
    requires |w.ops| <= |w'.ops| && w'.ops[..|w.ops|] == w.ops && w'.escrow.key == w.escrow.key
    requires w.escrow.session.Some? ==>
      && w'.escrow.session.Some?
      && var (s, s') := (w.escrow.session.value, w'.escrow.session.value);
         && s' == s.(cumulativeSettled := s'.cumulativeSettled, refundedTotal := s'.refundedTotal, isSettled := s'.isSettled)
         && s'.cumulativeSettled >= s.cumulativeSettled && (s.isSettled ==> s'.isSettled)
    ensures RouteOk(d, w', r)
  {
    assert w'.ops[..r.loadedAt] == w.ops[..r.loadedAt];
    if !r.Loaded? {
      assert w'.ops[..r.readAt] == w.ops[..r.readAt];
    }
    if r.Marked? {
      assert w'.ops[r.markedAt] == w.ops[r.markedAt];
    }
  }

  /** Everything above, together. */
  ghost predicate Sound(d: Deployment, w: System) {
    Linked(d, w) && Backed(d, w) && RoutesOk(d, w)
  }

  lemma WithKeepsRoutes(d: Deployment, w: System, op: Op)
    requires RoutesOk(d, w)
    ensures RoutesOk(d, w.With(op))
  {
    forall id | id in w.routes ensures RouteOk(d, w.With(op), w.routes[id]) {
      RouteStays(d, w, w.With(op), w.routes[id]);
    }
  }

  lemma CallsKeepOk(d: Deployment, w: System, op: Op)
    requires Sound(d, w) && Sendable(d, w, op)
    ensures Sound(d, Calls(d, w, op))
  {
    if Commits(d.hash, w.Tables(d.hash), op) {
      WithKeepsLinked(d, w, op);
      WithKeepsBacked(d, w, op);
      WithKeepsRoutes(d, w, op);
    }
  }

  lemma OnChainKeepsOk(d: Deployment, w: System, action: Action)
    requires Sound(d, w)
    ensures Sound(d, w.(escrow := Act(d.hash, w.escrow, w.clock, action).0))
  {
    var w' := w.(escrow := Act(d.hash, w.escrow, w.clock, action).0);
    OnChainKeepsLinked(d, w, action);
    ActKeepsTerms(d.hash, w.escrow, w.clock, action);
    forall id | id in w.routes ensures RouteOk(d, w', w.routes[id]) {
      RouteStays(d, w, w', w.routes[id]);
    }
  }

  /** One route moving on leaves the rest of the system alone. */
  lemma AtKeepsOk(d: Deployment, w: System, id: nat, r: Route)
    requires Sound(d, w) && RouteOk(d, w, r)
    ensures Sound(d, w.At(id, r))
  {
    forall k | k in w.At(id, r).routes ensures RouteOk(d, w.At(id, r), w.At(id, r).routes[k]) {
      RouteStays(d, w, w.At(id, r), w.At(id, r).routes[k]);
    }
  }

  lemma EndsKeepsOk(d: Deployment, w: System, id: nat)
    requires Sound(d, w)
    ensures Sound(d, w.Ends(id))
  {
    forall k | k in w.Ends(id).routes ensures RouteOk(d, w.Ends(id), w.routes[k]) {
      RouteStays(d, w, w.Ends(id), w.routes[k]);
    }
  }

  lemma ReconciledTerms(d: Deployment, w: System, session: Pubkey, r: SessionRecord, answer: Fetched)
    requires Reconciles(d, w, session, r, answer) && session == w.escrow.key
    ensures TermsOnChain(w, r) && !w.escrow.session.value.isSettled
  {
    ReconcilesExactly(answer, d.programId, d.legacyProgramId, ClaimedOf(r),
                      VerifyOnChainSession(answer, d.programId, d.legacyProgramId, ClaimedOf(r)).value);
    ParseInvertsSerialize(w.escrow.session.value);
  }

  lemma FreshIsSendable(d: Deployment, w: System, terms: SessionRecord, chainVerified: bool)
    requires chainVerified && terms.session == w.escrow.key ==> TermsOnChain(w, terms)
    ensures Sendable(d, w, Op.Open(FromTerms(terms, chainVerified)))
  {
  }

  lemma RootReadNow(d: Deployment, w: System, settler: Pubkey)
    ensures RouteOk(d, w, Loaded(settler, EvidenceRoot(d.hash, w.Tables(d.hash), w.escrow.key), |w.ops|))
  {
    assert w.ops[..|w.ops|] == w.ops;
  }

  lemma LoadKeepsOk(d: Deployment, w: System, id: nat, settler: Pubkey)
    requires Sound(d, w)
    ensures Sound(d, Load(d, w, id, settler))
  {
    if id !in w.routes {
      RootReadNow(d, w, settler);
      AtKeepsOk(d, w, id, Loaded(settler, EvidenceRoot(d.hash, w.Tables(d.hash), w.escrow.key), |w.ops|));
    }
  }

  lemma RecordReadNow(d: Deployment, w: System, r: Route)
    requires Sound(d, w) && RouteOk(d, w, r) && r.Loaded? && w.Tracked() && w.Record().highestClaim.Some?
    ensures RouteOk(d, w, ReadRecord(r.settler, r.root, r.loadedAt, w.Record(), |w.ops|))
  {
    assert w.ops[..|w.ops|] == w.ops;
    assert w.escrow.key in AsStore(w.Tables(d.hash));
  }

  lemma GetKeepsOk(d: Deployment, w: System, id: nat)
    requires Sound(d, w)
    ensures Sound(d, Get(w, id))
  {
    if id in w.routes && w.routes[id].Loaded? {
      if Get(w, id) == w.Ends(id) {
        EndsKeepsOk(d, w, id);
      } else {
        assert RouteOk(d, w, w.routes[id]);
        RecordReadNow(d, w, w.routes[id]);
        AtKeepsOk(d, w, id, ReadRecord(w.routes[id].settler, w.routes[id].root, w.routes[id].loadedAt, w.Record(), |w.ops|));
      }
    }
  }

  /** A successful submission is a successful call of the program, paying up to the record's claim. */
  lemma SubmissionIsAct(d: Deployment, w: System, settler: Pubkey, root: Digest, record: SessionRecord)
    requires record.highestClaim.Some? && Submission(d, w, settler, root, record).1.Ok?
    ensures Submission(d, w, settler, root, record).0 == Act(d.hash, w.escrow, w.clock, DoSettle(SettlementOf(settler, root, record))).0
    ensures
      var escrow' := Submission(d, w, settler, root, record).0;
      && escrow'.session.Some? && escrow'.session.value.isSettled
      && escrow'.session.value.cumulativeSettled == record.highestClaim.value.claim.cumulativeAmount
  {
  }

  lemma ConfirmKeepsOk(d: Deployment, w: System, id: nat)
    requires Sound(d, w) && Submits(w, id) && Attempted(d, w, id).1.Ok?
    ensures Sound(d, w.(escrow := Attempted(d, w, id).0).At(id, ConfirmedOf(w.routes[id])))
  {
    var r := w.routes[id];
    var action := DoSettle(SettlementOf(r.settler, r.root, r.record));
    var w' := w.(escrow := Act(d.hash, w.escrow, w.clock, action).0);
    SubmissionIsAct(d, w, r.settler, r.root, r.record);
    OnChainKeepsOk(d, w, action);
    assert RouteOk(d, w', r);
    AtKeepsOk(d, w', id, ConfirmedOf(r));
  }

  lemma SubmitKeepsOk(d: Deployment, w: System, id: nat)
    requires Sound(d, w)
    ensures Sound(d, Next(d, w, Submit(id)))
  {
    if Submits(w, id) {
      if Attempted(d, w, id).1.Ok? {
        ConfirmKeepsOk(d, w, id);
      } else {
        EndsKeepsOk(d, w, id);
      }
    }
  }

  lemma MarkKeepsOk(d: Deployment, w: System, id: nat)
    requires Sound(d, w)
    ensures Sound(d, Next(d, w, MarkLocally(id)))
  {
    if id in w.routes && w.routes[id].Confirmed? {
      var r := w.routes[id];
      var op := MarkSettled(w.escrow.key);
      var marked := Marked(r.settler, r.root, r.loadedAt, r.record, r.readAt, |w.ops|);
      assert RouteOk(d, w, r);
      CallsKeepOk(d, w, op);
      RouteStays(d, w, w.With(op), r);
      AtKeepsOk(d, w.With(op), id, marked);
      assert w.At(id, marked).With(op) == w.With(op).At(id, marked);
    }
  }

  /** Chain events. */
  lemma ChainEventKeepsOk(d: Deployment, w: System, e: Event)
    requires Sound(d, w) && (e.Tick? || e.OnChain?)
    ensures Sound(d, Next(d, w, e))
  {
    match e
    case Tick(to) => TickKeepsOk(d, w, to);
    case OnChain(action) =>
      if PrecompilePasses(d.signed, action) {
        OnChainKeepsOk(d, w, action);
      }
  }

  predicate IsStoreEvent(e: Event) {
    e.OpenUnverified? || e.OpenVerified? || e.Reconcile? || e.VerifyClaim?
  }

  /** Every store event sends the store nothing, or one operation it may send. */
  lemma StoreEventSends(d: Deployment, w: System, e: Event) returns (op: Option<Op>)
    requires IsStoreEvent(e)
    ensures op.None? ==> Next(d, w, e) == w
    ensures op.Some? ==> Next(d, w, e) == Calls(d, w, op.value) && Sendable(d, w, op.value)
  {
    match e
    case OpenUnverified(terms) =>
      FreshIsSendable(d, w, terms, false);
      op := Some(Op.Open(FromTerms(terms, false)));
    case OpenVerified(terms, answer) =>
      op := OpenSends(d, w, terms, answer);
    case Reconcile(session, answer) =>
      op := ReconcileSends(d, w, session, answer);
    case VerifyClaim(claim, signature, now) =>
      var passes := !claim.IsExpired(now) && claim.session in w.Store() && d.signed(w.Store()[claim.session].agent, MessageOf(claim), signature);
      op := if passes then Some(Admit(claim, signature, now)) else None;
  }

  lemma OpenSends(d: Deployment, w: System, terms: SessionRecord, answer: Fetched) returns (op: Option<Op>)
    ensures op.None? ==> Next(d, w, OpenVerified(terms, answer)) == w
    ensures op.Some? ==> Next(d, w, OpenVerified(terms, answer)) == Calls(d, w, op.value) && Sendable(d, w, op.value)
  {
    if Reconciles(d, w, terms.session, terms, answer) {
      if terms.session == w.escrow.key {
        ReconciledTerms(d, w, terms.session, terms, answer);
      }
      FreshIsSendable(d, w, terms, true);
      op := Some(Op.Open(FromTerms(terms, true)));
    } else {
      op := None;
    }
  }

  lemma ReconcileSends(d: Deployment, w: System, session: Pubkey, answer: Fetched) returns (op: Option<Op>)
    ensures op.None? ==> Next(d, w, Reconcile(session, answer)) == w
    ensures op.Some? ==> Next(d, w, Reconcile(session, answer)) == Calls(d, w, op.value) && Sendable(d, w, op.value)
  {
    if session in w.Store() && Reconciles(d, w, session, w.Store()[session], answer) {
      if session == w.escrow.key {
        ReconciledTerms(d, w, session, w.Store()[session], answer);
      }
      op := Some(MarkChainVerified(session));
    } else {
      op := None;
    }
  }

  lemma StoreEventKeepsOk(d: Deployment, w: System, e: Event)
    requires Sound(d, w) && IsStoreEvent(e)
    ensures Sound(d, Next(d, w, e))
  {
    var op := StoreEventSends(d, w, e);
    if op.Some? {
      CallsKeepOk(d, w, op.value);
    }
  }

  lemma LoadIsNext(d: Deployment, w: System, id: nat, settler: Pubkey)
    ensures Next(d, w, LoadLeaves(id, settler)) == Load(d, w, id, settler)
  {
  }

  lemma GetIsNext(d: Deployment, w: System, id: nat)
    ensures Next(d, w, GetRecord(id)) == Get(w, id)
  {
  }

  lemma SoundAs(d: Deployment, w: System, w': System)
    requires Sound(d, w) && w' == w
    ensures Sound(d, w')
  {
  }

  /** The first two steps of the settle route read. */
  lemma ReadEventKeepsOk(d: Deployment, w: System, e: Event)
    requires Sound(d, w) && (e.LoadLeaves? || e.GetRecord?)
    ensures Sound(d, Next(d, w, e))
  {
    if e.LoadLeaves? {
      LoadKeepsOk(d, w, e.id, e.settler);
      LoadIsNext(d, w, e.id, e.settler);
      SoundAs(d, Load(d, w, e.id, e.settler), Next(d, w, e));
    } else {
      GetKeepsOk(d, w, e.id);
      GetIsNext(d, w, e.id);
      SoundAs(d, Get(w, e.id), Next(d, w, e));
    }
  }

  /** The last two write, to the chain and to the store. */
  lemma WriteEventKeepsOk(d: Deployment, w: System, e: Event)
    requires Sound(d, w) && (e.Submit? || e.MarkLocally?)
    ensures Sound(d, Next(d, w, e))
  {
    match e
    case Submit(id) => SubmitKeepsOk(d, w, id);
    case MarkLocally(id) => MarkKeepsOk(d, w, id);
  }

  lemma NextKeepsOk(d: Deployment, w: System, e: Event)
    requires Sound(d, w)
    ensures Sound(d, Next(d, w, e))
  {
    if e.Tick? || e.OnChain? {
      ChainEventKeepsOk(d, w, e);
    } else if IsStoreEvent(e) {
      StoreEventKeepsOk(d, w, e);
    } else if e.LoadLeaves? || e.GetRecord? {
      ReadEventKeepsOk(d, w, e);
    } else {
      WriteEventKeepsOk(d, w, e);
    }
  }

  lemma TickKeepsOk(d: Deployment, w: System, to: I64)
    requires Sound(d, w)
    ensures Sound(d, Next(d, w, Tick(to)))
  {
    var w' := Next(d, w, Tick(to));
    forall id | id in w'.routes ensures RouteOk(d, w', w'.routes[id]) {
      RouteStays(d, w, w', w'.routes[id]);
    }
  }

  /** In every composed run everything above holds, however the settle route's steps fall between the others. */
  lemma {:induction false} RunsStayLinked(d: Deployment, w: System, events: seq<Event>)
    requires Initial(w)
    ensures Sound(d, Run(d, w, events))
    decreases |events|
  {
    if events == [] {
      assert AsStore(EMPTY_TABLES) == map[];
    } else {
      RunsStayLinked(d, w, events[..|events| - 1]);
      NextKeepsOk(d, Run(d, w, events[..|events| - 1]), events[|events| - 1]);
    }
  }

  // ---- the payout ----

  /** The clock has not passed an expiry by more than the skew, and the sum is representable. */
  predicate InTime(now: I64, expiresAt: I64) {
    expiresAt <= I64_MAX - CLOCK_SKEW_TOLERANCE_SECS && now <= expiresAt + CLOCK_SKEW_TOLERANCE_SECS
  }

  /** What a caller of the settle route can read off the chain beforehand. */
  predicate Settleable(w: System, settler: Pubkey, claim: Claim) {
    && w.escrow.session.Some?
    && (Some(settler) == w.escrow.session.value.settlementAuthority || settler == w.escrow.session.value.provider)
    && InTime(w.clock, w.escrow.session.value.expiresAt)
    && InTime(w.clock, claim.expiresAt)
    && w.escrow.session.value.refundedTotal == 0
    && w.escrow.session.value.cumulativeSettled < claim.cumulativeAmount
  }

  /** Some call of the settle route stands before its transaction, for a record verified on chain. */
  predicate ReadyToSubmit(w: System, id: nat) {
    Submits(w, id) && w.routes[id].record.chainVerified
  }

  /** The record a route has read keeps its claim, its mark and its charges together. */
  lemma ReadIsCharged(d: Deployment, w: System, r: Route)
    requires Sound(d, w) && RouteOk(d, w, r) && !r.Loaded?
    ensures RecordOk(w.escrow.key, r.record)
    ensures Charged(map[], w.ops[..r.readAt], w.escrow.key) == r.record.cumulativeAccepted
  {
    var read := w.ops[..r.readAt];
    assert forall i :: 0 <= i < |read| ==> read[i] == w.ops[i];
    MarkIsSumOfCharges(read, w.escrow.key);
  }

  lemma SubmissionExactly(d: Deployment, w: System, r: Route)
    requires Linked(d, w) && !r.Loaded? && RecordRead(d, w, r) && RecordOk(w.escrow.key, r.record) && r.record.chainVerified
    ensures Submission(d, w, r.settler, r.root, r.record).1.Ok? <==> Settleable(w, r.settler, r.record.highestClaim.value.claim)
  {
    ClaimInstructionAccepted(r.record.agent, r.record.highestClaim.value.claim, r.record.highestClaim.value.signature);
  }

  /**
   End to end: after any run of both sides, the transaction of a settle call over the
   claim it has read, for a session verified on chain, succeeds exactly when the
   settler is entitled, neither expiry has passed and nobody has already refunded or
   settled as much, whatever happened since it read.
   */
  lemma {:induction false} SettlesExactlyWhen(d: Deployment, w0: System, events: seq<Event>, id: nat)
    requires Initial(w0) && ReadyToSubmit(Run(d, w0, events), id)
    ensures
      var w := Run(d, w0, events);
      Attempted(d, w, id).1.Ok? <==> Settleable(w, w.routes[id].settler, w.routes[id].record.highestClaim.value.claim)
  {
    var w := Run(d, w0, events);
    RunsStayLinked(d, w0, events);
    ReadIsCharged(d, w, w.routes[id]);
    SubmissionExactly(d, w, w.routes[id]);
  }

  /** The balances after a settlement of everything the record was charged. */
  predicate PaysExactly(before: State, after: State, sum: nat, deposit: nat, root: Digest) {
    && after.session.Some? && sum <= deposit
    && after.paidProvider == sum
    && after.providerTokens - before.providerTokens == sum - before.paidProvider
    && after.vault == deposit - sum + after.donated
    && after.record.Some? && after.record.value.settledAmount == sum && after.record.value.merkleRoot == root
  }

  lemma SubmissionPays(d: Deployment, w: System, r: Route)
    requires Linked(d, w) && !r.Loaded? && RecordRead(d, w, r) && RecordOk(w.escrow.key, r.record) && r.record.chainVerified
    requires Submission(d, w, r.settler, r.root, r.record).1.Ok?
    ensures Balanced(Submission(d, w, r.settler, r.root, r.record).0)
    ensures PaysExactly(w.escrow, Submission(d, w, r.settler, r.root, r.record).0, r.record.cumulativeAccepted, r.record.depositedTotal, r.root)
    ensures
      var s := Submission(d, w, r.settler, r.root, r.record).0.session.value;
      && s.provider == r.record.provider && s.agent == r.record.agent && s.isSettled && s.refundedTotal == 0
      && s.depositedTotal == r.record.depositedTotal && s.expiresAt <= I64_MAX - CLOCK_SKEW_TOLERANCE_SECS
  {
    SubmissionIsAct(d, w, r.settler, r.root, r.record);
    SubmissionExactly(d, w, r);
    ActKeepsBalanced(d.hash, w.escrow, w.clock, DoSettle(SettlementOf(r.settler, r.root, r.record)));
    ActKeepsTerms(d.hash, w.escrow, w.clock, DoSettle(SettlementOf(r.settler, r.root, r.record)));
  }

  /**
   ... and then the provider has been paid exactly the sum of the deltas admitted
   when the claim was read, which is the sum of all deltas admitted by now exactly if
   none was admitted since; and the receipt holds the root of the log as it stood when
   the leaves were loaded.
   */
  lemma {:induction false} PayoutIsExact(d: Deployment, w0: System, events: seq<Event>, id: nat)
    requires Initial(w0) && ReadyToSubmit(Run(d, w0, events), id)
    requires Attempted(d, Run(d, w0, events), id).1.Ok?
    ensures
      var w := Run(d, w0, events);
      var (r, key, escrow') := (w.routes[id], w.escrow.key, Attempted(d, w, id).0);
      && r.loadedAt <= r.readAt <= |w.ops|
      && PaysExactly(w.escrow, escrow', Charged(map[], w.ops[..r.readAt], key), r.record.depositedTotal,
                     EvidenceRoot(d.hash, TableRun(d.hash, EMPTY_TABLES, w.ops[..r.loadedAt]), key))
      && (escrow'.paidProvider == Charged(map[], w.ops, key) <==> NoneAdmitted(w.ops, r.readAt, |w.ops|, key))
      && escrow'.session.value.provider == r.record.provider && escrow'.session.value.agent == r.record.agent
  {
    var w := Run(d, w0, events);
    RunsStayLinked(d, w0, events);
    ReadIsCharged(d, w, w.routes[id]);
    SubmissionPays(d, w, w.routes[id]);
    assert w.ops[..|w.ops|] == w.ops;
    ChargedSince(w.ops, w.routes[id].readAt, |w.ops|, w.escrow.key);
  }

  lemma RefundOfRest(st: State, later: I64, deposit: nat, sum: nat)
    requires Balanced(st) && st.session.Some? && st.session.value.isSettled && st.session.value.refundedTotal == 0
    requires st.session.value.depositedTotal == deposit && st.paidProvider == sum
    requires st.session.value.expiresAt <= I64_MAX - CLOCK_SKEW_TOLERANCE_SECS
    ensures
      var (refunded, outcome) := RefundSession(st, later, st.session.value.agent);
      && (outcome.Ok? <==> deposit - sum > 0)
      && (outcome.Ok? ==> refunded.paidAgent == deposit - sum && refunded.agentTokens - st.agentTokens == deposit - sum)
  {
  }

  /** From there the agent's one refund returns exactly the rest of the deposit, if there is any. */
  lemma {:induction false} RefundIsTheRest(d: Deployment, w0: System, events: seq<Event>, id: nat, later: I64)
    requires Initial(w0) && ReadyToSubmit(Run(d, w0, events), id)
    requires Attempted(d, Run(d, w0, events), id).1.Ok?
    ensures
      var w := Run(d, w0, events);
      var (r, escrow') := (w.routes[id], Attempted(d, w, id).0);
      && r.readAt <= |w.ops| && escrow'.session.Some?
      && var rest := r.record.depositedTotal - Charged(map[], w.ops[..r.readAt], w.escrow.key);
         var (refunded, outcome) := RefundSession(escrow', later, escrow'.session.value.agent);
         && (outcome.Ok? <==> rest > 0)
         && (outcome.Ok? ==> refunded.paidAgent == rest && refunded.agentTokens - escrow'.agentTokens == rest)
  {
    var w := Run(d, w0, events);
    RunsStayLinked(d, w0, events);
    ReadIsCharged(d, w, w.routes[id]);
    SubmissionPays(d, w, w.routes[id]);
    RefundOfRest(Attempted(d, w, id).0, later, w.routes[id].record.depositedTotal, w.routes[id].record.cumulativeAccepted);
  }

  // ---- after the local mark ----

  lemma SettledAfter(ops: seq<Op>, at: nat, i: nat, key: Pubkey)
    requires at < i <= |ops| && ops[at] == MarkSettled(key) && key in StoreRun(map[], ops[..at])
    ensures key in StoreRun(map[], ops[..i]) && StoreRun(map[], ops[..i])[key].isSettled
  {
    var after := StoreRun(map[], ops[..at + 1]);
    assert ops[..at + 1][..at] == ops[..at];
    assert key in after && after[key].isSettled;
    StoreRunSplit(map[], ops[..at + 1], ops[at + 1..i]);
    assert ops[..at + 1] + ops[at + 1..i] == ops[..i];
    MarksOnlyRise(after, ops[at + 1..i], key);
  }

  lemma SettledAdmitsNothing(ops: seq<Op>, i: nat, key: Pubkey)
    requires i < |ops| && key in StoreRun(map[], ops[..i]) && StoreRun(map[], ops[..i])[key].isSettled
    ensures !AdmitsAt(ops, i, key)
  {
  }

  lemma MarkedIsSettled(ops: seq<Op>, at: nat, key: Pubkey)
    requires at < |ops| && ops[at] == MarkSettled(key) && key in StoreRun(map[], ops[..at])
    ensures key in StoreRun(map[], ops) && StoreRun(map[], ops)[key].isSettled
    ensures NoneAdmitted(ops, at, |ops|, key)
  {
    assert ops[..|ops|] == ops;
    SettledAfter(ops, at, |ops|, key);
    forall i | at <= i < |ops| ensures !AdmitsAt(ops, i, key) {
      if i > at {
        SettledAfter(ops, at, i, key);
        SettledAdmitsNothing(ops, i, key);
      }
    }
  }

  lemma TrackedStays(ops: seq<Op>, k: nat, m: nat, key: Pubkey)
    requires k <= m <= |ops| && key in StoreRun(map[], ops[..k])
    ensures key in StoreRun(map[], ops[..m])
  {
    assert ops[..k] + ops[k..m] == ops[..m];
    StoreRunSplit(map[], ops[..k], ops[k..m]);
    MarksOnlyRise(StoreRun(map[], ops[..k]), ops[k..m], key);
  }

  lemma OpenStays(h: Hash, ops: seq<Op>, k: nat, m: nat, key: Pubkey)
    requires k <= m <= |ops| && key in TableRun(h, EMPTY_TABLES, ops[..k]).sessions
    ensures key in TableRun(h, EMPTY_TABLES, ops[..m]).sessions
  {
    assert ops[..k] + ops[k..m] == ops[..m];
    TableRunOk(h, EMPTY_TABLES, ops[..k]);
    TableRunSplit(h, EMPTY_TABLES, ops[..k], ops[k..m]);
    SessionsStay(h, TableRun(h, EMPTY_TABLES, ops[..k]), ops[k..m], key);
  }

  /** A marked route's session was open when it read the record, so it is when it marks. */
  lemma MarkedFacts(d: Deployment, w: System, r: Route)
    requires r.Marked? && RouteOk(d, w, r)
    ensures w.escrow.key in StoreRun(map[], w.ops[..r.markedAt])
    ensures w.escrow.key in TableRun(d.hash, EMPTY_TABLES, w.ops[..r.markedAt]).sessions
  {
    TrackedStays(w.ops, r.readAt, r.markedAt, w.escrow.key);
    OpenStays(d.hash, w.ops, r.readAt, r.markedAt, w.escrow.key);
  }

  /**
   Once a settle call has marked the session: nothing is ever admitted again; the
   provider has been paid at least what the call read; and what was admitted in all is
   what it read exactly when no claim was admitted between its reading and its marking.
   */
  lemma {:induction false} SettledForGood(d: Deployment, w0: System, events: seq<Event>, id: nat)
    requires Initial(w0)
    requires id in Run(d, w0, events).routes && Run(d, w0, events).routes[id].Marked?
    ensures
      var w := Run(d, w0, events);
      var (r, key) := (w.routes[id], w.escrow.key);
      && r.readAt <= r.markedAt < |w.ops|
      && w.Tracked() && w.Record().isSettled
      && w.escrow.paidProvider >= Charged(map[], w.ops[..r.readAt], key)
      && Charged(map[], w.ops, key) == Charged(map[], w.ops[..r.markedAt], key)
      && (Charged(map[], w.ops, key) == Charged(map[], w.ops[..r.readAt], key) <==> NoneAdmitted(w.ops, r.readAt, r.markedAt, key))
  {
    var w := Run(d, w0, events);
    var (r, key) := (w.routes[id], w.escrow.key);
    RunsStayLinked(d, w0, events);
    assert RouteOk(d, w, r);
    ReadIsCharged(d, w, r);
    MarkedFacts(d, w, r);
    ChargesAround(w.ops, r.readAt, r.markedAt, key);
  }

  lemma ChargesAround(ops: seq<Op>, readAt: nat, markedAt: nat, key: Pubkey)
    requires readAt <= markedAt < |ops| && ops[markedAt] == MarkSettled(key) && key in StoreRun(map[], ops[..markedAt])
    ensures key in StoreRun(map[], ops) && StoreRun(map[], ops)[key].isSettled
    ensures Charged(map[], ops, key) == Charged(map[], ops[..markedAt], key)
    ensures Charged(map[], ops, key) == Charged(map[], ops[..readAt], key) <==> NoneAdmitted(ops, readAt, markedAt, key)
  {
    MarkedIsSettled(ops, markedAt, key);
    assert ops[..|ops|] == ops;
    ChargedSince(ops, markedAt, |ops|, key);
    ChargedSince(ops, readAt, markedAt, key);
  }

  lemma RootHoldsFor(h: Hash, ops: seq<Op>, loadedAt: nat, markedAt: nat, key: Pubkey)
    requires loadedAt <= markedAt < |ops| && ops[markedAt] == MarkSettled(key)
    requires key in TableRun(h, EMPTY_TABLES, ops[..markedAt]).sessions
    ensures
      var (loaded, held) := (TableRun(h, EMPTY_TABLES, ops[..loadedAt]), TableRun(h, EMPTY_TABLES, ops));
      || (EvidenceRoot(h, held, key) == EvidenceRoot(h, loaded, key) <==> Recorded(h, loaded, ops[loadedAt..markedAt], key) == 0)
      || RootBinding.Clash(h, key, Log(loaded, key), key, Log(held, key))
  {
    RunSlices(h, ops, loadedAt, markedAt);
    RunSlices(h, ops, loadedAt, |ops|);
    SliceAround(ops, loadedAt, markedAt);
    CommittedRootIsHeldRootIff(h, ops[..loadedAt], ops[loadedAt..markedAt], ops[markedAt + 1..], key);
  }

  lemma SliceAround(ops: seq<Op>, k: nat, m: nat)
    requires k <= m < |ops|
    ensures ops[k..m] + [ops[m]] + ops[m + 1..] == ops[k..|ops|]
  {
  }

  lemma RunSlices(h: Hash, ops: seq<Op>, k: nat, m: nat)
    requires k <= m <= |ops|
    ensures TableRun(h, EMPTY_TABLES, ops[..m]) == TableRun(h, TableRun(h, EMPTY_TABLES, ops[..k]), ops[k..m])
    ensures ops[..|ops|] == ops
  {
    assert ops[..k] + ops[k..m] == ops[..m];
    TableRunSplit(h, EMPTY_TABLES, ops[..k], ops[k..m]);
  }

  /**
   The root that call committed is the root of the log held for good exactly when no
   attempt on the session was recorded between loading the leaves and marking, unless
   hashed bytes clash.
   */
  lemma {:induction false} RootHoldsIff(d: Deployment, w0: System, events: seq<Event>, id: nat)
    requires Initial(w0)
    requires id in Run(d, w0, events).routes && Run(d, w0, events).routes[id].Marked?
    ensures
      var w := Run(d, w0, events);
      var (r, key) := (w.routes[id], w.escrow.key);
      && r.loadedAt <= r.markedAt < |w.ops|
      && var loaded := TableRun(d.hash, EMPTY_TABLES, w.ops[..r.loadedAt]);
         || (EvidenceRoot(d.hash, w.Tables(d.hash), key) == r.root <==>
             Recorded(d.hash, loaded, w.ops[r.loadedAt..r.markedAt], key) == 0)
         || RootBinding.Clash(d.hash, key, Log(loaded, key), key, Log(w.Tables(d.hash), key))
  {
    var w := Run(d, w0, events);
    RunsStayLinked(d, w0, events);
    assert RouteOk(d, w, w.routes[id]);
    MarkedFacts(d, w, w.routes[id]);
    RootHoldsFor(d.hash, w.ops, w.routes[id].loadedAt, w.routes[id].markedAt, w.escrow.key);
  }

  // ---- only signed amounts are paid ----

  lemma SubmissionPasses(d: Deployment, w: System, settler: Pubkey, root: Digest, record: SessionRecord)
    requires record.highestClaim.Some? && Submission(d, w, settler, root, record).1.Ok?
    ensures PrecompilePasses(d.signed, DoSettle(SettlementOf(settler, root, record)))
  {
  }

  lemma NextKeepsSigned(d: Deployment, w: System, e: Event)
    requires SettledIsSigned(d.signed, w.escrow)
    ensures SettledIsSigned(d.signed, Next(d, w, e).escrow)
  {
    match e
    case OnChain(action) =>
      if PrecompilePasses(d.signed, action) {
        ActKeepsSigned(d.signed, d.hash, w.escrow, w.clock, action);
      }
    case Submit(id) =>
      if id in w.routes && w.routes[id].ReadRecord? && w.routes[id].record.highestClaim.Some? {
        var r := w.routes[id];
        if Submission(d, w, r.settler, r.root, r.record).1.Ok? {
          SubmissionPasses(d, w, r.settler, r.root, r.record);
          SubmissionIsAct(d, w, r.settler, r.root, r.record);
          ActKeepsSigned(d.signed, d.hash, w.escrow, w.clock, DoSettle(SettlementOf(r.settler, r.root, r.record)));
        }
      }
    case _ =>
  }

  /** In every composed run the escrow settles only amounts its agent signed for this session, through the gateway or around it. */
  lemma {:induction false} OnlySignedIsPaid(d: Deployment, w: System, events: seq<Event>)
    requires Initial(w)
    ensures SettledIsSigned(d.signed, Run(d, w, events).escrow)
    decreases |events|
  {
    if events != [] {
      OnlySignedIsPaid(d, w, events[..|events| - 1]);
      NextKeepsSigned(d, Run(d, w, events[..|events| - 1]), events[|events| - 1]);
    }
  }

  // ---- when nobody goes around the gateway ----

  predicate NoDirectSettlement(events: seq<Event>) {
    forall i :: 0 <= i < |events| && events[i].OnChain? ==> !events[i].action.DoSettle?
  }

  /** If the escrow is settled, some call of the settle route has settled it. */
  predicate SettledOnlyHere(w: System) {
    w.escrow.session.Some? && w.escrow.session.value.isSettled ==> exists id :: id in w.routes && w.routes[id].OnChainDone()
  }

  lemma StillDone(w: System, w': System)
    requires SettledOnlyHere(w)
    requires w'.escrow.session.Some? && w'.escrow.session.value.isSettled ==> w.escrow.session.Some? && w.escrow.session.value.isSettled
    requires forall id :: id in w.routes && w.routes[id].OnChainDone() ==> id in w'.routes && w'.routes[id].OnChainDone()
    ensures SettledOnlyHere(w')
  {
  }

  lemma SubmitSettlesHere(d: Deployment, w: System, id: nat)
    requires SettledOnlyHere(w)
    ensures SettledOnlyHere(SubmitRoute(d, w, id))
  {
    var w' := SubmitRoute(d, w, id);
    if id in w'.routes && w'.routes[id].OnChainDone() {
      assert SettledOnlyHere(w');
    } else {
      StillDone(w, w');
    }
  }

  lemma NextSettlesOnlyHere(d: Deployment, w: System, e: Event)
    requires SettledOnlyHere(w) && (e.OnChain? ==> !e.action.DoSettle?)
    ensures SettledOnlyHere(Next(d, w, e))
  {
    match e
    case OnChain(action) =>
      ActKeepsTerms(d.hash, w.escrow, w.clock, action);
      StillDone(w, Next(d, w, e));
    case Submit(id) => SubmitSettlesHere(d, w, id);
    case _ => StillDone(w, Next(d, w, e));
  }

  lemma {:induction false} RunSettlesOnlyHere(d: Deployment, w: System, events: seq<Event>)
    requires Initial(w) && NoDirectSettlement(events)
    ensures SettledOnlyHere(Run(d, w, events))
    decreases |events|
  {
    if events != [] {
      RunSettlesOnlyHere(d, w, events[..|events| - 1]);
      NextSettlesOnlyHere(d, Run(d, w, events[..|events| - 1]), events[|events| - 1]);
    }
  }

  /**
   With no settlement behind the gateway's back and no other call of the route already
   confirmed, only the clock and the settler's key decide: in time, the gateway is
   always paid.
   */
  lemma {:induction false} HonestRunAlwaysSettles(d: Deployment, w0: System, events: seq<Event>, id: nat)
    requires Initial(w0) && NoDirectSettlement(events) && ReadyToSubmit(Run(d, w0, events), id)
    requires forall k :: k in Run(d, w0, events).routes ==> !Run(d, w0, events).routes[k].OnChainDone()
    requires
      var w := Run(d, w0, events);
      && w.escrow.session.Some?
      && (Some(w.routes[id].settler) == w.escrow.session.value.settlementAuthority || w.routes[id].settler == w.routes[id].record.provider)
    ensures
      var w := Run(d, w0, events);
      Attempted(d, w, id).1.Ok? <==>
        InTime(w.clock, w.routes[id].record.expiresAt) && InTime(w.clock, w.routes[id].record.highestClaim.value.claim.expiresAt)
  {
    var w := Run(d, w0, events);
    RunsStayLinked(d, w0, events);
    assert RouteOk(d, w, w.routes[id]);
    RunSettlesOnlyHere(d, w0, events);
    SettlesExactlyWhen(d, w0, events, id);
    ReadIsCharged(d, w, w.routes[id]);
  }
}
