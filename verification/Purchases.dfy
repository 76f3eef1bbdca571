/**
 Buying (`gateway/src/routes.rs`, `buy` and `enforce_agent_policy`): the order of
 the steps, what each refusal leaves untouched, and what runs of non-overlapping
 purchases keep.
 */
module Purchases {
  import opened Bytes
  import opened Wrappers
  import opened Claims
  import opened Admission
  import opened Postgres
  import opened Policies
  import opened Approvals
  import opened Spending
  import Planning

  /** `signed` is signature verification; `requirePolicy` refuses agents nobody has authorized. */
  datatype Settings = Settings(hash: Hash, signed: (Pubkey, seq<Byte>, Signature) -> bool, requirePolicy: bool)

  /** Everything a purchase reads or writes. */
  datatype Desk = Desk(tables: Tables, agents: map<Pubkey, Agent>, approvals: seq<ApprovalRow>)

  /** `price` is what the catalogue asks for `resource`; `delivered` is whether the provider could be reached. */
  datatype BuyRequest = BuyRequest(resource: string, price: U64, claim: Claim, signature: Signature, now: I64, delivered: bool)

  datatype Denial =
    | ClaimHasExpired | SessionUnknown | StoreDown | InvalidSignature | PriceOverflows | PriceMismatch
    | PolicyRequired | AgentSuspended | ControlPlaneUnavailable | ByPolicy(rule: PolicyRefusal) | ApprovalRequired
    | ClaimRefused(rejection: ClaimRejection)

  /** A charged purchase is served when the provider answers; the charge stands either way. */
  datatype Outcome = Charged(accepted: ClaimAccepted, delivered: bool) | Denied(denial: Denial)

  // ---- the envelope ----

  /** Spends a granted approval, or proposes one unless one is pending. */
  function SpendOrPropose(rows: seq<ApprovalRow>, p: Proposal): (seq<ApprovalRow>, Result<(), Denial>) {
    match ConsumeApproval(rows, p)
    case Err(_) => (rows, Err(ControlPlaneUnavailable))
    case Ok((after, true)) => (after, Ok(()))
    case Ok((_, false)) =>
      (if HasPendingApproval(rows, p) == Ok(false) && CreateApproval(rows, p).Ok? then CreateApproval(rows, p).value else rows,
       Err(ApprovalRequired))
  }

  ghost function Enforce(cfg: Settings, d: Desk, agent: Pubkey, resource: string, price: U64): (seq<ApprovalRow>, Result<(), Denial>) {
    if agent !in d.agents then (d.approvals, if cfg.requirePolicy then Err(PolicyRequired) else Ok(()))
    else
      var a := d.agents[agent];
      if a.status != Active then (d.approvals, Err(AgentSuspended))
      else if a.policy.None? then (d.approvals, if cfg.requirePolicy then Err(PolicyRequired) else Ok(()))
      else if AgentSpend(d.tables, agent).Err? then (d.approvals, Err(ControlPlaneUnavailable))
      else
        match Evaluate(a.status, a.mode, a.policy.value, resource, price, AgentSpend(d.tables, agent).value)
        case Allow => (d.approvals, Ok(()))
        case Refuse(rule) => (d.approvals, Err(ByPolicy(rule)))
        case NeedsApproval => SpendOrPropose(d.approvals, Proposal(agent, resource, price))
  }

  /** Everything `buy` checks before the envelope. */
  function Precheck(cfg: Settings, t: Tables, req: BuyRequest): Result<SessionRecord, Denial> {
    var s := req.claim.session;
    if req.claim.IsExpired(req.now) then Err(ClaimHasExpired)
    else if s !in t.sessions then Err(SessionUnknown)
    else
      match RowToRecord(s, t.sessions[s], t.Ticket(s))
      case Err(_) => Err(StoreDown)
      case Ok(record) =>
        if !cfg.signed(record.agent, MessageOf(req.claim), req.signature) then Err(InvalidSignature)
        else if record.cumulativeAccepted + req.price > U64_MAX then Err(PriceOverflows)
        else if req.claim.cumulativeAmount != record.cumulativeAccepted + req.price then Err(PriceMismatch)
        else Ok(record)
  }

  /** The admission at the end, and what the caller hears. */
  function Charge(cfg: Settings, t: Tables, req: BuyRequest): (Tables, Outcome) {
    match AdmitAlone(cfg.hash, t, req.claim, req.signature, req.now)
    case (t', Err(RowNotFound)) => (t', Denied(SessionUnknown))
    case (t', Err(_)) => (t', Denied(StoreDown))
    case (t', Ok(Err(rejection))) => (t', Denied(ClaimRefused(rejection)))
    case (t', Ok(Ok(accepted))) => (t', Charged(accepted, req.delivered))
  }

  ghost function Buy(cfg: Settings, d: Desk, req: BuyRequest): (Desk, Outcome) {
    match Precheck(cfg, d.tables, req)
    case Err(denial) => (d, Denied(denial))
    case Ok(record) =>
      match Enforce(cfg, d, record.agent, req.resource, req.price)
      case (approvals, Err(denial)) => (d.(approvals := approvals), Denied(denial))
      case (approvals, Ok(_)) =>
        var (tables, outcome) := Charge(cfg, d.tables, req);
        (d.(tables := tables, approvals := approvals), outcome)
  }

  /** The gateway, step by step with its early returns. */
  class Gateway {
    const store: Database
    const control: ControlDb
    var agents: map<Pubkey, Agent>

    ghost function View(): Desk
      reads this, store, control
    {
      Desk(store.tables, agents, control.approvals)
    }

    constructor (agents: map<Pubkey, Agent>)
      ensures fresh(store) && fresh(control)
      ensures View() == Desk(EMPTY_TABLES, agents, [])
    {
      store := new Database();
      control := new ControlDb();
      this.agents := agents;
    }

    method EnforceAgentPolicy(cfg: Settings, agent: Pubkey, resource: string, price: U64) returns (r: Result<(), Denial>)
      modifies control
      ensures (control.approvals, r) == Enforce(cfg, old(View()), agent, resource, price)
    {
      if agent !in agents {
        return if cfg.requirePolicy then Err(PolicyRequired) else Ok(());
      }
      var a := agents[agent];
      if a.status != Active {
        return Err(AgentSuspended);
      }
      if a.policy.None? {
        return if cfg.requirePolicy then Err(PolicyRequired) else Ok(());
      }
      var spend := ReadAgentSpend(store.tables, agent);
      if spend.Err? {
        return Err(ControlPlaneUnavailable);
      }
      var decision := Evaluate(a.status, a.mode, a.policy.value, resource, price, spend.value);
      match decision
      case Allow =>
        return Ok(());
      case Refuse(rule) =>
        return Err(ByPolicy(rule));
      case NeedsApproval =>
        r := SpendOrProposeNow(Proposal(agent, resource, price));
    }

    method SpendOrProposeNow(p: Proposal) returns (r: Result<(), Denial>)
      modifies control
      ensures (control.approvals, r) == SpendOrPropose(old(control.approvals), p)
    {
      var consumed := control.Consume(p);
      if consumed.Err? {
        return Err(ControlPlaneUnavailable);
      }
      if consumed.value {
        return Ok(());
      }
      var pending := control.HasPending(p);
      if pending == Ok(false) {
        var _ := control.Create(p);
      }
      return Err(ApprovalRequired);
    }

    method BuyNow(cfg: Settings, req: BuyRequest) returns (r: Outcome)
      modifies store, control
      ensures (View(), r) == Buy(cfg, old(View()), req)
    {
      if req.claim.IsExpired(req.now) {
        return Denied(ClaimHasExpired);
      }
      var s := req.claim.session;
      if s !in store.tables.sessions {
        return Denied(SessionUnknown);
      }
      var record := RowToRecord(s, store.tables.sessions[s], store.tables.Ticket(s));
      if record.Err? {
        return Denied(StoreDown);
      }
      if !cfg.signed(record.value.agent, MessageOf(req.claim), req.signature) {
        return Denied(InvalidSignature);
      }
      if record.value.cumulativeAccepted + req.price > U64_MAX {
        return Denied(PriceOverflows);
      }
      if req.claim.cumulativeAmount != record.value.cumulativeAccepted + req.price {
        return Denied(PriceMismatch);
      }
      var allowed := EnforceAgentPolicy(cfg, record.value.agent, req.resource, req.price);
      if allowed.Err? {
        return Denied(allowed.error);
      }
      var admitted := store.UpsertClaimHighWaterMark(cfg.hash, req.claim, req.signature, req.now);
      match admitted
      case Err(RowNotFound) =>
        return Denied(SessionUnknown);
      case Err(_) =>
        return Denied(StoreDown);
      case Ok(Err(rejection)) =>
        return Denied(ClaimRefused(rejection));
      case Ok(Ok(accepted)) =>
        return Charged(accepted, req.delivered);
    }
  }

  // ---- each check in plain terms ----

  /** The session's row and ticket can be read back: nothing in them is negative. */
  predicate RowsRead(row: SessionRow, ticket: Option<TicketRow>) {
    row.depositedTotal >= 0 && (ticket.Some? ==> ticket.value.cumulative >= 0 && ticket.value.nonce >= 0)
  }

  function MarkOfTicket(ticket: Option<TicketRow>): int {
    if ticket.Some? then ticket.value.cumulative else 0
  }

  /** The session's own agent has signed this very claim. */
  predicate SignedByAgent(cfg: Settings, t: Tables, claim: Claim, signature: Signature)
    requires claim.session in t.sessions
  {
    cfg.signed(t.sessions[claim.session].agent, MessageOf(claim), signature)
  }

  /**
   The checks before the envelope, from the clock, the session's row and ticket, the price
   and the signature alone: each denial is the first that fails; passing reads the record off
   those rows.
   */
  lemma PrecheckExactly(cfg: Settings, t: Tables, req: BuyRequest)
    ensures
      var (s, claim, v) := (req.claim.session, req.claim, Precheck(cfg, t, req));
      var inTime := req.now <= claim.expiresAt + 30 || claim.expiresAt + 30 > 0x7FFF_FFFF_FFFF_FFFF;
      var known := inTime && s in t.sessions;
      var readable := known && RowsRead(t.sessions[s], t.Ticket(s));
      var signed := readable && SignedByAgent(cfg, t, claim, req.signature);
      var fits := signed && MarkOfTicket(t.Ticket(s)) + req.price <= 0xFFFF_FFFF_FFFF_FFFF;
      && (v == Err(ClaimHasExpired) <==> !inTime)
      && (v == Err(SessionUnknown) <==> inTime && !known)
      && (v == Err(StoreDown) <==> known && !readable)
      && (v == Err(InvalidSignature) <==> readable && !signed)
      && (v == Err(PriceOverflows) <==> signed && !fits)
      && (v == Err(PriceMismatch) <==> fits && claim.cumulativeAmount != MarkOfTicket(t.Ticket(s)) + req.price)
      && (v.Ok? <==> fits && claim.cumulativeAmount == MarkOfTicket(t.Ticket(s)) + req.price)
      && (v.Ok? ==>
            && v.value.agent == t.sessions[s].agent && v.value.depositedTotal == t.sessions[s].depositedTotal
            && v.value.expiresAt == t.sessions[s].expiresAt && v.value.isSettled == t.sessions[s].settled
            && v.value.cumulativeAccepted == MarkOfTicket(t.Ticket(s))
            && v.value.lastNonce == (if t.Ticket(s).Some? then Some(t.Ticket(s).value.nonce) else None))
  {
  }

  /** Nothing is charged that the session's agent did not sign, or that had expired. */
  lemma ChargedIsSigned(cfg: Settings, d: Desk, req: BuyRequest)
    requires Buy(cfg, d, req).1.Charged?
    ensures req.claim.session in d.tables.sessions
    ensures SignedByAgent(cfg, d.tables, req.claim, req.signature)
    ensures req.now <= req.claim.expiresAt + 30
  {
    PrecheckExactly(cfg, d.tables, req);
  }

  // ---- one purchase ----

  lemma ChargeEffects(cfg: Settings, t: Tables, req: BuyRequest, agent: Pubkey)
    requires TablesOk(cfg.hash, t)
    ensures
      var (t', r) := Charge(cfg, t, req);
      var moved := r.Charged? && req.claim.session in t.sessions && t.sessions[req.claim.session].agent == agent;
      && TablesOk(cfg.hash, t')
      && TotalMarks(t', agent) == TotalMarks(t, agent) + (if moved then r.accepted.delta else 0)
      && TotalCalls(t', agent) == TotalCalls(t, agent) + (if moved then 1 else 0)
  {
    AdmitKeepsTablesOk(cfg.hash, t, req.claim, req.signature, req.now);
    AdmissionByAgent(cfg.hash, t, req.claim, req.signature, req.now, agent);
  }

  lemma ChargeIsPrice(cfg: Settings, t: Tables, req: BuyRequest)
    requires TablesOk(cfg.hash, t) && Precheck(cfg, t, req).Ok? && Charge(cfg, t, req).1.Charged?
    ensures req.claim.session in t.sessions
    ensures
      var accepted := Charge(cfg, t, req).1.accepted;
      && accepted.delta == req.price > 0
      && accepted.cumulativeAmount == accepted.previousCumulative + req.price
      && accepted.previousCumulative == MarkOf(t, t.sessions[req.claim.session].agent, req.claim.session)
  {
    AdmitShape(cfg.hash, t, req.claim, req.signature, req.now);
  }

  /** Nothing is charged and no mark moves unless every check passed; then the mark moves by exactly the price. */
  lemma BuyMovesByPrice(cfg: Settings, d: Desk, req: BuyRequest, agent: Pubkey)
    requires TablesOk(cfg.hash, d.tables)
    ensures
      var (d', r) := Buy(cfg, d, req);
      var buyer := req.claim.session in d.tables.sessions && d.tables.sessions[req.claim.session].agent == agent;
      && TablesOk(cfg.hash, d'.tables) && d'.agents == d.agents
      && (r.Charged? ==>
            && req.claim.session in d.tables.sessions
            && r.accepted.delta == req.price > 0
            && r.accepted.cumulativeAmount == r.accepted.previousCumulative + req.price)
      && TotalMarks(d'.tables, agent) == TotalMarks(d.tables, agent) + (if r.Charged? && buyer then req.price else 0)
      && TotalCalls(d'.tables, agent) == TotalCalls(d.tables, agent) + (if r.Charged? && buyer then 1 else 0)
  {
    ChargeEffects(cfg, d.tables, req, agent);
    if Buy(cfg, d, req).1.Charged? {
      ChargeIsPrice(cfg, d.tables, req);
    }
  }

  // ---- runs ----

  /** Purchases one after another, and everything else that may happen between them under a fixed policy. */
  datatype Event =
    | Purchase(req: BuyRequest)
    | OpenSession(record: SessionRecord)
    | SettledOnChain(session: Pubkey)
    | Reconciled(session: Pubkey)
    | Decision(id: nat, approved: bool)

  ghost function Next(cfg: Settings, d: Desk, e: Event): Desk {
    match e
    case Purchase(req) => Buy(cfg, d, req).0
    case OpenSession(record) => d.(tables := TableStep(cfg.hash, d.tables, Op.Open(record)))
    case SettledOnChain(s) => d.(tables := TableStep(cfg.hash, d.tables, Op.MarkSettled(s)))
    case Reconciled(s) => d.(tables := TableStep(cfg.hash, d.tables, Op.MarkChainVerified(s)))
    case Decision(id, approved) => d.(approvals := DecideApproval(d.approvals, id, approved).0)
  }

  ghost function Run(cfg: Settings, d: Desk, events: seq<Event>): Desk
    decreases |events|
  {
    if events == [] then d else Next(cfg, Run(cfg, d, events[..|events| - 1]), events[|events| - 1])
  }

  /** Event e, happening at d, charges this agent. */
  ghost predicate Charges(cfg: Settings, d: Desk, e: Event, agent: Pubkey) {
    && e.Purchase? && Buy(cfg, d, e.req).1.Charged?
    && e.req.claim.session in d.tables.sessions && d.tables.sessions[e.req.claim.session].agent == agent
  }

  /** Statements other than an admission commit nobody to anything. */
  lemma StatementTotals(cfg: Settings, t: Tables, op: Op, agent: Pubkey)
    requires TablesOk(cfg.hash, t) && !op.Admit?
    ensures
      var t' := TableStep(cfg.hash, t, op);
      TablesOk(cfg.hash, t') && TotalMarks(t', agent) == TotalMarks(t, agent) && TotalCalls(t', agent) == TotalCalls(t, agent)
  {
    TableStepOk(cfg.hash, t, op);
    match op
    case Open(record) =>
      if SaveSession(t, record).Ok? {
        OpeningCommitsNothing(cfg.hash, t, record, agent);
      }
    case MarkSettled(s) => FlagsCommitNothing(t, MarkSessionSettled(t, s).0, agent);
    case MarkChainVerified(s) => FlagsCommitNothing(t, MarkVerified(t, s).0, agent);
  }

  lemma NextTotals(cfg: Settings, d: Desk, e: Event, agent: Pubkey)
    requires TablesOk(cfg.hash, d.tables)
    ensures
      var d' := Next(cfg, d, e);
      && TablesOk(cfg.hash, d'.tables) && d'.agents == d.agents
      && TotalMarks(d'.tables, agent) == TotalMarks(d.tables, agent) + (if Charges(cfg, d, e, agent) then e.req.price else 0)
      && TotalCalls(d'.tables, agent) == TotalCalls(d.tables, agent) + (if Charges(cfg, d, e, agent) then 1 else 0)
  {
    match e
    case Purchase(req) => BuyMovesByPrice(cfg, d, req, agent);
    case OpenSession(record) => StatementTotals(cfg, d.tables, Op.Open(record), agent);
    case SettledOnChain(s) => StatementTotals(cfg, d.tables, Op.MarkSettled(s), agent);
    case Reconciled(s) => StatementTotals(cfg, d.tables, Op.MarkChainVerified(s), agent);
    case Decision(_, _) =>
  }

  /** The agent's spend is within its envelope, if it has one. */
  ghost predicate Within(d: Desk, agent: Pubkey) {
    agent in d.agents && d.agents[agent].policy.Some? ==>
      var policy := d.agents[agent].policy.value;
      && TotalMarks(d.tables, agent) <= policy.maxTotal
      && (policy.maxCalls.Some? ==> TotalCalls(d.tables, agent) <= policy.maxCalls.value)
  }

  /** What a passed envelope means for an authorized agent. */
  lemma EnforcePassed(cfg: Settings, d: Desk, agent: Pubkey, resource: string, price: U64)
    requires agent in d.agents && d.agents[agent].policy.Some? && Enforce(cfg, d, agent, resource, price).1.Ok?
    ensures AgentSpend(d.tables, agent).Ok?
    ensures
      var a := d.agents[agent];
      var decision := Evaluate(a.status, a.mode, a.policy.value, resource, price, AgentSpend(d.tables, agent).value);
      var approvals := Enforce(cfg, d, agent, resource, price).0;
      && !decision.Refuse?
      && (decision.NeedsApproval? ==> ConsumeApproval(d.approvals, Proposal(agent, resource, price)) == Ok((approvals, true)))
      && (decision.Allow? ==> approvals == d.approvals)
  {
  }

  /** A charge passed the envelope evaluated on what the agent had spent by then. */
  lemma ChargePassedEnvelope(cfg: Settings, d: Desk, e: Event, agent: Pubkey)
    requires Charges(cfg, d, e, agent)
    ensures Enforce(cfg, d, agent, e.req.resource, e.req.price) == (Next(cfg, d, e).approvals, Ok(()))
  {
  }

  lemma NextStaysWithin(cfg: Settings, d: Desk, e: Event, agent: Pubkey)
    requires TablesOk(cfg.hash, d.tables) && Within(d, agent)
    ensures Within(Next(cfg, d, e), agent)
  {
    NextTotals(cfg, d, e, agent);
    if agent in d.agents && d.agents[agent].policy.Some? && Charges(cfg, d, e, agent) {
      ChargePassedEnvelope(cfg, d, e, agent);
      EnforcePassed(cfg, d, agent, e.req.resource, e.req.price);
    }
  }

  /**
   The envelope holds over whole runs: however many sessions an agent opens and
   whatever it asks for, the sum of its marks never passes its total, nor its
   admitted purchases their limit.
   */
  lemma {:induction false} EnvelopeHolds(cfg: Settings, d: Desk, events: seq<Event>, agent: Pubkey)
    requires TablesOk(cfg.hash, d.tables) && Within(d, agent)
    ensures TablesOk(cfg.hash, Run(cfg, d, events).tables) && Run(cfg, d, events).agents == d.agents
    ensures Within(Run(cfg, d, events), agent)
    decreases |events|
  {
    if events != [] {
      var init := Run(cfg, d, events[..|events| - 1]);
      EnvelopeHolds(cfg, d, events[..|events| - 1], agent);
      NextTotals(cfg, init, events[|events| - 1], agent);
      NextStaysWithin(cfg, init, events[|events| - 1], agent);
    }
  }

  // ---- every retained claim is signed ----

  predicate TicketSigned(cfg: Settings, t: Tables, s: Pubkey) {
    s in t.tickets ==>
      s in t.sessions && t.tickets[s].cumulative >= 0 && t.tickets[s].nonce >= 0 &&
      SignedByAgent(cfg, t, Claim(s, t.tickets[s].cumulative, t.tickets[s].nonce, t.tickets[s].expiresAt), t.tickets[s].signature)
  }

  /** A session's ticket is what it was, or the claim of a charge on it. */
  lemma BuyTicket(cfg: Settings, d: Desk, req: BuyRequest, s: Pubkey)
    requires TablesOk(cfg.hash, d.tables) && TicketSigned(cfg, d.tables, s)
    ensures TicketSigned(cfg, Buy(cfg, d, req).0.tables, s)
  {
    if Buy(cfg, d, req).1.Charged? {
      ChargedIsSigned(cfg, d, req);
      ChargedTicket(cfg, d, req);
      if s != req.claim.session {
        OtherTicket(cfg, d, req, s);
      }
    } else {
      UnchargedTicket(cfg, d, req);
    }
  }

  lemma OtherTicket(cfg: Settings, d: Desk, req: BuyRequest, s: Pubkey)
    requires TablesOk(cfg.hash, d.tables) && s != req.claim.session
    ensures Buy(cfg, d, req).0.tables.Ticket(s) == d.tables.Ticket(s)
  {
    AdmitIsLocal(cfg.hash, d.tables, req.claim, req.signature, req.now);
  }

  lemma ChargedTicket(cfg: Settings, d: Desk, req: BuyRequest)
    requires TablesOk(cfg.hash, d.tables) && Buy(cfg, d, req).1.Charged?
    ensures req.claim.cumulativeAmount <= I64_MAX && req.claim.nonce <= I64_MAX
    ensures Buy(cfg, d, req).0.tables.sessions == d.tables.sessions
    ensures Buy(cfg, d, req).0.tables.Ticket(req.claim.session)
         == Some(TicketRow(req.claim.cumulativeAmount, req.claim.nonce, req.claim.expiresAt, req.signature))
  {
    ChargedIsSigned(cfg, d, req);
    AdmitShape(cfg.hash, d.tables, req.claim, req.signature, req.now);
  }

  lemma UnchargedTicket(cfg: Settings, d: Desk, req: BuyRequest)
    requires TablesOk(cfg.hash, d.tables) && !Buy(cfg, d, req).1.Charged?
    ensures Buy(cfg, d, req).0.tables.sessions == d.tables.sessions
    ensures Buy(cfg, d, req).0.tables.tickets == d.tables.tickets
  {
    if req.claim.session in d.tables.sessions {
      AdmitShape(cfg.hash, d.tables, req.claim, req.signature, req.now);
    }
  }

  lemma NextTicket(cfg: Settings, d: Desk, e: Event, s: Pubkey)
    requires TablesOk(cfg.hash, d.tables) && TicketSigned(cfg, d.tables, s)
    ensures TicketSigned(cfg, Next(cfg, d, e).tables, s)
  {
    if e.Purchase? {
      BuyTicket(cfg, d, e.req, s);
    }
  }

  /**
   Over every run from empty tables each session's ticket holds a claim that session's agent
   signed, with the signature it was signed with.
   */
  lemma {:induction false} TicketsAreSigned(cfg: Settings, d: Desk, events: seq<Event>, s: Pubkey)
    requires d.tables == EMPTY_TABLES
    ensures TablesOk(cfg.hash, Run(cfg, d, events).tables)
    ensures TicketSigned(cfg, Run(cfg, d, events).tables, s)
    decreases |events|
  {
    if events != [] {
      var init := events[..|events| - 1];
      TicketsAreSigned(cfg, d, init, s);
      NextTicket(cfg, Run(cfg, d, init), events[|events| - 1], s);
      NextTotals(cfg, Run(cfg, d, init), events[|events| - 1], s);
    }
  }

  // ---- approvals ----

  /** Event e is a charge, of this proposal, that a human had to approve. */
  ghost predicate ChargesByApproval(cfg: Settings, d: Desk, e: Event, p: Proposal) {
    && Charges(cfg, d, e, p.agent) && e.req.resource == p.resource && e.req.price == p.price
    && p.agent in d.agents && d.agents[p.agent].policy.Some? && AgentSpend(d.tables, p.agent).Ok?
    && var a := d.agents[p.agent];
       Evaluate(a.status, a.mode, a.policy.value, p.resource, p.price, AgentSpend(d.tables, p.agent).value).NeedsApproval?
  }

  /** Event e is a human approving a pending proposal p. */
  predicate Approves(d: Desk, e: Event, p: Proposal) {
    e.Decision? && e.approved && e.id < |d.approvals| && For(d.approvals[e.id], p, Pending)
  }

  ghost function ApprovedCharges(cfg: Settings, d: Desk, events: seq<Event>, p: Proposal): nat
    decreases |events|
  {
    if events == [] then 0
    else
      var (init, last) := (events[..|events| - 1], events[|events| - 1]);
      ApprovedCharges(cfg, d, init, p) + (if ChargesByApproval(cfg, Run(cfg, d, init), last, p) then 1 else 0)
  }

  ghost function HumanApprovals(cfg: Settings, d: Desk, events: seq<Event>, p: Proposal): nat
    decreases |events|
  {
    if events == [] then 0
    else
      var (init, last) := (events[..|events| - 1], events[|events| - 1]);
      HumanApprovals(cfg, d, init, p) + (if Approves(Run(cfg, d, init), last, p) then 1 else 0)
  }

  lemma SpendOrProposeCounts(rows: seq<ApprovalRow>, spent: Proposal, p: Proposal)
    ensures
      var (after, r) := SpendOrPropose(rows, spent);
      && Granted(after, p) == Granted(rows, p)
      && CountFor(after, p, Consumed) == CountFor(rows, p, Consumed) + (if r.Ok? && p == spent then 1 else 0)
  {
    if ConsumeApproval(rows, spent).Ok? {
      ConsumeSpends(rows, spent, p);
    }
    if CreateApproval(rows, spent).Ok? {
      CreateGrantsNothing(rows, spent, p);
    }
  }

  /** The envelope's own effect on the approvals, whatever becomes of the purchase. */
  lemma EnforceCounts(cfg: Settings, d: Desk, agent: Pubkey, resource: string, price: U64, p: Proposal)
    ensures
      var (after, r) := Enforce(cfg, d, agent, resource, price);
      && Granted(after, p) == Granted(d.approvals, p)
      && CountFor(after, p, Consumed) >= CountFor(d.approvals, p, Consumed)
  {
    SpendOrProposeCounts(d.approvals, Proposal(agent, resource, price), p);
  }

  lemma ApprovedChargeSpends(cfg: Settings, d: Desk, e: Event, p: Proposal)
    requires ChargesByApproval(cfg, d, e, p)
    ensures CountFor(Next(cfg, d, e).approvals, p, Consumed) == CountFor(d.approvals, p, Consumed) + 1
  {
    ChargePassedEnvelope(cfg, d, e, p.agent);
    EnforcePassed(cfg, d, p.agent, p.resource, p.price);
    ConsumeSpends(d.approvals, p, p);
  }

  lemma PurchaseCounts(cfg: Settings, d: Desk, req: BuyRequest, p: Proposal)
    ensures Granted(Buy(cfg, d, req).0.approvals, p) == Granted(d.approvals, p)
    ensures CountFor(Buy(cfg, d, req).0.approvals, p, Consumed) >= CountFor(d.approvals, p, Consumed)
  {
    if Precheck(cfg, d.tables, req).Ok? {
      EnforceCounts(cfg, d, Precheck(cfg, d.tables, req).value.agent, req.resource, req.price, p);
    }
  }

  lemma NextCounts(cfg: Settings, d: Desk, e: Event, p: Proposal)
    ensures
      var d' := Next(cfg, d, e);
      && Granted(d'.approvals, p) == Granted(d.approvals, p) + (if Approves(d, e, p) then 1 else 0)
      && CountFor(d'.approvals, p, Consumed) >= CountFor(d.approvals, p, Consumed) + (if ChargesByApproval(cfg, d, e, p) then 1 else 0)
  {
    match e
    case Purchase(req) =>
      PurchaseCounts(cfg, d, req, p);
      if ChargesByApproval(cfg, d, e, p) {
        ApprovedChargeSpends(cfg, d, e, p);
      }
    case Decision(id, approved) => DecideGrants(d.approvals, id, approved, p);
    case _ =>
  }

  /**
   Purchases that needed a human never outnumber the human approvals given for that
   agent, resource and price, over any run from an empty approvals table.
   */
  lemma {:induction false} ApprovalsCoverCharges(cfg: Settings, d: Desk, events: seq<Event>, p: Proposal)
    requires d.approvals == []
    ensures Granted(Run(cfg, d, events).approvals, p) == HumanApprovals(cfg, d, events, p)
    ensures ApprovedCharges(cfg, d, events, p) <= CountFor(Run(cfg, d, events).approvals, p, Consumed) <= HumanApprovals(cfg, d, events, p)
    decreases |events|
  {
    if events != [] {
      var init := events[..|events| - 1];
      ApprovalsCoverCharges(cfg, d, init, p);
      NextCounts(cfg, Run(cfg, d, init), events[|events| - 1], p);
    }
  }

  // ---- proposals ----

  /** A proposal is made exactly when the column holds the price and none is granted or pending, and it is the one asked for. */
  lemma ProposesExactly(rows: seq<ApprovalRow>, p: Proposal)
    ensures
      var (after, r) := SpendOrPropose(rows, p);
      var granted := CountFor(rows, p, Approved) > 0;
      && (|after| == |rows| + 1 <==> p.price <= I64_MAX && !granted && CountFor(rows, p, Pending) == 0)
      && (|after| != |rows| + 1 ==> |after| == |rows|)
      && (|after| == |rows| + 1 ==> after[..|rows|] == rows && For(after[|rows|], p, Pending) && r == Err(ApprovalRequired))
      && (r.Ok? <==> granted)
      && (r == Err(ControlPlaneUnavailable) <==> p.price > I64_MAX)
      && (r == Err(ApprovalRequired) <==> p.price <= I64_MAX && !granted)
  {
    ConsumesIff(rows, p);
    FirstIffCounted(rows, p, Pending);
  }

  /** Deciding, spending and proposing leave at most one pending proposal of a kind. */
  lemma SpendOrProposePending(rows: seq<ApprovalRow>, spent: Proposal, p: Proposal)
    requires CountFor(rows, p, Pending) <= 1
    ensures CountFor(SpendOrPropose(rows, spent).0, p, Pending) <= 1
  {
    FirstIffCounted(rows, spent, Pending);
    if ConsumeApproval(rows, spent).Ok? && ConsumeApproval(rows, spent).value.1 {
      ConsumeKeepsPending(rows, spent, p);
    } else if CreateApproval(rows, spent).Ok? {
      CreatePends(rows, spent, p);
    }
  }

  lemma EnforcePending(cfg: Settings, d: Desk, agent: Pubkey, resource: string, price: U64, p: Proposal)
    requires CountFor(d.approvals, p, Pending) <= 1
    ensures CountFor(Enforce(cfg, d, agent, resource, price).0, p, Pending) <= 1
  {
    SpendOrProposePending(d.approvals, Proposal(agent, resource, price), p);
  }

  lemma BuyApprovals(cfg: Settings, d: Desk, req: BuyRequest)
    ensures
      var record := Precheck(cfg, d.tables, req);
      Buy(cfg, d, req).0.approvals
        == if record.Ok? then Enforce(cfg, d, record.value.agent, req.resource, req.price).0 else d.approvals
  {
  }

  lemma NextPending(cfg: Settings, d: Desk, e: Event, p: Proposal)
    requires CountFor(d.approvals, p, Pending) <= 1
    ensures CountFor(Next(cfg, d, e).approvals, p, Pending) <= 1
  {
    match e {
      case Purchase(req) =>
        BuyApprovals(cfg, d, req);
        if Precheck(cfg, d.tables, req).Ok? {
          EnforcePending(cfg, d, Precheck(cfg, d.tables, req).value.agent, req.resource, req.price, p);
        }
      case Decision(id, approved) => DecideUnpends(d.approvals, id, approved, p);
      case _ =>
    }
  }

  /** However often an agent retries, a human never has two pending proposals of one kind to decide. */
  lemma {:induction false} NoDuplicateProposals(cfg: Settings, d: Desk, events: seq<Event>, p: Proposal)
    requires d.approvals == []
    ensures CountFor(Run(cfg, d, events).approvals, p, Pending) <= 1
    decreases |events|
  {
    if events != [] {
      NoDuplicateProposals(cfg, d, events[..|events| - 1], p);
      NextPending(cfg, Run(cfg, d, events[..|events| - 1]), events[|events| - 1], p);
    }
  }

  lemma SpendOrProposeFollows(rows: seq<ApprovalRow>, p: Proposal)
    ensures Follows(rows, SpendOrPropose(rows, p).0)
  {
  }

  lemma EnforceFollows(cfg: Settings, d: Desk, agent: Pubkey, resource: string, price: U64)
    ensures Follows(d.approvals, Enforce(cfg, d, agent, resource, price).0)
  {
    SpendOrProposeFollows(d.approvals, Proposal(agent, resource, price));
  }

  lemma NextFollows(cfg: Settings, d: Desk, e: Event)
    ensures Follows(d.approvals, Next(cfg, d, e).approvals)
  {
    if e.Purchase? && Precheck(cfg, d.tables, e.req).Ok? {
      EnforceFollows(cfg, d, Precheck(cfg, d.tables, e.req).value.agent, e.req.resource, e.req.price);
    }
  }

  lemma FollowsTwice(a: seq<ApprovalRow>, b: seq<ApprovalRow>, c: seq<ApprovalRow>)
    requires Follows(a, b) && Follows(b, c)
    ensures Follows(a, c)
  {
  }

  /** Decisions are final: over any run a rejected or spent approval stays so, and none is ever deleted or rewritten. */
  lemma {:induction false} DecisionsAreFinal(cfg: Settings, d: Desk, events: seq<Event>)
    ensures Follows(d.approvals, Run(cfg, d, events).approvals)
    decreases |events|
  {
    if events != [] {
      var init := Run(cfg, d, events[..|events| - 1]);
      DecisionsAreFinal(cfg, d, events[..|events| - 1]);
      NextFollows(cfg, init, events[|events| - 1]);
      FollowsTwice(d.approvals, init.approvals, Run(cfg, d, events).approvals);
    }
  }

  // ---- planning agrees with buying ----

  /** If event i charges this agent, it is at this price. */
  ghost predicate PricedAt(cfg: Settings, d: Desk, events: seq<Event>, agent: Pubkey, price: U64, i: nat)
    requires i < |events|
  {
    Charges(cfg, Run(cfg, d, events[..i]), events[i], agent) ==> events[i].req.price == price
  }

  /** Everything this agent is charged for is at one price. Other events, human decisions among them, are free. */
  ghost predicate AtOnePrice(cfg: Settings, d: Desk, events: seq<Event>, agent: Pubkey, price: U64) {
    forall i :: 0 <= i < |events| ==> PricedAt(cfg, d, events, agent, price, i)
  }

  ghost function ChargeCount(cfg: Settings, d: Desk, events: seq<Event>, agent: Pubkey): nat
    decreases |events|
  {
    if events == [] then 0
    else
      var (init, last) := (events[..|events| - 1], events[|events| - 1]);
      ChargeCount(cfg, d, init, agent) + (if Charges(cfg, Run(cfg, d, init), last, agent) then 1 else 0)
  }

  lemma OnePricePrefix(cfg: Settings, d: Desk, events: seq<Event>, agent: Pubkey, price: U64)
    requires events != [] && AtOnePrice(cfg, d, events, agent, price)
    ensures AtOnePrice(cfg, d, events[..|events| - 1], agent, price)
  {
    var init := events[..|events| - 1];
    forall i | 0 <= i < |init| ensures PricedAt(cfg, d, init, agent, price, i) {
      assert PricedAt(cfg, d, events, agent, price, i);
      assert init[..i] == events[..i] && init[i] == events[i];
    }
  }

  lemma ChargeFits(cfg: Settings, d: Desk, e: Event, agent: Pubkey)
    requires Charges(cfg, d, e, agent) && TotalMarks(Next(cfg, d, e).tables, agent) == TotalMarks(d.tables, agent) + e.req.price
    requires agent in d.agents && d.agents[agent].policy.Some? && d.agents[agent].policy.value.maxTotal <= I64_MAX
    ensures TotalMarks(Next(cfg, d, e).tables, agent) <= I64_MAX
  {
    ChargePassedEnvelope(cfg, d, e, agent);
    EnforcePassed(cfg, d, agent, e.req.resource, e.req.price);
  }

  /** What a run charged this agent in all. */
  ghost function Paid(cfg: Settings, d: Desk, events: seq<Event>, agent: Pubkey): nat
    decreases |events|
  {
    if events == [] then 0
    else
      var (init, last) := (events[..|events| - 1], events[|events| - 1]);
      Paid(cfg, d, init, agent) + (if Charges(cfg, Run(cfg, d, init), last, agent) then last.req.price else 0)
  }

  /** Over any run the agent's marks rise by exactly the prices it was charged and its calls by how often. */
  lemma {:induction false} SpendIsWhatWasCharged(cfg: Settings, d: Desk, events: seq<Event>, agent: Pubkey)
    requires TablesOk(cfg.hash, d.tables)
    ensures
      var d' := Run(cfg, d, events);
      && TablesOk(cfg.hash, d'.tables) && d'.agents == d.agents
      && TotalMarks(d'.tables, agent) == TotalMarks(d.tables, agent) + Paid(cfg, d, events, agent)
      && TotalCalls(d'.tables, agent) == TotalCalls(d.tables, agent) + ChargeCount(cfg, d, events, agent)
    decreases |events|
  {
    if events != [] {
      SpendIsWhatWasCharged(cfg, d, events[..|events| - 1], agent);
      NextTotals(cfg, Run(cfg, d, events[..|events| - 1]), events[|events| - 1], agent);
    }
  }

  lemma {:induction false} SpendStaysReadable(cfg: Settings, d: Desk, events: seq<Event>, agent: Pubkey)
    requires TablesOk(cfg.hash, d.tables) && TotalMarks(d.tables, agent) <= I64_MAX
    requires agent in d.agents && d.agents[agent].policy.Some? && d.agents[agent].policy.value.maxTotal <= I64_MAX
    ensures TotalMarks(Run(cfg, d, events).tables, agent) <= I64_MAX
    decreases |events|
  {
    if events != [] {
      var (init, last) := (events[..|events| - 1], events[|events| - 1]);
      SpendStaysReadable(cfg, d, init, agent);
      SpendIsWhatWasCharged(cfg, d, init, agent);
      NextTotals(cfg, Run(cfg, d, init), last, agent);
      if Charges(cfg, Run(cfg, d, init), last, agent) {
        ChargeFits(cfg, Run(cfg, d, init), last, agent);
      }
    }
  }

  lemma OneMore(n: nat, price: nat)
    ensures (n + 1) * price == n * price + price
  {
  }

  lemma {:induction false} PaidAtOnePrice(cfg: Settings, d: Desk, events: seq<Event>, agent: Pubkey, price: U64)
    requires AtOnePrice(cfg, d, events, agent, price)
    ensures Paid(cfg, d, events, agent) == ChargeCount(cfg, d, events, agent) * price
    decreases |events|
  {
    if events != [] {
      var init := events[..|events| - 1];
      OnePricePrefix(cfg, d, events, agent, price);
      PaidAtOnePrice(cfg, d, init, agent, price);
      assert PricedAt(cfg, d, events, agent, price, |events| - 1);
      OneMore(ChargeCount(cfg, d, init, agent), price);
    }
  }

  // ---- exactly when a purchase is charged ----

  /** What the session itself allows, leaving the envelope aside: all of it the caller can read beforehand. */
  predicate SessionAllows(t: Tables, record: SessionRecord, req: BuyRequest) {
    && !record.isSettled && req.now <= record.expiresAt + 30
    && req.price > 0 && record.cumulativeAccepted + req.price <= record.depositedTotal
    && (record.lastNonce.Some? ==> req.claim.nonce > record.lastNonce.value)
    && req.claim.nonce <= I64_MAX
    && RoomInLog(t, req.claim.session)
  }

  lemma ChargedExactly(cfg: Settings, t: Tables, req: BuyRequest)
    requires TablesOk(cfg.hash, t) && Precheck(cfg, t, req).Ok?
    ensures Charge(cfg, t, req).1.Charged? <==> SessionAllows(t, Precheck(cfg, t, req).value, req)
  {
    AdmitShape(cfg.hash, t, req.claim, req.signature, req.now);
  }

  /** The envelope passes exactly what it does not refuse and, where a human decides, has been granted. */
  lemma EnforceExactly(cfg: Settings, d: Desk, agent: Pubkey, resource: string, price: U64)
    requires agent in d.agents && d.agents[agent].policy.Some?
    requires AgentSpend(d.tables, agent).Ok? && price <= I64_MAX
    ensures
      var (a, p) := (d.agents[agent], Proposal(agent, resource, price));
      Enforce(cfg, d, agent, resource, price).1.Ok? <==>
        && !Evaluate(a.status, a.mode, a.policy.value, resource, price, AgentSpend(d.tables, agent).value).Refuse?
        && (Asks(a.mode, a.policy.value, price) ==> CountFor(d.approvals, p, Approved) > 0)
  {
    ConsumeSpends(d.approvals, Proposal(agent, resource, price), Proposal(agent, resource, price));
  }

  lemma BuyComposes(cfg: Settings, d: Desk, req: BuyRequest)
    ensures Buy(cfg, d, req).1.Charged? <==>
      && Precheck(cfg, d.tables, req).Ok?
      && Enforce(cfg, d, Precheck(cfg, d.tables, req).value.agent, req.resource, req.price).1.Ok?
      && Charge(cfg, d.tables, req).1.Charged?
  {
  }

  lemma AdmitAnswers(cfg: Settings, t: Tables, req: BuyRequest)
    requires TablesOk(cfg.hash, t) && Precheck(cfg, t, req).Ok?
    ensures
      var record := Precheck(cfg, t, req).value;
      var verdict := EvaluateClaim(record, req.claim, req.now);
      AdmitAlone(cfg.hash, t, req.claim, req.signature, req.now).1
        == if !(record.isSettled || RoomInLog(t, req.claim.session)) || (verdict.Ok? && req.claim.nonce > I64_MAX) then Err(OutOfRange)
           else Ok(verdict)
  {
    AdmitShape(cfg.hash, t, req.claim, req.signature, req.now);
  }

  /** What a caller past the envelope hears: the rule's own refusal, the store's failure, or the charge the rule computed. */
  lemma ChargeAnswers(cfg: Settings, t: Tables, req: BuyRequest)
    requires TablesOk(cfg.hash, t) && Precheck(cfg, t, req).Ok?
    ensures
      var (record, r) := (Precheck(cfg, t, req).value, Charge(cfg, t, req).1);
      var verdict := EvaluateClaim(record, req.claim, req.now);
      var recordable := record.isSettled || RoomInLog(t, req.claim.session);
      && (forall rejection :: r == Denied(ClaimRefused(rejection)) <==> verdict == Err(rejection) && recordable)
      && (r == Denied(StoreDown) <==> !recordable || (verdict.Ok? && req.claim.nonce > I64_MAX))
      && (r.Charged? <==> verdict.Ok? && recordable && req.claim.nonce <= I64_MAX)
      && (r.Charged? ==> r.accepted == verdict.value && r.delivered == req.delivered)
  {
    AdmitAnswers(cfg, t, req);
  }

  /** What a caller before the admission hears from the envelope, and what becomes of the approvals. */
  lemma EnforceAnswers(cfg: Settings, d: Desk, agent: Pubkey, resource: string, price: U64)
    ensures
      var (rows, r) := Enforce(cfg, d, agent, resource, price);
      if agent !in d.agents then rows == d.approvals && r == (if cfg.requirePolicy then Err(PolicyRequired) else Ok(()))
      else
        var a := d.agents[agent];
        if a.status == Suspended then rows == d.approvals && r == Err(AgentSuspended)
        else if a.policy.None? then rows == d.approvals && r == (if cfg.requirePolicy then Err(PolicyRequired) else Ok(()))
        else if AgentSpend(d.tables, agent).Err? then rows == d.approvals && r == Err(ControlPlaneUnavailable)
        else
          var decision := Evaluate(a.status, a.mode, a.policy.value, resource, price, AgentSpend(d.tables, agent).value);
          && (decision.Refuse? ==> rows == d.approvals && r == Err(ByPolicy(decision.rule)))
          && (decision == Allow ==> rows == d.approvals && r == Ok(()))
          && (decision == NeedsApproval ==> (rows, r) == SpendOrPropose(d.approvals, Proposal(agent, resource, price)))
  {
  }

  /** A purchase is charged exactly when its claim pays the price, the session allows it and the envelope lets it through. */
  lemma BuyChargesExactly(cfg: Settings, d: Desk, req: BuyRequest)
    requires TablesOk(cfg.hash, d.tables)
    ensures Buy(cfg, d, req).1.Charged? <==>
      && Precheck(cfg, d.tables, req).Ok?
      && SessionAllows(d.tables, Precheck(cfg, d.tables, req).value, req)
      && Enforce(cfg, d, Precheck(cfg, d.tables, req).value.agent, req.resource, req.price).1.Ok?
  {
    BuyComposes(cfg, d, req);
    if Precheck(cfg, d.tables, req).Ok? {
      ChargedExactly(cfg, d.tables, req);
    }
  }

  lemma DepositFitsColumn(cfg: Settings, t: Tables, req: BuyRequest)
    requires Precheck(cfg, t, req).Ok? && SessionAllows(t, Precheck(cfg, t, req).value, req)
    ensures req.price <= I64_MAX
    ensures req.claim.session in t.sessions && Precheck(cfg, t, req).value.agent == t.sessions[req.claim.session].agent
  {
  }

  /** After n charges at one price, the envelope refuses the next exactly when the planner did not count it. */
  lemma EnvelopeFollowsPlan(cfg: Settings, d: Desk, events: seq<Event>, agent: Pubkey, resource: string, price: U64)
    requires TablesOk(cfg.hash, d.tables) && AgentSpend(d.tables, agent).Ok?
    requires agent in d.agents && d.agents[agent].policy.Some? && d.agents[agent].policy.value.maxTotal <= I64_MAX
    requires AtOnePrice(cfg, d, events, agent, price)
    ensures
      var (a, d', n) := (d.agents[agent], Run(cfg, d, events), ChargeCount(cfg, d, events, agent));
      && TablesOk(cfg.hash, d'.tables) && d'.agents == d.agents
      && AgentSpend(d'.tables, agent).Ok?
      && (Buyable(a, a.policy.value, resource, price, AgentSpend(d.tables, agent).value, n) <==>
          !Evaluate(a.status, a.mode, a.policy.value, resource, price, AgentSpend(d'.tables, agent).value).Refuse?)
  {
    SpendIsWhatWasCharged(cfg, d, events, agent);
    SpendStaysReadable(cfg, d, events, agent);
    PaidAtOnePrice(cfg, d, events, agent, price);
    SpendReadBack(d.tables, Run(cfg, d, events).tables, agent, price, ChargeCount(cfg, d, events, agent));
  }

  /** Without an envelope only the status and the deployment's own demand for one count. */
  lemma EnforceWithoutEnvelope(cfg: Settings, d: Desk, agent: Pubkey, resource: string, price: U64)
    requires agent in d.agents && d.agents[agent].policy.None?
    ensures Enforce(cfg, d, agent, resource, price).1.Ok? <==> d.agents[agent].status == Active && !cfg.requirePolicy
  {
  }

  /** An agent nobody has recorded buys unless an envelope is demanded of everyone. */
  lemma UnrecordedAgentBuys(cfg: Settings, d: Desk, req: BuyRequest, agent: Pubkey)
    requires TablesOk(cfg.hash, d.tables) && agent !in d.agents
    requires req.claim.session in d.tables.sessions && d.tables.sessions[req.claim.session].agent == agent
    ensures Buy(cfg, d, req).1.Charged? <==> SessionSells(cfg, d.tables, req) && !cfg.requirePolicy
    ensures Buy(cfg, d, req).0.approvals == d.approvals
  {
    BuyChargesExactly(cfg, d, req);
    PrecheckExactly(cfg, d.tables, req);
  }

  /** What stands between a planned purchase and the admission: a human's approval, or without an envelope the status and the demand for one. */
  predicate LetThrough(cfg: Settings, d: Desk, agent: Pubkey, resource: string, price: U64)
    requires agent in d.agents
  {
    var a := d.agents[agent];
    match a.policy
    case None => a.status == Active && !cfg.requirePolicy
    case Some(policy) => Asks(a.mode, policy, price) ==> CountFor(d.approvals, Proposal(agent, resource, price), Approved) > 0
  }

  /** The session's part of a purchase: the claim pays the price and the session allows it. */
  predicate SessionSells(cfg: Settings, t: Tables, req: BuyRequest) {
    Precheck(cfg, t, req).Ok? && SessionAllows(t, Precheck(cfg, t, req).value, req)
  }

  /** A recorded agent's purchase, given what the envelope, if there is one, says of it. */
  lemma RecordedAgentBuys(cfg: Settings, d: Desk, req: BuyRequest, agent: Pubkey)
    requires TablesOk(cfg.hash, d.tables) && agent in d.agents
    requires d.agents[agent].policy.Some? ==> AgentSpend(d.tables, agent).Ok?
    requires req.claim.session in d.tables.sessions && d.tables.sessions[req.claim.session].agent == agent
    ensures
      var a := d.agents[agent];
      Buy(cfg, d, req).1.Charged? <==>
        && SessionSells(cfg, d.tables, req)
        && (a.policy.Some? ==>
              !Evaluate(a.status, a.mode, a.policy.value, req.resource, req.price, AgentSpend(d.tables, agent).value).Refuse?)
        && LetThrough(cfg, d, agent, req.resource, req.price)
  {
    BuyChargesExactly(cfg, d, req);
    if SessionSells(cfg, d.tables, req) {
      DepositFitsColumn(cfg, d.tables, req);
      if d.agents[agent].policy.Some? {
        EnforceExactly(cfg, d, agent, req.resource, req.price);
      } else {
        EnforceWithoutEnvelope(cfg, d, agent, req.resource, req.price);
      }
    }
  }

  /** What the planner counts: without an envelope, whatever is asked for. */
  ghost predicate Counted(d: Desk, agent: Pubkey, resource: string, price: U64, n: nat)
    requires agent in d.agents && (d.agents[agent].policy.Some? ==> AgentSpend(d.tables, agent).Ok?)
  {
    var a := d.agents[agent];
    a.policy.Some? ==> Buyable(a, a.policy.value, resource, price, AgentSpend(d.tables, agent).value, n)
  }

  /**
   The plan agrees with buying, exactly as far as the planner can see, for every
   recorded agent. After any run in which the agent was charged n times, under an
   envelope at one price, the next purchase at that price is charged if and only if
   the planner, asked before the first, counted it; and the claim pays the price and
   the session, which the planner does not look at, allows it: a positive price, within
   the deposit, in time, unsettled, with a fresh nonce; and it is let through: with an
   approval left where a human decides, and without an envelope only for an active
   agent and only where none is demanded.
   */
  lemma {:induction false} PlanAgreesWithBuying(cfg: Settings, d: Desk, events: seq<Event>, agent: Pubkey, req: BuyRequest)
    requires TablesOk(cfg.hash, d.tables) && agent in d.agents
    requires d.agents[agent].policy.Some? ==>
      && AgentSpend(d.tables, agent).Ok?
      && d.agents[agent].policy.value.maxTotal <= I64_MAX
      && AtOnePrice(cfg, d, events, agent, req.price)
    requires
      var t := Run(cfg, d, events).tables;
      req.claim.session in t.sessions && t.sessions[req.claim.session].agent == agent
    ensures Run(cfg, d, events).agents == d.agents
    ensures
      var (d', n) := (Run(cfg, d, events), ChargeCount(cfg, d, events, agent));
      Buy(cfg, d', req).1.Charged? <==>
        && Counted(d, agent, req.resource, req.price, n)
        && SessionSells(cfg, d'.tables, req)
        && LetThrough(cfg, d', agent, req.resource, req.price)
  {
    SpendIsWhatWasCharged(cfg, d, events, agent);
    if d.agents[agent].policy.Some? {
      EnvelopeFollowsPlan(cfg, d, events, agent, req.resource, req.price);
    }
    RecordedAgentBuys(cfg, Run(cfg, d, events), req, agent);
  }

  /** An option of a plan says the same: its count is how many purchases are counted. */
  lemma OptionCounts(d: Desk, agent: Pubkey, calls: U32, offer: Planning.Offer, option: Planning.PlanOption, n: nat)
    requires agent in d.agents && AgentSpend(d.tables, agent).Ok? && n < calls
    requires Planning.Describes(d.agents[agent], AgentSpend(d.tables, agent).value, calls, offer, option)
    ensures n < option.affordableCalls <==> Counted(d, agent, offer.resource, option.unitPrice, n)
  {
  }

  // ---- where every approval goes ----

  /** Event e reaches the envelope with p, a human decides on it, and an approval is left. */
  ghost predicate SpendsApproval(cfg: Settings, d: Desk, e: Event, p: Proposal) {
    && e.Purchase? && Precheck(cfg, d.tables, e.req).Ok?
    && p == Proposal(Precheck(cfg, d.tables, e.req).value.agent, e.req.resource, e.req.price)
    && NeedsHuman(d, p) && CountFor(d.approvals, p, Approved) > 0
  }

  ghost predicate NeedsHuman(d: Desk, p: Proposal) {
    && p.agent in d.agents && d.agents[p.agent].policy.Some? && AgentSpend(d.tables, p.agent).Ok?
    && var a := d.agents[p.agent];
       Evaluate(a.status, a.mode, a.policy.value, p.resource, p.price, AgentSpend(d.tables, p.agent).value).NeedsApproval?
  }

  /** The approval is spent before the admission, which then refuses: the session does not allow the purchase. */
  ghost predicate BurnsApproval(cfg: Settings, d: Desk, e: Event, p: Proposal) {
    SpendsApproval(cfg, d, e, p) && !SessionAllows(d.tables, Precheck(cfg, d.tables, e.req).value, e.req)
  }

  lemma NoGrantsBeyondColumn(rows: seq<ApprovalRow>, p: Proposal)
    requires p.price > I64_MAX
    ensures CountFor(rows, p, Approved) == 0
  {
    NoneCounted(rows, p, Approved);
  }

  lemma ConsumesIff(rows: seq<ApprovalRow>, p: Proposal)
    ensures SpendOrPropose(rows, p).1.Ok? <==> CountFor(rows, p, Approved) > 0
  {
    if p.price > I64_MAX {
      NoGrantsBeyondColumn(rows, p);
    } else {
      ConsumeSpends(rows, p, p);
    }
  }

  /** The envelope spends an approval exactly when a human decides and one is left, and that proposal's only. */
  lemma EnforceSpends(cfg: Settings, d: Desk, spent: Proposal, p: Proposal)
    ensures CountFor(Enforce(cfg, d, spent.agent, spent.resource, spent.price).0, p, Consumed)
         == CountFor(d.approvals, p, Consumed)
            + (if p == spent && NeedsHuman(d, spent) && CountFor(d.approvals, spent, Approved) > 0 then 1 else 0)
  {
    if NeedsHuman(d, spent) {
      SpendOrProposeCounts(d.approvals, spent, p);
      ConsumesIff(d.approvals, spent);
    }
  }

  lemma NextSpends(cfg: Settings, d: Desk, e: Event, p: Proposal)
    ensures CountFor(Next(cfg, d, e).approvals, p, Consumed)
         == CountFor(d.approvals, p, Consumed) + (if SpendsApproval(cfg, d, e, p) then 1 else 0)
  {
    match e
    case Purchase(req) =>
      if Precheck(cfg, d.tables, req).Ok? {
        EnforceSpends(cfg, d, Proposal(Precheck(cfg, d.tables, req).value.agent, req.resource, req.price), p);
      }
    case Decision(id, approved) => DecideGrants(d.approvals, id, approved, p);
    case _ =>
  }

  lemma PrecheckAgent(cfg: Settings, t: Tables, req: BuyRequest)
    requires Precheck(cfg, t, req).Ok?
    ensures req.claim.session in t.sessions && t.sessions[req.claim.session].agent == Precheck(cfg, t, req).value.agent
  {
  }

  /** A spent approval pays for a charge exactly when the session allows the purchase. */
  lemma SpentChargesIff(cfg: Settings, d: Desk, e: Event, p: Proposal)
    requires TablesOk(cfg.hash, d.tables)
    ensures ChargesByApproval(cfg, d, e, p)
       <==> SpendsApproval(cfg, d, e, p) && SessionAllows(d.tables, Precheck(cfg, d.tables, e.req).value, e.req)
  {
    if e.Purchase? && Precheck(cfg, d.tables, e.req).Ok? {
      PrecheckAgent(cfg, d.tables, e.req);
      if NeedsHuman(d, p) && p.agent == Precheck(cfg, d.tables, e.req).value.agent {
        RecordedAgentBuys(cfg, d, e.req, p.agent);
      }
    } else if e.Purchase? {
      BuyChargesExactly(cfg, d, e.req);
    }
  }

  /** One purchase spends an approval without charging anything exactly when it reaches an approval and the session refuses. */
  lemma BurnsExactly(cfg: Settings, d: Desk, req: BuyRequest, p: Proposal)
    requires TablesOk(cfg.hash, d.tables)
    ensures CountFor(Buy(cfg, d, req).0.approvals, p, Consumed) > CountFor(d.approvals, p, Consumed) && !Buy(cfg, d, req).1.Charged?
       <==> BurnsApproval(cfg, d, Purchase(req), p)
  {
    NextSpends(cfg, d, Purchase(req), p);
    BuyChargesExactly(cfg, d, req);
    SpentChargesIff(cfg, d, Purchase(req), p);
    if Precheck(cfg, d.tables, req).Ok? {
      PrecheckAgent(cfg, d.tables, req);
    }
  }

  ghost function BurnedApprovals(cfg: Settings, d: Desk, events: seq<Event>, p: Proposal): nat
    decreases |events|
  {
    if events == [] then 0
    else
      var (init, last) := (events[..|events| - 1], events[|events| - 1]);
      BurnedApprovals(cfg, d, init, p) + (if BurnsApproval(cfg, Run(cfg, d, init), last, p) then 1 else 0)
  }

  /**
   Every human approval is accounted for: it is left, or it paid for a charge, or it was
   spent on a purchase the session then refused.
   */
  lemma {:induction false} ApprovalsAccounted(cfg: Settings, d: Desk, events: seq<Event>, p: Proposal)
    requires TablesOk(cfg.hash, d.tables) && d.approvals == []
    ensures CountFor(Run(cfg, d, events).approvals, p, Consumed)
         == ApprovedCharges(cfg, d, events, p) + BurnedApprovals(cfg, d, events, p)
    ensures HumanApprovals(cfg, d, events, p)
         == CountFor(Run(cfg, d, events).approvals, p, Approved) + ApprovedCharges(cfg, d, events, p) + BurnedApprovals(cfg, d, events, p)
    decreases |events|
  {
    ApprovalsCoverCharges(cfg, d, events, p);
    if events != [] {
      var (init, last) := (events[..|events| - 1], events[|events| - 1]);
      ApprovalsAccounted(cfg, d, init, p);
      SpendIsWhatWasCharged(cfg, d, init, p.agent);
      NextSpends(cfg, Run(cfg, d, init), last, p);
      SpentChargesIff(cfg, Run(cfg, d, init), last, p);
    }
  }

  // ---- where the plan and buying part ----

  /** A free resource is planned for as far as the call limit goes and never sold: its claim raises nothing. */
  lemma FreeIsPlannedNeverSold(cfg: Settings, d: Desk, agent: Agent, policy: AgentPolicy, spend: Spend, req: BuyRequest, n: nat)
    requires TablesOk(cfg.hash, d.tables) && req.price == 0
    ensures Buyable(agent, policy, req.resource, 0, spend, n) <==>
      && AllowedAtAll(agent, policy, req.resource, 0)
      && (policy.maxCalls.None? || spend.calls + n < policy.maxCalls.value)
      && spend.spent <= policy.maxTotal
    ensures !Buy(cfg, d, req).1.Charged?
  {
    BuyableExactly(agent, policy, req.resource, 0, spend, n);
    BuyChargesExactly(cfg, d, req);
  }

  /** Past the deposit nothing is sold, and for every such purchase there is an envelope whose plan counts it. */
  lemma DepositIsNotPlanned(cfg: Settings, d: Desk, spend: Spend, req: BuyRequest) returns (agent: Agent)
    requires TablesOk(cfg.hash, d.tables) && Precheck(cfg, d.tables, req).Ok?
    requires Precheck(cfg, d.tables, req).value.cumulativeAccepted + req.price > Precheck(cfg, d.tables, req).value.depositedTotal
    requires spend.spent + req.price <= U64_MAX
    ensures !Buy(cfg, d, req).1.Charged?
    ensures agent.policy.Some? && Buyable(agent, agent.policy.value, req.resource, req.price, spend, 0)
  {
    BuyChargesExactly(cfg, d, req);
    agent := Agent(Active, Autonomous, Some(AgentPolicy(U64_MAX, U64_MAX, None, None, None)));
    BuyableExactly(agent, agent.policy.value, req.resource, req.price, spend, 0);
  }

  /**
   An agent without an envelope is planned for in full, whatever its status; and once
   suspended, or where an envelope is demanded, it is sold nothing.
   */
  lemma NoEnvelopeIsPlannedNotSold(cfg: Settings, d: Desk, agent: Pubkey, spend: Spend, calls: U32,
                                   offer: Planning.Offer, option: Planning.PlanOption, req: BuyRequest)
    requires TablesOk(cfg.hash, d.tables) && agent in d.agents && d.agents[agent].policy.None?
    requires d.agents[agent].status != Active || cfg.requirePolicy
    requires req.claim.session in d.tables.sessions && d.tables.sessions[req.claim.session].agent == agent
    requires Planning.Describes(d.agents[agent], spend, calls, offer, option)
    ensures option.affordableCalls == calls && option.sufficient && option.refusedBy.None?
    ensures !Buy(cfg, d, req).1.Charged?
  {
    RecordedAgentBuys(cfg, d, req, agent);
  }
}
