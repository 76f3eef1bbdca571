/**
 What an agent has committed, derived from the money tables (`gateway/src/control_db.rs`,
 `agent_spend`), and how one admission changes it.
 */
module Spending {
  import opened Bytes
  import opened Wrappers
  import opened Claims
  import opened Admission
  import opened Postgres
  import opened Policies
  import Evidence

  // ---- sums over a set of sessions ----

  ghost function SumOver(keys: set<Pubkey>, f: Pubkey -> int): int {
    if keys == {} then 0
    else
      var k :| k in keys;
      f(k) + SumOver(keys - {k}, f)
  }

  /** The order of summation does not matter: any one term can be taken out first. */
  lemma {:induction false} SumWithout(keys: set<Pubkey>, k: Pubkey, f: Pubkey -> int)
    requires k in keys
    ensures SumOver(keys, f) == f(k) + SumOver(keys - {k}, f)
  {
    var j :| j in keys && SumOver(keys, f) == f(j) + SumOver(keys - {j}, f);
    if j != k {
      SumWithout(keys - {j}, k, f);
      SumWithout(keys - {k}, j, f);
      assert keys - {j} - {k} == keys - {k} - {j};
    }
  }

  lemma {:induction false} SumAgrees(keys: set<Pubkey>, f: Pubkey -> int, g: Pubkey -> int)
    requires forall k :: k in keys ==> f(k) == g(k)
    ensures SumOver(keys, f) == SumOver(keys, g)
  {
    if keys != {} {
      var k :| k in keys;
      SumWithout(keys, k, f);
      SumWithout(keys, k, g);
      SumAgrees(keys - {k}, f, g);
    }
  }

  lemma SumChanges(keys: set<Pubkey>, k: Pubkey, f: Pubkey -> int, g: Pubkey -> int)
    requires k in keys && forall j :: j in keys && j != k ==> f(j) == g(j)
    ensures SumOver(keys, g) == SumOver(keys, f) + g(k) - f(k)
  {
    SumWithout(keys, k, f);
    SumWithout(keys, k, g);
    SumAgrees(keys - {k}, f, g);
  }

  // ---- the two columns of the query ----

  /** What session s contributes to the agent's spend. */
  function MarkOf(t: Tables, agent: Pubkey, s: Pubkey): int {
    if s in t.sessions && t.sessions[s].agent == agent && s in t.tickets then t.tickets[s].cumulative else 0
  }

  function AllowedRows(rows: seq<EvidenceRow>): nat {
    if rows == [] then 0
    else AllowedRows(rows[..|rows| - 1]) + (if rows[|rows| - 1].decision == Evidence.DecisionBytes(Evidence.Allowed) then 1 else 0)
  }

  /** How many admitted purchases session s contributes. */
  function CallsOf(t: Tables, agent: Pubkey, s: Pubkey): int {
    if s in t.sessions && t.sessions[s].agent == agent then AllowedRows(t.Rows(s)) else 0
  }

  function Marks(t: Tables, agent: Pubkey): Pubkey -> int {
    (s: Pubkey) => MarkOf(t, agent, s)
  }

  function Calls(t: Tables, agent: Pubkey): Pubkey -> int {
    (s: Pubkey) => CallsOf(t, agent, s)
  }

  ghost function TotalMarks(t: Tables, agent: Pubkey): int {
    SumOver(t.sessions.Keys, Marks(t, agent))
  }

  ghost function TotalCalls(t: Tables, agent: Pubkey): int {
    SumOver(t.sessions.Keys, Calls(t, agent))
  }

  /** The sum is cast to a signed 64-bit integer, which raises when it does not fit; the count is capped. */
  ghost function AgentSpend(t: Tables, agent: Pubkey): DbResult<Spend> {
    var (spent, calls) := (TotalMarks(t, agent), TotalCalls(t, agent));
    if !(I64_MIN <= spent <= I64_MAX) then Err(OutOfRange)
    else if spent < 0 then Err(NegativeAmount)
    else Ok(Spend(spent, if calls < 0 then 0 else Min(calls, U32_MAX)))
  }

  lemma {:induction false} SumOfNonNegative(keys: set<Pubkey>, f: Pubkey -> int)
    requires forall k :: k in keys ==> f(k) >= 0
    ensures SumOver(keys, f) >= 0
  {
    if keys != {} {
      var k :| k in keys;
      SumWithout(keys, k, f);
      SumOfNonNegative(keys - {k}, f);
    }
  }

  /** What is read back when the totals have moved by n purchases at one price. */
  lemma SpendReadBack(t: Tables, t': Tables, agent: Pubkey, price: U64, n: nat)
    requires AgentSpend(t, agent).Ok?
    requires TotalMarks(t', agent) == TotalMarks(t, agent) + n * price <= I64_MAX
    requires TotalCalls(t', agent) == TotalCalls(t, agent) + n
    ensures AgentSpend(t', agent) == Ok(SpendAfter(AgentSpend(t, agent).value, price, n))
  {
    SumOfNonNegative(t.sessions.Keys, Calls(t, agent));
  }

  method ReadAgentSpend(t: Tables, agent: Pubkey) returns (r: DbResult<Spend>)
    ensures r == AgentSpend(t, agent)
  {
    var spent, calls := 0, 0;
    var keys := t.sessions.Keys;
    while keys != {}
      invariant keys <= t.sessions.Keys
      invariant spent + SumOver(keys, Marks(t, agent)) == TotalMarks(t, agent)
      invariant calls + SumOver(keys, Calls(t, agent)) == TotalCalls(t, agent)
    {
      var k :| k in keys;
      SumWithout(keys, k, Marks(t, agent));
      SumWithout(keys, k, Calls(t, agent));
      spent := spent + MarkOf(t, agent, k);
      calls := calls + CallsOf(t, agent, k);
      keys := keys - {k};
    }
    if !(I64_MIN <= spent <= I64_MAX) {
      return Err(OutOfRange);
    }
    if spent < 0 {
      return Err(NegativeAmount);
    }
    return Ok(Spend(spent, if calls < 0 then 0 else Min(calls, U32_MAX)));
  }

  // ---- what each statement does to the two sums ----

  lemma AllowedRowsAppend(rows: seq<EvidenceRow>, row: EvidenceRow)
    ensures AllowedRows(rows + [row])
         == AllowedRows(rows) + (if row.decision == Evidence.DecisionBytes(Evidence.Allowed) then 1 else 0)
  {
    assert (rows + [row])[..|rows|] == rows;
  }

  lemma OnlyAllowedReadsAllowed(d: Evidence.Decision)
    ensures Evidence.DecisionBytes(d) == Evidence.DecisionBytes(Evidence.Allowed) <==> d == Evidence.Allowed
  {
    Evidence.ParsePrints(d);
    Evidence.ParsePrints(Evidence.Allowed);
  }

  /** Changing one session's ticket and log changes the totals by what changed there. */
  lemma TotalsChange(t: Tables, t': Tables, agent: Pubkey, k: Pubkey)
    requires t'.sessions == t.sessions
    requires forall s :: s != k ==> t'.Ticket(s) == t.Ticket(s) && t'.Rows(s) == t.Rows(s)
    ensures TotalMarks(t', agent) - TotalMarks(t, agent) == MarkOf(t', agent, k) - MarkOf(t, agent, k)
    ensures TotalCalls(t', agent) - TotalCalls(t, agent) == CallsOf(t', agent, k) - CallsOf(t, agent, k)
  {
    forall s | s != k ensures MarkOf(t', agent, s) == MarkOf(t, agent, s) && CallsOf(t', agent, s) == CallsOf(t, agent, s) {
      assert t'.Ticket(s) == t.Ticket(s);
    }
    if k in t.sessions {
      SumChanges(t.sessions.Keys, k, Marks(t, agent), Marks(t', agent));
      SumChanges(t.sessions.Keys, k, Calls(t, agent), Calls(t', agent));
    } else {
      SumAgrees(t.sessions.Keys, Marks(t, agent), Marks(t', agent));
      SumAgrees(t.sessions.Keys, Calls(t, agent), Calls(t', agent));
    }
  }

  lemma AllowedRowsHere(h: Hash, t: Tables, claim: Claim, signature: Signature, now: I64)
    requires TablesOk(h, t) && claim.session in t.sessions
    ensures
      var (t', r) := AdmitAlone(h, t, claim, signature, now);
      AllowedRows(t'.Rows(claim.session)) == AllowedRows(t.Rows(claim.session)) + (if r.Ok? && r.value.Ok? then 1 else 0)
  {
    if AdmitAlone(h, t, claim, signature, now).0 != t {
      var d, row := AdmitAppends(h, t, claim, signature, now);
      AllowedRowsAppend(t.Rows(claim.session), row);
      OnlyAllowedReadsAllowed(d);
    } else {
      UnchangedAcceptsNothing(h, t, claim, signature, now);
    }
  }

  lemma UnchangedAcceptsNothing(h: Hash, t: Tables, claim: Claim, signature: Signature, now: I64)
    requires TablesOk(h, t) && claim.session in t.sessions && AdmitAlone(h, t, claim, signature, now).0 == t
    ensures AdmitAlone(h, t, claim, signature, now).1.Err? || AdmitAlone(h, t, claim, signature, now).1.value.Err?
  {
    AdmitKeepsTablesOk(h, t, claim, signature, now);
  }

  lemma MarkHere(h: Hash, t: Tables, claim: Claim, signature: Signature, now: I64)
    requires TablesOk(h, t) && claim.session in t.sessions
    ensures
      var (agent, s) := (t.sessions[claim.session].agent, claim.session);
      var (t', r) := AdmitAlone(h, t, claim, signature, now);
      MarkOf(t', agent, s) == MarkOf(t, agent, s) + (if r.Ok? && r.value.Ok? then r.value.value.delta else 0)
  {
    AdmitShape(h, t, claim, signature, now);
  }

  /** One admission moves its agent's totals by its delta and one call when accepted, and nobody else's ever. */
  lemma AdmissionByAgent(h: Hash, t: Tables, claim: Claim, signature: Signature, now: I64, agent: Pubkey)
    requires TablesOk(h, t)
    ensures
      var (t', r) := AdmitAlone(h, t, claim, signature, now);
      var moved := r.Ok? && r.value.Ok? && claim.session in t.sessions && t.sessions[claim.session].agent == agent;
      && TotalMarks(t', agent) == TotalMarks(t, agent) + (if moved then r.value.value.delta else 0)
      && TotalCalls(t', agent) == TotalCalls(t, agent) + (if moved then 1 else 0)
  {
    AdmitKeepsTablesOk(h, t, claim, signature, now);
    TotalsChange(t, AdmitAlone(h, t, claim, signature, now).0, agent, claim.session);
    if claim.session in t.sessions {
      AllowedRowsHere(h, t, claim, signature, now);
      MarkHere(h, t, claim, signature, now);
    }
  }

  /** Opening a session commits nothing. */
  lemma OpeningCommitsNothing(h: Hash, t: Tables, record: SessionRecord, agent: Pubkey)
    requires TablesOk(h, t) && SaveSession(t, record).Ok?
    ensures TotalMarks(SaveSession(t, record).value.0, agent) == TotalMarks(t, agent)
    ensures TotalCalls(SaveSession(t, record).value.0, agent) == TotalCalls(t, agent)
  {
    var t' := SaveSession(t, record).value.0;
    if t' != t {
      var (marks, calls) := (Marks(t', agent), Calls(t', agent));
      assert t'.sessions.Keys - {record.session} == t.sessions.Keys;
      assert t.Rows(record.session) == [];
      SumWithout(t'.sessions.Keys, record.session, marks);
      SumWithout(t'.sessions.Keys, record.session, calls);
      SumAgrees(t.sessions.Keys, Marks(t, agent), marks);
      SumAgrees(t.sessions.Keys, Calls(t, agent), calls);
    }
  }

  /** Nor do the two session flags. */
  lemma FlagsCommitNothing(t: Tables, t': Tables, agent: Pubkey)
    requires t'.sessions.Keys == t.sessions.Keys && t'.tickets == t.tickets && t'.evidence == t.evidence
    requires forall s :: s in t.sessions ==> t'.sessions[s].agent == t.sessions[s].agent
    ensures TotalMarks(t', agent) == TotalMarks(t, agent) && TotalCalls(t', agent) == TotalCalls(t, agent)
  {
    forall s ensures MarkOf(t', agent, s) == MarkOf(t, agent, s) && CallsOf(t', agent, s) == CallsOf(t, agent, s) {
      assert t'.Rows(s) == t.Rows(s);
    }
    SumAgrees(t.sessions.Keys, Marks(t, agent), Marks(t', agent));
    SumAgrees(t.sessions.Keys, Calls(t, agent), Calls(t', agent));
  }
}
