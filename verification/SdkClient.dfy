/**
 The SDK's purchase client (`sdk/src/client.ts`): two counters kept beside the
 gateway's mark and nonce. Retries are off, as they are by default.
 */
module SdkClient {
  import opened Bytes
  import opened Wrappers
  import opened Claims
  import opened Admission
  import opened Postgres
  import opened Spending
  import opened Purchases

  /** The client's own idea of what it has committed; its integers are unbounded. */
  datatype Counters = Counters(session: Pubkey, cumulative: nat, nonce: nat)

  /**
   What varies from one attempt to the next: the price quoted and the price then
   asked, whether the provider could be reached, whether the gateway's answer came
   back, and the provider's status in it.
   */
  datatype Attempt = Attempt(
    resource: string, quoted: U64, price: U64, expiresAt: I64, signature: Signature, now: I64,
    delivered: bool, heard: bool, status: nat)
  {
    predicate Served() {
      200 <= status < 300
    }

    /** The charge fails at the gateway's end or its answer is lost on the way back. */
    predicate AnswerLost() {
      !delivered || !heard
    }
  }

  /** An attempt either never leaves the client, its claim not being encodable, or is a purchase at the gateway. */
  function RequestOf(c: Counters, a: Attempt): Option<BuyRequest> {
    if EncodableFields(c.session, c.cumulative + a.quoted, c.nonce + 1, a.expiresAt)
    then Some(BuyRequest(a.resource, a.price, Claim(c.session, c.cumulative + a.quoted, c.nonce + 1, a.expiresAt), a.signature, a.now, a.delivered))
    else None
  }

  /** The counters advance only on a successful answer that arrives. */
  function Answered(c: Counters, a: Attempt, outcome: Outcome): (Counters, bool) {
    if outcome.Charged? && outcome.delivered && a.heard
    then (c.(cumulative := c.cumulative + a.quoted, nonce := c.nonce + 1), true)
    else (c, false)
  }

  ghost function BuyOnce(cfg: Settings, d: Desk, c: Counters, a: Attempt): (Desk, Counters, bool) {
    match RequestOf(c, a)
    case None => (d, c, false)
    case Some(req) =>
      var (d', outcome) := Buy(cfg, d, req);
      (d', Answered(c, a, outcome).0, Answered(c, a, outcome).1)
  }

  ghost function ShopOf(cfg: Settings): Shop {
    (d, c, a) => BuyOnce(cfg, d, c, a)
  }

  /** Reads the session back from the gateway. */
  function Resume(t: Tables, s: Pubkey): Option<Counters> {
    if s !in t.sessions || RowToRecord(s, t.sessions[s], t.Ticket(s)).Err? then None
    else
      var r := RowToRecord(s, t.sessions[s], t.Ticket(s)).value;
      Some(Counters(s, r.cumulativeAccepted, if r.lastNonce.Some? then r.lastNonce.value else 0))
  }

  class AgentPayClient {
    const session: Pubkey
    var cumulative: nat
    var nonce: nat

    ghost function View(): Counters
      reads this
    {
      Counters(session, cumulative, nonce)
    }

    constructor (session: Pubkey, startingCumulative: nat, startingNonce: nat)
      ensures View() == Counters(session, startingCumulative, startingNonce)
    {
      this.session, cumulative, nonce := session, startingCumulative, startingNonce;
    }

    /** One attempt; `sent` is None when its claim cannot be encoded, and otherwise what the gateway did. */
    method Buy(g: Gateway, cfg: Settings, a: Attempt) returns (ok: bool, ghost sent: Option<Outcome>)
      modifies this, g.store, g.control
      ensures sent.None? <==> RequestOf(old(View()), a).None?
      ensures sent.None? ==> g.View() == old(g.View()) && View() == old(View()) && !ok
      ensures sent.Some? ==>
        && (g.View(), sent.value) == Purchases.Buy(cfg, old(g.View()), RequestOf(old(View()), a).value)
        && View() == Answered(old(View()), a, sent.value).0 && ok == Answered(old(View()), a, sent.value).1
    {
      var req := RequestOf(Counters(session, cumulative, nonce), a);
      if req.None? {
        return false, None;
      }
      var outcome := g.BuyNow(cfg, req.value);
      ok := outcome.Charged? && outcome.delivered && a.heard;
      if ok {
        cumulative := cumulative + a.quoted;
        nonce := nonce + 1;
      }
      sent := Some(outcome);
    }

    /** `buy`, with a refusal thrown, as the next purchase of a series. */
    method BuyNext(g: Gateway, cfg: Settings, attempts: seq<Attempt>, n: nat, ghost d0: Desk, ghost c0: Counters) returns (ok: bool)
      requires n < |attempts| && Bought(ShopOf(cfg), d0, c0, attempts, n, g.View(), View())
      modifies this, g.store, g.control
      ensures ok ==> AllCharged(ShopOf(cfg), d0, c0, attempts, n + 1, g.View(), View())
      ensures !ok ==> StoppedAfter(ShopOf(cfg), d0, c0, attempts, n, g.View(), View())
    {
      ghost var (d, c) := (g.View(), View());
      ghost var sent;
      ok, sent := Buy(g, cfg, attempts[n]);
      if sent.Some? {
        OnceIs(cfg, d, c, attempts[n], RequestOf(c, attempts[n]).value, g.View(), sent.value);
      } else {
        OnceIsNot(cfg, d, c, attempts[n]);
      }
      AfterOne(ShopOf(cfg), d0, c0, attempts, n, d, c, g.View(), View(), ok);
    }

    /**
     Buys again and again, stopping at the first refusal or at the first answer that
     is not a success; what was bought stays bought.
     */
    method BuyMany(g: Gateway, cfg: Settings, attempts: seq<Attempt>) returns (bought: nat, spent: nat)
      modifies this, g.store, g.control
      ensures StoppedAfter(ShopOf(cfg), old(g.View()), old(View()), attempts, bought, g.View(), View())
      ensures cumulative == old(cumulative) + spent
    {
      bought := 0;
      var before := cumulative;
      ghost var (d0, c0) := (g.View(), View());
      assert attempts[..0] == [];
      while bought < |attempts|
        invariant 0 <= bought <= |attempts| && Bought(ShopOf(cfg), d0, c0, attempts, bought, g.View(), View())
      {
        var ok := BuyNext(g, cfg, attempts, bought, d0, c0);
        if !ok {
          return bought, cumulative - before;
        }
        bought := bought + 1;
        if !attempts[bought - 1].Served() {
          return bought, cumulative - before;
        }
      }
      spent := cumulative - before;
    }
  }

  // ---- repeating one step, whatever it does ----

  /** A way of making one attempt: what it does to the gateway and the client, and whether it succeeded. */
  type Shop = (Desk, Counters, Attempt) -> (Desk, Counters, bool)

  ghost function BuyAll(shop: Shop, d: Desk, c: Counters, attempts: seq<Attempt>): (Desk, Counters)
    decreases |attempts|
  {
    if attempts == [] then (d, c)
    else
      var (d', c') := BuyAll(shop, d, c, attempts[..|attempts| - 1]);
      var (d'', c'', _) := shop(d', c', attempts[|attempts| - 1]);
      (d'', c'')
  }

  function SumOfQuotes(attempts: seq<Attempt>): nat {
    if attempts == [] then 0 else SumOfQuotes(attempts[..|attempts| - 1]) + attempts[|attempts| - 1].quoted
  }

  /** After n purchases, every one charged and every one but perhaps the last answered with success. */
  ghost predicate AllCharged(shop: Shop, d0: Desk, c0: Counters, attempts: seq<Attempt>, n: nat, d: Desk, c: Counters) {
    && n <= |attempts|
    && (d, c) == BuyAll(shop, d0, c0, attempts[..n])
    && c == c0.(cumulative := c0.cumulative + SumOfQuotes(attempts[..n]), nonce := c0.nonce + n)
    && forall i :: 0 <= i < n - 1 ==> attempts[i].Served()
  }

  ghost predicate Bought(shop: Shop, d0: Desk, c0: Counters, attempts: seq<Attempt>, n: nat, d: Desk, c: Counters) {
    AllCharged(shop, d0, c0, attempts, n, d, c) && (n > 0 ==> attempts[n - 1].Served())
  }

  /** What n purchases cost, and why it stopped: nothing left to buy, an answer that was not a success, or a refusal. */
  ghost predicate StoppedAfter(shop: Shop, d0: Desk, c0: Counters, attempts: seq<Attempt>, n: nat, d: Desk, c: Counters) {
    && n <= |attempts|
    && c == c0.(cumulative := c0.cumulative + SumOfQuotes(attempts[..n]), nonce := c0.nonce + n)
    && if n == |attempts| || (n > 0 && !attempts[n - 1].Served()) then AllCharged(shop, d0, c0, attempts, n, d, c)
       else
         var (d1, c1) := BuyAll(shop, d0, c0, attempts[..n]);
         Bought(shop, d0, c0, attempts, n, d1, c1) && shop(d1, c1, attempts[n]) == (d, c, false)
  }

  lemma AfterOne(shop: Shop, d0: Desk, c0: Counters, attempts: seq<Attempt>, n: nat, d: Desk, c: Counters, d': Desk, c': Counters, ok: bool)
    requires n < |attempts| && Bought(shop, d0, c0, attempts, n, d, c) && shop(d, c, attempts[n]) == (d', c', ok)
    requires c' == if ok then c.(cumulative := c.cumulative + attempts[n].quoted, nonce := c.nonce + 1) else c
    ensures ok ==> AllCharged(shop, d0, c0, attempts, n + 1, d', c')
    ensures !ok ==> StoppedAfter(shop, d0, c0, attempts, n, d', c')
  {
    assert attempts[..n + 1][..n] == attempts[..n];
  }

  lemma OnceIsNot(cfg: Settings, d: Desk, c: Counters, a: Attempt)
    requires RequestOf(c, a).None?
    ensures BuyOnce(cfg, d, c, a) == (d, c, false)
  {
  }

  lemma OnceIs(cfg: Settings, d: Desk, c: Counters, a: Attempt, req: BuyRequest, d': Desk, outcome: Outcome)
    requires RequestOf(c, a) == Some(req) && (d', outcome) == Buy(cfg, d, req)
    ensures BuyOnce(cfg, d, c, a) == (d', Answered(c, a, outcome).0, Answered(c, a, outcome).1)
  {
  }

  // ---- the counters and the gateway ----

  /** What the gateway holds of the session: the ticket's two columns, zero before the first claim. */
  function Mark(t: Tables, s: Pubkey): int {
    if t.Ticket(s).Some? then t.Ticket(s).value.cumulative else 0
  }

  function LastNonce(t: Tables, s: Pubkey): int {
    if t.Ticket(s).Some? then t.Ticket(s).value.nonce else 0
  }

  predicate InSync(t: Tables, c: Counters) {
    c.session in t.sessions && c.cumulative == Mark(t, c.session) && c.nonce == LastNonce(t, c.session)
  }

  /** A client in step asks to raise the mark by what it was quoted, under the next nonce, unless that is past the last integer. */
  lemma AsksForNext(t: Tables, c: Counters, a: Attempt)
    requires InSync(t, c)
    ensures
      var (req, ticket) := (RequestOf(c, a), t.Ticket(c.session));
      var mark: int := if ticket.Some? then ticket.value.cumulative else 0;
      var nonce: int := if ticket.Some? then ticket.value.nonce else 0;
      && (req.Some? <==> mark + a.quoted <= 0xFFFF_FFFF_FFFF_FFFF && nonce < 0xFFFF_FFFF_FFFF_FFFF)
      && (req.Some? ==>
            && req.value.claim == Claim(c.session, mark + a.quoted, nonce + 1, a.expiresAt)
            && req.value.price == a.price && req.value.resource == a.resource
            && req.value.signature == a.signature && req.value.now == a.now && req.value.delivered == a.delivered)
  {
  }

  /** The gateway is ahead of the client on both counts. */
  predicate Behind(t: Tables, c: Counters) {
    c.session in t.sessions && t.Ticket(c.session).Some? && c.cumulative < Mark(t, c.session) && c.nonce < LastNonce(t, c.session)
  }

  /** What an attempt does to the ticket: nothing, or exactly the claim that was presented. */
  predicate TicketFollows(t: Tables, t': Tables, req: BuyRequest, r: Outcome) {
    var (s, claim) := (req.claim.session, req.claim);
    && (s in t.sessions <==> s in t'.sessions)
    && (!r.Charged? ==> t'.Ticket(s) == t.Ticket(s))
    && (r.Charged? ==>
          && claim.cumulativeAmount <= I64_MAX && claim.nonce <= I64_MAX
          && t'.Ticket(s) == Some(TicketRow(claim.cumulativeAmount, claim.nonce, claim.expiresAt, req.signature))
          && s in t.sessions && req.price > 0 && r.delivered == req.delivered
          && claim.cumulativeAmount == Mark(t, s) + req.price
          && (t.Ticket(s).Some? ==> claim.nonce > LastNonce(t, s)))
  }

  lemma ChargeTicket(cfg: Settings, t: Tables, req: BuyRequest)
    requires TablesOk(cfg.hash, t) && Precheck(cfg, t, req).Ok?
    ensures TicketFollows(t, Charge(cfg, t, req).0, req, Charge(cfg, t, req).1)
  {
    AdmitShape(cfg.hash, t, req.claim, req.signature, req.now);
  }

  /** A purchase either leaves the session's mark and nonce alone or moves them to the claim's. */
  lemma GatewayCounters(cfg: Settings, d: Desk, req: BuyRequest)
    requires TablesOk(cfg.hash, d.tables)
    ensures TablesOk(cfg.hash, Buy(cfg, d, req).0.tables)
    ensures TicketFollows(d.tables, Buy(cfg, d, req).0.tables, req, Buy(cfg, d, req).1)
  {
    if Precheck(cfg, d.tables, req).Ok? {
      AdmitKeepsTablesOk(cfg.hash, d.tables, req.claim, req.signature, req.now);
      ChargeTicket(cfg, d.tables, req);
    }
  }

  lemma SyncStep(t: Tables, t': Tables, c: Counters, a: Attempt, outcome: Outcome)
    requires InSync(t, c) && RequestOf(c, a).Some?
    requires TicketFollows(t, t', RequestOf(c, a).value, outcome)
    ensures InSync(t', Answered(c, a, outcome).0) <==> !(outcome.Charged? && a.AnswerLost())
    ensures outcome.Charged? && a.AnswerLost() ==> Behind(t', Answered(c, a, outcome).0)
  {
  }

  /**
   A client in step with the gateway stays in step through every outcome of an
   attempt but one: a charge whose answer is lost, the provider failing or the reply
   never arriving. That one always leaves it behind.
   */
  lemma SyncIsKeptExactlyWhen(cfg: Settings, d: Desk, c: Counters, a: Attempt)
    requires TablesOk(cfg.hash, d.tables) && InSync(d.tables, c) && RequestOf(c, a).Some?
    ensures
      var (d', outcome) := Buy(cfg, d, RequestOf(c, a).value);
      var c' := Answered(c, a, outcome).0;
      && TablesOk(cfg.hash, d'.tables)
      && (InSync(d'.tables, c') <==> !(outcome.Charged? && a.AnswerLost()))
      && (outcome.Charged? && a.AnswerLost() ==> Behind(d'.tables, c'))
  {
    var (d', outcome) := Buy(cfg, d, RequestOf(c, a).value);
    GatewayCounters(cfg, d, RequestOf(c, a).value);
    SyncStep(d.tables, d'.tables, c, a, outcome);
  }

  lemma BehindStep(t: Tables, t': Tables, c: Counters, a: Attempt, outcome: Outcome)
    requires Behind(t, c) && RequestOf(c, a).Some?
    requires TicketFollows(t, t', RequestOf(c, a).value, outcome)
    ensures !outcome.Charged? && Answered(c, a, outcome).0 == c
    ensures Behind(t', c) && t'.Ticket(c.session) == t.Ticket(c.session)
  {
  }

  lemma BehindOnce(cfg: Settings, d: Desk, c: Counters, a: Attempt)
    requires TablesOk(cfg.hash, d.tables) && Behind(d.tables, c)
    ensures
      var (d', c', ok) := BuyOnce(cfg, d, c, a);
      && !ok && c' == c && TablesOk(cfg.hash, d'.tables)
      && Behind(d'.tables, c) && d'.tables.Ticket(c.session) == d.tables.Ticket(c.session)
  {
    if RequestOf(c, a).Some? {
      var (d', outcome) := Buy(cfg, d, RequestOf(c, a).value);
      GatewayCounters(cfg, d, RequestOf(c, a).value);
      BehindStep(d.tables, d'.tables, c, a, outcome);
      OnceIs(cfg, d, c, a, RequestOf(c, a).value, d', outcome);
    } else {
      OnceIsNot(cfg, d, c, a);
    }
  }

  /** A client that has fallen behind buys nothing more, at whatever quotes: its nonce has been used. */
  lemma {:induction false} BehindBuysNothing(cfg: Settings, d: Desk, c: Counters, attempts: seq<Attempt>)
    requires TablesOk(cfg.hash, d.tables) && Behind(d.tables, c)
    ensures
      var (d', c') := BuyAll(ShopOf(cfg), d, c, attempts);
      && c' == c && TablesOk(cfg.hash, d'.tables)
      && Behind(d'.tables, c) && d'.tables.Ticket(c.session) == d.tables.Ticket(c.session)
    decreases |attempts|
  {
    if attempts != [] {
      var init := attempts[..|attempts| - 1];
      BehindBuysNothing(cfg, d, c, init);
      BehindOnce(cfg, BuyAll(ShopOf(cfg), d, c, init).0, c, attempts[|attempts| - 1]);
    }
  }

  lemma BehindTraceless(cfg: Settings, d: Desk, c: Counters, a: Attempt)
    requires Behind(d.tables, c) && a.quoted == a.price
    ensures BuyOnce(cfg, d, c, a) == (d, c, false)
  {
  }

  /** ... and as long as its quotes are current, trying leaves no trace at all, in the tables or the approvals. */
  lemma {:induction false} BehindLeavesNoTrace(cfg: Settings, d: Desk, c: Counters, attempts: seq<Attempt>)
    requires Behind(d.tables, c) && forall i :: 0 <= i < |attempts| ==> attempts[i].quoted == attempts[i].price
    ensures BuyAll(ShopOf(cfg), d, c, attempts) == (d, c)
    decreases |attempts|
  {
    if attempts != [] {
      BehindLeavesNoTrace(cfg, d, c, attempts[..|attempts| - 1]);
      BehindTraceless(cfg, d, c, attempts[|attempts| - 1]);
    }
  }

  /**
   What `resume` reads back through the gateway's record is the ticket's two columns,
   so it puts any client of a tracked session in step, whatever was lost, and no
   other counters are.
   */
  lemma ResumeRestores(cfg: Settings, d: Desk, s: Pubkey, c: Counters)
    requires TablesOk(cfg.hash, d.tables)
    ensures Resume(d.tables, s).Some? <==> s in d.tables.sessions
    ensures Resume(d.tables, s) == Some(c) <==> c.session == s && InSync(d.tables, c)
  {
  }
}
