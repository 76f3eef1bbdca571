/**
 The planner (`gateway/src/control.rs`, `plan_options`): for each offer, how many
 calls the envelope affords, found by walking forward one purchase at a time.
 */
module Planning {
  import opened Bytes
  import opened Wrappers
  import opened Policies

  /** One catalogue entry; a price that is not a u64 is None. */
  datatype Offer = Offer(providerId: string, resource: string, price: Option<U64>)

  datatype PlanOption = PlanOption(
    providerId: string, resource: string, unitPrice: U64, affordableCalls: U32, totalCost: U64,
    sufficient: bool, refusedBy: Option<PolicyRefusal>, needsApproval: bool)

  /** What the planner says of one offer, stated without the walk. */
  ghost predicate Describes(agent: Agent, spend: Spend, calls: U32, offer: Offer, option: PlanOption) {
    && offer.price == Some(option.unitPrice)
    && option.providerId == offer.providerId && option.resource == offer.resource
    && option.affordableCalls <= calls
    && option.sufficient == (option.affordableCalls == calls)
    && option.totalCost == Saturate(option.affordableCalls * option.unitPrice)
    && match agent.policy
       case None => option.affordableCalls == calls && option.refusedBy.None? && !option.needsApproval
       case Some(policy) =>
         && (forall k: nat :: k < calls ==>
               (k < option.affordableCalls <==> Buyable(agent, policy, offer.resource, option.unitPrice, spend, k)))
         && option.totalCost == option.affordableCalls * option.unitPrice
         && (option.refusedBy.None? <==> Buyable(agent, policy, offer.resource, option.unitPrice, spend, 0))
         && (option.refusedBy.Some? ==>
               Evaluate(agent.status, agent.mode, policy, offer.resource, option.unitPrice, spend) == Refuse(option.refusedBy.value))
         && (option.needsApproval <==>
               Evaluate(agent.status, agent.mode, policy, offer.resource, option.unitPrice, spend) == NeedsApproval)
  }

  /** `u64::saturating_add` and `saturating_mul` end here. */
  function Saturate(n: nat): U64 {
    if n <= U64_MAX then n else U64_MAX
  }

  /** The walk: the greatest number of purchases, up to the request, none of which is refused. */
  method Walk(agent: Agent, policy: AgentPolicy, resource: string, unit: U64, spend: Spend, calls: U32) returns (n: U32)
    ensures n <= calls
    ensures forall k: nat :: k < n ==> Buyable(agent, policy, resource, unit, spend, k)
    ensures n < calls ==> !Buyable(agent, policy, resource, unit, spend, n)
    ensures n > 0 ==> spend.spent + n * unit <= policy.maxTotal
  {
    n := 0;
    var running := spend;
    while n < calls
      invariant n <= calls
      invariant spend.spent + n * unit <= U64_MAX && running == SpendAfter(spend, unit, n)
      invariant n > 0 ==> spend.spent + n * unit <= policy.maxTotal
      invariant forall k: nat :: k < n ==> Buyable(agent, policy, resource, unit, spend, k)
    {
      if Evaluate(agent.status, agent.mode, policy, resource, unit, running).Refuse? {
        break;
      }
      BuyableExactly(agent, policy, resource, unit, spend, n);
      StepOn(spend, unit, n);
      running := Spend(Saturate(running.spent + unit), Min(running.calls + 1, U32_MAX));
      n := n + 1;
    }
  }

  lemma StepOn(spend: Spend, unit: U64, n: nat)
    requires spend.spent + n * unit <= U64_MAX && spend.spent + (n + 1) * unit <= U64_MAX
    ensures (n + 1) * unit == n * unit + unit
    ensures SpendAfter(spend, unit, n + 1) == Spend(SpendAfter(spend, unit, n).spent + unit, Min(SpendAfter(spend, unit, n).calls + 1, U32_MAX))
  {
  }

  /** One envelope against one price: how many calls, which rule stops the first, and whether each would wait for a human. */
  method Afford(agent: Agent, policy: AgentPolicy, resource: string, unit: U64, spend: Spend, calls: U32)
      returns (n: U32, refusedBy: Option<PolicyRefusal>, needsApproval: bool)
    ensures n <= calls && n * unit <= U64_MAX
    ensures forall k: nat :: k < n ==> Buyable(agent, policy, resource, unit, spend, k)
    ensures n < calls ==> !Buyable(agent, policy, resource, unit, spend, n)
    ensures refusedBy.None? <==> Buyable(agent, policy, resource, unit, spend, 0)
    ensures refusedBy.Some? ==> Evaluate(agent.status, agent.mode, policy, resource, unit, spend) == Refuse(refusedBy.value)
    ensures needsApproval <==> Evaluate(agent.status, agent.mode, policy, resource, unit, spend) == NeedsApproval
  {
    var first := Evaluate(agent.status, agent.mode, policy, resource, unit, spend);
    assert SpendAfter(spend, unit, 0) == spend;
    match first
    case Refuse(rule) =>
      n, refusedBy, needsApproval := 0, Some(rule), false;
    case _ =>
      n := Walk(agent, policy, resource, unit, spend, calls);
      refusedBy, needsApproval := None, first.NeedsApproval?;
  }

  lemma RefusedFromThere(agent: Agent, policy: AgentPolicy, resource: string, unit: U64, spend: Spend, n: nat, calls: nat)
    requires n < calls ==> !Buyable(agent, policy, resource, unit, spend, n)
    ensures forall k: nat :: n <= k < calls ==> !Buyable(agent, policy, resource, unit, spend, k)
  {
    forall k: nat | n <= k < calls ensures !Buyable(agent, policy, resource, unit, spend, k) {
      if Buyable(agent, policy, resource, unit, spend, k) {
        BuyableDownward(agent, policy, resource, unit, spend, n, k);
      }
    }
  }

  method Describe(agent: Agent, spend: Spend, offer: Offer, unit: U64, calls: U32) returns (option: PlanOption)
    requires offer.price == Some(unit)
    ensures Describes(agent, spend, calls, offer, option)
  {
    var affordable: U32, refusedBy, needsApproval := calls, None, false;
    if agent.policy.Some? {
      affordable, refusedBy, needsApproval := Afford(agent, agent.policy.value, offer.resource, unit, spend, calls);
      RefusedFromThere(agent, agent.policy.value, offer.resource, unit, spend, affordable, calls);
    }
    option := PlanOption(offer.providerId, offer.resource, unit, affordable, Saturate(affordable * unit),
                         affordable >= calls, refusedBy, needsApproval);
  }

  /** The offers a plan describes: those for the resource whose price is a u64. */
  function Matching(offers: seq<Offer>, wanted: string): seq<Offer> {
    if offers == [] then []
    else
      var (init, last) := (offers[..|offers| - 1], offers[|offers| - 1]);
      if last.resource == wanted && last.price.Some? then Matching(init, wanted) + [last] else Matching(init, wanted)
  }

  predicate Offered(offer: Offer, wanted: string) {
    offer.resource == wanted && offer.price.Some?
  }

  /** One offer is kept exactly when it is for the resource at a readable price ... */
  lemma MatchingOne(offer: Offer, wanted: string)
    ensures Matching([offer], wanted) == if Offered(offer, wanted) then [offer] else []
  {
    assert [offer][..0] == [];
  }

  /** ... and what is kept of two lists is what is kept of the first, then of the second. */
  lemma {:induction false} MatchingSplits(a: seq<Offer>, b: seq<Offer>, wanted: string)
    ensures Matching(a + b, wanted) == Matching(a, wanted) + Matching(b, wanted)
    decreases |b|
  {
    if b == [] {
      assert a + b == a;
    } else {
      MatchingSplits(a, b[..|b| - 1], wanted);
      assert (a + b)[..|a + b| - 1] == a + b[..|b| - 1];
    }
  }

  /** So every offer for the resource at a readable price is kept, as often as it is listed, and no other. */
  lemma {:induction false} MatchingKeeps(offers: seq<Offer>, wanted: string, offer: Offer)
    ensures multiset(Matching(offers, wanted))[offer] == (if Offered(offer, wanted) then multiset(offers)[offer] else 0)
    decreases |offers|
  {
    if offers != [] {
      var (init, last) := (offers[..|offers| - 1], offers[|offers| - 1]);
      MatchingKeeps(init, wanted, offer);
      assert offers == init + [last];
    }
  }

  /** The first of the cheapest options that afford a call. */
  predicate Recommends(options: seq<PlanOption>, pick: Option<nat>) {
    match pick
    case None => forall j :: 0 <= j < |options| ==> options[j].affordableCalls == 0
    case Some(i) =>
      && i < |options| && options[i].affordableCalls > 0
      && (forall j :: 0 <= j < |options| && options[j].affordableCalls > 0 ==> options[i].unitPrice <= options[j].unitPrice)
      && (forall j :: 0 <= j < i && options[j].affordableCalls > 0 ==> options[i].unitPrice < options[j].unitPrice)
  }

  method DescribeAll(agent: Agent, spend: Spend, offers: seq<Offer>, wanted: string, calls: U32) returns (options: seq<PlanOption>)
    ensures |options| == |Matching(offers, wanted)|
    ensures forall i :: 0 <= i < |options| ==> Describes(agent, spend, calls, Matching(offers, wanted)[i], options[i])
  {
    options := [];
    for i := 0 to |offers|
      invariant |options| == |Matching(offers[..i], wanted)|
      invariant forall k :: 0 <= k < |options| ==> Describes(agent, spend, calls, Matching(offers[..i], wanted)[k], options[k])
    {
      assert offers[..i + 1][..i] == offers[..i];
      if offers[i].resource == wanted && offers[i].price.Some? {
        var option := Describe(agent, spend, offers[i], offers[i].price.value, calls);
        options := options + [option];
      }
    }
    assert offers[..|offers|] == offers;
  }

  method Recommend(options: seq<PlanOption>) returns (pick: Option<nat>)
    ensures Recommends(options, pick)
  {
    pick := None;
    for i := 0 to |options|
      invariant Recommends(options[..i], pick)
    {
      if options[i].affordableCalls > 0 && (pick.None? || options[i].unitPrice < options[pick.value].unitPrice) {
        pick := Some(i);
      }
    }
    assert options[..|options|] == options;
  }

  method PlanOptions(agent: Agent, spend: Spend, offers: seq<Offer>, wanted: string, calls: U32)
      returns (options: seq<PlanOption>, pick: Option<nat>)
    ensures |options| == |Matching(offers, wanted)|
    ensures forall i :: 0 <= i < |options| ==> Describes(agent, spend, calls, Matching(offers, wanted)[i], options[i])
    ensures Recommends(options, pick)
  {
    options := DescribeAll(agent, spend, offers, wanted, calls);
    pick := Recommend(options);
  }

  // ---- the walk against arithmetic ----

  function BudgetQuotient(policy: AgentPolicy, unit: U64, spend: Spend): nat
    requires unit > 0
  {
    if spend.spent <= policy.maxTotal then (policy.maxTotal - spend.spent) / unit else 0
  }

  function RemainingCalls(policy: AgentPolicy, spend: Spend): Option<nat> {
    if policy.maxCalls.None? then None
    else Some(if spend.calls <= policy.maxCalls.value then policy.maxCalls.value - spend.calls else 0)
  }

  lemma QuotientBounds(budget: nat, unit: nat, n: nat)
    requires unit > 0
    ensures n * unit <= budget <==> n <= budget / unit
  {
    if n <= budget / unit {
      assert n * unit <= (budget / unit) * unit;
    } else {
      assert n * unit >= (budget / unit + 1) * unit;
    }
  }

  /**
   For a positive price the number the walk finds is the least of the request, what
   is left of the budget divided by the price, and the calls left; and zero when the
   purchase is forbidden outright.
   */
  lemma PlanIsExact(agent: Agent, policy: AgentPolicy, resource: string, unit: U64, spend: Spend, calls: U32, n: nat)
    requires unit > 0
    requires n <= calls
    requires forall k: nat :: k < calls ==> (k < n <==> Buyable(agent, policy, resource, unit, spend, k))
    ensures n ==
      if !AllowedAtAll(agent, policy, resource, unit) then 0
      else
        var byBudget := Min(calls, BudgetQuotient(policy, unit, spend));
        if RemainingCalls(policy, spend).None? then byBudget else Min(byBudget, RemainingCalls(policy, spend).value)
  {
    if n > 0 {
      BuyableExactly(agent, policy, resource, unit, spend, n - 1);
      QuotientBounds(policy.maxTotal - spend.spent, unit, n);
    }
    if n < calls {
      BuyableExactly(agent, policy, resource, unit, spend, n);
      if spend.spent <= policy.maxTotal {
        QuotientBounds(policy.maxTotal - spend.spent, unit, n + 1);
      }
    }
  }

  /** A free resource is limited by nothing but the request, the call limit and an already exceeded budget. */
  lemma FreePlanIsExact(agent: Agent, policy: AgentPolicy, resource: string, spend: Spend, calls: U32, n: nat)
    requires n <= calls
    requires forall k: nat :: k < calls ==> (k < n <==> Buyable(agent, policy, resource, 0, spend, k))
    ensures n ==
      if !AllowedAtAll(agent, policy, resource, 0) || spend.spent > policy.maxTotal then 0
      else if RemainingCalls(policy, spend).None? then calls
      else Min(calls, RemainingCalls(policy, spend).value)
  {
    if n > 0 {
      BuyableExactly(agent, policy, resource, 0, spend, n - 1);
    }
    if n < calls {
      BuyableExactly(agent, policy, resource, 0, spend, n);
    }
  }
}
