/**
 The permission envelope and its evaluation (`gateway/src/policy.rs`). Resource
 names are taken as already normalised.
 */
module Policies {
  import opened Bytes
  import opened Wrappers

  datatype AgentMode = Human | Autonomous

  datatype AgentStatus = Active | Suspended

  /** `maxCalls` None is unlimited; `approvalThreshold` None never asks; `allowedResources` None or empty is every resource. */
  datatype AgentPolicy = AgentPolicy(
    maxTotal: U64, maxPerCall: U64, approvalThreshold: Option<U64>,
    allowedResources: Option<seq<string>>, maxCalls: Option<U32>)

  datatype Agent = Agent(status: AgentStatus, mode: AgentMode, policy: Option<AgentPolicy>)

  datatype Spend = Spend(spent: U64, calls: U32)

  datatype PolicyRefusal = SuspendedAgent | ResourceNotAllowed | PriceCap | Budget | CallLimit

  datatype PolicyDecision = Allow | NeedsApproval | Refuse(rule: PolicyRefusal)

  function Evaluate(status: AgentStatus, mode: AgentMode, policy: AgentPolicy, resource: string, price: U64, soFar: Spend): PolicyDecision {
    if status != Active then Refuse(SuspendedAgent)
    else if policy.allowedResources.Some? && policy.allowedResources.value != [] && resource !in policy.allowedResources.value
    then Refuse(ResourceNotAllowed)
    else if price > policy.maxPerCall then Refuse(PriceCap)
    else if policy.maxCalls.Some? && soFar.calls >= policy.maxCalls.value then Refuse(CallLimit)
    else if soFar.spent + price > U64_MAX then Refuse(Budget)
    else if soFar.spent + price > policy.maxTotal then Refuse(Budget)
    else if mode.Human? || (policy.approvalThreshold.Some? && price >= policy.approvalThreshold.value) then NeedsApproval
    else Allow
  }

  /** What each rule forbids, on its own. */
  predicate Breaks(rule: PolicyRefusal, status: AgentStatus, policy: AgentPolicy, resource: string, price: U64, soFar: Spend) {
    match rule
    case SuspendedAgent => status == Suspended
    case ResourceNotAllowed =>
      && policy.allowedResources.Some? && |policy.allowedResources.value| > 0
      && forall i :: 0 <= i < |policy.allowedResources.value| ==> policy.allowedResources.value[i] != resource
    case PriceCap => policy.maxPerCall < price
    case CallLimit => policy.maxCalls.Some? && policy.maxCalls.value <= soFar.calls
    case Budget => policy.maxTotal < soFar.spent + price
  }

  /** The order in which the rules are looked at. */
  function RuleAt(i: nat): PolicyRefusal
    requires i < 5
  {
    match i
    case 0 => SuspendedAgent
    case 1 => ResourceNotAllowed
    case 2 => PriceCap
    case 3 => CallLimit
    case _ => Budget
  }

  /**
   The decision names the first rule broken, in that order; with none broken, a human is
   asked in human mode or from the threshold on, and otherwise the purchase is allowed.
   */
  lemma EvaluatesExactly(status: AgentStatus, mode: AgentMode, policy: AgentPolicy, resource: string, price: U64, soFar: Spend)
    ensures
      var decision := Evaluate(status, mode, policy, resource, price, soFar);
      var asks := mode == Human || (policy.approvalThreshold.Some? && policy.approvalThreshold.value <= price);
      && (forall i: nat :: i < 5 ==>
            (decision == Refuse(RuleAt(i)) <==>
              && Breaks(RuleAt(i), status, policy, resource, price, soFar)
              && forall j: nat :: j < i ==> !Breaks(RuleAt(j), status, policy, resource, price, soFar)))
      && (!decision.Refuse? <==> forall i: nat :: i < 5 ==> !Breaks(RuleAt(i), status, policy, resource, price, soFar))
      && (decision == NeedsApproval <==> !decision.Refuse? && asks)
      && (decision == Allow <==> !decision.Refuse? && !asks)
  {
    RulesInOrder(status, policy, resource, price, soFar);
  }

  lemma RulesInOrder(status: AgentStatus, policy: AgentPolicy, resource: string, price: U64, soFar: Spend)
    ensures RuleAt(0) == SuspendedAgent && RuleAt(1) == ResourceNotAllowed && RuleAt(2) == PriceCap && RuleAt(3) == CallLimit && RuleAt(4) == Budget
    ensures (policy.allowedResources.Some? ==> (resource in policy.allowedResources.value <==>
               exists i :: 0 <= i < |policy.allowedResources.value| && policy.allowedResources.value[i] == resource))
  {
  }

  /** Whether a human decides on purchases at this price. */
  predicate Asks(mode: AgentMode, policy: AgentPolicy, price: U64) {
    mode.Human? || (policy.approvalThreshold.Some? && price >= policy.approvalThreshold.value)
  }

  // ---- repeated purchases at one price ----

  function Min(a: int, b: int): (m: int)
    ensures m == a || m == b
    ensures m <= a && m <= b
  {
    if a <= b then a else b
  }

  /** The history after n more purchases, as it is read back: the call count is capped at the top of u32. */
  function SpendAfter(spend: Spend, price: U64, n: nat): Spend
    requires spend.spent + n * price <= U64_MAX
  {
    Spend(spend.spent + n * price, Min(spend.calls + n, U32_MAX))
  }

  /** Purchase number n (from zero) at this price is not refused. */
  predicate Buyable(agent: Agent, policy: AgentPolicy, resource: string, price: U64, spend: Spend, n: nat) {
    spend.spent + n * price <= U64_MAX
    && !Evaluate(agent.status, agent.mode, policy, resource, price, SpendAfter(spend, price, n)).Refuse?
  }

  /** What a purchase must satisfy whatever the history. */
  predicate AllowedAtAll(agent: Agent, policy: AgentPolicy, resource: string, price: U64) {
    && agent.status == Active
    && (policy.allowedResources.None? || policy.allowedResources.value == [] || resource in policy.allowedResources.value)
    && price <= policy.maxPerCall
  }

  /** The branches of the evaluation as two bounds on the history, in unbounded arithmetic. */
  lemma BuyableExactly(agent: Agent, policy: AgentPolicy, resource: string, price: U64, spend: Spend, n: nat)
    ensures Buyable(agent, policy, resource, price, spend, n) <==>
      && AllowedAtAll(agent, policy, resource, price)
      && (policy.maxCalls.None? || spend.calls + n < policy.maxCalls.value)
      && spend.spent + (n + 1) * price <= policy.maxTotal
  {
    assert (n + 1) * price == n * price + price;
  }

  lemma ScaleMonotone(m: nat, n: nat, price: nat)
    requires m <= n
    ensures m * price <= n * price
  {
    assert n * price == m * price + (n - m) * price;
  }

  /** Once refused at a price, always refused at it. */
  lemma BuyableDownward(agent: Agent, policy: AgentPolicy, resource: string, price: U64, spend: Spend, m: nat, n: nat)
    requires m <= n && Buyable(agent, policy, resource, price, spend, n)
    ensures Buyable(agent, policy, resource, price, spend, m)
  {
    BuyableExactly(agent, policy, resource, price, spend, n);
    BuyableExactly(agent, policy, resource, price, spend, m);
    ScaleMonotone(m + 1, n + 1, price);
  }

  /** Whether a human is asked does not depend on the history, so it is the same for every purchase of a plan. */
  lemma ApprovalIndependentOfHistory(agent: Agent, policy: AgentPolicy, resource: string, price: U64, spend: Spend, other: Spend)
    requires !Evaluate(agent.status, agent.mode, policy, resource, price, spend).Refuse?
    requires !Evaluate(agent.status, agent.mode, policy, resource, price, other).Refuse?
    ensures Evaluate(agent.status, agent.mode, policy, resource, price, spend)
         == Evaluate(agent.status, agent.mode, policy, resource, price, other)
  {
  }
}
