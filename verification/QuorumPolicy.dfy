/** Quorum configuration per (tenant, action type), and the table-driven
    policy engine's decision lookup. */
module Quorums {
  import opened Common
  import opened Contracts
  import opened Approvals

  datatype QuorumRule = QuorumRule(required: int, eligible: Option<seq<string>>)

  const SINGLE_APPROVER := QuorumRule(1, None)

  type Rules = map<(string, ActionType), QuorumRule>

  function Resolve(rules: Rules, tenant: string, kind: ActionType): QuorumRule {
    if (tenant, kind) in rules then rules[(tenant, kind)] else SINGLE_APPROVER
  }

  /** Every configured rule could be armed. */
  ghost predicate AllArmable(rules: Rules) {
    forall k :: k in rules ==> ValidArming(rules[k].required, rules[k].eligible)
  }

  function Configured(rules: Rules, tenant: string, kind: ActionType, required: int,
                   eligible: Option<seq<string>>): (Rules, Result<QuorumRule, QueueError>)
  {
    if tenant == "" || !ValidArming(required, eligible) then (rules, Failure(BadArguments))
    else (rules[(tenant, kind) := QuorumRule(required, eligible)], Success(QuorumRule(required, eligible)))
  }

  type Policies = map<string, map<string, PolicyDecision>>

  /** Exact key, then "default", then "*", then the safe default. */
  function Decide(policies: Policies, tenant: string, kind: ActionType): PolicyDecision {
    if tenant !in policies then ApprovalRequired
    else if TypeKey(kind) in policies[tenant] then policies[tenant][TypeKey(kind)]
    else if "default" in policies[tenant] then policies[tenant]["default"]
    else if "*" in policies[tenant] then policies[tenant]["*"]
    else ApprovalRequired
  }

  datatype PolicyError = EmptyTenant | UnknownDecision

  /** The decision a policy table's word stands for. */
  function Decision(word: string): Option<PolicyDecision> {
    if word == "auto" then Some(Auto)
    else if word == "approval_required" then Some(ApprovalRequired)
    else if word == "reject" then Some(Reject)
    else None
  }

  /** Each decision has one word, and any other word is refused. */
  lemma DecisionWords(word: string)
    ensures Decision(word) == Some(Auto) <==> word == "auto"
    ensures Decision(word) == Some(ApprovalRequired) <==> word == "approval_required"
    ensures Decision(word) == Some(Reject) <==> word == "reject"
    ensures Decision(word) == None <==> word !in ["auto", "approval_required", "reject"]
  {
    assert "auto" != "approval_required" && "reject" != "approval_required";
    assert "auto"[0] != "reject"[0];
  }

  class QuorumPolicy {
    var rules: Rules

    ghost predicate Valid()
      reads this
    {
      AllArmable(rules)
    }

    constructor ()
      ensures Valid() && rules == map[]
    {
      rules := map[];
    }

    method SetRule(tenant: string, kind: ActionType, required: int, eligible: Option<seq<string>>)
      returns (r: Result<QuorumRule, QueueError>)
      requires Valid()
      modifies this
      ensures Valid()
      ensures (rules, r) == Configured(old(rules), tenant, kind, required, eligible)
      ensures r.Success? <==>
                && tenant != "" && required >= 1
                && (eligible.Some? ==> NoDup(eligible.value) && required <= |eligible.value|)
      ensures r.Success? ==> r.value == QuorumRule(required, eligible) && rules == old(rules)[(tenant, kind) := r.value]
      ensures r.Failure? ==> rules == old(rules)
    {
      if tenant == "" || required < 1 {
        return Failure(BadArguments);
      }
      if eligible.Some? && (!NoDup(eligible.value) || required > |eligible.value|) {
        return Failure(BadArguments);
      }
      rules := rules[(tenant, kind) := QuorumRule(required, eligible)];
      r := Success(QuorumRule(required, eligible));
    }

    /** Whatever is configured, the rule handed to `enqueue` is never refused. */
    method ResolveRule(tenant: string, kind: ActionType) returns (rule: QuorumRule)
      requires Valid()
      ensures rule == Resolve(rules, tenant, kind)
      ensures (tenant, kind) in rules ==> rule == rules[(tenant, kind)]
      ensures (tenant, kind) !in rules ==> rule.required == 1 && rule.eligible == None
      ensures ValidArming(rule.required, rule.eligible)
    {
      rule := if (tenant, kind) in rules then rules[(tenant, kind)] else SINGLE_APPROVER;
    }
  }

  class PolicyEngine {
    var byTenant: Policies

    constructor ()
      ensures byTenant == map[]
    {
      byTenant := map[];
    }

    /** Every word is checked before the table replaces the tenant's old one. */
    method SetPolicies(tenant: string, words: map<string, string>) returns (r: Result<(), PolicyError>)
      modifies this
      ensures r == if tenant == "" then Failure(EmptyTenant)
                   else if forall k :: k in words ==> Decision(words[k]).Some? then Success(())
                   else Failure(UnknownDecision)
      ensures r.Failure? ==> byTenant == old(byTenant)
      ensures r.Success? ==>
                && tenant in byTenant && byTenant == old(byTenant)[tenant := byTenant[tenant]]
                && byTenant[tenant].Keys == words.Keys
                && forall k :: k in words ==> Decision(words[k]) == Some(byTenant[tenant][k])
    {
      if tenant == "" {
        return Failure(EmptyTenant);
      }
      var normalized: map<string, PolicyDecision> := map[];
      var left := words.Keys;
      while left != {}
        invariant left <= words.Keys && normalized.Keys == words.Keys - left
        invariant forall k :: k in normalized ==> Decision(words[k]) == Some(normalized[k])
        decreases |left|
      {
        var k :| k in left;
        var decision := Decision(words[k]);
        if decision.None? {
          return Failure(UnknownDecision);
        }
        normalized := normalized[k := decision.value];
        left := left - {k};
      }
      byTenant := byTenant[tenant := normalized];
      r := Success(());
    }
  }
}
