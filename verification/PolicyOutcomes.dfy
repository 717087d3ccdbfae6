/** What the configuration calls of a run decide about the proposals after
    them: which table entry settles a first delivery, and which quorum it arms. */
module PolicyOutcomes {
  import opened Common
  import opened Contracts
  import opened Approvals
  import opened Spine
  import Quorums
  import opened SpineInvariant
  import opened SpineSafety
  import opened SpineResults
  import ExactlyOnce

  // ----- runs, cut in two -----

  lemma {:induction false} RunAppend(s: State, a: seq<Op>, b: seq<Op>)
    ensures Run(s, a + b) == Run(Run(s, a), b)
    ensures AdmissibleRun(s, a + b) <==> AdmissibleRun(s, a) && AdmissibleRun(Run(s, a), b)
    decreases |a|
  {
    hide Step, Admissible;
    if a == [] {
      assert a + b == b;
    } else {
      assert (a + b)[1..] == a[1..] + b;
      RunAppend(Step(s, a[0]).0, a[1..], b);
    }
  }

  lemma RunNone(s: State)
    ensures Run(s, []) == s
  {
  }

  lemma RunOne(s: State, op: Op)
    ensures Run(s, [op]) == Step(s, op).0
    ensures AdmissibleRun(s, [op]) <==> Admissible(s, op)
  {
    hide Step, Admissible;
    assert [op][1..] == [];
  }

  /** The state before the `n`-th call of a run from the empty state. */
  function Before(ops: seq<Op>, n: nat): State
    requires n <= |ops|
  {
    Run(EMPTY, ops[..n])
  }

  lemma BeforeStart(ops: seq<Op>)
    ensures Before(ops, 0) == EMPTY
  {
    RunNone(EMPTY);
  }

  lemma BeforeNext(ops: seq<Op>, n: nat)
    requires n < |ops| && AdmissibleRun(EMPTY, ops)
    ensures Before(ops, n + 1) == Step(Before(ops, n), ops[n]).0
    ensures Coherent(Before(ops, n)) && Admissible(Before(ops, n), ops[n])
  {
    hide Step, Admissible, Coherent;
    assert ops == ops[..n] + ops[n..] && ops[n..] == [ops[n]] + ops[n + 1..] && ops[..n + 1] == ops[..n] + [ops[n]];
    RunAppend(EMPTY, ops[..n], ops[n..]);
    RunAppend(Before(ops, n), [ops[n]], ops[n + 1..]);
    RunAppend(EMPTY, ops[..n], [ops[n]]);
    RunOne(Before(ops, n), ops[n]);
    EmptyCoherent();
    RunCoherent(EMPTY, ops[..n]);
  }

  // ----- the policy table in force -----

  predicate SetsTable(op: Op, t: string) {
    op.SetPolicies? && op.tenant == t
  }

  /** The tenant's table before call `n` is the one set by call `i`. */
  ghost predicate TableSetAt(ops: seq<Op>, n: nat, i: nat, t: string) {
    && i < n <= |ops| && SetsTable(ops[i], t)
    && (forall j :: i < j < n ==> !SetsTable(ops[j], t))
  }

  ghost predicate NeverSet(ops: seq<Op>, n: nat, t: string) {
    n <= |ops| && (forall j :: 0 <= j < n ==> !SetsTable(ops[j], t))
  }

  /** Only configuration calls touch the configuration. */
  lemma ConfigurationKept(s: State, op: Op)
    ensures !op.SetPolicies? ==> Step(s, op).0.policies == s.policies
    ensures !op.SetQuorum? ==> Step(s, op).0.rules == s.rules
  {
    hide LaunchLog, LaunchQueue, Settle, Ran, Lookups, Materialize, VoteRow, VetoRow, ExecutionRow;
    hide Queue.Approve, Queue.Reject, Queue.Update;
  }

  lemma StepPolicies(s: State, op: Op, t: string)
    requires t != ""
    ensures var next := Step(s, op).0.policies;
            if SetsTable(op, t) then t in next && next[t] == op.table
            else (t in next <==> t in s.policies) && (t in next ==> next[t] == s.policies[t])
  {
    hide HandleStep, ApproveStep, RejectStep;
    ConfigurationKept(s, op);
  }

  lemma {:induction false} TableInForce(ops: seq<Op>, n: nat, t: string)
    requires AdmissibleRun(EMPTY, ops) && n <= |ops| && t != ""
    ensures forall i: nat :: TableSetAt(ops, n, i, t) ==>
                               t in Before(ops, n).policies && Before(ops, n).policies[t] == ops[i].table
    ensures NeverSet(ops, n, t) ==> t !in Before(ops, n).policies
  {
    hide Step, Run, AdmissibleRun, Before, Admissible, Coherent;
    if n == 0 {
      assert ops[..0] == [];
      BeforeStart(ops);
    } else {
      TableInForce(ops, n - 1, t);
      BeforeNext(ops, n - 1);
      StepPolicies(Before(ops, n - 1), ops[n - 1], t);
    }
  }

  // ----- how a first delivery ends -----

  /** Call `n` is the first delivery of an event of `t`. */
  ghost predicate FirstDelivery(ops: seq<Op>, n: nat, t: string) {
    && n < |ops| && AdmissibleRun(EMPTY, ops)
    && ops[n].Handle? && ops[n].p.tenant == t
    && (forall j :: 0 <= j < n && ops[j].Handle? ==> (ops[j].p.tenant, ops[j].p.event) != (t, ops[n].p.event))
  }

  /** Executed within the call, without a human. */
  ghost predicate RunsAtOnce(s: State, op: Op, next: State)
    requires op.Handle?
  {
    && op.actionId in next.actions
    && next.actions[op.actionId].status == (if op.exec.Done? then Executed else ExecutionFailed)
    && op.actionId !in next.queue.rows
    && next.invoked == s.invoked + [op.actionId]
  }

  /** Left for the tenant's approvers, with no vote yet. */
  ghost predicate Waits(s: State, op: Op, next: State)
    requires op.Handle?
  {
    && op.actionId in next.actions
    && next.actions[op.actionId].status == PendingApproval
    && next.actions[op.actionId].tenant == op.p.tenant
    && op.actionId in next.queue.rows
    && next.queue.rows[op.actionId].state == Pending
    && next.queue.rows[op.actionId].tenant == op.p.tenant
    && next.queue.rows[op.actionId].approvals == []
    && next.invoked == s.invoked
  }

  /** Refused within the call. */
  ghost predicate Refusing(s: State, op: Op, next: State)
    requires op.Handle?
  {
    && op.actionId in next.actions
    && next.actions[op.actionId].status == Rejected
    && op.actionId !in next.queue.rows
    && next.invoked == s.invoked
  }

  ghost predicate EndsAs(d: PolicyDecision, s: State, op: Op, next: State)
    requires op.Handle?
  {
    match d
    case Auto => RunsAtOnce(s, op, next)
    case ApprovalRequired => Waits(s, op, next)
    case Reject => Refusing(s, op, next)
  }

  lemma {:induction false} EventFresh(ops: seq<Op>, n: nat, k: (string, string))
    requires AdmissibleRun(EMPTY, ops) && n <= |ops|
    requires forall j :: 0 <= j < n && ops[j].Handle? ==> (ops[j].p.tenant, ops[j].p.event) != k
    ensures k !in Before(ops, n).dedup
  {
    hide Step, Run, AdmissibleRun, Before, Admissible, Coherent;
    if n == 0 {
      BeforeStart(ops);
    } else {
      EventFresh(ops, n - 1, k);
      BeforeNext(ops, n - 1);
      ExactlyOnce.StepRemembers(Before(ops, n - 1), ops[n - 1], k);
    }
  }

  lemma RulesArmable(s: State)
    requires Coherent(s)
    ensures Quorums.AllArmable(s.rules)
  {
    hide ActionsOk, IndexOk, RowsOk, PendingOk, DedupOk, InvokedOk, LogOwned, LogTells;
  }

  lemma LaunchEnds(s: State, op: Op)
    requires Quorums.AllArmable(s.rules) && op.Handle? && Admissible(s, op) && (op.p.tenant, op.p.event) !in s.dedup
    ensures EndsAs(Quorums.Decide(s.policies, op.p.tenant, op.p.kind), s, op, Step(s, op).0)
  {
    hide LaunchLog, Quorums.Decide;
  }

  /** The tenant's table in force decides a first delivery: the entry for the
      action's own type whatever else the table holds, then "default", then
      "*", and a human when there is none. */
  lemma TableDecides(ops: seq<Op>, n: nat, i: nat, t: string)
    requires FirstDelivery(ops, n, t) && TableSetAt(ops, n, i, t)
    ensures var (table, key) := (ops[i].table, TypeKey(ops[n].p.kind));
            var (s, next) := (Before(ops, n), Before(ops, n + 1));
            && (key in table ==> EndsAs(table[key], s, ops[n], next))
            && (key !in table && "default" in table ==> EndsAs(table["default"], s, ops[n], next))
            && (key !in table && "default" !in table && "*" in table ==> EndsAs(table["*"], s, ops[n], next))
            && (key !in table && "default" !in table && "*" !in table ==> Waits(s, ops[n], next))
  {
    hide Step, Run, AdmissibleRun, Coherent, Waits, RunsAtOnce, Refusing;
    BeforeNext(ops, n);
    TableInForce(ops, n, t);
    EventFresh(ops, n, (t, ops[n].p.event));
    RulesArmable(Before(ops, n));
    LaunchEnds(Before(ops, n), ops[n]);
  }

  /** A tenant that never set a table has every action approved by a human. */
  lemma UnsetWaits(ops: seq<Op>, n: nat, t: string)
    requires FirstDelivery(ops, n, t) && NeverSet(ops, n, t)
    ensures Waits(Before(ops, n), ops[n], Before(ops, n + 1))
  {
    hide Step, Run, AdmissibleRun, Coherent, Waits, RunsAtOnce, Refusing;
    BeforeNext(ops, n);
    TableInForce(ops, n, t);
    EventFresh(ops, n, (t, ops[n].p.event));
    RulesArmable(Before(ops, n));
    LaunchEnds(Before(ops, n), ops[n]);
  }

  // ----- the quorum in force -----

  /** A quorum call the service accepts: a named tenant, at least one approver,
      and a pool, if any, of distinct names that could supply them. */
  predicate SetsQuorum(op: Op, t: string, kind: ActionType) {
    && op.SetQuorum? && op.tenant == t && op.kind == kind
    && t != "" && op.required >= 1
    && (op.eligible.Some? ==>
          && op.required <= |op.eligible.value|
          && (forall i, j :: 0 <= i < j < |op.eligible.value| ==> op.eligible.value[i] != op.eligible.value[j]))
  }

  ghost predicate QuorumSetAt(ops: seq<Op>, n: nat, i: nat, t: string, kind: ActionType) {
    && i < n <= |ops| && SetsQuorum(ops[i], t, kind)
    && (forall j :: i < j < n ==> !SetsQuorum(ops[j], t, kind))
  }

  ghost predicate QuorumNeverSet(ops: seq<Op>, n: nat, t: string, kind: ActionType) {
    n <= |ops| && (forall j :: 0 <= j < n ==> !SetsQuorum(ops[j], t, kind))
  }

  lemma StepRules(s: State, op: Op, k: (string, ActionType))
    ensures var next := Step(s, op).0.rules;
            if SetsQuorum(op, k.0, k.1) then k in next && next[k] == Quorums.QuorumRule(op.required, op.eligible)
            else (k in next <==> k in s.rules) && (k in next ==> next[k] == s.rules[k])
  {
    hide HandleStep, ApproveStep, RejectStep;
    ConfigurationKept(s, op);
  }

  lemma {:induction false} QuorumInForce(ops: seq<Op>, n: nat, i: nat, t: string, kind: ActionType)
    requires AdmissibleRun(EMPTY, ops) && QuorumSetAt(ops, n, i, t, kind)
    ensures (t, kind) in Before(ops, n).rules
    ensures Before(ops, n).rules[(t, kind)] == Quorums.QuorumRule(ops[i].required, ops[i].eligible)
  {
    hide Step, Run, AdmissibleRun, Before, Admissible, Coherent, SetsQuorum;
    BeforeNext(ops, n - 1);
    StepRules(Before(ops, n - 1), ops[n - 1], (t, kind));
    if i < n - 1 {
      QuorumInForce(ops, n - 1, i, t, kind);
    }
  }

  lemma {:induction false} NoQuorumInForce(ops: seq<Op>, n: nat, t: string, kind: ActionType)
    requires AdmissibleRun(EMPTY, ops) && QuorumNeverSet(ops, n, t, kind)
    ensures (t, kind) !in Before(ops, n).rules
  {
    hide Step, Run, AdmissibleRun, Before, Admissible, Coherent, SetsQuorum;
    if n == 0 {
      BeforeStart(ops);
    } else {
      BeforeNext(ops, n - 1);
      StepRules(Before(ops, n - 1), ops[n - 1], (t, kind));
      NoQuorumInForce(ops, n - 1, t, kind);
    }
  }

  /** Call `n` is the first delivery of an event of `t`, and leaves a `kind` action waiting. */
  ghost predicate QueuedAt(ops: seq<Op>, n: nat, t: string, kind: ActionType) {
    FirstDelivery(ops, n, t) && ops[n].p.kind == kind && Waits(Before(ops, n), ops[n], Before(ops, n + 1))
  }

  ghost predicate ArmedWith(s: State, id: string, required: int, eligible: Option<seq<string>>) {
    id in s.queue.rows && s.queue.rows[id].required == required && s.queue.rows[id].eligible == eligible
  }

  lemma LaunchArms(s: State, op: Op)
    requires Quorums.AllArmable(s.rules) && op.Handle? && Admissible(s, op)
    requires op.actionId in Step(s, op).0.queue.rows
    ensures var k := (op.p.tenant, op.p.kind);
            ArmedWith(Step(s, op).0, op.actionId,
                      if k in s.rules then s.rules[k].required else 1,
                      if k in s.rules then s.rules[k].eligible else None)
  {
    hide LaunchLog, Settle, Lookups;
  }

  lemma ArmingStays(ops: seq<Op>, n: nat)
    requires AdmissibleRun(EMPTY, ops) && n < |ops|
    ensures Coherent(Before(ops, n + 1)) && Evolves(Before(ops, n + 1), Run(EMPTY, ops))
  {
    hide Step, Coherent, Evolves;
    assert ops == ops[..n + 1] + ops[n + 1..];
    RunAppend(EMPTY, ops[..n + 1], ops[n + 1..]);
    EmptyCoherent();
    RunCoherent(EMPTY, ops[..n + 1]);
    RunEvolves(Before(ops, n + 1), ops[n + 1..]);
  }

  /** The last accepted quorum call before an action is queued governs it to
      the end of the run, size and pool alike. */
  lemma QuorumGoverns(ops: seq<Op>, n: nat, i: nat, t: string, kind: ActionType)
    requires QueuedAt(ops, n, t, kind) && QuorumSetAt(ops, n, i, t, kind)
    ensures ArmedWith(Run(EMPTY, ops), ops[n].actionId, ops[i].required, ops[i].eligible)
  {
    hide Step, Run, AdmissibleRun, Coherent;
    BeforeNext(ops, n);
    QuorumInForce(ops, n, i, t, kind);
    RulesArmable(Before(ops, n));
    LaunchArms(Before(ops, n), ops[n]);
    ArmingStays(ops, n);
  }

  /** Where none was ever set, one approval by anyone is enough. */
  lemma SingleApproverByDefault(ops: seq<Op>, n: nat, t: string, kind: ActionType)
    requires QueuedAt(ops, n, t, kind) && QuorumNeverSet(ops, n, t, kind)
    ensures ArmedWith(Run(EMPTY, ops), ops[n].actionId, 1, None)
  {
    hide Step, Run, AdmissibleRun, Coherent;
    BeforeNext(ops, n);
    NoQuorumInForce(ops, n, t, kind);
    RulesArmable(Before(ops, n));
    LaunchArms(Before(ops, n), ops[n]);
    ArmingStays(ops, n);
  }

  /** Such an action is deaf to everyone outside the configured pool: an
      approval or a veto from there fails and changes nothing, as not eligible
      while the action waits. */
  lemma OutsidersRefused(ops: seq<Op>, n: nat, i: nat, t: string, kind: ActionType, vote: Op)
    requires QueuedAt(ops, n, t, kind) && QuorumSetAt(ops, n, i, t, kind)
    requires vote.ApproveCall? || vote.RejectCall?
    requires vote.action == ops[n].actionId && (vote.expected.None? || vote.expected.value == t)
    requires ops[i].eligible.Some? && vote.voter !in ops[i].eligible.value
    ensures var s := Run(EMPTY, ops);
            && vote.action in s.queue.rows
            && Step(s, vote) == (s, Failure(Refused(if s.queue.rows[vote.action].state == Pending then NotEligible
                                                    else AlreadyResolved(s.queue.rows[vote.action].state))))
  {
    hide Run, AdmissibleRun;
    hide ActionsOk, IndexOk, PendingOk, DedupOk, InvokedOk, LogOwned, LogTells, Step, Coherent;
    QuorumGoverns(ops, n, i, t, kind);
    ArmingStays(ops, n);
    EmptyCoherent();
    RunCoherent(EMPTY, ops);
    OutsideVote(Run(EMPTY, ops), vote);
  }

  lemma OutsideVote(s: State, vote: Op)
    requires vote.ApproveCall? || vote.RejectCall?
    requires vote.action in s.queue.rows && Visible(s, vote.action, vote.expected)
    requires s.queue.rows[vote.action].eligible.Some? && vote.voter !in s.queue.rows[vote.action].eligible.value
    ensures Step(s, vote) == (s, Failure(Refused(if s.queue.rows[vote.action].state == Pending then NotEligible
                                                 else AlreadyResolved(s.queue.rows[vote.action].state))))
  {
    hide Count;
  }
}
