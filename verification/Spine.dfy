/** The decision spine as a state machine: five stores, one step per public
    call. Ids, clock readings and executor outcomes are inputs of a step. */
module Spine {
  import opened Common
  import opened Contracts
  import opened AuditLogs
  import opened Approvals
  import opened Quorums

  datatype State = State(
    actions: map<string, Action>,
    byTenant: map<string, seq<string>>,
    queue: Queue,
    log: seq<AuditEntry>,
    dedup: map<(string, string), seq<string>>,
    rules: Rules,
    policies: Policies,
    invoked: seq<string>)   // action ids handed to the executor, in order

  const EMPTY := State(map[], map[], Queue(map[], map[]), [], map[], map[], map[], [])

  datatype Execution = Done(executedPayload: string) | Raised(errorKind: string, message: string)

  datatype PipelineError = ActionNotFound | Refused(cause: QueueError) | AuditRefused

  datatype Op =
    | Handle(p: Proposal, actionId: string, rowId: string, now: int, exec: Execution)
    | ApproveCall(action: string, voter: string, expected: Option<string>, now: int, exec: Execution)
    | RejectCall(action: string, voter: string, reason: string, expected: Option<string>, now: int)
    | SetQuorum(tenant: string, kind: ActionType, required: int, eligible: Option<seq<string>>)
    | SetPolicies(tenant: string, table: map<string, PolicyDecision>)

  type Reply = Result<seq<Action>, PipelineError>

  // ----- records -----

  function Materialize(p: Proposal, id: string, now: int): Action {
    Action(id, p.tenant, p.id, p.event, p.customer, p.kind, PendingPolicy, p.payload, now, now, None)
  }

  /** The action as the executor leaves it. */
  function Ran(a: Action, exec: Execution, now: int): Action {
    match exec
    case Done(out) =>
      a.(status := Executed, executedAt := Some(now), updatedAt := now,
         payload := a.payload["_executed_payload" := out])
    case Raised(_, _) => a.(status := ExecutionFailed, updatedAt := now)
  }

  function Draft(kind: AuditKind, a: Action, actorKind: ActorKind, actor: Option<string>,
                 payload: AuditPayload): AuditEntry
  {
    AuditEntry(None, a.tenant, kind, Some(a.id), Some(a.event), actorKind, actor, payload)
  }

  function ProposalRow(p: Proposal, a: Action): AuditEntry {
    Draft(PROPOSAL, a, if p.proposedBy == Llm then LlmActor else FallbackActor, None,
          Proposing(p.proposedBy, p.kind,
                    if "_planner_reasoning" in p.payload then p.payload["_planner_reasoning"] else ""))
  }

  function DecisionRow(d: PolicyDecision, a: Action): AuditEntry {
    Draft(DECISION, a, System, None, Deciding(d, a.kind))
  }

  function RefusalRow(a: Action): AuditEntry {
    Draft(REJECTION, a, System, None, PolicyRefusing)
  }

  function VoteRow(a: Action, voter: string, row: ApprovalRow): AuditEntry {
    Draft(APPROVAL, a, Human, Some(voter),
          Voting(a.status, |row.approvals|, row.required, row.state == Approved))
  }

  function VetoRow(a: Action, voter: string, reason: string): AuditEntry {
    Draft(REJECTION, a, Human, Some(voter), Vetoing(a.status, reason))
  }

  function ExecutionRow(a: Action, exec: Execution): AuditEntry {
    match exec
    case Done(out) => Draft(EXECUTION, a, System, None, Executing(out))
    case Raised(kind, message) => Draft(EXECUTION_FAILED, a, System, None, Failing(kind, message))
  }

  // ----- steps -----

  /** The actions behind cached ids, or the lookup error of the first missing one. */
  function Lookups(actions: map<string, Action>, ids: seq<string>): Reply {
    if ids == [] then Success([])
    else
      var front := Lookups(actions, ids[..|ids| - 1]);
      var last := ids[|ids| - 1];
      if front.Failure? then front
      else if last in actions then Success(front.value + [actions[last]])
      else Failure(ActionNotFound)
  }

  /** Where the policy's decision takes a new action within the same call. */
  function Settle(a: Action, d: PolicyDecision, exec: Execution, now: int): Action {
    match d
    case Reject => a.(status := Rejected, updatedAt := now)
    case ApprovalRequired => a.(status := PendingApproval, updatedAt := now)
    case Auto => Ran(a.(status := PendingExec, updatedAt := now), exec, now)
  }

  /** The audit rows a first delivery leaves behind. */
  function LaunchLog(log: seq<AuditEntry>, p: Proposal, a: Action, d: PolicyDecision, exec: Execution): seq<AuditEntry> {
    var gated := Stamp(Stamp(log, ProposalRow(p, a)), DecisionRow(d, a));
    match d
    case Reject => Stamp(gated, RefusalRow(a))
    case ApprovalRequired => gated
    case Auto => Stamp(gated, ExecutionRow(a, exec))
  }

  function LaunchQueue(s: State, p: Proposal, id: string, rowId: string, now: int): Queue {
    var rule := Resolve(s.rules, p.tenant, p.kind);
    if Decide(s.policies, p.tenant, p.kind) == ApprovalRequired
    then s.queue.Enqueue(rowId, id, p.tenant, rule.required, rule.eligible, now).0
    else s.queue
  }

  /** The first delivery of an event. */
  function Launch(s: State, p: Proposal, id: string, rowId: string, now: int, exec: Execution): (State, Action) {
    var a := Materialize(p, id, now);
    var d := Decide(s.policies, p.tenant, p.kind);
    var end := Settle(a, d, exec, now);
    (s.(actions := s.actions[id := end],
        byTenant := Push(s.byTenant, p.tenant, id),
        queue := LaunchQueue(s, p, id, rowId, now),
        log := LaunchLog(s.log, p, a, d, exec),
        dedup := s.dedup[(p.tenant, p.event) := [id]],
        invoked := if d == Auto then s.invoked + [id] else s.invoked),
     end)
  }

  function HandleStep(s: State, p: Proposal, id: string, rowId: string, now: int, exec: Execution): (State, Reply) {
    if (p.tenant, p.event) in s.dedup then (s, Lookups(s.actions, s.dedup[(p.tenant, p.event)]))
    else
      var (next, a) := Launch(s, p, id, rowId, now, exec);
      (next, Success([a]))
  }

  predicate Visible(s: State, id: string, expected: Option<string>) {
    id in s.actions && (expected.None? || s.actions[id].tenant == expected.value)
  }

  /** A counted vote: audited, and executed when it completed the quorum. */
  function Count(s: State, a: Action, row: ApprovalRow, voter: string, now: int, exec: Execution): (State, Action) {
    var voted := s.(queue := s.queue.Update(row), log := Stamp(s.log, VoteRow(a, voter, row)));
    if row.state != Approved then (voted, a)
    else
      var end := Ran(a.(status := PendingExec, updatedAt := now), exec, now);
      (voted.(actions := s.actions[a.id := end],
              log := Stamp(voted.log, ExecutionRow(a, exec)),
              invoked := s.invoked + [a.id]),
       end)
  }

  function ApproveStep(s: State, id: string, voter: string, expected: Option<string>, now: int, exec: Execution)
    : (State, Result<Action, PipelineError>)
  {
    if !Visible(s, id, expected) then (s, Failure(ActionNotFound))
    else
      var (queue, vote) := s.queue.Approve(id, Some(voter), now);
      if vote.Failure? then (s, Failure(Refused(vote.error)))
      else if |voter| > MAX_ACTOR_ID then (s.(queue := queue), Failure(AuditRefused))
      else
        var (next, end) := Count(s, s.actions[id], vote.value, voter, now, exec);
        (next, Success(end))
  }

  function RejectStep(s: State, id: string, voter: string, reason: string, expected: Option<string>, now: int)
    : (State, Result<Action, PipelineError>)
  {
    if !Visible(s, id, expected) then (s, Failure(ActionNotFound))
    else
      var a := s.actions[id];
      var (queue, vote) := s.queue.Reject(id, Some(voter), reason, now);
      if vote.Failure? then (s, Failure(Refused(vote.error)))
      else if |voter| > MAX_ACTOR_ID then (s.(queue := queue), Failure(AuditRefused))
      else
        var end := a.(status := Rejected, updatedAt := now);
        (s.(queue := queue, log := Stamp(s.log, VetoRow(a, voter, reason)), actions := s.actions[id := end]),
         Success(end))
  }

  function AsReply(r: Result<Action, PipelineError>): Reply {
    match r
    case Success(a) => Success([a])
    case Failure(e) => Failure(e)
  }

  function Step(s: State, op: Op): (State, Reply) {
    match op
    case Handle(p, id, rowId, now, exec) => HandleStep(s, p, id, rowId, now, exec)
    case ApproveCall(id, voter, expected, now, exec) =>
      var (next, r) := ApproveStep(s, id, voter, expected, now, exec);
      (next, AsReply(r))
    case RejectCall(id, voter, reason, expected, now) =>
      var (next, r) := RejectStep(s, id, voter, reason, expected, now);
      (next, AsReply(r))
    case SetQuorum(tenant, kind, required, eligible) =>
      (s.(rules := Configured(s.rules, tenant, kind, required, eligible).0), Success([]))
    case SetPolicies(tenant, table) =>
      (if tenant == "" then s else s.(policies := s.policies[tenant := table]), Success([]))
  }

  /** What callers supply: validated proposals, fresh action ids, and voter
      names an audit row can hold. */
  predicate Admissible(s: State, op: Op) {
    match op
    case Handle(p, id, _, _, _) => p.tenant != "" && id != "" && id !in s.actions && id !in s.queue.rows
    case ApproveCall(_, voter, _, _, _) => |voter| <= MAX_ACTOR_ID
    case RejectCall(_, voter, _, _, _) => |voter| <= MAX_ACTOR_ID
    case _ => true
  }

  function Run(s: State, ops: seq<Op>): State
    decreases |ops|
  {
    if ops == [] then s else Run(Step(s, ops[0]).0, ops[1..])
  }

  predicate AdmissibleRun(s: State, ops: seq<Op>)
    decreases |ops|
  {
    ops == [] || (Admissible(s, ops[0]) && AdmissibleRun(Step(s, ops[0]).0, ops[1..]))
  }
}
