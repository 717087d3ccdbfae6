/** The record types shared by the orchestrator: actions, approval rows,
    audit rows. Timestamps are abstract integers. */
module Contracts {
  import opened Common

  type Payload = map<string, string>

  datatype ActionType =
    | SendBorrowerMessage
    | NotifyLoanOfficer
    | ScheduleCall
    | RequestDocument
    | UpdateStatus
    | NoOp

  /** The enum's string value, which is the policy table's key. */
  function TypeKey(t: ActionType): string {
    match t
    case SendBorrowerMessage => "send_borrower_message"
    case NotifyLoanOfficer => "notify_loan_officer"
    case ScheduleCall => "schedule_call"
    case RequestDocument => "request_document"
    case UpdateStatus => "update_status"
    case NoOp => "no_op"
  }

  /** A policy table can tell the types apart, and none from its fallbacks. */
  lemma TypeKeysApart(t: ActionType, u: ActionType)
    ensures TypeKey(t) == TypeKey(u) <==> t == u
    ensures TypeKey(t) != "default" && TypeKey(t) != "*"
    ensures TypeKey(SendBorrowerMessage) == "send_borrower_message" && TypeKey(NotifyLoanOfficer) == "notify_loan_officer"
    ensures TypeKey(ScheduleCall) == "schedule_call" && TypeKey(RequestDocument) == "request_document"
    ensures TypeKey(UpdateStatus) == "update_status" && TypeKey(NoOp) == "no_op"
  {
    assert |TypeKey(t)| == |TypeKey(u)| && t != u ==> TypeKey(t)[0] != TypeKey(u)[0];
  }

  datatype ActionStatus =
    | PendingPolicy
    | PendingApproval
    | PendingExec
    | Executed
    | ExecutionFailed
    | Rejected

  datatype ProposedBy = Llm | Fallback

  datatype Proposal = Proposal(
    id: string,
    tenant: string,
    event: string,
    customer: Option<string>,
    kind: ActionType,
    proposedBy: ProposedBy,
    payload: Payload)

  datatype Action = Action(
    id: string,
    tenant: string,
    proposal: string,
    event: string,
    customer: Option<string>,
    kind: ActionType,
    status: ActionStatus,
    payload: Payload,
    createdAt: int,
    updatedAt: int,
    executedAt: Option<int>)

  datatype PolicyDecision = Auto | ApprovalRequired | Reject

  datatype RowState = Pending | Approved | Vetoed

  /** One row of the approval queue. */
  datatype ApprovalRow = ApprovalRow(
    id: string,
    tenant: string,
    action: string,
    state: RowState,
    required: int,
    eligible: Option<seq<string>>,
    approvals: seq<string>,
    enqueuedAt: int,
    decidedAt: Option<int>,
    decidedBy: Option<string>,
    note: Option<string>,
    version: int)

  datatype AuditKind =
    | PROPOSAL
    | DECISION
    | APPROVAL
    | REJECTION
    | EXECUTION
    | EXECUTION_FAILED

  datatype ActorKind = System | LlmActor | Human | FallbackActor

  datatype AuditPayload =
    | Proposing(author: ProposedBy, kind: ActionType, reasoning: string)
    | Deciding(decision: PolicyDecision, decidedKind: ActionType)
    | Voting(prior: ActionStatus, recorded: int, required: int, reached: bool)
    | PolicyRefusing
    | Vetoing(priorStatus: ActionStatus, reason: string)
    | Executing(executedPayload: string)
    | Failing(errorKind: string, errorMessage: string)

  datatype AuditEntry = AuditEntry(
    id: Option<nat>,
    tenant: string,
    kind: AuditKind,
    action: Option<string>,
    event: Option<string>,
    actorKind: ActorKind,
    actor: Option<string>,
    payload: AuditPayload)

  /** The longest `actor_id` an audit row accepts. */
  const MAX_ACTOR_ID: nat := 128
}
