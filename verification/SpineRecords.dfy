/** What each accepted call leaves in the stores, field by field: the action,
    the queue row, and the audit rows a compliance officer reads. */
module SpineRecords {
  import opened Common
  import opened Contracts
  import opened AuditLogs
  import opened Approvals
  import opened Spine
  import Quorums
  import opened SpineInvariant
  import opened SpineSafety

  /** The rows `more` were appended to `log`, numbered on from its end. */
  ghost predicate Appended(log: seq<AuditEntry>, more: seq<AuditEntry>, next: seq<AuditEntry>) {
    && |next| == |log| + |more|
    && (forall i :: 0 <= i < |log| ==> next[i] == log[i])
    && (forall i :: |log| <= i < |next| ==> next[i] == more[i - |log|].(id := Some(i + 1)))
  }

  function SystemRow(a: Action, kind: AuditKind, payload: AuditPayload): AuditEntry {
    AuditEntry(None, a.tenant, kind, Some(a.id), Some(a.event), System, None, payload)
  }

  /** The end of an execution: what the executor returned is kept beside the
      proposal's own payload and audited, or its error is audited. */
  ghost predicate Finished(was: Action, a: Action, exec: Execution, now: int, row: AuditEntry) {
    && a.updatedAt == now && a.createdAt == was.createdAt
    && (match exec
        case Done(out) =>
          && a.status == Executed && a.executedAt == Some(now)
          && "_executed_payload" in a.payload && a.payload["_executed_payload"] == out
          && (forall k :: k != "_executed_payload" ==>
                (k in a.payload <==> k in was.payload) && (k in a.payload ==> a.payload[k] == was.payload[k]))
          && row == SystemRow(was, EXECUTION, Executing(out))
        case Raised(kind, message) =>
          && a.status == ExecutionFailed && a.executedAt == was.executedAt && a.payload == was.payload
          && row == SystemRow(was, EXECUTION_FAILED, Failing(kind, message)))
  }

  /** Everything about an action but its progress. */
  predicate SameOrigin(a: Action, b: Action) {
    && a.id == b.id && a.tenant == b.tenant && a.proposal == b.proposal && a.event == b.event
    && a.customer == b.customer && a.kind == b.kind
  }

  lemma StampAppends(log: seq<AuditEntry>, d: AuditEntry, e: AuditEntry, f: AuditEntry)
    requires d.id == None && e.id == None && f.id == None
    ensures Appended(log, [d], Stamp(log, d))
    ensures Appended(log, [d, e], Stamp(Stamp(log, d), e))
    ensures Appended(log, [d, e, f], Stamp(Stamp(Stamp(log, d), e), f))
  {
  }

  function Proposed(p: Proposal, id: string): AuditEntry {
    AuditEntry(None, p.tenant, PROPOSAL, Some(id), Some(p.event),
               if p.proposedBy == Fallback then FallbackActor else LlmActor, None,
               Proposing(p.proposedBy, p.kind,
                         if "_planner_reasoning" in p.payload then p.payload["_planner_reasoning"] else ""))
  }

  /** A new action carries its proposal's data, and its rows name the author,
      the decision and the outcome. */
  ghost predicate Recorded(log: seq<AuditEntry>, op: Op, a: Action, next: seq<AuditEntry>)
    requires op.Handle?
  {
    var p := op.p;
    var born := Action(op.actionId, p.tenant, p.id, p.event, p.customer, p.kind, a.status, p.payload, op.now, op.now, None);
    var first := Proposed(p, op.actionId);
    match a.status
    case PendingApproval =>
      a == born && Appended(log, [first, SystemRow(born, DECISION, Deciding(ApprovalRequired, p.kind))], next)
    case Rejected =>
      && a == born
      && Appended(log, [first, SystemRow(born, DECISION, Deciding(Reject, p.kind)),
                        SystemRow(born, REJECTION, PolicyRefusing)], next)
    case _ =>
      exists row ::
        && SameOrigin(a, born) && Finished(born, a, op.exec, op.now, row)
        && Appended(log, [first, SystemRow(born, DECISION, Deciding(Auto, p.kind)), row], next)
  }

  lemma RanFinishes(a: Action, exec: Execution, now: int)
    ensures SameOrigin(a, Ran(a, exec, now)) && Finished(a, Ran(a, exec, now), exec, now, ExecutionRow(a, exec))
    ensures HasRun(Ran(a, exec, now).status)
  {
  }

  lemma LaunchRecorded(log: seq<AuditEntry>, op: Op, d: PolicyDecision)
    requires op.Handle?
    ensures var a := Materialize(op.p, op.actionId, op.now);
            Recorded(log, op, Settle(a, d, op.exec, op.now), LaunchLog(log, op.p, a, d, op.exec))
  {
    hide Stamp, Appended, Finished, Ran;
    var a := Materialize(op.p, op.actionId, op.now);
    RanFinishes(a.(status := PendingExec, updatedAt := op.now), op.exec, op.now);
    var row := if d == Auto then ExecutionRow(a, op.exec) else RefusalRow(a);
    StampAppends(log, ProposalRow(op.p, a), DecisionRow(d, a), row);
    assert ProposalRow(op.p, a) == Proposed(op.p, op.actionId);
    if d == Auto {
      var end := Settle(a, d, op.exec, op.now);
      FinishedFrom(a.(status := PendingExec, updatedAt := op.now), a.(status := end.status), end, op.exec, op.now, row);
    }
  }

  /** Only the creation time, the run time and the payload of the action matter. */
  lemma FinishedFrom(was: Action, alike: Action, a: Action, exec: Execution, now: int, row: AuditEntry)
    requires Finished(was, a, exec, now, row) && SameOrigin(was, alike)
    requires was.createdAt == alike.createdAt && was.executedAt == alike.executedAt && was.payload == alike.payload
    ensures Finished(alike, a, exec, now, row)
  {
  }

  lemma DeliveryLeaves(s: State, op: Op)
    requires op.Handle? && (op.p.tenant, op.p.event) !in s.dedup
    ensures var next := Step(s, op).0;
            && op.actionId in next.actions
            && next.actions == s.actions[op.actionId := next.actions[op.actionId]]
            && next.dedup == s.dedup[(op.p.tenant, op.p.event) := [op.actionId]]
            && Step(s, op).1 == Success([next.actions[op.actionId]])
            && Recorded(s.log, op, next.actions[op.actionId], next.log)
  {
    hide Quorums.Decide, LaunchQueue, Recorded, Settle, LaunchLog, Materialize;
    LaunchRecorded(s.log, op, Quorums.Decide(s.policies, op.p.tenant, op.p.kind));
  }

  /** A queued action's row is new: pending, without votes, behind the tenant's
      older ones. */
  lemma RowQueued(s: State, op: Op)
    requires Quorums.AllArmable(s.rules) && op.Handle? && Admissible(s, op) && (op.p.tenant, op.p.event) !in s.dedup
    ensures var next := Step(s, op).0;
            if next.actions[op.actionId].status != PendingApproval then next.queue == s.queue
            else
              && op.actionId in next.queue.rows
              && var row := next.queue.rows[op.actionId];
              && next.queue.rows == s.queue.rows[op.actionId := row]
              && row == ApprovalRow(op.rowId, op.p.tenant, op.actionId, Pending, row.required, row.eligible, [], op.now,
                                    None, None, None, 1)
              && next.queue.pending
                 == s.queue.pending[op.p.tenant :=
                      (if op.p.tenant in s.queue.pending then s.queue.pending[op.p.tenant] else []) + [op.actionId]]
  {
    hide LaunchLog, Quorums.Decide;
  }

  function Tallied(a: Action, row: ApprovalRow, voter: string): AuditEntry {
    AuditEntry(None, a.tenant, APPROVAL, Some(a.id), Some(a.event), Human, Some(voter),
               Voting(PendingApproval, |row.approvals| + 1, row.required, |row.approvals| + 1 == row.required))
  }

  /** A row of `id` guards the stored action `id`. */
  ghost predicate Guarded(s: State, id: string) {
    id in s.queue.rows ==> id in s.actions && s.actions[id].id == id && RowFits(s.queue.rows[id], s.actions[id])
  }

  lemma ReachedIsGuarded(ops: seq<Op>, id: string)
    requires AdmissibleRun(EMPTY, ops)
    ensures Guarded(Run(EMPTY, ops), id)
  {
    hide Coherent, Run, AdmissibleRun, RowFits;
    EmptyCoherent();
    RunCoherent(EMPTY, ops);
    if id in Run(EMPTY, ops).queue.rows {
      GuardedAction(Run(EMPTY, ops), id);
    }
  }

  /** A counted approval seats the voter, and is audited with the running tally;
      the one that completes the quorum closes the row and runs the action. */
  lemma VoteLeaves(s: State, op: Op)
    requires op.ApproveCall? && Guarded(s, op.action) && Step(s, op).1.Success?
    ensures var id, next := op.action, Step(s, op).0;
            && id in s.actions && id in s.queue.rows && id in next.actions && id in next.queue.rows
            && var (was, a, row) := (s.actions[id], next.actions[id], s.queue.rows[id]);
            var reached := |row.approvals| + 1 == row.required;
            && next.queue.rows
               == s.queue.rows[id :=
                    row.(approvals := row.approvals + [op.voter], version := row.version + 1,
                         state := if reached then Approved else Pending,
                         decidedAt := if reached then Some(op.now) else row.decidedAt,
                         decidedBy := if reached then Some(op.voter) else row.decidedBy,
                         note := if reached then None else row.note)]
            && next.actions == s.actions[id := a]
            && next.invoked == (if reached then s.invoked + [id] else s.invoked)
            && Step(s, op).1 == Success([a])
            && (if !reached then a == was && Appended(s.log, [Tallied(was, row, op.voter)], next.log)
                else
                  exists done ::
                    && SameOrigin(was, a) && Finished(was, a, op.exec, op.now, done)
                    && Appended(s.log, [Tallied(was, row, op.voter), done], next.log))
  {
    hide Stamp, Appended, Finished, Ran, CastApproval;
    var was, row := s.actions[op.action], s.queue.rows[op.action];
    RowAfterVote(row, was, op.voter, op.now);
    var promoted := was.(status := PendingExec, updatedAt := op.now);
    RanFinishes(promoted, op.exec, op.now);
    FinishedFrom(promoted, was, Ran(promoted, op.exec, op.now), op.exec, op.now, ExecutionRow(promoted, op.exec));
    StampAppends(s.log, Tallied(was, row, op.voter), ExecutionRow(was, op.exec), ExecutionRow(was, op.exec));
  }

  lemma RowAfterVote(row: ApprovalRow, a: Action, voter: string, now: int)
    requires RowFits(row, a) && CastApproval(row, Some(voter), now).Success?
    ensures var next, reached := CastApproval(row, Some(voter), now).value, |row.approvals| + 1 == row.required;
            && next == row.(approvals := row.approvals + [voter], version := row.version + 1,
                            state := if reached then Approved else Pending,
                            decidedAt := if reached then Some(now) else row.decidedAt,
                            decidedBy := if reached then Some(voter) else row.decidedBy,
                            note := if reached then None else row.note)
            && a.status == PendingApproval
            && VoteRow(a, voter, next) == Tallied(a, row, voter)
  {
    VoteFits(row, a, voter, now);
  }

  /** A counted veto closes the row with its reason and rejects the action. */
  lemma VetoLeaves(s: State, op: Op)
    requires op.RejectCall? && Guarded(s, op.action) && Step(s, op).1.Success?
    ensures var id, next := op.action, Step(s, op).0;
            && id in s.actions && id in s.queue.rows
            && var (was, row) := (s.actions[id], s.queue.rows[id]);
            var veto := AuditEntry(None, was.tenant, REJECTION, Some(id), Some(was.event), Human, Some(op.voter),
                                   Vetoing(PendingApproval, op.reason));
            && next.queue.rows
               == s.queue.rows[id := row.(state := Vetoed, version := row.version + 1, decidedAt := Some(op.now),
                                          decidedBy := Some(op.voter),
                                          note := if |op.reason| > 0 then Some(op.reason) else None)]
            && next.actions == s.actions[id := was.(status := Rejected, updatedAt := op.now)]
            && next.invoked == s.invoked
            && Step(s, op).1 == Success([next.actions[id]])
            && Appended(s.log, [veto], next.log)
  {
    hide Stamp, Appended;
    var veto := VetoRow(s.actions[op.action], op.voter, op.reason);
    StampAppends(s.log, veto, veto, veto);
  }
}
