/** Reading an action's history back out of its audit rows. */
module Replays {
  import opened Common
  import opened Contracts

  datatype Trail =
    | Untold
    | Told(status: ActionStatus, decision: Option<PolicyDecision>, quorum: Option<int>, voters: seq<string>)
    | Broken

  /** The history after one more row; `Broken` when the row cannot come next. */
  function Extend(t: Trail, e: AuditEntry): Trail {
    if t.Untold? then
      if e.kind == PROPOSAL && e.payload.Proposing? then Told(PendingPolicy, None, None, []) else Broken
    else if t.Broken? then Broken
    else
      match e.payload
      case Deciding(d, _) =>
        if e.kind == DECISION && t.status == PendingPolicy && t.decision.None? then
          t.(decision := Some(d),
             status := match d case Auto => PendingExec case ApprovalRequired => PendingApproval case Reject => PendingPolicy)
        else Broken
      case PolicyRefusing =>
        if e.kind == REJECTION && e.actorKind == System && t.status == PendingPolicy && t.decision == Some(Reject)
        then t.(status := Rejected) else Broken
      case Voting(prior, recorded, required, reached) =>
        if && e.kind == APPROVAL && e.actorKind == Human && e.actor.Some?
           && t.status == PendingApproval && prior == PendingApproval
           && recorded == |t.voters| + 1
           && (t.quorum.None? || t.quorum == Some(required))
           && reached == (recorded >= required)
        then t.(status := if reached then PendingExec else PendingApproval,
                quorum := Some(required),
                voters := t.voters + [e.actor.value])
        else Broken
      case Vetoing(prior, _) =>
        if e.kind == REJECTION && e.actorKind == Human && t.status == PendingApproval && prior == PendingApproval
        then t.(status := Rejected) else Broken
      case Executing(_) =>
        if e.kind == EXECUTION && t.status == PendingExec then t.(status := Executed) else Broken
      case Failing(_, _) =>
        if e.kind == EXECUTION_FAILED && t.status == PendingExec then t.(status := ExecutionFailed) else Broken
      case Proposing(_, _, _) => Broken
  }

  function Replay(rows: seq<AuditEntry>): Trail {
    if rows == [] then Untold else Extend(Replay(rows[..|rows| - 1]), rows[|rows| - 1])
  }

  /** What the stores say the history must have been. */
  function Story(a: Action, row: Option<ApprovalRow>): Trail {
    match row
    case None => Told(a.status, Some(if a.status == Rejected then Reject else Auto), None, [])
    case Some(r) =>
      Told(a.status, Some(ApprovalRequired), if r.approvals == [] then None else Some(r.required), r.approvals)
  }

  function Kinds(rows: seq<AuditEntry>): seq<AuditKind> {
    if rows == [] then [] else Kinds(rows[..|rows| - 1]) + [rows[|rows| - 1].kind]
  }

  function Times(kind: AuditKind, n: nat): seq<AuditKind> {
    seq(n, _ => kind)
  }

  /** How a history in `status` ends. */
  function Ending(status: ActionStatus): seq<AuditKind> {
    match status
    case Executed => [EXECUTION]
    case ExecutionFailed => [EXECUTION_FAILED]
    case Rejected => [REJECTION]
    case _ => []
  }

  /** The row kinds a told history must consist of. */
  function Script(t: Trail): seq<AuditKind>
    requires t.Told?
  {
    [PROPOSAL] + (if t.decision.Some? then [DECISION] else [])
    + Times(APPROVAL, |t.voters|) + Ending(t.status)
  }

  /** Statuses and votes that can occur together. */
  predicate Plausible(t: Trail) {
    t.Told? ==>
      && (t.decision.None? ==> t.status == PendingPolicy)
      && (t.decision != Some(ApprovalRequired) ==> t.voters == [])
      && (t.voters != [] <==> t.quorum.Some?)
      && (t.quorum.Some? && (t.status == PendingApproval || t.status == Rejected) ==> |t.voters| < t.quorum.value)
      && (t.decision == Some(ApprovalRequired) && (t.status == PendingExec || t.status == Executed || t.status == ExecutionFailed)
          ==> t.quorum.Some? && |t.voters| >= t.quorum.value)
      && (t.status == PendingApproval ==> t.decision == Some(ApprovalRequired))
      && (t.status == PendingExec ==> t.decision == Some(ApprovalRequired) || t.decision == Some(Auto))
  }

  lemma {:induction false} ReplayIsPlausible(rows: seq<AuditEntry>)
    ensures Plausible(Replay(rows))
  {
    if rows != [] {
      ReplayIsPlausible(rows[..|rows| - 1]);
    }
  }

  lemma ScriptGrows(t: Trail, e: AuditEntry)
    requires t.Told? && Plausible(t) && Extend(t, e).Told?
    ensures Script(Extend(t, e)) == Script(t) + [e.kind]
  {
    if e.payload.Voting? {
      assert Times(APPROVAL, |t.voters| + 1) == Times(APPROVAL, |t.voters|) + [APPROVAL];
    }
  }

  /** A history that replays at all has exactly the scripted row kinds. */
  lemma {:induction false} ReplayScripted(rows: seq<AuditEntry>)
    requires Replay(rows).Told?
    ensures Kinds(rows) == Script(Replay(rows))
  {
    var front, e := rows[..|rows| - 1], rows[|rows| - 1];
    if front == [] {
      assert Times(APPROVAL, 0) == [];
    } else {
      hide Script;
      ReplayScripted(front);
      ReplayIsPlausible(front);
      ScriptGrows(Replay(front), e);
    }
  }
}
