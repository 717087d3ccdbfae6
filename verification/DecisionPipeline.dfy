/** The pipeline object: the same calls, carried out store by store in the
    order the service does it. Each method is proved against its step. */
module Pipelines {
  import opened Common
  import opened Contracts
  import opened AuditLogs
  import opened Approvals
  import opened Quorums
  import Spine
  import opened SpineInvariant
  import SpineResults

  class ActionStore {
    var byId: map<string, Action>
    var byTenant: map<string, seq<string>>

    /** Actions are filed under their own id. */
    ghost predicate Valid()
      reads this
    {
      forall a :: a in byId ==> byId[a].id == a
    }

    constructor ()
      ensures Valid() && byId == map[] && byTenant == map[]
    {
      byId, byTenant := map[], map[];
    }

    method Put(a: Action)
      requires Valid()
      modifies this
      ensures Valid()
      ensures byId == old(byId)[a.id := a]
      ensures byTenant == if a.id in old(byId) then old(byTenant) else Push(old(byTenant), a.tenant, a.id)
    {
      var existed := a.id in byId;
      byId := byId[a.id := a];
      if !existed {
        byTenant := Push(byTenant, a.tenant, a.id);
      }
    }

    method Get(id: string) returns (r: Result<Action, Spine.PipelineError>)
      ensures r == if id in byId then Success(byId[id]) else Failure(Spine.ActionNotFound)
    {
      if id !in byId {
        return Failure(Spine.ActionNotFound);
      }
      r := Success(byId[id]);
    }
  }

  /** The store's view of a list of queue rows, skipping rows without an action. */
  function Snapshots(rows: seq<ApprovalRow>, actions: map<string, Action>): seq<Action> {
    if rows == [] then []
    else
      var front := Snapshots(rows[..|rows| - 1], actions);
      var last := rows[|rows| - 1].action;
      if last in actions then front + [actions[last]] else front
  }

  class DecisionPipeline {
    const actions: ActionStore
    const queue: ApprovalQueue
    const audit: AuditLog
    const quorum: QuorumPolicy
    const policy: PolicyEngine
    var dedup: map<(string, string), seq<string>>
    ghost var invoked: seq<string>

    ghost function State(): Spine.State
      reads this, actions, queue, audit, quorum, policy
    {
      Spine.State(actions.byId, actions.byTenant, queue.Contents(), audit.entries, dedup,
                  quorum.rules, policy.byTenant, invoked)
    }

    ghost predicate Valid()
      reads this, actions, queue, audit, quorum, policy
    {
      actions.Valid() && queue.Valid() && audit.Valid() && quorum.Valid()
    }

    constructor ()
      ensures Valid() && State() == Spine.EMPTY
      ensures fresh(actions) && fresh(queue) && fresh(audit) && fresh(quorum) && fresh(policy)
    {
      actions := new ActionStore();
      queue := new ApprovalQueue();
      audit := new AuditLog();
      quorum := new QuorumPolicy();
      policy := new PolicyEngine();
      dedup, invoked := map[], [];
    }

    method HandleProposal(p: Proposal, actionId: string, rowId: string, now: int, exec: Spine.Execution)
      returns (r: Spine.Reply)
      requires Valid()
      requires Spine.Admissible(State(), Spine.Handle(p, actionId, rowId, now, exec))
      modifies this, actions, queue, audit
      ensures Valid()
      ensures (State(), r) == Spine.HandleStep(old(State()), p, actionId, rowId, now, exec)
    {
      hide Decide, Spine.Lookups, Spine.Launch;
      if (p.tenant, p.event) in dedup {
        r := Cached(dedup[(p.tenant, p.event)]);
        return;
      }
      var resolved := FirstDelivery(p, actionId, rowId, now, exec);
      r := Success([resolved]);
    }

    /** The branch for an event not seen before. */
    method FirstDelivery(p: Proposal, actionId: string, rowId: string, now: int, exec: Spine.Execution)
      returns (resolved: Action)
      requires Valid()
      requires Spine.Admissible(State(), Spine.Handle(p, actionId, rowId, now, exec))
      modifies this, actions, queue, audit
      ensures Valid()
      ensures (State(), resolved) == Spine.Launch(old(State()), p, actionId, rowId, now, exec)
    {
      hide Decide, Resolve, Stamp, Spine.ProposalRow, Spine.DecisionRow;
      var a := Action(actionId, p.tenant, p.id, p.event, p.customer, p.kind, PendingPolicy, p.payload, now, now, None);
      var decision := Record(p, a);
      resolved := ApplyDecision(a, decision, rowId, now, exec);
      dedup := dedup[(p.tenant, p.event) := [resolved.id]];
      assert actions.byId == old(actions.byId)[actionId := resolved];
    }

    /** Stores the new action and audits the proposal and the decision on it. */
    method Record(p: Proposal, a: Action) returns (decision: PolicyDecision)
      requires Valid() && a.id !in actions.byId
      modifies actions, audit
      ensures Valid()
      ensures decision == Decide(policy.byTenant, p.tenant, p.kind)
      ensures p.tenant !in policy.byTenant ==> decision == ApprovalRequired
      ensures p.tenant in policy.byTenant ==>
                var table, key := policy.byTenant[p.tenant], TypeKey(p.kind);
                && (key in table ==> decision == table[key])
                && (key !in table && "default" in table ==> decision == table["default"])
                && (key !in table && "default" !in table && "*" in table ==> decision == table["*"])
                && (key !in table && "default" !in table && "*" !in table ==> decision == ApprovalRequired)
      ensures actions.byId == old(actions.byId)[a.id := a]
      ensures actions.byTenant == Push(old(actions.byTenant), a.tenant, a.id)
      ensures audit.entries == Stamp(Stamp(old(audit.entries), Spine.ProposalRow(p, a)), Spine.DecisionRow(decision, a))
    {
      hide Stamp;
      actions.Put(a);
      var _ := WriteAudit(Spine.ProposalRow(p, a));
      decision := Decide(policy.byTenant, p.tenant, p.kind);
      var _ := WriteAudit(Spine.DecisionRow(decision, a));
    }

    method Cached(ids: seq<string>) returns (r: Spine.Reply)
      ensures r == Spine.Lookups(actions.byId, ids)
    {
      var found := [];
      for i := 0 to |ids|
        invariant Spine.Lookups(actions.byId, ids[..i]) == Success(found)
      {
        assert ids[..i + 1][..i] == ids[..i];
        var got := actions.Get(ids[i]);
        if got.Failure? {
          MissingLookup(actions.byId, ids, i);
          return Failure(got.error);
        }
        found := found + [got.value];
      }
      assert ids[..|ids|] == ids;
      r := Success(found);
    }

    method ApproveAction(id: string, voter: string, expected: Option<string>, now: int, exec: Spine.Execution)
      returns (r: Result<Action, Spine.PipelineError>)
      requires Valid()
      modifies this, actions, queue, audit
      ensures Valid()
      ensures (State(), r) == Spine.ApproveStep(old(State()), id, voter, expected, now, exec)
    {
      var found := GetAction(id, expected);
      if found.Failure? {
        return found;
      }
      var a := found.value;
      var vote := queue.Approve(id, Some(voter), now);
      if vote.Failure? {
        return Failure(Spine.Refused(vote.error));
      }
      var row := vote.value;
      var reached := row.state == Approved;
      var written := WriteAudit(Spine.VoteRow(a, voter, row));
      if !written {
        return Failure(Spine.AuditRefused);
      }
      if !reached {
        return Success(a);
      }
      var promoted := a.(status := PendingExec, updatedAt := now);
      actions.Put(promoted);
      var end := Execute(promoted, now, exec);
      assert State().actions == old(State()).actions[id := end];
      r := Success(end);
    }

    method RejectAction(id: string, voter: string, reason: string, expected: Option<string>, now: int)
      returns (r: Result<Action, Spine.PipelineError>)
      requires Valid()
      modifies this, actions, queue, audit
      ensures Valid()
      ensures (State(), r) == Spine.RejectStep(old(State()), id, voter, reason, expected, now)
    {
      var found := GetAction(id, expected);
      if found.Failure? {
        return found;
      }
      var a := found.value;
      var vote := queue.Reject(id, Some(voter), reason, now);
      if vote.Failure? {
        return Failure(Spine.Refused(vote.error));
      }
      var written := WriteAudit(Spine.VetoRow(a, voter, reason));
      if !written {
        return Failure(Spine.AuditRefused);
      }
      var rejected := a.(status := Rejected, updatedAt := now);
      actions.Put(rejected);
      r := Success(rejected);
    }

    method GetAction(id: string, expected: Option<string>) returns (r: Result<Action, Spine.PipelineError>)
      ensures r == if Spine.Visible(State(), id, expected) then Success(actions.byId[id]) else Failure(Spine.ActionNotFound)
    {
      r := actions.Get(id);
      if r.Success? && expected.Some? && r.value.tenant != expected.value {
        r := Failure(Spine.ActionNotFound);
      }
    }

    method ListPendingActions(tenant: string) returns (out: seq<Action>)
      ensures out == Snapshots(RowsOf(Bucket(queue.pendingByTenant, tenant), queue.rows), actions.byId)
    {
      var rows := queue.ListPending(tenant);
      out := [];
      for i := 0 to |rows|
        invariant out == Snapshots(rows[..i], actions.byId)
      {
        assert rows[..i + 1][..i] == rows[..i];
        var got := actions.Get(rows[i].action);
        if got.Success? {
          out := out + [got.value];
        }
      }
      assert rows[..|rows|] == rows;
    }

    // ----- internals -----

    /** False when the row's actor id is too long to be recorded. */
    method WriteAudit(entry: AuditEntry) returns (written: bool)
      requires audit.Valid()
      modifies audit
      ensures audit.Valid()
      ensures written == (entry.actor.Some? ==> |entry.actor.value| <= MAX_ACTOR_ID)
      ensures audit.entries == if written then Stamp(old(audit.entries), entry) else old(audit.entries)
    {
      if entry.actor.Some? && |entry.actor.value| > MAX_ACTOR_ID {
        return false;
      }
      var _ := audit.Write(entry);
      written := true;
    }

    method ApplyDecision(a: Action, decision: PolicyDecision, rowId: string, now: int, exec: Spine.Execution)
      returns (resolved: Action)
      requires Valid() && a.id in actions.byId && a.id != "" && a.tenant != "" && a.id !in queue.rows
      modifies this, actions, queue, audit
      ensures Valid()
      ensures resolved == Spine.Settle(a, decision, exec, now)
      ensures actions.byId == old(actions.byId)[a.id := resolved] && actions.byTenant == old(actions.byTenant)
      ensures dedup == old(dedup)
      ensures queue.Contents() ==
              if decision != ApprovalRequired then old(queue.Contents())
              else
                var rule := Resolve(quorum.rules, a.tenant, a.kind);
                old(queue.Contents()).Enqueue(rowId, a.id, a.tenant, rule.required, rule.eligible, now).0
      ensures audit.entries ==
              match decision
              case Auto => Stamp(old(audit.entries), Spine.ExecutionRow(a, exec))
              case Reject => Stamp(old(audit.entries), Spine.RefusalRow(a))
              case ApprovalRequired => old(audit.entries)
      ensures invoked == if decision == Auto then old(invoked) + [a.id] else old(invoked)
    {
      if decision == Reject {
        resolved := a.(status := Rejected, updatedAt := now);
        actions.Put(resolved);
        var _ := WriteAudit(Spine.RefusalRow(a));
        return;
      }
      if decision == ApprovalRequired {
        resolved := a.(status := PendingApproval, updatedAt := now);
        actions.Put(resolved);
        var rule := quorum.ResolveRule(a.tenant, a.kind);
        var armed := queue.Enqueue(rowId, a.id, a.tenant, rule.required, rule.eligible, now);
        assert armed.Success?;
        return;
      }
      var pending := a.(status := PendingExec, updatedAt := now);
      actions.Put(pending);
      resolved := Execute(pending, now, exec);
    }

    method Execute(a: Action, now: int, exec: Spine.Execution) returns (end: Action)
      requires actions.Valid() && audit.Valid() && a.id in actions.byId
      modifies this`invoked, actions, audit
      ensures actions.Valid() && audit.Valid()
      ensures end == Spine.Ran(a, exec, now)
      ensures actions.byId == old(actions.byId)[a.id := end] && actions.byTenant == old(actions.byTenant)
      ensures audit.entries == Stamp(old(audit.entries), Spine.ExecutionRow(a, exec))
      ensures invoked == old(invoked) + [a.id]
    {
      invoked := invoked + [a.id];
      match exec {
        case Raised(kind, message) =>
          end := a.(status := ExecutionFailed, updatedAt := now);
          actions.Put(end);
          var _ := WriteAudit(Spine.ExecutionRow(a, exec));
        case Done(out) =>
          end := a.(status := Executed, executedAt := Some(now), updatedAt := now,
          payload := a.payload["_executed_payload" := out]);
          actions.Put(end);
          var _ := WriteAudit(Spine.ExecutionRow(end, exec));
      }
    }
  }

  lemma {:induction false} MissingLookup(actions: map<string, Action>, ids: seq<string>, i: nat)
    requires i < |ids| && ids[i] !in actions
    requires Spine.Lookups(actions, ids[..i]).Success?
    ensures Spine.Lookups(actions, ids) == Failure(Spine.ActionNotFound)
    decreases |ids|
  {
    if i == |ids| - 1 {
    } else {
      assert ids[..|ids| - 1][..i] == ids[..i];
      MissingLookup(actions, ids[..|ids| - 1], i);
    }
  }

  /** The pending view names every action awaiting approval: the branch that
      skips a row without an action is never taken. */
  lemma PendingSnapshots(s: Spine.State, t: string)
    requires Coherent(s)
    ensures var ids := Bucket(s.queue.pending, t);
            var out := Snapshots(RowsOf(ids, s.queue.rows), s.actions);
            && |out| == |ids|
            && (forall i :: 0 <= i < |ids| ==> ids[i] in s.actions && out[i] == s.actions[ids[i]])
            && (forall a :: a in out <==> a.id in s.actions && s.actions[a.id] == a && a.tenant == t && a.status == PendingApproval)
            && NoDup(out)
  {
    hide IndexOk, PendingOk, DedupOk, InvokedOk, LogOwned, LogTells, AllArmable, Awaiting, Snapshots, RowsOf;
    SpineResults.PendingViewExact(s, t);
    SnapshotsAll(Bucket(s.queue.pending, t), s.queue.rows, s.actions);
  }

  lemma {:induction false} SnapshotsAll(ids: seq<string>, rows: map<string, ApprovalRow>, actions: map<string, Action>)
    requires forall a :: a in ids ==> a in rows && a in actions && rows[a].action == a
    ensures var out := Snapshots(RowsOf(ids, rows), actions);
            |RowsOf(ids, rows)| == |ids| && |out| == |ids| && forall i :: 0 <= i < |ids| ==> out[i] == actions[ids[i]]
  {
    if ids != [] {
      var front, last := ids[..|ids| - 1], ids[|ids| - 1];
      SnapshotsAll(front, rows, actions);
      var some := RowsOf(front, rows);
      assert (some + [rows[last]])[..|some|] == some;
    }
  }
}
