/** Every public call keeps the stores in agreement; failing calls change
    nothing; and what agreement says about reachable states. */
module SpineSafety {
  import opened Common
  import opened Contracts
  import opened AuditLogs
  import opened Approvals
  import opened Quorums
  import opened Spine
  import opened Replays
  import opened SpineInvariant

  // ----- one store at a time -----

  lemma IndexAdd(actions: map<string, Action>, byTenant: map<string, seq<string>>, a: Action)
    requires IndexOk(actions, byTenant) && a.id !in actions
    ensures IndexOk(actions[a.id := a], Push(byTenant, a.tenant, a.id))
  {
    forall t
      ensures Lists(Bucket(Push(byTenant, a.tenant, a.id), t), actions[a.id := a], t)
    {
      assert Lists(Bucket(byTenant, t), actions, t);
    }
  }

  lemma IndexKeep(actions: map<string, Action>, byTenant: map<string, seq<string>>, a: Action)
    requires IndexOk(actions, byTenant) && a.id in actions && a.tenant == actions[a.id].tenant
    ensures IndexOk(actions[a.id := a], byTenant)
  {
    forall t
      ensures Lists(Bucket(byTenant, t), actions[a.id := a], t)
    {
      assert Lists(Bucket(byTenant, t), actions, t);
    }
  }

  lemma AwaitingAdd(ids: seq<string>, actions: map<string, Action>, a: Action)
    requires a.id !in ids
    ensures Awaiting(ids + [a.id], actions[a.id := a]) ==
            Awaiting(ids, actions) + if a.status == PendingApproval then [a.id] else []
    ensures Awaiting(ids, actions[a.id := a]) == Awaiting(ids, actions)
  {
    AwaitingSame(ids, actions, actions[a.id := a]);
    assert (ids + [a.id])[..|ids|] == ids;
  }

  lemma PendingAdd(actions: map<string, Action>, byTenant: map<string, seq<string>>,
                   pending: map<string, seq<string>>, a: Action)
    requires IndexOk(actions, byTenant) && PendingOk(actions, byTenant, pending) && a.id !in actions
    ensures PendingOk(actions[a.id := a], Push(byTenant, a.tenant, a.id),
                      if a.status == PendingApproval then Push(pending, a.tenant, a.id) else pending)
  {
    hide Awaiting;
    forall t
      ensures Bucket(if a.status == PendingApproval then Push(pending, a.tenant, a.id) else pending, t)
           == Awaiting(Bucket(Push(byTenant, a.tenant, a.id), t), actions[a.id := a])
    {
      assert Lists(Bucket(byTenant, t), actions, t);
      assert Bucket(pending, t) == Awaiting(Bucket(byTenant, t), actions);
      AwaitingAdd(Bucket(byTenant, t), actions, a);
    }
  }

  lemma DedupAdd(actions: map<string, Action>, dedup: map<(string, string), seq<string>>, a: Action)
    requires DedupOk(actions, dedup) && a.id !in actions && (a.tenant, a.event) !in dedup
    ensures DedupOk(actions[a.id := a], dedup[(a.tenant, a.event) := [a.id]])
  {
  }

  lemma ForeignRows(actions: map<string, Action>, log: seq<AuditEntry>, id: string)
    requires LogOwned(actions, log) && id !in actions
    ensures ForAction(log, id) == []
  {
    ForActionExact(log, id);
    if e :| e in ForAction(log, id) {
      assert false;
    }
  }

  lemma Stamped(log: seq<AuditEntry>, e: AuditEntry)
    ensures forall a :: e.action != Some(a) ==> ForAction(Stamp(log, e), a) == ForAction(log, a)
    ensures forall a :: e.action == Some(a) ==>
                          Replay(ForAction(Stamp(log, e), a)) == Extend(Replay(ForAction(log, a)), e)
  {
    var e' := e.(id := Some(|log| + 1));
    FiltersOnAppend(log, e');
    forall a | e.action == Some(a)
      ensures Replay(ForAction(Stamp(log, e), a)) == Extend(Replay(ForAction(log, a)), e)
    {
      var rows := ForAction(log, a);
      assert (rows + [e'])[..|rows|] == rows;
      assert Extend(Replay(rows), e') == Extend(Replay(rows), e);
    }
  }

  lemma OwnedStamp(actions: map<string, Action>, log: seq<AuditEntry>, e: AuditEntry)
    requires LogOwned(actions, log)
    requires e.action.Some? && e.action.value in actions
    requires e.tenant == actions[e.action.value].tenant && e.event == Some(actions[e.action.value].event)
    ensures LogOwned(actions, Stamp(log, e))
  {
  }

  lemma OwnedPut(actions: map<string, Action>, log: seq<AuditEntry>, a: Action)
    requires LogOwned(actions, log)
    requires a.id in actions ==> a.tenant == actions[a.id].tenant && a.event == actions[a.id].event
    ensures LogOwned(actions[a.id := a], log)
  {
  }

  lemma TellsPut(actions: map<string, Action>, rows: map<string, ApprovalRow>, log: seq<AuditEntry>,
                 a: Action, rows': map<string, ApprovalRow>, log': seq<AuditEntry>)
    requires LogTells(actions, rows, log)
    requires forall x :: x != a.id ==> RowOf(rows', x) == RowOf(rows, x) && ForAction(log', x) == ForAction(log, x)
    requires Replay(ForAction(log', a.id)) == Story(a, RowOf(rows', a.id))
    ensures LogTells(actions[a.id := a], rows', log')
  {
  }

  // ----- first delivery -----

  lemma Settled(a: Action, d: PolicyDecision, exec: Execution, now: int)
    requires a.status == PendingPolicy && a.executedAt.None?
    ensures var end := Settle(a, d, exec, now);
            && end.id == a.id && end.tenant == a.tenant && end.event == a.event
            && (end.executedAt.Some? <==> end.status == Executed)
            && (match d
                case Auto => HasRun(end.status)
                case ApprovalRequired => end.status == PendingApproval
                case Reject => end.status == Rejected)
  {
  }

  /** The rows of a first delivery tell the new action's story, and touch no other action. */
  lemma LaunchRows(log: seq<AuditEntry>, p: Proposal, a: Action, d: PolicyDecision, exec: Execution, now: int)
    requires a.status == PendingPolicy && ForAction(log, a.id) == []
    ensures forall x :: x != a.id ==> ForAction(LaunchLog(log, p, a, d, exec), x) == ForAction(log, x)
    ensures Replay(ForAction(LaunchLog(log, p, a, d, exec), a.id))
         == Told(Settle(a, d, exec, now).status, Some(d), None, [])
  {
    var log1 := Stamp(log, ProposalRow(p, a));
    Stamped(log, ProposalRow(p, a));
    var log2 := Stamp(log1, DecisionRow(d, a));
    Stamped(log1, DecisionRow(d, a));
    hide ForAction, Stamp;
    assert Replay(ForAction(log1, a.id)) == Told(PendingPolicy, None, None, []);
    match d
    case Reject => Stamped(log2, RefusalRow(a));
    case ApprovalRequired =>
    case Auto => Stamped(log2, ExecutionRow(a, exec));
  }

  lemma LaunchOwned(actions: map<string, Action>, log: seq<AuditEntry>, p: Proposal, a: Action,
                    d: PolicyDecision, exec: Execution)
    requires LogOwned(actions, log)
    requires a.id in actions && actions[a.id].tenant == a.tenant && actions[a.id].event == a.event
    ensures LogOwned(actions, LaunchLog(log, p, a, d, exec))
  {
    hide LogOwned;
    var log1 := Stamp(log, ProposalRow(p, a));
    OwnedStamp(actions, log, ProposalRow(p, a));
    var log2 := Stamp(log1, DecisionRow(d, a));
    OwnedStamp(actions, log1, DecisionRow(d, a));
    match d
    case Reject => OwnedStamp(actions, log2, RefusalRow(a));
    case ApprovalRequired =>
    case Auto => OwnedStamp(actions, log2, ExecutionRow(a, exec));
  }

  lemma LaunchQueued(s: State, p: Proposal, id: string, rowId: string, now: int, end: Action)
    requires AllArmable(s.rules) && RowsOk(s.actions, s.queue.rows)
    requires IndexOk(s.actions, s.byTenant) && PendingOk(s.actions, s.byTenant, s.queue.pending)
    requires id != "" && p.tenant != "" && id !in s.actions && id !in s.queue.rows
    requires end.id == id && end.tenant == p.tenant
    requires Decide(s.policies, p.tenant, p.kind) == ApprovalRequired <==> end.status == PendingApproval
    ensures var queue := LaunchQueue(s, p, id, rowId, now);
            && RowsOk(s.actions[id := end], queue.rows)
            && PendingOk(s.actions[id := end], Push(s.byTenant, p.tenant, id), queue.pending)
            && (forall x :: x != id ==> RowOf(queue.rows, x) == RowOf(s.queue.rows, x))
            && (end.status != PendingApproval ==> id !in queue.rows)
            && (end.status == PendingApproval ==>
                  id in queue.rows && queue.rows[id].approvals == [])
  {
    hide PendingOk, IndexOk;
    PendingAdd(s.actions, s.byTenant, s.queue.pending, end);
  }

  lemma LaunchActions(s: State, end: Action, ran: bool)
    requires ActionsOk(s.actions) && InvokedOk(s.actions, s.invoked) && end.id !in s.actions
    requires end.status != PendingPolicy && end.status != PendingExec && (end.executedAt.Some? <==> end.status == Executed)
    requires ran <==> HasRun(end.status)
    ensures ActionsOk(s.actions[end.id := end])
    ensures InvokedOk(s.actions[end.id := end], if ran then s.invoked + [end.id] else s.invoked)
  {
  }

  lemma LaunchCoherent(s: State, p: Proposal, id: string, rowId: string, now: int, exec: Execution)
    requires Coherent(s) && Admissible(s, Handle(p, id, rowId, now, exec))
    requires (p.tenant, p.event) !in s.dedup
    ensures Coherent(Launch(s, p, id, rowId, now, exec).0)
  {
    hide IndexOk, RowsOk, PendingOk, LogOwned, LogTells, DedupOk, Settle, LaunchLog, LaunchQueue, Decide, AllArmable;
    hide ActionsOk, InvokedOk, ForAction, Replay;
    var d, a := Decide(s.policies, p.tenant, p.kind), Materialize(p, id, now);
    var end, next := Settle(a, d, exec, now), Launch(s, p, id, rowId, now, exec).0;
    Settled(a, d, exec, now);
    LaunchActions(s, end, d == Auto);
    IndexAdd(s.actions, s.byTenant, end);
    DedupAdd(s.actions, s.dedup, end);
    LaunchQueued(s, p, id, rowId, now, end);
    ForeignRows(s.actions, s.log, id);
    LaunchRows(s.log, p, a, d, exec, now);
    OwnedPut(s.actions, s.log, end);
    LaunchOwned(next.actions, s.log, p, a, d, exec);
    TellsPut(s.actions, s.queue.rows, s.log, end, next.queue.rows, next.log);
  }

  // ----- votes -----

  /** What a counted vote does to a row. */
  lemma VoteFits(row: ApprovalRow, a: Action, voter: string, now: int)
    requires RowFits(row, a) && CastApproval(row, Some(voter), now).Success?
    ensures var next := CastApproval(row, Some(voter), now).value;
            && row.state == Pending && a.status == PendingApproval
            && next.action == row.action && next.tenant == row.tenant
            && next.required == row.required && next.eligible == row.eligible
            && next.approvals == row.approvals + [voter]
            && (next.state == Pending || next.state == Approved)
            && (next.state == Approved <==> |next.approvals| >= next.required)
            && (forall end: Action ::
                  end.id == a.id && end.tenant == a.tenant
                  && (if next.state == Approved then HasRun(end.status) else end.status == PendingApproval)
                  ==> RowFits(next, end))
  {
  }

  lemma VetoFits(row: ApprovalRow, a: Action, voter: string, reason: string, now: int)
    requires RowFits(row, a) && CastVeto(row, Some(voter), reason, now).Success?
    ensures var next := CastVeto(row, Some(voter), reason, now).value;
            && row.state == Pending && a.status == PendingApproval
            && next.action == row.action && next.tenant == row.tenant && next.state == Vetoed
            && next.approvals == row.approvals && next.required == row.required && next.eligible == row.eligible
            && (forall end: Action ::
                  end.id == a.id && end.tenant == a.tenant && end.status == Rejected ==> RowFits(next, end))
  {
  }

  lemma RowsPut(actions: map<string, Action>, rows: map<string, ApprovalRow>, a: Action, row: ApprovalRow)
    requires RowsOk(actions, rows) && RowFits(row, a)
    ensures RowsOk(actions[a.id := a], rows[a.id := row])
  {
    hide RowFits;
  }

  lemma DedupKeep(actions: map<string, Action>, dedup: map<(string, string), seq<string>>, a: Action)
    requires DedupOk(actions, dedup) && a.id in actions
    requires a.tenant == actions[a.id].tenant && a.event == actions[a.id].event
    ensures DedupOk(actions[a.id := a], dedup)
  {
  }

  /** Resolving a pending action takes it off its tenant's list and no other. */
  lemma PendingDrop(actions: map<string, Action>, byTenant: map<string, seq<string>>,
                    pending: map<string, seq<string>>, a: Action)
    requires IndexOk(actions, byTenant) && PendingOk(actions, byTenant, pending)
    requires a.id in actions && actions[a.id].status == PendingApproval && a.status != PendingApproval
    requires a.tenant == actions[a.id].tenant
    ensures a.tenant in pending
    ensures PendingOk(actions[a.id := a], byTenant, pending[a.tenant := RemoveFirst(pending[a.tenant], a.id)])
  {
    assert Lists(Bucket(byTenant, a.tenant), actions, a.tenant);
    assert Bucket(pending, a.tenant) == Awaiting(Bucket(byTenant, a.tenant), actions);
    AwaitingMembers(Bucket(byTenant, a.tenant), actions);
    hide Awaiting, RemoveFirst;
    assert a.id in Bucket(pending, a.tenant);
    var next := pending[a.tenant := RemoveFirst(pending[a.tenant], a.id)];
    forall t
      ensures Bucket(next, t) == Awaiting(Bucket(byTenant, t), actions[a.id := a])
    {
      assert Lists(Bucket(byTenant, t), actions, t);
      assert Bucket(pending, t) == Awaiting(Bucket(byTenant, t), actions);
      if t == a.tenant {
        AwaitingDrops(Bucket(byTenant, t), actions, a.id, a);
      } else {
        AwaitingSame(Bucket(byTenant, t), actions, actions[a.id := a]);
      }
    }
  }

  lemma VoteTold(log: seq<AuditEntry>, a: Action, row: ApprovalRow, voter: string, next: ApprovalRow)
    requires a.status == PendingApproval
    requires Replay(ForAction(log, a.id)) == Story(a, Some(row))
    requires next.approvals == row.approvals + [voter] && next.required == row.required
    requires next.state == Approved <==> |next.approvals| >= next.required
    ensures Replay(ForAction(Stamp(log, VoteRow(a, voter, next)), a.id))
         == Told(if next.state == Approved then PendingExec else PendingApproval,
                 Some(ApprovalRequired), Some(next.required), next.approvals)
  {
    Stamped(log, VoteRow(a, voter, next));
  }

  lemma GuardedAction(s: State, id: string)
    requires Coherent(s) && id in s.queue.rows
    ensures id in s.actions && s.actions[id].id == id && RowFits(s.queue.rows[id], s.actions[id])
    ensures s.actions[id].executedAt.Some? <==> s.actions[id].status == Executed
  {
  }

  lemma QueuedTold(s: State, id: string)
    requires Coherent(s) && id in s.actions && id in s.queue.rows
    ensures Replay(ForAction(s.log, id)) == Story(s.actions[id], Some(s.queue.rows[id]))
  {
    hide ActionsOk, IndexOk, RowsOk, PendingOk, DedupOk, InvokedOk, LogOwned, AllArmable, Replay, ForAction, Story;
    assert RowOf(s.queue.rows, id) == Some(s.queue.rows[id]);
  }

  /** The stores after a vote that leaves the row pending. */
  lemma PartialVoteCoherent(s: State, id: string, voter: string, now: int)
    requires Coherent(s) && id in s.actions && id in s.queue.rows
    requires CastApproval(s.queue.rows[id], Some(voter), now).Success?
    requires CastApproval(s.queue.rows[id], Some(voter), now).value.state != Approved
    ensures var row := CastApproval(s.queue.rows[id], Some(voter), now).value;
            Coherent(s.(queue := s.queue.Update(row), log := Stamp(s.log, VoteRow(s.actions[id], voter, row))))
  {
    hide CastApproval, IndexOk, PendingOk, DedupOk, LogOwned, InvokedOk, AllArmable;
    hide RowFits, LogTells, RowsOk, Replay, Extend, Stamp, ForAction, ActionsOk;
    GuardedAction(s, id);
    QueuedTold(s, id);
    var a, row := s.actions[id], s.queue.rows[id];
    var next := CastApproval(row, Some(voter), now).value;
    var log := Stamp(s.log, VoteRow(a, voter, next));
    VoteFits(row, a, voter, now);
    assert s.actions[id := a] == s.actions;
    RowsPut(s.actions, s.queue.rows, a, next);
    Stamped(s.log, VoteRow(a, voter, next));
    OwnedStamp(s.actions, s.log, VoteRow(a, voter, next));
    VoteTold(s.log, a, row, voter, next);
    assert Replay(ForAction(log, id)) == Story(a, Some(next));
    TellsPut(s.actions, s.queue.rows, s.log, a, s.queue.rows[id := next], log);
  }

  /** Resolving a pending action: every store but the log moves together. */
  lemma ResolvedStores(s: State, end: Action, row: ApprovalRow, invoked: seq<string>)
    requires Coherent(s) && end.id in s.actions && end.id in s.queue.rows
    requires s.actions[end.id].status == PendingApproval
    requires end.tenant == s.actions[end.id].tenant && end.event == s.actions[end.id].event
    requires RowFits(row, end) && row.state != Pending
    requires end.executedAt.Some? <==> end.status == Executed
    requires invoked == if HasRun(end.status) then s.invoked + [end.id] else s.invoked
    ensures var actions, queue := s.actions[end.id := end], s.queue.Update(row);
            && ActionsOk(actions)
            && IndexOk(actions, s.byTenant)
            && RowsOk(actions, queue.rows)
            && PendingOk(actions, s.byTenant, queue.pending)
            && DedupOk(actions, s.dedup)
            && InvokedOk(actions, invoked)
            && queue.rows == s.queue.rows[end.id := row]
  {
    hide IndexOk, PendingOk, DedupOk, LogOwned, LogTells, RowsOk, RemoveFirst, AllArmable;
    IndexKeep(s.actions, s.byTenant, end);
    RowsPut(s.actions, s.queue.rows, end, row);
    PendingDrop(s.actions, s.byTenant, s.queue.pending, end);
    DedupKeep(s.actions, s.dedup, end);
  }

  /** The audit rows of a vote that completes the quorum. */
  lemma FinalVoteTold(log: seq<AuditEntry>, a: Action, row: ApprovalRow, voter: string, next: ApprovalRow, exec: Execution,
                      end: Action)
    requires a.status == PendingApproval && next.state == Approved
    requires Replay(ForAction(log, a.id)) == Story(a, Some(row))
    requires next.approvals == row.approvals + [voter] && next.required == row.required
    requires |next.approvals| >= next.required
    requires end.status == if exec.Done? then Executed else ExecutionFailed
    ensures var log' := Stamp(Stamp(log, VoteRow(a, voter, next)), ExecutionRow(a, exec));
            && Replay(ForAction(log', a.id)) == Story(end, Some(next))
            && (forall x :: x != a.id ==> ForAction(log', x) == ForAction(log, x))
  {
    hide ForAction, Stamp, Replay;
    VoteTold(log, a, row, voter, next);
    Stamped(log, VoteRow(a, voter, next));
    var log1 := Stamp(log, VoteRow(a, voter, next));
    Stamped(log1, ExecutionRow(a, exec));
  }

  /** The stores after the vote that completes the quorum. */
  lemma FinalVoteCoherent(s: State, id: string, voter: string, now: int, exec: Execution, end: Action)
    requires Coherent(s) && id in s.actions && id in s.queue.rows
    requires CastApproval(s.queue.rows[id], Some(voter), now).Success?
    requires CastApproval(s.queue.rows[id], Some(voter), now).value.state == Approved
    requires end == Ran(s.actions[id].(status := PendingExec, updatedAt := now), exec, now)
    ensures var a, row := s.actions[id], CastApproval(s.queue.rows[id], Some(voter), now).value;
            Coherent(s.(queue := s.queue.Update(row),
                        log := Stamp(Stamp(s.log, VoteRow(a, voter, row)), ExecutionRow(a, exec)),
                        actions := s.actions[id := end],
                        invoked := s.invoked + [id]))
  {
    hide CastApproval, IndexOk, PendingOk, DedupOk, LogOwned, AllArmable, Stamp, ForAction, Replay, Extend, RemoveFirst;
    hide RowFits, LogTells, RowsOk, InvokedOk, ActionsOk, Story;
    GuardedAction(s, id);
    QueuedTold(s, id);
    var a, row := s.actions[id], s.queue.rows[id];
    var next := CastApproval(row, Some(voter), now).value;
    VoteFits(row, a, voter, now);
    ResolvedStores(s, end, next, s.invoked + [id]);
    FinalVoteTold(s.log, a, row, voter, next, exec, end);
    OwnedPut(s.actions, s.log, end);
    OwnedStamp(s.actions[id := end], s.log, VoteRow(a, voter, next));
    OwnedStamp(s.actions[id := end], Stamp(s.log, VoteRow(a, voter, next)), ExecutionRow(a, exec));
    TellsPut(s.actions, s.queue.rows, s.log, end, s.queue.rows[id := next],
             Stamp(Stamp(s.log, VoteRow(a, voter, next)), ExecutionRow(a, exec)));
  }

  lemma ApproveCoherent(s: State, id: string, voter: string, expected: Option<string>, now: int, exec: Execution)
    requires Coherent(s) && |voter| <= MAX_ACTOR_ID
    ensures Coherent(ApproveStep(s, id, voter, expected, now, exec).0)
  {
    hide Coherent, CastApproval, Stamp, RemoveFirst;
    if Visible(s, id, expected) && id in s.queue.rows {
      var vote := CastApproval(s.queue.rows[id], Some(voter), now);
      if vote.Success? {
        GuardedAction(s, id);
        if vote.value.state == Approved {
          FinalVoteCoherent(s, id, voter, now, exec,
                            Ran(s.actions[id].(status := PendingExec, updatedAt := now), exec, now));
        } else {
          PartialVoteCoherent(s, id, voter, now);
        }
      }
    }
  }

  lemma VetoTold(log: seq<AuditEntry>, a: Action, row: ApprovalRow, voter: string, reason: string,
                 next: ApprovalRow, end: Action)
    requires a.status == PendingApproval && end.status == Rejected
    requires Replay(ForAction(log, a.id)) == Story(a, Some(row))
    requires next.approvals == row.approvals && next.required == row.required
    ensures Replay(ForAction(Stamp(log, VetoRow(a, voter, reason)), a.id)) == Story(end, Some(next))
  {
    Stamped(log, VetoRow(a, voter, reason));
  }

  lemma RejectCoherent(s: State, id: string, voter: string, reason: string, expected: Option<string>, now: int)
    requires Coherent(s) && |voter| <= MAX_ACTOR_ID
    ensures Coherent(RejectStep(s, id, voter, reason, expected, now).0)
  {
    hide CastVeto, IndexOk, PendingOk, DedupOk, LogOwned, AllArmable, RemoveFirst, Stamp, ForAction, Replay;
    hide RowFits, LogTells, RowsOk, Extend, InvokedOk, ActionsOk, Story;
    if Visible(s, id, expected) && id in s.queue.rows && CastVeto(s.queue.rows[id], Some(voter), reason, now).Success? {
      var a, row := s.actions[id], s.queue.rows[id];
      var next := CastVeto(row, Some(voter), reason, now).value;
      var end := a.(status := Rejected, updatedAt := now);
      GuardedAction(s, id);
      QueuedTold(s, id);
      VetoFits(row, a, voter, reason, now);
      ResolvedStores(s, end, next, s.invoked);
      VetoTold(s.log, a, row, voter, reason, next, end);
      Stamped(s.log, VetoRow(a, voter, reason));
      OwnedPut(s.actions, s.log, end);
      OwnedStamp(s.actions[id := end], s.log, VetoRow(a, voter, reason));
      TellsPut(s.actions, s.queue.rows, s.log, end, s.queue.rows[id := next], Stamp(s.log, VetoRow(a, voter, reason)));
    }
  }

  // ----- whole runs -----

  lemma EmptyCoherent()
    ensures Coherent(EMPTY)
  {
  }

  lemma StepCoherent(s: State, op: Op)
    requires Coherent(s) && Admissible(s, op)
    ensures Coherent(Step(s, op).0)
  {
    match op {
      case Handle(p, id, rowId, now, exec) =>
        if (p.tenant, p.event) !in s.dedup {
          LaunchCoherent(s, p, id, rowId, now, exec);
        }
      case ApproveCall(id, voter, expected, now, exec) => ApproveCoherent(s, id, voter, expected, now, exec);
      case RejectCall(id, voter, reason, expected, now) => RejectCoherent(s, id, voter, reason, expected, now);
      case SetQuorum(tenant, kind, required, eligible) =>
      case SetPolicies(tenant, table) =>
    }
  }

  /** The stores agree after every run of public calls, failing calls included. */
  lemma {:induction false} RunCoherent(s: State, ops: seq<Op>)
    requires Coherent(s) && AdmissibleRun(s, ops)
    ensures Coherent(Run(s, ops))
    decreases |ops|
  {
    hide Coherent, Admissible, Step;
    if ops != [] {
      StepCoherent(s, ops[0]);
      RunCoherent(Step(s, ops[0]).0, ops[1..]);
    }
  }
}
