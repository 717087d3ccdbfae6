/** What it means for the five stores to agree, and the filter of pending ids. */
module SpineInvariant {
  import opened Common
  import opened Contracts
  import AuditLogs
  import opened Approvals
  import Quorums
  import opened Spine
  import opened Replays

  function RowOf(rows: map<string, ApprovalRow>, id: string): Option<ApprovalRow> {
    if id in rows then Some(rows[id]) else None
  }

  predicate HasRun(status: ActionStatus) {
    status == Executed || status == ExecutionFailed
  }

  /** No public call leaves an action mid-transition, and `executedAt` is set
      exactly on executed actions. */
  ghost predicate ActionsOk(actions: map<string, Action>) {
    forall a :: a in actions ==>
      && actions[a].id == a
      && actions[a].status != PendingPolicy
      && actions[a].status != PendingExec
      && (actions[a].executedAt.Some? <==> actions[a].status == Executed)
  }

  /** A tenant's id list names exactly that tenant's actions, once each. */
  ghost predicate IndexOk(actions: map<string, Action>, byTenant: map<string, seq<string>>) {
    forall t :: Lists(Bucket(byTenant, t), actions, t)
  }

  ghost predicate Lists(ids: seq<string>, actions: map<string, Action>, t: string) {
    && NoDup(ids)
    && (forall a :: a in ids <==> a in actions && actions[a].tenant == t)
  }

  /** A row against the action it guards. */
  ghost predicate RowFits(row: ApprovalRow, a: Action) {
    && row.action == a.id
    && row.tenant == a.tenant
    && ValidArming(row.required, row.eligible)
    && NoDup(row.approvals)
    && (forall v :: v in row.approvals ==> Eligible(row.eligible, Some(v)))
    && (match row.state
        case Pending => a.status == PendingApproval && |row.approvals| < row.required
        case Approved => HasRun(a.status) && |row.approvals| == row.required
        case Vetoed => a.status == Rejected && |row.approvals| < row.required)
  }

  ghost predicate RowsOk(actions: map<string, Action>, rows: map<string, ApprovalRow>) {
    && (forall a :: a in rows ==> a in actions && RowFits(rows[a], actions[a]))
    && (forall a :: a in actions && actions[a].status == PendingApproval ==> a in rows)
  }

  /** The ids of `ids` whose action awaits approval, in the same order. */
  function Awaiting(ids: seq<string>, actions: map<string, Action>): seq<string> {
    if ids == [] then []
    else
      var front := Awaiting(ids[..|ids| - 1], actions);
      var last := ids[|ids| - 1];
      if last in actions && actions[last].status == PendingApproval then front + [last] else front
  }

  /** The queue's FIFO list is the tenant's creation-ordered id list, filtered. */
  ghost predicate PendingOk(actions: map<string, Action>, byTenant: map<string, seq<string>>,
                            pending: map<string, seq<string>>)
  {
    forall t :: Bucket(pending, t) == Awaiting(Bucket(byTenant, t), actions)
  }

  /** One action per (tenant, event), and every action is remembered. */
  ghost predicate DedupOk(actions: map<string, Action>, dedup: map<(string, string), seq<string>>) {
    && (forall k :: k in dedup ==>
          |dedup[k]| == 1 && dedup[k][0] in actions
          && (actions[dedup[k][0]].tenant, actions[dedup[k][0]].event) == k)
    && (forall a :: a in actions ==>
          (actions[a].tenant, actions[a].event) in dedup
          && dedup[(actions[a].tenant, actions[a].event)] == [a])
  }

  /** The executor ran once for each action that ran, and for no other. */
  ghost predicate InvokedOk(actions: map<string, Action>, invoked: seq<string>) {
    && NoDup(invoked)
    && (forall a :: a in invoked <==> a in actions && HasRun(actions[a].status))
  }

  /** Every audit row belongs to a stored action. */
  ghost predicate LogOwned(actions: map<string, Action>, log: seq<AuditEntry>) {
    forall i :: 0 <= i < |log| ==>
      && log[i].id == Some(i + 1)
      && log[i].action.Some?
      && log[i].action.value in actions
      && log[i].tenant == actions[log[i].action.value].tenant
      && log[i].event == Some(actions[log[i].action.value].event)
  }

  /** Replaying an action's rows yields its stored status and voters. */
  ghost predicate LogTells(actions: map<string, Action>, rows: map<string, ApprovalRow>, log: seq<AuditEntry>) {
    forall a :: a in actions ==> Replay(AuditLogs.ForAction(log, a)) == Story(actions[a], RowOf(rows, a))
  }

  ghost predicate Coherent(s: State) {
    && ActionsOk(s.actions)
    && IndexOk(s.actions, s.byTenant)
    && RowsOk(s.actions, s.queue.rows)
    && PendingOk(s.actions, s.byTenant, s.queue.pending)
    && DedupOk(s.actions, s.dedup)
    && InvokedOk(s.actions, s.invoked)
    && LogOwned(s.actions, s.log)
    && LogTells(s.actions, s.queue.rows, s.log)
    && Quorums.AllArmable(s.rules)
  }

  // ----- filters under a changed action -----

  lemma {:induction false} AwaitingSame(ids: seq<string>, was: map<string, Action>, actions: map<string, Action>)
    requires forall a :: a in ids ==>
               (a in was && was[a].status == PendingApproval <==> a in actions && actions[a].status == PendingApproval)
    ensures Awaiting(ids, was) == Awaiting(ids, actions)
  {
    if ids != [] {
      AwaitingSame(ids[..|ids| - 1], was, actions);
    }
  }

  lemma {:induction false} AwaitingMembers(ids: seq<string>, actions: map<string, Action>)
    ensures forall a :: a in Awaiting(ids, actions) <==> a in ids && a in actions && actions[a].status == PendingApproval
  {
    if ids != [] {
      var front := ids[..|ids| - 1];
      AwaitingMembers(front, actions);
      assert forall a :: a in ids <==> a in front || a == ids[|ids| - 1];
    }
  }

  lemma {:induction false} AwaitingNoDup(ids: seq<string>, actions: map<string, Action>)
    requires NoDup(ids)
    ensures NoDup(Awaiting(ids, actions))
  {
    if ids != [] {
      var front := ids[..|ids| - 1];
      AwaitingNoDup(front, actions);
      AwaitingMembers(front, actions);
    }
  }

  /** Resolving one pending action drops it from the filtered list. */
  lemma {:induction false} AwaitingDrops(ids: seq<string>, actions: map<string, Action>, id: string, a: Action)
    requires NoDup(ids)
    requires id in actions && actions[id].status == PendingApproval && a.status != PendingApproval
    ensures Awaiting(ids, actions[id := a]) == RemoveFirst(Awaiting(ids, actions), id)
  {
    if ids != [] {
      var front, last := ids[..|ids| - 1], ids[|ids| - 1];
      AwaitingDrops(front, actions, id, a);
      if last == id {
        AwaitingMembers(front, actions);
        AwaitingSame(front, actions, actions[id := a]);
        RemoveFirstTail(Awaiting(front, actions), id);
      } else if last in actions && actions[last].status == PendingApproval {
        RemoveFirstAppend(Awaiting(front, actions), id, last);
      }
    }
  }

  lemma {:induction false} RemoveFirstTail<T>(s: seq<T>, x: T)
    requires x !in s
    ensures RemoveFirst(s + [x], x) == s
  {
    if s != [] {
      RemoveFirstTail(s[1..], x);
      assert (s + [x])[1..] == s[1..] + [x];
    }
  }
}
