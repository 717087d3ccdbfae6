/** Tenant isolation over whole runs: erasing every other tenant's calls from
    a run leaves exactly one tenant's slice of the full run's state. */
module SpineTenancy {
  import opened Common
  import opened Contracts
  import opened AuditLogs
  import opened Approvals
  import opened Quorums
  import opened Spine
  import opened SpineInvariant
  import SpineSafety

  // ----- one tenant's slice of each store -----

  function ActionsOf(actions: map<string, Action>, t: string): map<string, Action> {
    map a | a in actions && actions[a].tenant == t :: actions[a]
  }

  function RowsFor(rows: map<string, ApprovalRow>, t: string): map<string, ApprovalRow> {
    map a | a in rows && rows[a].tenant == t :: rows[a]
  }

  function Only<V>(d: map<string, V>, t: string): map<string, V> {
    map k | k in d && k == t :: d[k]
  }

  function OnlyPairs<K(==), V>(d: map<(string, K), V>, t: string): map<(string, K), V> {
    map k | k in d && k.0 == t :: d[k]
  }

  /** The tenant's audit rows, numbered from one. */
  function Renumbered(rows: seq<AuditEntry>): seq<AuditEntry> {
    if rows == [] then [] else Stamp(Renumbered(rows[..|rows| - 1]), rows[|rows| - 1])
  }

  function LogOf(log: seq<AuditEntry>, t: string): seq<AuditEntry> {
    Renumbered(ForTenant(log, t))
  }

  function InvokedFor(invoked: seq<string>, actions: map<string, Action>, t: string): seq<string> {
    if invoked == [] then []
    else
      var front := InvokedFor(invoked[..|invoked| - 1], actions, t);
      var last := invoked[|invoked| - 1];
      if last in actions && actions[last].tenant == t then front + [last] else front
  }

  function QueueOf(q: Queue, t: string): Queue {
    Queue(RowsFor(q.rows, t), Only(q.pending, t))
  }

  function Slice(s: State, t: string): State {
    State(ActionsOf(s.actions, t), Only(s.byTenant, t), QueueOf(s.queue, t), LogOf(s.log, t),
          OnlyPairs(s.dedup, t), OnlyPairs(s.rules, t), Only(s.policies, t),
          InvokedFor(s.invoked, s.actions, t))
  }

  /** Whose call a vote is: the tenant it says it comes from or, when it says
      nothing, the tenant of the action it names; a vote that says nothing and
      names no stored action is nobody's. */
  predicate VotesAs(s: State, id: string, expected: Option<string>, t: string) {
    if expected.Some? then expected.value == t else id in s.actions && s.actions[id].tenant == t
  }

  /** The tenant a call acts for. */
  predicate Concerns(s: State, op: Op, t: string) {
    match op
    case Handle(p, _, _, _, _) => p.tenant == t
    case ApproveCall(id, _, expected, _, _) => VotesAs(s, id, expected, t)
    case RejectCall(id, _, _, expected, _) => VotesAs(s, id, expected, t)
    case SetQuorum(tenant, _, _, _) => tenant == t
    case SetPolicies(tenant, _) => tenant == t
  }

  // ----- slicing commutes with updates -----

  lemma SlicePut(actions: map<string, Action>, a: Action, t: string)
    requires a.id in actions ==> actions[a.id].tenant == a.tenant
    ensures ActionsOf(actions[a.id := a], t)
         == if a.tenant == t then ActionsOf(actions, t)[a.id := a] else ActionsOf(actions, t)
  {
  }

  lemma SliceRow(rows: map<string, ApprovalRow>, row: ApprovalRow, t: string)
    requires row.action in rows ==> rows[row.action].tenant == row.tenant
    ensures RowsFor(rows[row.action := row], t)
         == if row.tenant == t then RowsFor(rows, t)[row.action := row] else RowsFor(rows, t)
  {
  }

  lemma SliceKey<V>(d: map<string, V>, k: string, v: V, t: string)
    ensures Only(d[k := v], t) == if k == t then Only(d, t)[k := v] else Only(d, t)
  {
  }

  lemma SlicePair<K, V>(d: map<(string, K), V>, k: (string, K), v: V, t: string)
    ensures OnlyPairs(d[k := v], t) == if k.0 == t then OnlyPairs(d, t)[k := v] else OnlyPairs(d, t)
  {
  }

  lemma SliceStamp(log: seq<AuditEntry>, e: AuditEntry, t: string)
    ensures LogOf(Stamp(log, e), t) == if e.tenant == t then Stamp(LogOf(log, t), e) else LogOf(log, t)
  {
    var e' := e.(id := Some(|log| + 1));
    FiltersOnAppend(log, e');
    if e.tenant == t {
      var rows := ForTenant(log, t);
      assert (rows + [e'])[..|rows|] == rows;
      assert Stamp(Renumbered(rows), e') == Stamp(Renumbered(rows), e);
    }
  }

  lemma {:induction false} InvokedSame(invoked: seq<string>, was: map<string, Action>, actions: map<string, Action>, t: string)
    requires forall a :: a in invoked ==> a in was && a in actions && was[a].tenant == actions[a].tenant
    ensures InvokedFor(invoked, was, t) == InvokedFor(invoked, actions, t)
  {
    if invoked != [] {
      InvokedSame(invoked[..|invoked| - 1], was, actions, t);
    }
  }

  /** The executor log after storing `end`, whether or not `end` was just run. */
  lemma SliceInvoked(s: State, end: Action, ran: bool, t: string)
    requires InvokedOk(s.actions, s.invoked)
    requires end.id in s.actions ==> s.actions[end.id].tenant == end.tenant
    ensures InvokedFor(if ran then s.invoked + [end.id] else s.invoked, s.actions[end.id := end], t)
         == InvokedFor(s.invoked, s.actions, t) + if ran && end.tenant == t then [end.id] else []
  {
    InvokedSame(s.invoked, s.actions, s.actions[end.id := end], t);
    assert (s.invoked + [end.id])[..|s.invoked|] == s.invoked;
  }

  lemma SliceQueue(q: Queue, row: ApprovalRow, t: string)
    requires row.action in q.rows && q.rows[row.action].tenant == row.tenant
    ensures QueueOf(q.Update(row), t) == if row.tenant == t then QueueOf(q, t).Update(row) else QueueOf(q, t)
  {
    SliceRow(q.rows, row, t);
    if row.tenant in q.pending {
      SliceKey(q.pending, row.tenant, RemoveFirst(q.pending[row.tenant], row.action), t);
    }
  }

  // ----- one step -----

  lemma SliceLaunchLog(log: seq<AuditEntry>, p: Proposal, a: Action, d: PolicyDecision, exec: Execution, t: string)
    ensures LogOf(LaunchLog(log, p, a, d, exec), t)
         == if a.tenant == t then LaunchLog(LogOf(log, t), p, a, d, exec) else LogOf(log, t)
  {
    hide LogOf, Stamp;
    var log1 := Stamp(log, ProposalRow(p, a));
    SliceStamp(log, ProposalRow(p, a), t);
    var log2 := Stamp(log1, DecisionRow(d, a));
    SliceStamp(log1, DecisionRow(d, a), t);
    match d
    case Reject => SliceStamp(log2, RefusalRow(a), t);
    case ApprovalRequired =>
    case Auto => SliceStamp(log2, ExecutionRow(a, exec), t);
  }

  lemma SliceLaunchQueue(s: State, p: Proposal, id: string, rowId: string, now: int, t: string)
    requires id !in s.queue.rows
    ensures QueueOf(LaunchQueue(s, p, id, rowId, now), t)
         == if p.tenant == t then LaunchQueue(Slice(s, t), p, id, rowId, now) else QueueOf(s.queue, t)
  {
    hide LogOf, InvokedFor, ActionsOf;
    var rule := Resolve(s.rules, p.tenant, p.kind);
    var row := Armed(rowId, id, p.tenant, rule.required, rule.eligible, now);
    SliceRow(s.queue.rows, row, t);
    SliceKey(s.queue.pending, p.tenant, Bucket(s.queue.pending, p.tenant) + [id], t);
  }

  lemma SliceLaunch(s: State, p: Proposal, id: string, rowId: string, now: int, exec: Execution, t: string)
    requires Coherent(s) && Admissible(s, Handle(p, id, rowId, now, exec))
    ensures Slice(Launch(s, p, id, rowId, now, exec).0, t)
         == if p.tenant == t then Launch(Slice(s, t), p, id, rowId, now, exec).0 else Slice(s, t)
    ensures p.tenant == t ==> Launch(Slice(s, t), p, id, rowId, now, exec).1 == Launch(s, p, id, rowId, now, exec).1
  {
    hide LogOf, LaunchLog, LaunchQueue, InvokedFor, ActionsOf, QueueOf, Settle, ActionsOk, IndexOk, RowsOk, PendingOk,
      DedupOk, InvokedOk, LogOwned, LogTells, AllArmable;
    var a, d := Materialize(p, id, now), Decide(s.policies, p.tenant, p.kind);
    var end := Settle(a, d, exec, now);
    SpineSafety.Settled(a, d, exec, now);
    SlicePut(s.actions, end, t);
    SliceKey(s.byTenant, p.tenant, Bucket(s.byTenant, p.tenant) + [id], t);
    SliceLaunchQueue(s, p, id, rowId, now, t);
    SliceLaunchLog(s.log, p, a, d, exec, t);
    SlicePair(s.dedup, (p.tenant, p.event), [id], t);
    SliceInvoked(s, end, d == Auto, t);
  }

  lemma SliceHandle(s: State, p: Proposal, id: string, rowId: string, now: int, exec: Execution, t: string)
    requires Coherent(s) && Admissible(s, Handle(p, id, rowId, now, exec))
    ensures var (next, reply) := HandleStep(s, p, id, rowId, now, exec);
            if p.tenant == t then HandleStep(Slice(s, t), p, id, rowId, now, exec) == (Slice(next, t), reply)
            else Slice(next, t) == Slice(s, t)
  {
    hide Launch, LogOf, InvokedFor, QueueOf, ActionsOk, IndexOk, RowsOk, PendingOk, InvokedOk, LogOwned, LogTells, AllArmable;
    if (p.tenant, p.event) in s.dedup {
      var ids := s.dedup[(p.tenant, p.event)];
      assert ids == [ids[0]];
      assert Lookups(s.actions, ids[..0]) == Lookups(Slice(s, t).actions, ids[..0]);
      assert p.tenant == t ==> Lookups(s.actions, ids) == Lookups(Slice(s, t).actions, ids);
    } else {
      SliceLaunch(s, p, id, rowId, now, exec, t);
    }
  }

  lemma SlicedRow(s: State, id: string, t: string)
    requires Coherent(s)
    ensures id in s.queue.rows ==>
              id in s.actions && s.actions[id].id == id && RowFits(s.queue.rows[id], s.actions[id])
    ensures id in s.actions && s.actions[id].tenant == t ==>
              (id in s.queue.rows <==> id in RowsFor(s.queue.rows, t))
  {
  }

  /** The slice of every store after a vote on `a` that may resolve it to `end`. */
  lemma SliceVoted(s: State, a: Action, row: ApprovalRow, end: Action, e: AuditEntry, t: string)
    requires Coherent(s) && a.id in s.queue.rows && a.id in s.actions && s.actions[a.id] == a
    requires row.action == a.id && row.tenant == s.queue.rows[a.id].tenant
    requires end.id == a.id && end.tenant == a.tenant && e.tenant == a.tenant
    ensures ActionsOf(s.actions[a.id := end], t)
         == if a.tenant == t then ActionsOf(s.actions, t)[a.id := end] else ActionsOf(s.actions, t)
    ensures QueueOf(s.queue.Update(row), t)
         == if a.tenant == t then QueueOf(s.queue, t).Update(row) else QueueOf(s.queue, t)
    ensures LogOf(Stamp(s.log, e), t) == if a.tenant == t then Stamp(LogOf(s.log, t), e) else LogOf(s.log, t)
    ensures InvokedFor(s.invoked + [a.id], s.actions[a.id := end], t)
         == InvokedFor(s.invoked, s.actions, t) + if a.tenant == t then [a.id] else []
    ensures InvokedFor(s.invoked, s.actions[a.id := end], t) == InvokedFor(s.invoked, s.actions, t)
  {
    hide LogOf, InvokedFor, Stamp, RemoveFirst, ActionsOk, IndexOk, PendingOk, DedupOk, InvokedOk, LogOwned, LogTells, AllArmable;
    SlicePut(s.actions, end, t);
    SliceQueue(s.queue, row, t);
    SliceStamp(s.log, e, t);
    SliceInvoked(s, end, true, t);
    SliceInvoked(s, end, false, t);
  }

  lemma SliceCount(s: State, id: string, row: ApprovalRow, voter: string, now: int, exec: Execution, t: string)
    requires Coherent(s) && id in s.queue.rows && id in s.actions && s.actions[id].id == id
    requires row.action == id && row.tenant == s.queue.rows[id].tenant && row.tenant == s.actions[id].tenant
    ensures var (next, end) := Count(s, s.actions[id], row, voter, now, exec);
            if s.actions[id].tenant == t then Count(Slice(s, t), s.actions[id], row, voter, now, exec) == (Slice(next, t), end)
            else Slice(next, t) == Slice(s, t)
  {
    hide Coherent, LogOf, InvokedFor, Stamp, ActionsOf, QueueOf, Only, OnlyPairs;
    var a := s.actions[id];
    var end := if row.state == Approved then Ran(a.(status := PendingExec, updatedAt := now), exec, now) else a;
    assert row.state != Approved ==> s.actions[id := end] == s.actions;
    SliceVoted(s, a, row, end, VoteRow(a, voter, row), t);
    SliceStamp(Stamp(s.log, VoteRow(a, voter, row)), ExecutionRow(a, exec), t);
  }

  lemma SliceApprove(s: State, id: string, voter: string, expected: Option<string>, now: int, exec: Execution, t: string)
    requires Coherent(s) && |voter| <= MAX_ACTOR_ID
    ensures var (next, r) := ApproveStep(s, id, voter, expected, now, exec);
            if VotesAs(s, id, expected, t)
            then ApproveStep(Slice(s, t), id, voter, expected, now, exec) == (Slice(next, t), r)
            else Slice(next, t) == Slice(s, t)
  {
    hide CastApproval, LogOf, InvokedFor, Stamp, RemoveFirst, Count, Coherent, RowFits;
    SlicedRow(s, id, t);
    if Visible(s, id, expected) && id in s.queue.rows && CastApproval(s.queue.rows[id], Some(voter), now).Success? {
      SpineSafety.VoteFits(s.queue.rows[id], s.actions[id], voter, now);
      RowTenant(s.queue.rows[id], s.actions[id]);
      SliceCount(s, id, CastApproval(s.queue.rows[id], Some(voter), now).value, voter, now, exec, t);
    }
  }

  lemma RowTenant(row: ApprovalRow, a: Action)
    requires RowFits(row, a)
    ensures row.tenant == a.tenant && row.action == a.id
  {
  }

  lemma SliceReject(s: State, id: string, voter: string, reason: string, expected: Option<string>, now: int, t: string)
    requires Coherent(s) && |voter| <= MAX_ACTOR_ID
    ensures var (next, r) := RejectStep(s, id, voter, reason, expected, now);
            if VotesAs(s, id, expected, t)
            then RejectStep(Slice(s, t), id, voter, reason, expected, now) == (Slice(next, t), r)
            else Slice(next, t) == Slice(s, t)
  {
    hide CastVeto, LogOf, InvokedFor, Stamp, RemoveFirst, ActionsOk, IndexOk, RowsOk, PendingOk, DedupOk, InvokedOk,
      LogOwned, LogTells, AllArmable, RowFits;
    SlicedRow(s, id, t);
    if Visible(s, id, expected) && id in s.queue.rows && CastVeto(s.queue.rows[id], Some(voter), reason, now).Success? {
      var a, row := s.actions[id], CastVeto(s.queue.rows[id], Some(voter), reason, now).value;
      SpineSafety.VetoFits(s.queue.rows[id], a, voter, reason, now);
      SliceVoted(s, a, row, a.(status := Rejected, updatedAt := now), VetoRow(a, voter, reason), t);
    }
  }

  /** A call for tenant `t` acts on `t`'s slice alone, with the same reply; any
      other call leaves the slice untouched. */
  lemma StepSlices(s: State, op: Op, t: string)
    requires Coherent(s) && Admissible(s, op)
    ensures if Concerns(s, op, t) then Step(Slice(s, t), op) == (Slice(Step(s, op).0, t), Step(s, op).1)
            else Slice(Step(s, op).0, t) == Slice(s, t)
    ensures Concerns(s, op, t) ==> Admissible(Slice(s, t), op)
  {
    hide HandleStep, ApproveStep, RejectStep, Coherent, LogOf, InvokedFor;
    match op {
      case Handle(p, id, rowId, now, exec) => SliceHandle(s, p, id, rowId, now, exec, t);
      case ApproveCall(id, voter, expected, now, exec) => SliceApprove(s, id, voter, expected, now, exec, t);
      case RejectCall(id, voter, reason, expected, now) => SliceReject(s, id, voter, reason, expected, now, t);
      case SetQuorum(tenant, kind, required, eligible) =>
        SlicePair(s.rules, (tenant, kind), QuorumRule(required, eligible), t);
      case SetPolicies(tenant, table) => SliceKey(s.policies, tenant, table, t);
    }
  }

  // ----- whole runs -----

  /** The calls of `ops` that act for `t`, in order. */
  function Project(s: State, ops: seq<Op>, t: string): seq<Op>
    decreases |ops|
  {
    if ops == [] then []
    else (if Concerns(s, ops[0], t) then [ops[0]] else []) + Project(Step(s, ops[0]).0, ops[1..], t)
  }

  function Replies(s: State, ops: seq<Op>): seq<Reply>
    decreases |ops|
  {
    if ops == [] then [] else [Step(s, ops[0]).1] + Replies(Step(s, ops[0]).0, ops[1..])
  }

  /** What `t`'s own calls are answered during the full run. */
  function RepliesTo(s: State, ops: seq<Op>, t: string): seq<Reply>
    decreases |ops|
  {
    if ops == [] then []
    else (if Concerns(s, ops[0], t) then [Step(s, ops[0]).1] else []) + RepliesTo(Step(s, ops[0]).0, ops[1..], t)
  }

  lemma {:induction false} RunSlices(s: State, ops: seq<Op>, t: string)
    requires Coherent(s) && AdmissibleRun(s, ops)
    ensures AdmissibleRun(Slice(s, t), Project(s, ops, t))
    ensures Run(Slice(s, t), Project(s, ops, t)) == Slice(Run(s, ops), t)
    ensures Replies(Slice(s, t), Project(s, ops, t)) == RepliesTo(s, ops, t)
    decreases |ops|
  {
    hide Step, Coherent, Admissible, Concerns, Slice;
    if ops != [] {
      var next, rest := Step(s, ops[0]).0, ops[1..];
      SpineSafety.StepCoherent(s, ops[0]);
      StepSlices(s, ops[0], t);
      RunSlices(next, rest, t);
      if Concerns(s, ops[0], t) {
        var kept := Project(s, ops, t);
        assert kept[0] == ops[0] && kept[1..] == Project(next, rest, t);
      } else {
        assert Project(s, ops, t) == Project(next, rest, t);
        assert RepliesTo(s, ops, t) == RepliesTo(next, rest, t);
      }
    }
  }

  /** Non-interference: a tenant cannot tell whether the other tenants exist,
      not even by voting on their actions. */
  lemma NonInterference(ops: seq<Op>, t: string)
    requires AdmissibleRun(EMPTY, ops)
    ensures Run(EMPTY, Project(EMPTY, ops, t)) == Slice(Run(EMPTY, ops), t)
    ensures Replies(EMPTY, Project(EMPTY, ops, t)) == RepliesTo(EMPTY, ops, t)
  {
    SpineSafety.EmptyCoherent();
    RunSlices(EMPTY, ops, t);
    assert Slice(EMPTY, t) == EMPTY;
  }

  /** Renumbering drops nothing but ids, whose order the tenant's rows keep. */
  lemma {:induction false} TenantRowsKeepOrder(log: seq<AuditEntry>, t: string)
    requires forall i :: 0 <= i < |log| ==> log[i].id == Some(i + 1)
    ensures forall i :: 0 <= i < |ForTenant(log, t)| ==>
                          ForTenant(log, t)[i].id.Some? && ForTenant(log, t)[i].id.value <= |log|
    ensures forall i, j :: 0 <= i < j < |ForTenant(log, t)| ==>
                             ForTenant(log, t)[i].id.value < ForTenant(log, t)[j].id.value
    ensures |LogOf(log, t)| == |ForTenant(log, t)|
    ensures forall i :: 0 <= i < |LogOf(log, t)| ==> LogOf(log, t)[i] == ForTenant(log, t)[i].(id := Some(i + 1))
  {
    if log != [] {
      TenantRowsKeepOrder(log[..|log| - 1], t);
      var front, last := ForTenant(log[..|log| - 1], t), log[|log| - 1];
      if last.tenant == t {
        assert (front + [last])[..|front|] == front;
      }
    }
  }
}
