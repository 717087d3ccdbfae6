/** What holds of every state the pipeline can reach. */
module SpineResults {
  import opened Common
  import opened Contracts
  import opened AuditLogs
  import opened Approvals
  import opened Quorums
  import opened Spine
  import opened Replays
  import opened SpineInvariant
  import opened SpineSafety

  function VotersOf(s: State, id: string): seq<string> {
    if id in s.queue.rows then s.queue.rows[id].approvals else []
  }

  /** The audit log alone reconstructs every action: its rows replay to the
      stored status and the ordered voters, and their kinds follow one script. */
  lemma AuditReconstruction(ops: seq<Op>, id: string)
    requires AdmissibleRun(EMPTY, ops) && id in Run(EMPTY, ops).actions
    ensures var s := Run(EMPTY, ops);
            var rows := ForAction(s.log, id);
            && Replay(rows).Told?
            && Replay(rows).status == s.actions[id].status
            && Replay(rows).voters == VotersOf(s, id)
            && Kinds(rows) == [PROPOSAL, DECISION] + Times(APPROVAL, |VotersOf(s, id)|) + Ending(s.actions[id].status)
            && (id !in s.queue.rows ==> |Kinds(rows)| == 3)
  {
    hide IndexOk, PendingOk, DedupOk, InvokedOk, LogOwned, AllArmable, Run, AdmissibleRun, Replay, Kinds, ForAction;
    EmptyCoherent();
    RunCoherent(EMPTY, ops);
    var s := Run(EMPTY, ops);
    ReplayScripted(ForAction(s.log, id));
  }

  /** The executor runs at most once per action, and on a queued action only
      after exactly the armed number of distinct eligible approvals and no veto. */
  lemma QuorumGatedExecution(ops: seq<Op>, id: string)
    requires AdmissibleRun(EMPTY, ops)
    ensures var s := Run(EMPTY, ops);
            && multiset(s.invoked)[id] <= 1
            && (id in s.invoked <==> id in s.actions && HasRun(s.actions[id].status))
            && (id in s.invoked && id in s.queue.rows ==>
                  var row := s.queue.rows[id];
                  && row.state == Approved
                  && |row.approvals| == row.required
                  && NoDup(row.approvals)
                  && (forall v :: v in row.approvals ==> Eligible(row.eligible, Some(v)))
                  && Kinds(ForAction(s.log, id))
                     == [PROPOSAL, DECISION] + Times(APPROVAL, row.required) + Ending(s.actions[id].status))
  {
    hide IndexOk, PendingOk, DedupOk, LogOwned, LogTells, AllArmable, Run, AdmissibleRun, Replay, Kinds, ForAction;
    EmptyCoherent();
    RunCoherent(EMPTY, ops);
    var s := Run(EMPTY, ops);
    CountNoDup(s.invoked, id);
    if id in s.invoked {
      AuditReconstruction(ops, id);
    }
  }

  lemma {:induction false} CountNoDup<T>(s: seq<T>, x: T)
    requires NoDup(s)
    ensures multiset(s)[x] <= 1
  {
    if s != [] {
      CountNoDup(s[1..], x);
      assert s == [s[0]] + s[1..];
      if s[0] == x {
        assert x !in s[1..];
      }
    }
  }

  /** An action awaits approval exactly while its row is pending, and rows
      resolve together with their actions. */
  lemma StatusMirrorsRow(ops: seq<Op>, id: string)
    requires AdmissibleRun(EMPTY, ops) && id in Run(EMPTY, ops).actions
    ensures var s := Run(EMPTY, ops);
            var a, row := s.actions[id], RowOf(s.queue.rows, id);
            && a.status != PendingPolicy && a.status != PendingExec
            && (a.status == PendingApproval <==> row.Some? && row.value.state == Pending)
            && (row.Some? ==> row.value.tenant == a.tenant)
            && (row.Some? && row.value.state == Approved ==> HasRun(a.status))
            && (row.Some? && row.value.state == Vetoed ==> a.status == Rejected)
            && (a.executedAt.Some? <==> a.status == Executed)
  {
    EmptyCoherent();
    RunCoherent(EMPTY, ops);
  }

  /** A tenant's pending list is exactly its actions awaiting approval, oldest first. */
  lemma PendingViewExact(s: State, t: string)
    requires Coherent(s)
    ensures var ids := Bucket(s.queue.pending, t);
            && NoDup(ids)
            && (forall a :: a in ids <==> a in s.actions && s.actions[a].tenant == t && s.actions[a].status == PendingApproval)
            && (forall a :: a in ids ==> a in s.queue.rows && s.queue.rows[a].state == Pending && s.queue.rows[a].tenant == t)
            && ids == Awaiting(Bucket(s.byTenant, t), s.actions)
  {
    hide DedupOk, InvokedOk, LogOwned, LogTells, AllArmable, ActionsOk, Awaiting;
    assert Lists(Bucket(s.byTenant, t), s.actions, t);
    assert Bucket(s.queue.pending, t) == Awaiting(Bucket(s.byTenant, t), s.actions);
    AwaitingNoDup(Bucket(s.byTenant, t), s.actions);
    AwaitingMembers(Bucket(s.byTenant, t), s.actions);
  }

  // ----- what later calls cannot change -----

  /** How a queue row may develop: its arming is fixed, votes are only added,
      and a resolved row never changes again. */
  predicate RowEvolves(was: ApprovalRow, row: ApprovalRow) {
    && row.required == was.required && row.eligible == was.eligible
    && row.tenant == was.tenant && row.action == was.action
    && was.approvals <= row.approvals
    && (was.state != Pending ==> row == was)
  }

  predicate ActionEvolves(was: Action, a: Action) {
    && a.id == was.id && a.tenant == was.tenant && a.event == was.event
    && a.proposal == was.proposal && a.kind == was.kind
    && (was.status != PendingApproval ==> a == was)
  }

  ghost predicate Evolves(was: State, s: State) {
    && was.log <= s.log
    && was.invoked <= s.invoked
    && (forall k :: k in was.dedup ==> k in s.dedup && s.dedup[k] == was.dedup[k])
    && ActionsEvolve(was.actions, s.actions)
    && RowsEvolve(was.queue.rows, s.queue.rows)
  }

  ghost predicate ActionsEvolve(was: map<string, Action>, actions: map<string, Action>) {
    forall a :: a in was ==> a in actions && ActionEvolves(was[a], actions[a])
  }

  ghost predicate RowsEvolve(was: map<string, ApprovalRow>, rows: map<string, ApprovalRow>) {
    forall a :: a in was ==> a in rows && RowEvolves(was[a], rows[a])
  }

  lemma ActionsPut(actions: map<string, Action>, a: Action)
    requires a.id in actions ==> ActionEvolves(actions[a.id], a)
    ensures ActionsEvolve(actions, actions[a.id := a])
    ensures ActionsEvolve(actions, actions)
  {
  }

  lemma RowsReplaced(rows: map<string, ApprovalRow>, row: ApprovalRow)
    requires row.action in rows ==> RowEvolves(rows[row.action], row)
    ensures RowsEvolve(rows, rows[row.action := row])
    ensures RowsEvolve(rows, rows)
  {
  }

  lemma EvolvesTransitive(a: State, b: State, c: State)
    requires Evolves(a, b) && Evolves(b, c)
    ensures Evolves(a, c)
  {
  }

  lemma LaunchEvolves(s: State, p: Proposal, id: string, rowId: string, now: int, exec: Execution)
    requires Coherent(s) && Admissible(s, Handle(p, id, rowId, now, exec)) && (p.tenant, p.event) !in s.dedup
    ensures Evolves(s, Launch(s, p, id, rowId, now, exec).0)
  {
    hide Coherent, Decide, Settle;
  }

  lemma VoteEvolves(was: ApprovalRow, a: Action, row: ApprovalRow, voter: string, now: int, exec: Execution)
    requires was.state == Pending && a.status == PendingApproval
    requires row.action == was.action && row.tenant == was.tenant
    requires row.required == was.required && row.eligible == was.eligible
    requires row.approvals == was.approvals + [voter]
    ensures RowEvolves(was, row)
    ensures ActionEvolves(a, Ran(a.(status := PendingExec, updatedAt := now), exec, now))
  {
  }

  lemma ApproveEvolves(s: State, id: string, voter: string, expected: Option<string>, now: int, exec: Execution)
    requires Coherent(s)
    ensures Evolves(s, ApproveStep(s, id, voter, expected, now, exec).0)
  {
    hide CastApproval, Coherent, RemoveFirst, RowFits, RowsEvolve, ActionsEvolve, RowEvolves, ActionEvolves;
    EvolvesReflexive(s);
    if Visible(s, id, expected) && id in s.queue.rows && CastApproval(s.queue.rows[id], Some(voter), now).Success? {
      GuardedAction(s, id);
      VoteFits(s.queue.rows[id], s.actions[id], voter, now);
      VoteEvolves(s.queue.rows[id], s.actions[id], CastApproval(s.queue.rows[id], Some(voter), now).value, voter, now, exec);
      RowsReplaced(s.queue.rows, CastApproval(s.queue.rows[id], Some(voter), now).value);
      ActionsPut(s.actions, Ran(s.actions[id].(status := PendingExec, updatedAt := now), exec, now));
    }
  }

  lemma RejectEvolves(s: State, id: string, voter: string, reason: string, expected: Option<string>, now: int)
    requires Coherent(s)
    ensures Evolves(s, RejectStep(s, id, voter, reason, expected, now).0)
  {
    hide CastVeto, Coherent, RemoveFirst, RowFits, RowsEvolve, ActionsEvolve;
    EvolvesReflexive(s);
    if Visible(s, id, expected) && id in s.queue.rows && CastVeto(s.queue.rows[id], Some(voter), reason, now).Success? {
      GuardedAction(s, id);
      VetoFits(s.queue.rows[id], s.actions[id], voter, reason, now);
      RowsReplaced(s.queue.rows, CastVeto(s.queue.rows[id], Some(voter), reason, now).value);
      ActionsPut(s.actions, s.actions[id].(status := Rejected, updatedAt := now));
    }
  }

  lemma StepEvolves(s: State, op: Op)
    requires Coherent(s) && Admissible(s, op)
    ensures Evolves(s, Step(s, op).0)
  {
    hide Coherent, Launch, ApproveStep, RejectStep;
    match op {
      case Handle(p, id, rowId, now, exec) =>
        if (p.tenant, p.event) !in s.dedup {
          LaunchEvolves(s, p, id, rowId, now, exec);
        }
      case ApproveCall(id, voter, expected, now, exec) => ApproveEvolves(s, id, voter, expected, now, exec);
      case RejectCall(id, voter, reason, expected, now) => RejectEvolves(s, id, voter, reason, expected, now);
      case SetQuorum(tenant, kind, required, eligible) =>
      case SetPolicies(tenant, table) =>
    }
  }

  /** The log is append-only, terminal actions are final, resolved rows are
      final, and a row's quorum outlives every later reconfiguration. */
  lemma {:induction false} RunEvolves(s: State, ops: seq<Op>)
    requires Coherent(s) && AdmissibleRun(s, ops)
    ensures Evolves(s, Run(s, ops))
    decreases |ops|
  {
    hide Coherent, Admissible, Step, Evolves;
    if ops == [] {
      EvolvesReflexive(s);
    } else {
      StepCoherent(s, ops[0]);
      StepEvolves(s, ops[0]);
      RunEvolves(Step(s, ops[0]).0, ops[1..]);
      EvolvesTransitive(s, Step(s, ops[0]).0, Run(s, ops));
    }
  }

  lemma EvolvesReflexive(s: State)
    ensures Evolves(s, s)
  {
  }

  /** The quorum resolved when the action was queued governs it for good. */
  lemma ArmedForGood(s: State, op: Op, later: seq<Op>)
    requires Coherent(s) && op.Handle? && Admissible(s, op)
    requires (op.p.tenant, op.p.event) !in s.dedup
    requires op.actionId in Step(s, op).0.queue.rows
    requires AdmissibleRun(Step(s, op).0, later)
    ensures var k := (op.p.tenant, op.p.kind);
            var rows := Run(Step(s, op).0, later).queue.rows;
            && op.actionId in rows
            && rows[op.actionId].required == (if k in s.rules then s.rules[k].required else 1)
            && rows[op.actionId].eligible == (if k in s.rules then s.rules[k].eligible else None)
  {
    hide Settle, LaunchLog, AdmissibleRun, Run;
    hide ActionsOk, IndexOk, RowsOk, PendingOk, DedupOk, InvokedOk, LogOwned, LogTells;
    StepCoherent(s, op);
    var next := Step(s, op).0;
    RunEvolves(next, later);
  }

  // ----- failing calls -----

  /** A refused call leaves every store as it was. */
  lemma RefusalChangesNothing(s: State, op: Op)
    requires Step(s, op).1.Failure? && Step(s, op).1.error != AuditRefused
    ensures Step(s, op).0 == s
  {
  }

  /** The queue counts a vote before the audit row is built, so a voter name the
      row cannot hold splits the stores; every shorter name keeps them together. */
  lemma VoteCoherentIff(s: State, id: string, voter: string, expected: Option<string>, now: int, exec: Execution)
    requires Coherent(s) && Visible(s, id, expected) && s.queue.Approve(id, Some(voter), now).1.Success?
    ensures Coherent(ApproveStep(s, id, voter, expected, now, exec).0) <==> |voter| <= MAX_ACTOR_ID
  {
    if |voter| <= MAX_ACTOR_ID {
      ApproveCoherent(s, id, voter, expected, now, exec);
    } else {
      var row, a := s.queue.rows[id], s.actions[id];
      VoteFits(row, a, voter, now);
      hide CastApproval;
      var s' := ApproveStep(s, id, voter, expected, now, exec).0;
      var row' := s'.queue.rows[id];
      assert Story(a, Some(row')) != Story(a, Some(row));
      assert Replay(ForAction(s'.log, id)) == Story(a, RowOf(s.queue.rows, id));
      assert RowOf(s'.queue.rows, id) == Some(row');
      assert !LogTells(s'.actions, s'.queue.rows, s'.log);
    }
  }

  lemma VetoCoherentIff(s: State, id: string, voter: string, reason: string, expected: Option<string>, now: int)
    requires Coherent(s) && Visible(s, id, expected) && s.queue.Reject(id, Some(voter), reason, now).1.Success?
    ensures Coherent(RejectStep(s, id, voter, reason, expected, now).0) <==> |voter| <= MAX_ACTOR_ID
  {
    hide Coherent, RejectStep;
    if |voter| <= MAX_ACTOR_ID {
      RejectCoherent(s, id, voter, reason, expected, now);
    } else {
      LongVetoSplits(s, id, voter, reason, expected, now);
    }
  }

  lemma LongVetoSplits(s: State, id: string, voter: string, reason: string, expected: Option<string>, now: int)
    requires Coherent(s) && Visible(s, id, expected) && s.queue.Reject(id, Some(voter), reason, now).1.Success?
    requires |voter| > MAX_ACTOR_ID
    ensures !Coherent(RejectStep(s, id, voter, reason, expected, now).0)
  {
    hide CastVeto, ActionsOk, IndexOk, PendingOk, DedupOk, InvokedOk, LogOwned, LogTells, AllArmable;
    GuardedAction(s, id);
    VetoFits(s.queue.rows[id], s.actions[id], voter, reason, now);
    var s' := RejectStep(s, id, voter, reason, expected, now).0;
    assert s'.actions[id].status == PendingApproval && s'.queue.rows[id].state == Vetoed;
    assert !RowFits(s'.queue.rows[id], s'.actions[id]);
  }

  /** One queued proposal, from the empty state. */
  function FirstProposal(p: Proposal, id: string, rowId: string, now: int, exec: Execution): State {
    Run(EMPTY, [Handle(p, id, rowId, now, exec)])
  }

  lemma FirstProposalQueued(p: Proposal, id: string, rowId: string, now: int, exec: Execution, voter: string)
    requires p.tenant != "" && id != ""
    ensures AdmissibleRun(EMPTY, [Handle(p, id, rowId, now, exec)])
    ensures var s := FirstProposal(p, id, rowId, now, exec);
            && Coherent(s) && Visible(s, id, None)
            && s.queue.Approve(id, Some(voter), now).1.Success?
            && s.queue.Reject(id, Some(voter), "", now).1.Success?
  {
    var op := Handle(p, id, rowId, now, exec);
    assert Run(EMPTY, [op]) == Run(Step(EMPTY, op).0, []) == Step(EMPTY, op).0;
    hide Coherent;
    EmptyCoherent();
    StepCoherent(EMPTY, op);
  }

  /** Such a voter: after one queued proposal, a vote by anyone whose name has
      more than 128 characters is counted, refused by the audit log, and leaves
      the stores in disagreement. */
  lemma LongVoterSplitsStores(p: Proposal, id: string, rowId: string, now: int, exec: Execution, voter: string)
    requires p.tenant != "" && id != "" && |voter| > MAX_ACTOR_ID
    ensures AdmissibleRun(EMPTY, [Handle(p, id, rowId, now, exec)])
    ensures var s := FirstProposal(p, id, rowId, now, exec);
            var (next, reply) := Step(s, ApproveCall(id, voter, None, now, exec));
            Coherent(s) && reply == Failure(AuditRefused) && !Coherent(next)
  {
    hide Coherent, FirstProposal, Run;
    FirstProposalQueued(p, id, rowId, now, exec, voter);
    VoteCoherentIff(FirstProposal(p, id, rowId, now, exec), id, voter, None, now, exec);
  }

  lemma LongVetoerSplitsStores(p: Proposal, id: string, rowId: string, now: int, exec: Execution, voter: string)
    requires p.tenant != "" && id != "" && |voter| > MAX_ACTOR_ID
    ensures AdmissibleRun(EMPTY, [Handle(p, id, rowId, now, exec)])
    ensures var s := FirstProposal(p, id, rowId, now, exec);
            var (next, reply) := Step(s, RejectCall(id, voter, "", None, now));
            Coherent(s) && reply == Failure(AuditRefused) && !Coherent(next)
  {
    hide Coherent, FirstProposal, Run;
    FirstProposalQueued(p, id, rowId, now, exec, voter);
    VetoCoherentIff(FirstProposal(p, id, rowId, now, exec), id, voter, "", None, now);
  }

  /** Such a vote: with a quorum of two, the same person's second approval is
      refused as a duplicate, and the log stays at PROPOSAL, DECISION and the
      first vote. */
  lemma DuplicateVoteExists(p: Proposal, id: string, rowId: string, now: int, exec: Execution, voter: string)
    requires p.tenant != "" && id != "" && |voter| <= MAX_ACTOR_ID
    ensures var vote := ApproveCall(id, voter, None, now, exec);
            var ops := [SetQuorum(p.tenant, p.kind, 2, None), Handle(p, id, rowId, now, exec), vote];
            var s := Run(EMPTY, ops);
            && AdmissibleRun(EMPTY, ops)
            && Step(s, vote) == (s, Failure(Refused(DuplicateVote)))
            && |s.log| == 3
  {
    var quorum, propose := SetQuorum(p.tenant, p.kind, 2, None), Handle(p, id, rowId, now, exec);
    var vote := ApproveCall(id, voter, None, now, exec);
    var ops := [quorum, propose, vote];
    var s1 := Step(EMPTY, quorum).0;
    var s2 := Step(s1, propose).0;
    assert ops[1..] == [propose, vote] && ops[1..][1..] == [vote] && ops[1..][1..][1..] == [];
    TwoSeatRow(p, id, rowId, now, exec);
    OneOfTwo(s2, p, id, voter, now, exec);
    hide Step;
    assert AdmissibleRun(s2, [vote]);
    assert AdmissibleRun(s1, [propose, vote]);
    assert Run(EMPTY, ops) == Run(s1, [propose, vote]) == Run(s2, [vote]);
    assert Run(s2, [vote]) == Run(Step(s2, vote).0, []) == Step(s2, vote).0;
  }

  lemma TwoSeatRow(p: Proposal, id: string, rowId: string, now: int, exec: Execution)
    requires p.tenant != "" && id != ""
    ensures var s1 := Step(EMPTY, SetQuorum(p.tenant, p.kind, 2, None)).0;
            var s2 := Step(s1, Handle(p, id, rowId, now, exec)).0;
            && s1.actions == map[] && s1.queue.rows == map[]
            && id in s2.actions && s2.actions[id].id == id && |s2.log| == 2
            && id in s2.queue.rows && s2.queue.rows[id] == Armed(rowId, id, p.tenant, 2, None, now)
  {
  }

  lemma OneOfTwo(s: State, p: Proposal, id: string, voter: string, now: int, exec: Execution)
    requires id in s.actions && s.actions[id].id == id && |s.log| == 2 && |voter| <= MAX_ACTOR_ID
    requires id in s.queue.rows && exists rowId :: s.queue.rows[id] == Armed(rowId, id, p.tenant, 2, None, now)
    ensures var vote := ApproveCall(id, voter, None, now, exec);
            var next := Step(s, vote).0;
            |next.log| == 3 && Step(next, vote) == (next, Failure(Refused(DuplicateVote)))
  {
    var next := Step(s, ApproveCall(id, voter, None, now, exec)).0;
    assert next.queue.rows[id].approvals == [voter];
  }

  /** A vote is refused as a duplicate exactly when the row is pending, needs
      at least two approvals, and the eligible voter is already among them; the
      refusal leaves no trace, in the audit log or elsewhere. */
  lemma DuplicateVoteIff(s: State, id: string, voter: string, expected: Option<string>, now: int, exec: Execution)
    requires Visible(s, id, expected)
    ensures ApproveStep(s, id, voter, expected, now, exec).1 == Failure(Refused(DuplicateVote)) <==>
              && id in s.queue.rows && s.queue.rows[id].state == Pending && s.queue.rows[id].required >= 2
              && Eligible(s.queue.rows[id].eligible, Some(voter)) && voter in s.queue.rows[id].approvals
    ensures ApproveStep(s, id, voter, expected, now, exec).1 == Failure(Refused(DuplicateVote)) ==>
              ApproveStep(s, id, voter, expected, now, exec).0 == s
  {
    hide Eligible, Stamp, Ran;
  }

  /** A duplicate delivery changes nothing and answers with the action's current state. */
  lemma RedeliveryAnswersCurrent(s: State, op: Op)
    requires Coherent(s) && op.Handle? && (op.p.tenant, op.p.event) in s.dedup
    ensures Step(s, op).0 == s
    ensures exists a :: a in s.actions && s.actions[a].tenant == op.p.tenant && s.actions[a].event == op.p.event
                        && Step(s, op).1 == Success([s.actions[a]])
  {
    hide Launch, ActionsOk, IndexOk, RowsOk, PendingOk, InvokedOk, LogOwned, LogTells, AllArmable;
    var ids := s.dedup[(op.p.tenant, op.p.event)];
    var a := ids[0];
    assert ids == [a];
    assert Lookups(s.actions, ids[..0]) == Success([]);
    assert [] + [s.actions[a]] == [s.actions[a]];
    assert Lookups(s.actions, ids) == Success([s.actions[a]]);
  }

  /** No two stored actions answer the same event. */
  lemma OneActionPerEvent(s: State, a: string, b: string)
    requires Coherent(s) && a in s.actions && b in s.actions
    requires s.actions[a].tenant == s.actions[b].tenant && s.actions[a].event == s.actions[b].event
    ensures a == b
  {
    assert s.dedup[(s.actions[a].tenant, s.actions[a].event)] == [a];
    assert s.dedup[(s.actions[b].tenant, s.actions[b].event)] == [b];
  }
}
