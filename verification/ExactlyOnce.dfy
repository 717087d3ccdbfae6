/** Ingestion composed with the pipeline: repeated deliveries of one key lead
    to one stored event, one envelope, one action and one PROPOSAL row. */
module ExactlyOnce {
  import opened Common
  import opened Contracts
  import opened AuditLogs
  import Quorums
  import opened Spine
  import opened Replays
  import opened SpineInvariant
  import SpineSafety
  import SpineResults
  import Ingestion

  /** Some proposal for this tenant and event is handed to the pipeline. */
  predicate Handled(ops: seq<Op>, k: (string, string))
    decreases |ops|
  {
    ops != [] && ((ops[0].Handle? && (ops[0].p.tenant, ops[0].p.event) == k) || Handled(ops[1..], k))
  }

  predicate Announced(published: seq<Ingestion.Publication>, k: (string, string)) {
    exists i :: 0 <= i < |published| && (published[i].envelope.tenant, published[i].envelope.event) == k
  }

  /** The listener proposes for published events only, and for each of them at
      least once; repeats are allowed. */
  ghost predicate Follows(ops: seq<Op>, published: seq<Ingestion.Publication>) {
    forall k :: Handled(ops, k) <==> Announced(published, k)
  }

  lemma StepRemembers(s: State, op: Op, k: (string, string))
    ensures k in Step(s, op).0.dedup <==> k in s.dedup || (op.Handle? && (op.p.tenant, op.p.event) == k)
  {
    hide Settle, LaunchLog, LaunchQueue, Materialize, Lookups;
  }

  lemma {:induction false} DedupIsHandled(s: State, ops: seq<Op>, k: (string, string))
    ensures k in Run(s, ops).dedup <==> k in s.dedup || Handled(ops, k)
    decreases |ops|
  {
    hide Step;
    if ops != [] {
      StepRemembers(s, ops[0], k);
      DedupIsHandled(Step(s, ops[0]).0, ops[1..], k);
    }
  }

  lemma {:induction false} EventRowsAreActionRows(log: seq<AuditEntry>, tenant: string, event: string, a: string)
    requires forall i :: 0 <= i < |log| ==>
               (log[i].tenant == tenant && log[i].event == Some(event) <==> log[i].action == Some(a))
    ensures ForTenant(ForEvent(log, event), tenant) == ForAction(log, a)
  {
    if log != [] {
      var n := |log| - 1;
      EventRowsAreActionRows(log[..n], tenant, event, a);
      FiltersOnAppend(ForEvent(log[..n], event), log[n]);
    }
  }

  lemma OneProposal(n: nat, status: ActionStatus)
    ensures multiset([PROPOSAL, DECISION] + Times(APPROVAL, n) + Ending(status))[PROPOSAL] == 1
  {
    assert PROPOSAL !in multiset(Times(APPROVAL, n));
    assert PROPOSAL !in multiset(Ending(status));
  }

  /** `a` is the tenant's only action for `event`, and the event's audit trail
      as the tenant reads it is that action's, with one PROPOSAL row. */
  ghost predicate SoleAction(s: State, a: string, tenant: string, event: string) {
    && a in s.actions
    && (forall b :: b in s.actions && (s.actions[b].tenant, s.actions[b].event) == (tenant, event) <==> b == a)
    && OfTenant(ForEvent(s.log, event), Some(tenant)) == ForAction(s.log, a)
    && multiset(Kinds(ForAction(s.log, a)))[PROPOSAL] == 1
  }

  lemma SoleActionOf(ops: seq<Op>, a: string)
    requires AdmissibleRun(EMPTY, ops) && a in Run(EMPTY, ops).actions
    ensures var s := Run(EMPTY, ops);
            SoleAction(s, a, s.actions[a].tenant, s.actions[a].event)
  {
    hide Run, AdmissibleRun, ForEvent, ForAction, ForTenant;
    hide ActionsOk, IndexOk, RowsOk, PendingOk, InvokedOk, LogTells, Quorums.AllArmable, Kinds, Replay, DedupOk;
    SpineSafety.EmptyCoherent();
    SpineSafety.RunCoherent(EMPTY, ops);
    var s := Run(EMPTY, ops);
    forall b | b in s.actions && (s.actions[b].tenant, s.actions[b].event) == (s.actions[a].tenant, s.actions[a].event)
      ensures b == a
    {
      SpineResults.OneActionPerEvent(s, a, b);
    }
    EventRowsAreActionRows(s.log, s.actions[a].tenant, s.actions[a].event, a);
    SpineResults.AuditReconstruction(ops, a);
    OneProposal(|SpineResults.VotersOf(s, a)|, s.actions[a].status);
  }

  /** Each ingested key ends as exactly one action for its stored event. */
  lemma ExactlyOneAction(deliveries: seq<Ingestion.Op>, ops: seq<Op>, tenant: string, key: string)
    requires Ingestion.FreshIds(deliveries) && Ingestion.First(deliveries, tenant, key).Some?
    requires AdmissibleRun(EMPTY, ops) && Follows(ops, Ingestion.Run(deliveries).bus.published)
    ensures exists a :: SoleAction(Run(EMPTY, ops), a, tenant, Ingestion.First(deliveries, tenant, key).value.id)
  {
    hide Ingestion.Run, Ingestion.Creations, Ingestion.FreshIds, Handled, Run, AdmissibleRun, SoleAction;
    hide ActionsOk, IndexOk, RowsOk, PendingOk, InvokedOk, LogTells, LogOwned, Quorums.AllArmable;
    var event := Ingestion.First(deliveries, tenant, key).value.id;
    KeyIsAnnounced(deliveries, tenant, key);
    DedupIsHandled(EMPTY, ops, (tenant, event));
    SpineSafety.EmptyCoherent();
    SpineSafety.RunCoherent(EMPTY, ops);
    var s := Run(EMPTY, ops);
    assert (tenant, event) in s.dedup;
    SoleActionOf(ops, s.dedup[(tenant, event)][0]);
  }

  lemma KeyIsAnnounced(deliveries: seq<Ingestion.Op>, tenant: string, key: string)
    requires Ingestion.FreshIds(deliveries) && Ingestion.First(deliveries, tenant, key).Some?
    ensures Announced(Ingestion.Run(deliveries).bus.published,
                      (tenant, Ingestion.First(deliveries, tenant, key).value.id))
  {
    hide Ingestion.Run, Ingestion.Creations, Ingestion.FreshIds, Ingestion.First;
    Ingestion.PublishedOnce(deliveries);
    var i := Ingestion.FirstWasDelivered(deliveries, tenant, key);
    var e := Ingestion.First(deliveries, tenant, key).value;
    var created := Ingestion.Creations(deliveries);
    assert e in created;
    var j :| 0 <= j < |created| && created[j] == e;
    assert Ingestion.Run(deliveries).bus.published[j] == Ingestion.PublicationOf(e);
  }

  /** Every action stems from a stored event. */
  lemma NoActionWithoutEvent(deliveries: seq<Ingestion.Op>, ops: seq<Op>, a: string)
    requires Ingestion.FreshIds(deliveries)
    requires AdmissibleRun(EMPTY, ops) && Follows(ops, Ingestion.Run(deliveries).bus.published)
    requires a in Run(EMPTY, ops).actions
    ensures exists e :: e in Ingestion.Creations(deliveries)
                        && e.tenant == Run(EMPTY, ops).actions[a].tenant && e.id == Run(EMPTY, ops).actions[a].event
  {
    hide Ingestion.Run, Ingestion.Creations, Ingestion.FreshIds, Handled, Run, AdmissibleRun;
    hide ActionsOk, IndexOk, RowsOk, PendingOk, InvokedOk, LogTells, LogOwned, Quorums.AllArmable;
    SpineSafety.EmptyCoherent();
    SpineSafety.RunCoherent(EMPTY, ops);
    var s := Run(EMPTY, ops);
    var k := (s.actions[a].tenant, s.actions[a].event);
    DedupIsHandled(EMPTY, ops, k);
    Ingestion.PublishedOnce(deliveries);
    var published := Ingestion.Run(deliveries).bus.published;
    var i :| 0 <= i < |published| && (published[i].envelope.tenant, published[i].envelope.event) == k;
    assert Ingestion.Creations(deliveries)[i] in Ingestion.Creations(deliveries);
    assert published[i] == Ingestion.PublicationOf(Ingestion.Creations(deliveries)[i]);
  }
}
