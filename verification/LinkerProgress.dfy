/** Progress of interleaved resolve calls: with ids nobody else draws, a call
    that has not finished can always take its next step. */
module LinkerProgress {
  import opened Common
  import opened Identities
  import opened Customers
  import opened Linking
  import opened LinkerRaces
  import opened Resolving

  /** No two calls of a tenant would draw the same id. */
  ghost predicate DistinctDraws(calls: seq<Call>) {
    forall i, j :: 0 <= i < |calls| && 0 <= j < |calls| && i != j ==> DrawsApart(calls[i], calls[j])
  }

  predicate DrawsApart(c: Call, d: Call) {
    c.tenant != d.tenant || (c.newId != d.newId && forall r :: r in c.rowIds ==> r !in d.rowIds)
  }

  /** Every id a call may still draw is unused. */
  ghost predicate AllUndrawn(s: Sys) {
    Shaped(s) && forall i :: 0 <= i < |s.calls| ==> Undrawn(s.repo, s.calls[i], s.pcs[i])
  }

  /** The ids a step uses up are its own call's. */
  lemma StepDraws(repo: Repo, c: Call, pc: Pc)
    requires WellFormed(c) && repo.Agrees() && PcOk(c, pc) && !Finished(pc) && Fresh(repo, c, pc)
    ensures var next := Step(repo, c, pc).0;
            && (forall k :: k in next.customers ==> k in repo.customers || k == (c.tenant, c.newId))
            && (forall i :: i in next.identities ==> i in repo.identities || (i.0 == c.tenant && i.1 in c.rowIds))
  {
    hide Repo.Agrees, Normal, Sorted, Grows, Repo.Create, Repo.Add, BoundBut;
    match pc {
      case Creating => CreateBinds(repo, c);
      case Inserting(customer, todo, added, matched) => AddBinds(repo, c, customer, todo[0]);
      case _ =>
    }
  }

  lemma UndrawnKept(was: Repo, next: Repo, c: Call, d: Call, pc: Pc)
    requires |d.rowIds| == |d.hints| && Undrawn(was, d, pc) && DrawsApart(c, d)
    requires forall k :: k in next.customers ==> k in was.customers || k == (c.tenant, c.newId)
    requires forall i :: i in next.identities ==> i in was.identities || (i.0 == c.tenant && i.1 in c.rowIds)
    ensures Undrawn(next, d, pc)
  {
  }

  lemma MoveUndrawn(s: Sys, i: nat)
    requires Sound(s) && AllUndrawn(s) && DistinctDraws(s.calls) && Enabled(s, i)
    ensures AllUndrawn(Move(s, i))
  {
    hide Repo.Agrees, Normal, Sorted, NoDup, Undrawn, DrawsApart, Step, Fresh, Sound;
    SoundCall(s, i);
    var next := Move(s, i);
    StepUndrawn(s.repo, s.calls[i], s.pcs[i]);
    StepDraws(s.repo, s.calls[i], s.pcs[i]);
    forall j | 0 <= j < |s.calls|
      ensures Undrawn(next.repo, next.calls[j], next.pcs[j])
    {
      if j != i {
        UndrawnKept(s.repo, next.repo, s.calls[i], s.calls[j], s.pcs[j]);
      }
    }
  }

  lemma {:induction false} PlayUndrawn(s: Sys, schedule: seq<nat>)
    requires Sound(s) && AllUndrawn(s) && DistinctDraws(s.calls) && Playable(s, schedule)
    ensures AllUndrawn(Play(s, schedule))
    decreases |schedule|
  {
    hide Sound, AllUndrawn, DistinctDraws, Enabled, Move, Shaped;
    SoundShape(s);
    if schedule != [] {
      MoveSound(s, schedule[0]);
      MoveUndrawn(s, schedule[0]);
      MoveCalls(s, schedule[0]);
      PlayUndrawn(Move(s, schedule[0]), schedule[1..]);
    }
  }

  lemma MoveCalls(s: Sys, i: nat)
    requires Shaped(s) && Enabled(s, i)
    ensures Move(s, i).calls == s.calls
  {
  }

  /** Nobody is ever stuck: in every reachable state each unfinished call can
      take its next step. */
  lemma Progress(s: Sys, schedule: seq<nat>, i: nat)
    requires Sound(s) && AllUndrawn(s) && DistinctDraws(s.calls) && Playable(s, schedule)
    requires i < |s.calls| && !Finished(Play(s, schedule).pcs[i])
    ensures Enabled(Play(s, schedule), i)
  {
    hide Repo.Agrees, WellFormed, Undrawn, Step, Sound, Play, Playable;
    PlaySound(s, schedule);
    PlayUndrawn(s, schedule);
    var end := Play(s, schedule);
    SoundCall(end, i);
    StepUndrawn(end.repo, end.calls[i], end.pcs[i]);
  }

  /** From any such state some schedule finishes every call. */
  lemma CanFinish(s: Sys) returns (schedule: seq<nat>)
    requires Sound(s) && AllUndrawn(s) && DistinctDraws(s.calls)
    ensures Shaped(s) && Playable(s, schedule)
    ensures forall i :: 0 <= i < |s.calls| ==> Finished(Play(s, schedule).pcs[i])
    decreases if Shaped(s) then TotalFuel(s, |s.calls|) else 0
  {
    hide Sound, AllUndrawn, DistinctDraws, Enabled, Move, Finished;
    SoundShape(s);
    if i :| 0 <= i < |s.calls| && !Finished(s.pcs[i]) {
      Progress(s, [], i);
      MoveSound(s, i);
      MoveUndrawn(s, i);
      MoveCalls(s, i);
      MoveBurns(s, i, |s.calls|);
      var rest := CanFinish(Move(s, i));
      schedule := [i] + rest;
      assert schedule[1..] == rest;
    } else {
      schedule := [];
    }
  }

  /** No call can move. */
  ghost predicate Stopped(s: Sys)
    requires Shaped(s)
  {
    forall i: nat :: i < |s.calls| ==> !Enabled(s, i)
  }

  /** Any number of deliveries of one request run until nobody can move: all of
      them have returned, with one customer. */
  lemma RaceCompletes(repo: Repo, calls: seq<Call>, schedule: seq<nat>, tenant: string, hints: seq<Hint>,
                      known: Option<string>)
    requires repo.Agrees() && hints != [] && Short(hints)
    requires forall i :: 0 <= i < |calls| ==> WellFormed(calls[i])
    requires forall i :: 0 <= i < |calls| ==> Rival(calls[i], tenant, hints) || Apart(calls[i], tenant, hints)
    requires if known.None? then Unbound(repo, tenant, hints) else AllBound(repo, tenant, hints, known.value)
    requires DistinctDraws(calls)
    requires forall i :: 0 <= i < |calls| ==>
               (calls[i].tenant, calls[i].newId) !in repo.customers && repo.FreshRows(calls[i].tenant, calls[i].rowIds)
    requires Playable(Sys(repo, calls, seq(|calls|, _ => Start)), schedule)
    requires Stopped(Play(Sys(repo, calls, seq(|calls|, _ => Start)), schedule))
    ensures var pcs := Play(Sys(repo, calls, seq(|calls|, _ => Start)), schedule).pcs;
            && |pcs| == |calls|
            && (forall i :: 0 <= i < |calls| ==> Finished(pcs[i]))
            && (forall i :: 0 <= i < |calls| && Rival(calls[i], tenant, hints) ==> pcs[i].Done?)
            && (forall i, j :: 0 <= i < |calls| && 0 <= j < |calls|
                               && Rival(calls[i], tenant, hints) && Rival(calls[j], tenant, hints) ==>
                                 pcs[i].outcome.customer == pcs[j].outcome.customer)
  {
    hide Repo.Agrees, WellFormed, Sound, Play, Playable, Enabled, Repo.FreshRows, DistinctDraws, Rival, Apart, AllUndrawn;
    var s := Sys(repo, calls, seq(|calls|, _ => Start));
    StartSound(repo, calls);
    StartUndrawn(repo, calls);
    RaceSafety(repo, calls, schedule, tenant, hints, known);
    forall i | 0 <= i < |calls|
      ensures Finished(Play(s, schedule).pcs[i])
    {
      if !Finished(Play(s, schedule).pcs[i]) {
        Progress(s, schedule, i);
        assert false;
      }
    }
  }

  lemma StartUndrawn(repo: Repo, calls: seq<Call>)
    requires forall i :: 0 <= i < |calls| ==> WellFormed(calls[i])
    requires forall i :: 0 <= i < |calls| ==>
               (calls[i].tenant, calls[i].newId) !in repo.customers && repo.FreshRows(calls[i].tenant, calls[i].rowIds)
    ensures AllUndrawn(Sys(repo, calls, seq(|calls|, _ => Start)))
  {
  }
}
