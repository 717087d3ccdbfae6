/** Many resolve calls at once, interleaved at repository-call granularity. */
module LinkerRaces {
  import opened Common
  import opened Identities
  import opened Customers
  import opened Linking

  /** One shared repository and any number of calls under way. */
  datatype Sys = Sys(repo: Repo, calls: seq<Call>, pcs: seq<Pc>)

  predicate Shaped(s: Sys) {
    && |s.pcs| == |s.calls|
    && (forall i :: 0 <= i < |s.calls| ==> WellFormed(s.calls[i]) && PcOk(s.calls[i], s.pcs[i]))
  }

  /** Call `i` can take a step, drawing ids nobody has used. */
  predicate Enabled(s: Sys, i: nat)
    requires Shaped(s)
  {
    i < |s.calls| && !Finished(s.pcs[i]) && Fresh(s.repo, s.calls[i], s.pcs[i])
  }

  function Move(s: Sys, i: nat): (r: Sys)
    requires Shaped(s) && Enabled(s, i)
    ensures Shaped(r)
  {
    var (repo, pc) := Step(s.repo, s.calls[i], s.pcs[i]);
    StepBurns(s.repo, s.calls[i], s.pcs[i]);
    Sys(repo, s.calls, s.pcs[i := pc])
  }

  /** A schedule names, step by step, which call moves. */
  predicate Playable(s: Sys, schedule: seq<nat>)
    requires Shaped(s)
    decreases |schedule|
  {
    schedule == [] || (Enabled(s, schedule[0]) && Playable(Move(s, schedule[0]), schedule[1..]))
  }

  function Play(s: Sys, schedule: seq<nat>): (r: Sys)
    requires Shaped(s) && Playable(s, schedule)
    ensures Shaped(r) && r.calls == s.calls
    decreases |schedule|
  {
    if schedule == [] then s else Play(Move(s, schedule[0]), schedule[1..])
  }

  // ----- invariants of every interleaving -----

  ghost predicate Sound(s: Sys) {
    && Shaped(s)
    && s.repo.Agrees()
    && (forall i :: 0 <= i < |s.calls| ==> Holds(s.repo, s.calls[i], s.pcs[i]))
  }

  lemma StartSound(repo: Repo, calls: seq<Call>)
    requires repo.Agrees() && forall i :: 0 <= i < |calls| ==> WellFormed(calls[i])
    ensures Sound(Sys(repo, calls, seq(|calls|, _ => Start)))
  {
  }

  lemma MoveSound(s: Sys, i: nat)
    requires Sound(s) && Enabled(s, i)
    ensures Sound(Move(s, i)) && Grows(s.repo, Move(s, i).repo)
  {
    hide Repo.Agrees, Grows, Holds, WellFormed, Step;
    StepHolds(s.repo, s.calls[i], s.pcs[i]);
    var next := Move(s, i);
    forall j | 0 <= j < |s.calls|
      ensures Holds(next.repo, next.calls[j], next.pcs[j])
    {
      if j != i {
        HoldsGrows(s.repo, next.repo, s.calls[j], s.pcs[j]);
      }
    }
  }

  /** In every interleaving the rows and the index stay one-to-one, and nothing
      is ever removed or rebound, whether calls succeed or raise. */
  lemma {:induction false} PlaySound(s: Sys, schedule: seq<nat>)
    requires Sound(s) && Playable(s, schedule)
    ensures Sound(Play(s, schedule)) && Grows(s.repo, Play(s, schedule).repo)
    decreases |schedule|
  {
    hide Sound, Grows, Enabled, Move, Shaped;
    SoundShape(s);
    GrowsReflexive(s.repo);
    if schedule != [] {
      MoveSound(s, schedule[0]);
      PlaySound(Move(s, schedule[0]), schedule[1..]);
      GrowsTransitive(s.repo, Move(s, schedule[0]).repo, Play(s, schedule).repo);
    }
  }

  lemma SoundShape(s: Sys)
    requires Sound(s)
    ensures Shaped(s) && s.repo.Agrees()
  {
  }

  /** A call that returned has all its hints bound to the customer it returned,
      in that state and in every later one. */
  lemma SuccessBindsAll(s: Sys, i: nat, later: seq<nat>)
    requires Sound(s) && Playable(s, later) && i < |s.calls| && s.pcs[i].Done?
    ensures BoundBut(Play(s, later).repo, s.calls[i], [], s.pcs[i].outcome.customer)
  {
    PlaySound(s, later);
    assert Holds(s.repo, s.calls[i], s.pcs[i]);
    HoldsGrows(s.repo, Play(s, later).repo, s.calls[i], s.pcs[i]);
  }

  /** Two returned calls that share a hint return the same customer. */
  lemma SharedHintSameCustomer(s: Sys, i: nat, j: nat, h: Hint)
    requires Sound(s) && i < |s.calls| && j < |s.calls| && s.pcs[i].Done? && s.pcs[j].Done?
    requires s.calls[i].tenant == s.calls[j].tenant && h in s.calls[i].hints && h in s.calls[j].hints
    ensures s.pcs[i].outcome.customer == s.pcs[j].outcome.customer
  {
    hide Repo.Agrees, WellFormed;
    assert Holds(s.repo, s.calls[i], s.pcs[i]) && Holds(s.repo, s.calls[j], s.pcs[j]);
    var k: nat :| k < |s.calls[i].hints| && s.calls[i].hints[k] == h;
    var m: nat :| m < |s.calls[j].hints| && s.calls[j].hints[m] == h;
    assert Bound(s.repo, s.calls[i], k, s.pcs[i].outcome.customer);
    assert Bound(s.repo, s.calls[j], m, s.pcs[j].outcome.customer);
  }

  /** Replaying a request some call has resolved, in any later state: it leaves
      the repository alone and answers with the same customer, exactly when it
      has a hint or names its customer. */
  lemma ReplayAfterSuccess(s: Sys, i: nat, later: seq<nat>, again: Call)
    requires Sound(s) && Playable(s, later) && i < |s.calls| && s.pcs[i].Done? && WellFormed(again)
    requires again.tenant == s.calls[i].tenant && again.explicit == s.calls[i].explicit && again.hints == s.calls[i].hints
    requires (again.tenant, again.newId) !in Play(s, later).repo.customers
    ensures var repo := Play(s, later).repo;
            var (next, end) := Solo(repo, again, Start);
            && (next == repo <==> again.hints != [] || again.explicit.Some?)
            && (next == repo ==> end.Done? && end.outcome.customer == s.pcs[i].outcome.customer
                                 && !end.outcome.created && end.outcome.added == [])
  {
    hide Repo.Agrees, Normal, Sorted, Solo, Play, Playable;
    PlaySound(s, later);
    var (repo, customer) := (Play(s, later).repo, s.pcs[i].outcome.customer);
    assert Holds(s.repo, s.calls[i], s.pcs[i]);
    HoldsGrows(s.repo, repo, s.calls[i], s.pcs[i]);
    forall k: nat | k < |again.hints|
      ensures Bound(repo, again, k, customer)
    {
      assert Bound(repo, s.calls[i], k, customer);
    }
    ReplayIdempotentIff(repo, again, customer);
    if again.hints != [] || again.explicit.Some? {
      ReplayChangesNothing(repo, again, customer);
    }
  }

  /** The re-raise after the retry walk is unreachable: a call fails only on an
      explicit customer that was not there when it began, on a hint that belongs
      to somebody other than the customer it chose, or on an over-long value. */
  lemma RetryAlwaysMatches(s: Sys, schedule: seq<nat>, i: nat)
    requires Sound(s) && Playable(s, schedule) && i < |s.calls|
    ensures var (repo, pc) := (Play(s, schedule).repo, Play(s, schedule).pcs[i]);
            && (pc.Failed? ==> FailsFor(repo, s.calls[i], pc.error))
            && (pc == Failed(UnknownExplicit) && !s.pcs[i].Failed? ==>
                  (s.calls[i].tenant, s.calls[i].explicit.value) !in s.repo.customers)
  {
    hide Repo.Agrees, WellFormed, Chosen, OwnedElsewhere;
    PlaySound(s, schedule);
    assert Holds(Play(s, schedule).repo, s.calls[i], Play(s, schedule).pcs[i]);
    if !s.pcs[i].Failed? {
      UnknownWasAbsent(s, schedule, i);
    }
  }

  lemma {:induction false} UnknownWasAbsent(s: Sys, schedule: seq<nat>, i: nat)
    requires Sound(s) && Playable(s, schedule) && i < |s.calls| && !s.pcs[i].Failed?
    ensures Play(s, schedule).pcs[i] == Failed(UnknownExplicit) ==>
              s.calls[i].explicit.Some? && (s.calls[i].tenant, s.calls[i].explicit.value) !in s.repo.customers
    decreases |schedule|
  {
    hide Sound, Enabled, Grows, Step;
    SoundShape(s);
    if schedule != [] {
      var j, next := schedule[0], Move(s, schedule[0]);
      MoveSound(s, j);
      MoveUnknown(s, j, i);
      GrowsCustomers(s.repo, next.repo);
      if next.pcs[i].Failed? {
        FailedStays(next, schedule[1..], i);
      } else {
        UnknownWasAbsent(next, schedule[1..], i);
      }
    }
  }

  lemma GrowsCustomers(was: Repo, repo: Repo)
    requires Grows(was, repo)
    ensures forall k :: k in was.customers ==> k in repo.customers
  {
  }

  lemma MoveUnknown(s: Sys, j: nat, i: nat)
    requires Shaped(s) && Enabled(s, j) && i < |s.calls| && !s.pcs[i].Failed?
    ensures Move(s, j).pcs[i] == Failed(UnknownExplicit) ==>
              s.calls[i].explicit.Some? && (s.calls[i].tenant, s.calls[i].explicit.value) !in s.repo.customers
  {
    hide Repo.Find, Repo.Create, Repo.Add, WellFormed, Fresh;
  }

  lemma {:induction false} FailedStays(s: Sys, schedule: seq<nat>, i: nat)
    requires Shaped(s) && Playable(s, schedule) && i < |s.calls| && s.pcs[i].Failed?
    ensures Play(s, schedule).pcs[i] == s.pcs[i]
    decreases |schedule|
  {
    hide Step, Fresh;
    if schedule != [] {
      FailedStays(Move(s, schedule[0]), schedule[1..], i);
    }
  }

  // ----- termination -----

  function TotalFuel(s: Sys, n: nat): nat
    requires Shaped(s) && n <= |s.calls|
  {
    if n == 0 then 0 else TotalFuel(s, n - 1) + Fuel(s.calls[n - 1], s.pcs[n - 1])
  }

  lemma {:induction false} MoveBurns(s: Sys, i: nat, n: nat)
    requires Shaped(s) && Enabled(s, i) && n <= |s.calls|
    ensures if i < n then TotalFuel(Move(s, i), n) < TotalFuel(s, n) else TotalFuel(Move(s, i), n) == TotalFuel(s, n)
  {
    hide Normal, Sorted, NoDup, Fresh, Step, Fuel;
    StepBurns(s.repo, s.calls[i], s.pcs[i]);
    if n > 0 {
      MoveBurns(s, i, n - 1);
    }
  }

  /** No schedule runs longer than the calls' combined fuel: every call finishes. */
  lemma {:induction false} PlayIsFinite(s: Sys, schedule: seq<nat>)
    requires Shaped(s) && Playable(s, schedule)
    ensures |schedule| <= TotalFuel(s, |s.calls|)
    decreases |schedule|
  {
    if schedule != [] {
      MoveBurns(s, schedule[0], |s.calls|);
      PlayIsFinite(Move(s, schedule[0]), schedule[1..]);
    }
  }

  // ----- one request delivered many times at once -----

  /** A call for the same request: same tenant, same hints, no explicit customer. */
  predicate Rival(c: Call, tenant: string, hints: seq<Hint>) {
    c.tenant == tenant && c.hints == hints && c.explicit.None?
  }

  /** A call that shares no identity with the request. */
  predicate Apart(c: Call, tenant: string, hints: seq<Hint>) {
    c.tenant != tenant || forall h :: h in c.hints ==> h !in hints
  }

  ghost predicate Unbound(repo: Repo, tenant: string, hints: seq<Hint>) {
    forall h :: h in hints ==> KeyOf(tenant, h) !in repo.index
  }

  /** Every value is one the identity contract accepts. */
  predicate Short(hints: seq<Hint>) {
    forall h :: h in hints ==> |h.value| <= MAX_VALUE
  }

  ghost predicate AllBound(repo: Repo, tenant: string, hints: seq<Hint>, customer: string) {
    forall h :: h in hints ==> KeyOf(tenant, h) in repo.index && repo.index[KeyOf(tenant, h)] == customer
  }

  /** Where a rival can be before and after the hints have an owner. */
  predicate RivalAt(pc: Pc, owner: Option<string>) {
    match pc
    case Start => true
    case Walk(_) => true
    case Creating => true
    case Rewalk(i) => owner.Some? && i == 0
    case Probe(customer, _, _, _) => owner == Some(customer)
    case Done(o) => owner == Some(o.customer)
    case _ => false
  }

  predicate Creator(pc: Pc) {
    pc.Done? && pc.outcome.created
  }

  /** The race so far: who owns the hints, and which rival created that customer. */
  ghost predicate Race(s: Sys, tenant: string, hints: seq<Hint>, owner: Option<string>, maker: Option<nat>) {
    && Sound(s)
    && (forall i :: 0 <= i < |s.calls| ==> Rival(s.calls[i], tenant, hints) || Apart(s.calls[i], tenant, hints))
    && (if owner.None? then Unbound(s.repo, tenant, hints) else AllBound(s.repo, tenant, hints, owner.value))
    && (forall i :: 0 <= i < |s.calls| && Rival(s.calls[i], tenant, hints) ==>
          RivalAt(s.pcs[i], owner) && (Creator(s.pcs[i]) ==> maker == Some(i)))
  }

  /** A call that shares no identity with the request leaves its bindings alone. */
  lemma ApartStep(repo: Repo, c: Call, pc: Pc, tenant: string, h: Hint)
    requires WellFormed(c) && repo.Agrees() && Holds(repo, c, pc) && !Finished(pc) && Fresh(repo, c, pc)
    requires c.tenant != tenant || h !in c.hints
    ensures KeyOf(tenant, h) in Step(repo, c, pc).0.index ==> KeyOf(tenant, h) in repo.index
  {
    hide Repo.Agrees, Normal, Sorted, Grows, Repo.Create, Repo.Add, BoundBut;
    match pc {
      case Creating => CreateBinds(repo, c);
      case Inserting(customer, todo, added, matched) => AddBinds(repo, c, customer, todo[0]);
      case _ =>
    }
  }

  lemma TakenCollides(repo: Repo, c: Call)
    requires WellFormed(c) && c.hints != [] && KeyOf(c.tenant, c.hints[0]) in repo.index
    ensures repo.Create(c.tenant, c.newId, c.name, c.hints, c.rowIds) == (repo, Failure(Collision))
  {
    Hints(c, c.hints[0]);
    assert c.hints[0] in c.hints;
  }

  /** One step of a rival once the hints belong to `customer`. */
  lemma RivalFollows(repo: Repo, c: Call, pc: Pc, customer: string)
    requires WellFormed(c) && repo.Agrees() && PcOk(c, pc) && !Finished(pc) && c.explicit.None? && c.hints != []
    requires AllBound(repo, c.tenant, c.hints, customer) && RivalAt(pc, Some(customer))
    ensures Step(repo, c, pc).0 == repo
    ensures RivalAt(Step(repo, c, pc).1, Some(customer)) && !Creator(Step(repo, c, pc).1)
  {
    hide Repo.Agrees, Normal, Sorted;
    match pc {
      case Start =>
      case Walk(i) => FindMeansBound(repo, c.tenant, c.hints[i]);
      case Creating =>
        assert c.hints[0] in c.hints;
        TakenCollides(repo, c);
      case Rewalk(i) => FindMeansBound(repo, c.tenant, c.hints[i]);
      case Probe(x, todo, added, matched) => FindMeansBound(repo, c.tenant, c.hints[todo[0]]);
    }
  }

  /** One step of a rival while nobody owns the hints. */
  lemma RivalLeads(repo: Repo, c: Call, pc: Pc)
    requires WellFormed(c) && repo.Agrees() && PcOk(c, pc) && !Finished(pc) && c.explicit.None? && c.hints != []
    requires Unbound(repo, c.tenant, c.hints) && RivalAt(pc, None) && Fresh(repo, c, pc) && Short(c.hints)
    ensures var (next, pc') := Step(repo, c, pc);
            if pc.Creating? then
              AllBound(next, c.tenant, c.hints, c.newId) && pc'.Done? && pc'.outcome.customer == c.newId
            else next == repo && RivalAt(pc', None) && !Creator(pc')
  {
    hide Repo.Agrees, Normal, Sorted, Grows, Repo.Create;
    match pc {
      case Start =>
      case Walk(i) => FindMeansBound(repo, c.tenant, c.hints[i]);
      case Creating =>
        CreateBinds(repo, c);
        forall h | h in c.hints && BoundBut(repo.Create(c.tenant, c.newId, c.name, c.hints, c.rowIds).0, c, [], c.newId)
          ensures var index := repo.Create(c.tenant, c.newId, c.name, c.hints, c.rowIds).0.index;
                  KeyOf(c.tenant, h) in index && index[KeyOf(c.tenant, h)] == c.newId
        {
          var k: nat :| k < |c.hints| && c.hints[k] == h;
          assert Bound(repo.Create(c.tenant, c.newId, c.name, c.hints, c.rowIds).0, c, k, c.newId);
        }
    }
  }

  lemma BindingsKept(s: Sys, i: nat, tenant: string, hints: seq<Hint>, owner: Option<string>)
    requires Sound(s) && Enabled(s, i) && Apart(s.calls[i], tenant, hints)
    requires if owner.None? then Unbound(s.repo, tenant, hints) else AllBound(s.repo, tenant, hints, owner.value)
    ensures var repo := Move(s, i).repo;
            if owner.None? then Unbound(repo, tenant, hints) else AllBound(repo, tenant, hints, owner.value)
  {
    hide Repo.Agrees, Holds, WellFormed, Step, Fresh, Sound, Grows;
    SoundCall(s, i);
    MoveSound(s, i);
    GrowsKeeps(s.repo, Move(s, i).repo);
    if owner.None? {
      forall h | h in hints
        ensures KeyOf(tenant, h) !in Move(s, i).repo.index
      {
        ApartStep(s.repo, s.calls[i], s.pcs[i], tenant, h);
      }
    }
  }

  lemma ApartKeeps(s: Sys, i: nat, tenant: string, hints: seq<Hint>, owner: Option<string>, maker: Option<nat>)
    requires Race(s, tenant, hints, owner, maker) && Enabled(s, i) && Apart(s.calls[i], tenant, hints)
    requires !Rival(s.calls[i], tenant, hints)
    ensures Race(Move(s, i), tenant, hints, owner, maker)
  {
    hide Repo.Agrees, Holds, WellFormed, Step, Fresh, Sound, Grows, RivalAt;
    MoveSound(s, i);
    SoundCall(s, i);
    BindingsKept(s, i, tenant, hints, owner);
    hide Unbound, AllBound;
  }

  lemma SoundCall(s: Sys, i: nat)
    requires Sound(s) && i < |s.calls|
    ensures Shaped(s) && s.repo.Agrees() && WellFormed(s.calls[i]) && Holds(s.repo, s.calls[i], s.pcs[i])
  {
  }

  lemma RivalKeeps(s: Sys, i: nat, tenant: string, hints: seq<Hint>, owner: Option<string>, maker: Option<nat>)
    returns (owner': Option<string>, maker': Option<nat>)
    requires Race(s, tenant, hints, owner, maker) && Enabled(s, i) && hints != [] && Short(hints) && Rival(s.calls[i], tenant, hints)
    requires owner.None? ==> maker.None?
    ensures Race(Move(s, i), tenant, hints, owner', maker')
    ensures owner'.None? ==> maker'.None?
    ensures owner.Some? ==> owner' == owner && maker' == maker
  {
    hide Repo.Agrees, Holds, WellFormed, Step, Fresh, Sound, Apart, Grows, Unbound, AllBound;
    owner', maker' := owner, maker;
    MoveSound(s, i);
    SoundCall(s, i);
    if owner.Some? {
      RivalFollows(s.repo, s.calls[i], s.pcs[i], owner.value);
    } else {
      RivalLeads(s.repo, s.calls[i], s.pcs[i]);
      if s.pcs[i].Creating? {
        owner', maker' := Some(s.calls[i].newId), Some(i);
      }
    }
  }

  lemma RaceMove(s: Sys, i: nat, tenant: string, hints: seq<Hint>, owner: Option<string>, maker: Option<nat>)
    returns (owner': Option<string>, maker': Option<nat>)
    requires Race(s, tenant, hints, owner, maker) && Enabled(s, i) && hints != [] && Short(hints)
    requires owner.None? ==> maker.None?
    ensures Race(Move(s, i), tenant, hints, owner', maker')
    ensures owner'.None? ==> maker'.None?
    ensures owner.Some? ==> owner' == owner && maker' == maker
  {
    hide Sound, Unbound, AllBound, RivalAt, WellFormed, Move;
    owner', maker' := owner, maker;
    if Rival(s.calls[i], tenant, hints) {
      owner', maker' := RivalKeeps(s, i, tenant, hints, owner, maker);
    } else {
      ApartKeeps(s, i, tenant, hints, owner, maker);
    }
  }

  lemma {:induction false} RacePlay(s: Sys, schedule: seq<nat>, tenant: string, hints: seq<Hint>,
                                    owner: Option<string>, maker: Option<nat>)
    returns (owner': Option<string>, maker': Option<nat>)
    requires Race(s, tenant, hints, owner, maker) && Playable(s, schedule) && hints != [] && Short(hints)
    requires owner.None? ==> maker.None?
    ensures Race(Play(s, schedule), tenant, hints, owner', maker')
    ensures owner.Some? ==> owner' == owner && maker' == maker
    decreases |schedule|
  {
    hide Race, Enabled, Move, Shaped;
    owner', maker' := owner, maker;
    RaceShape(s, tenant, hints, owner, maker);
    if schedule != [] {
      owner', maker' := RaceMove(s, schedule[0], tenant, hints, owner, maker);
      owner', maker' := RacePlay(Move(s, schedule[0]), schedule[1..], tenant, hints, owner', maker');
    }
  }

  lemma RaceShape(s: Sys, tenant: string, hints: seq<Hint>, owner: Option<string>, maker: Option<nat>)
    requires Race(s, tenant, hints, owner, maker)
    ensures Shaped(s)
  {
  }

  /** Any number of deliveries of one request, in any interleaving with each
      other and with calls about other identities: none raises, all return one
      customer, and at most one of them creates it — none, and the customer is
      the known one, when the hints already had an owner. */
  lemma RaceSafety(repo: Repo, calls: seq<Call>, schedule: seq<nat>, tenant: string, hints: seq<Hint>, known: Option<string>)
    requires repo.Agrees() && hints != [] && Short(hints)
    requires forall i :: 0 <= i < |calls| ==> WellFormed(calls[i])
    requires forall i :: 0 <= i < |calls| ==> Rival(calls[i], tenant, hints) || Apart(calls[i], tenant, hints)
    requires if known.None? then Unbound(repo, tenant, hints) else AllBound(repo, tenant, hints, known.value)
    requires Playable(Sys(repo, calls, seq(|calls|, _ => Start)), schedule)
    ensures var pcs := Play(Sys(repo, calls, seq(|calls|, _ => Start)), schedule).pcs;
            && |pcs| == |calls|
            && (forall i :: 0 <= i < |calls| && Rival(calls[i], tenant, hints) ==> !pcs[i].Failed?)
            && (forall i, j :: 0 <= i < |calls| && 0 <= j < |calls|
                               && Rival(calls[i], tenant, hints) && Rival(calls[j], tenant, hints)
                               && pcs[i].Done? && pcs[j].Done? ==>
                                 pcs[i].outcome.customer == pcs[j].outcome.customer
                                 && (Creator(pcs[i]) && Creator(pcs[j]) ==> i == j))
            && (known.Some? ==>
                  forall i :: 0 <= i < |calls| && Rival(calls[i], tenant, hints) && pcs[i].Done? ==>
                                pcs[i].outcome.customer == known.value && !pcs[i].outcome.created)
  {
    hide Repo.Agrees, WellFormed, Sound, Play, Playable;
    StartSound(repo, calls);
    var owner, maker := RacePlay(Sys(repo, calls, seq(|calls|, _ => Start)), schedule, tenant, hints, known, None);
  }
}
