/** `resolve_customer` itself, run while other threads use the same repository:
    they may act before each of its repository calls. */
module Resolving {
  import opened Common
  import opened Identities
  import opened Customers
  import opened Linking

  /** The repository just before and just after one call made by this thread. */
  datatype Turn = Turn(before: Repo, after: Repo)

  function PcAfter(c: Call, trace: seq<Turn>): (pc: Pc)
    requires |c.rowIds| == |c.hints|
    ensures PcOk(c, pc)
  {
    if trace == [] then Start
    else
      var pc := PcAfter(c, trace[..|trace| - 1]);
      StepBurns(trace[|trace| - 1].before, c, pc);
      if Finished(pc) then pc else Step(trace[|trace| - 1].before, c, pc).1
  }

  /** Each turn is the program's next step, and between turns the repository
      only grows. */
  ghost predicate Linked(c: Call, was: Repo, trace: seq<Turn>, now: Repo)
    requires |c.rowIds| == |c.hints|
  {
    if trace == [] then Grows(was, now)
    else
      var front, last := trace[..|trace| - 1], trace[|trace| - 1];
      && Linked(c, was, front, last.before)
      && !Finished(PcAfter(c, front))
      && last.after == Step(last.before, c, PcAfter(c, front)).0
      && Grows(last.after, now)
  }

  /** The ids this call may still draw are unused. */
  ghost predicate Undrawn(repo: Repo, c: Call, pc: Pc)
    requires |c.rowIds| == |c.hints|
  {
    match pc
    case Probe(_, todo, _, _) => RowsUnused(repo, c, todo)
    case Inserting(_, todo, _, _) => RowsUnused(repo, c, todo)
    case Done(_) => true
    case Failed(_) => true
    case Rewalk(_) => repo.FreshRows(c.tenant, c.rowIds)
    case _ => (c.tenant, c.newId) !in repo.customers && repo.FreshRows(c.tenant, c.rowIds)
  }

  ghost predicate RowsUnused(repo: Repo, c: Call, todo: seq<nat>)
    requires |c.rowIds| == |c.hints|
  {
    && NoDup(todo) && Within(todo, |c.hints|)
    && (forall k :: 0 <= k < |todo| ==> (c.tenant, c.rowIds[todo[k]]) !in repo.identities)
  }

  /** A thread part-way through `c`. */
  ghost predicate Live(c: Call, was: Repo, trace: seq<Turn>, now: Repo) {
    && WellFormed(c)
    && now.Agrees()
    && Linked(c, was, trace, now)
    && Holds(now, c, PcAfter(c, trace))
    && Undrawn(now, c, PcAfter(c, trace))
  }

  lemma AttachUndrawn(repo: Repo, c: Call, customer: string, todo: seq<nat>, added: seq<Hint>, matched: Option<Hint>)
    requires |c.rowIds| == |c.hints| && RowsUnused(repo, c, todo)
    ensures Undrawn(repo, c, Attach(customer, todo, added, matched))
  {
  }

  lemma FreshRowsUnused(repo: Repo, c: Call, todo: seq<nat>)
    requires |c.rowIds| == |c.hints| && repo.FreshRows(c.tenant, c.rowIds) && NoDup(todo) && Within(todo, |c.hints|)
    ensures RowsUnused(repo, c, todo)
  {
  }

  lemma InsertUndrawn(repo: Repo, c: Call, customer: string, todo: seq<nat>)
    requires WellFormed(c) && todo != [] && RowsUnused(repo, c, todo)
    ensures RowsUnused(repo.Add(c.tenant, customer, c.hints[todo[0]], c.rowIds[todo[0]]).0, c, todo[1..])
  {
    var next := repo.Add(c.tenant, customer, c.hints[todo[0]], c.rowIds[todo[0]]).0;
    forall k | 0 <= k < |todo[1..]|
      ensures (c.tenant, c.rowIds[todo[1..][k]]) !in next.identities
    {
      assert todo[k + 1] != todo[0];
    }
  }

  lemma StepUndrawn(repo: Repo, c: Call, pc: Pc)
    requires WellFormed(c) && PcOk(c, pc) && !Finished(pc) && Undrawn(repo, c, pc)
    ensures Undrawn(Step(repo, c, pc).0, c, Step(repo, c, pc).1)
    ensures Fresh(repo, c, pc)
  {
    hide Normal, Sorted, Repo.FreshRows, RowsUnused, Undrawn, Repo.Create;
    var (next, pc') := Step(repo, c, pc);
    EndUndrawn(next, c, pc');
    match pc {
      case Start =>
        UndrawnRows(repo, c, pc);
        if c.explicit.Some? && (c.tenant, c.explicit.value) in repo.customers {
          FreshRowsUnused(repo, c, Upto(0, |c.hints|));
          AttachUndrawn(repo, c, repo.customers[(c.tenant, c.explicit.value)].id, Upto(0, |c.hints|), [], None);
        }
      case Walk(i) =>
        UndrawnRows(repo, c, pc);
        var found := repo.Find(c.tenant, c.hints[i]);
        if found.Some? {
          FreshRowsUnused(repo, c, Others(|c.hints|, i));
          AttachUndrawn(repo, c, found.value.id, Others(|c.hints|, i), [], Some(c.hints[i]));
        }
      case Creating =>
        UndrawnRows(repo, c, pc);
        UnchangedUndrawn(repo, c);
      case Rewalk(i) =>
        UndrawnRows(repo, c, pc);
        var found := repo.Find(c.tenant, c.hints[i]);
        if found.Some? {
          FreshRowsUnused(repo, c, Others(|c.hints|, i));
          AttachUndrawn(repo, c, found.value.id, Others(|c.hints|, i), [], Some(c.hints[i]));
        }
      case Probe(customer, todo, added, matched) =>
        ProbeUndrawn(repo, c, customer, todo, added, matched);
      case Inserting(customer, todo, added, matched) =>
        ProbeUndrawn(repo, c, customer, todo, added, matched);
        var next := repo.Add(c.tenant, customer, c.hints[todo[0]], c.rowIds[todo[0]]).0;
        InsertUndrawn(repo, c, customer, todo);
        AttachUndrawn(next, c, customer, todo[1..], added + [c.hints[todo[0]]], matched);
    }
  }

  lemma UnchangedUndrawn(repo: Repo, c: Call)
    requires WellFormed(c) && repo.FreshRows(c.tenant, c.rowIds)
    ensures Step(repo, c, Creating).1.Rewalk? ==>
              Step(repo, c, Creating).0 == repo && Undrawn(repo, c, Rewalk(0))
  {
    hide Repo.InsertAll, Normal, Sorted, Leading;
  }

  lemma EndUndrawn(repo: Repo, c: Call, pc: Pc)
    requires |c.rowIds| == |c.hints|
    ensures Finished(pc) ==> Undrawn(repo, c, pc)
  {
  }

  lemma UndrawnRows(repo: Repo, c: Call, pc: Pc)
    requires |c.rowIds| == |c.hints| && Undrawn(repo, c, pc)
    requires pc.Start? || pc.Walk? || pc.Creating? || pc.Rewalk?
    ensures repo.FreshRows(c.tenant, c.rowIds)
    ensures !pc.Rewalk? ==> (c.tenant, c.newId) !in repo.customers
    ensures !pc.Rewalk? ==> forall i :: Undrawn(repo, c, Walk(i))
    ensures !pc.Rewalk? ==> Undrawn(repo, c, Creating)
    ensures forall i :: Undrawn(repo, c, Rewalk(i))
  {
  }

  lemma ProbeUndrawn(repo: Repo, c: Call, customer: string, todo: seq<nat>, added: seq<Hint>, matched: Option<Hint>)
    requires |c.rowIds| == |c.hints| && todo != []
    requires Undrawn(repo, c, Probe(customer, todo, added, matched)) || Undrawn(repo, c, Inserting(customer, todo, added, matched))
    ensures Undrawn(repo, c, Inserting(customer, todo, added, matched))
    ensures RowsUnused(repo, c, todo) && RowsUnused(repo, c, todo[1..])
    ensures forall a, m :: Undrawn(repo, c, Attach(customer, todo[1..], a, m))
    ensures todo[0] < |c.hints| && (c.tenant, c.rowIds[todo[0]]) !in repo.identities
  {
    assert forall k :: 0 <= k < |todo[1..]| ==> todo[1..][k] == todo[k + 1];
  }

  // ----- keeping the trace -----

  /** This thread makes its next repository call. */
  lemma TurnTaken(c: Call, was: Repo, trace: seq<Turn>, now: Repo)
    requires Live(c, was, trace, now) && !Finished(PcAfter(c, trace))
    ensures var (next, pc) := Step(now, c, PcAfter(c, trace));
            Live(c, was, trace + [Turn(now, next)], next) && PcAfter(c, trace + [Turn(now, next)]) == pc
  {
    var (next, pc) := Step(now, c, PcAfter(c, trace));
    var longer := trace + [Turn(now, next)];
    assert longer[..|longer| - 1] == trace;
    hide Repo.Agrees, Holds, Undrawn, Grows, WellFormed, Step, Fresh;
    LiveShape(c, was, trace, now);
    StepUndrawn(now, c, PcAfter(c, trace));
    StepHolds(now, c, PcAfter(c, trace));
    GrowsReflexive(next);
  }

  lemma LiveShape(c: Call, was: Repo, trace: seq<Turn>, now: Repo)
    requires Live(c, was, trace, now)
    ensures WellFormed(c) && Sorted(c.hints) && |c.rowIds| == |c.hints| && now.Agrees() && PcOk(c, PcAfter(c, trace))
  {
  }

  /** Other threads act. */
  lemma OthersActed(c: Call, was: Repo, trace: seq<Turn>, before: Repo, now: Repo)
    requires Live(c, was, trace, before) && now.Agrees() && Grows(before, now)
    requires Undrawn(now, c, PcAfter(c, trace))
    ensures Live(c, was, trace, now)
  {
    hide Repo.Agrees, Holds, Undrawn, Grows;
    HoldsGrows(before, now, c, PcAfter(c, trace));
    GrowsTransitive(if trace == [] then was else trace[|trace| - 1].after, before, now);
  }

  /** Whatever other threads do to the repository before this thread's next
      call: callers may rely on nothing but this contract. */
  method Interference(c: Call, repo: CustomerRepository, ghost pc: Pc)
    requires |c.rowIds| == |c.hints| && repo.Contents().Agrees() && Undrawn(repo.Contents(), c, pc)
    modifies repo
    ensures repo.Contents().Agrees() && Grows(old(repo.Contents()), repo.Contents())
    ensures Undrawn(repo.Contents(), c, pc)
  {
    GrowsReflexive(repo.Contents());
  }

  // ----- the program -----

  method FindNext(c: Call, h: Hint, repo: CustomerRepository, ghost was: Repo, ghost trace: seq<Turn>)
    returns (found: Option<Customer>, ghost now: Repo)
    requires Live(c, was, trace, repo.Contents())
    modifies repo
    ensures Live(c, was, trace, repo.Contents()) && now == repo.Contents()
    ensures found == now.Find(c.tenant, h)
  {
    hide Repo.Agrees, Holds, Undrawn, Grows, WellFormed, Linked;
    LiveShape(c, was, trace, repo.Contents());
    ghost var before := repo.Contents();
    Interference(c, repo, PcAfter(c, trace));
    OthersActed(c, was, trace, before, repo.Contents());
    found := repo.FindCustomerByIdentity(c.tenant, h);
    now := repo.Contents();
  }

  lemma WalkStep(now: Repo, c: Call, retry: bool, i: nat)
    requires |c.rowIds| == |c.hints| && i < |c.hints|
    ensures var found := now.Find(c.tenant, c.hints[i]);
            Step(now, c, WalkPoint(c, retry, i))
            == (now, if found.Some? then Attach(found.value.id, Others(|c.hints|, i), [], Some(c.hints[i]))
                     else WalkPoint(c, retry, i + 1))
  {
  }

  method WalkNext(c: Call, retry: bool, i: nat, repo: CustomerRepository, ghost was: Repo, ghost trace: seq<Turn>)
    returns (hit: Option<Customer>, ghost longer: seq<Turn>)
    requires Live(c, was, trace, repo.Contents())
    requires i < |c.hints| && PcAfter(c, trace) == WalkPoint(c, retry, i)
    modifies repo
    ensures Live(c, was, longer, repo.Contents())
    ensures PcAfter(c, longer) == if hit.Some? then Attach(hit.value.id, Others(|c.hints|, i), [], Some(c.hints[i]))
                                  else WalkPoint(c, retry, i + 1)
  {
    hide Live, PcAfter, Repo.Find, Attach, Others, Step, WellFormed, Repo.Agrees;
    LiveShape(c, was, trace, repo.Contents());
    ghost var now: Repo;
    hit, now := FindNext(c, c.hints[i], repo, was, trace);
    WalkStep(now, c, retry, i);
    TurnTaken(c, was, trace, now);
    longer := trace + [Turn(now, now)];
  }

  /** The first `visited` hints are those the nested loops have reached: all of
      a higher priority than `k`, and those of priority `k` before position `i`. */
  ghost predicate Reached(hints: seq<Hint>, k: nat, i: nat, visited: nat) {
    && visited <= |hints|
    && forall j :: 0 <= j < |hints| ==>
                     ((Rank(hints[j].kind) < k || (Rank(hints[j].kind) == k && j < i)) <==> j < visited)
  }

  lemma ReachedAt(hints: seq<Hint>, k: nat, i: nat, visited: nat)
    requires Sorted(hints) && Reached(hints, k, i, visited) && i < |hints| && k < |PRIORITY| && hints[i].kind == PRIORITY[k]
    ensures visited == i && Reached(hints, k, i + 1, i + 1)
  {
    RankIsPosition(hints[i].kind);
    assert Rank(hints[i].kind) == k;
    var next := if visited < |hints| then Rank(hints[visited].kind) else 4;
    assert forall j :: 0 <= j < i ==> Rank(hints[j].kind) <= k;
    assert forall j :: i < j < |hints| ==> Rank(hints[j].kind) >= k;
  }

  lemma ReachedPast(hints: seq<Hint>, k: nat, i: nat, visited: nat)
    requires Reached(hints, k, i, visited) && k < |PRIORITY|
    ensures i < |hints| && hints[i].kind != PRIORITY[k] ==> Reached(hints, k, i + 1, visited)
    ensures i == |hints| ==> Reached(hints, k + 1, 0, visited)
    ensures i == |hints| && k + 1 == |PRIORITY| ==> visited == |hints|
  {
    if i < |hints| {
      RankIsPosition(hints[i].kind);
    }
    assert visited < |hints| ==> Rank(hints[visited].kind) < 4;
  }

  /** The inner loop: the hints of one kind, in order. */
  method WalkKind(c: Call, retry: bool, k: nat, repo: CustomerRepository, ghost was: Repo, ghost trace: seq<Turn>,
                  ghost start: nat)
    returns (hit: Option<Customer>, at: nat, ghost longer: seq<Turn>, ghost visited: nat)
    requires Live(c, was, trace, repo.Contents()) && k < |PRIORITY|
    requires PcAfter(c, trace) == WalkPoint(c, retry, start) && Reached(c.hints, k, 0, start)
    modifies repo
    ensures Live(c, was, longer, repo.Contents())
    ensures if hit.Some? then
              at < |c.hints| && PcAfter(c, longer) == Attach(hit.value.id, Others(|c.hints|, at), [], Some(c.hints[at]))
            else PcAfter(c, longer) == WalkPoint(c, retry, visited) && Reached(c.hints, k, |c.hints|, visited)
  {
    hide Live, WellFormed, Sorted, PcAfter, NoDup, Others, Attach, Repo.Agrees, Reached, Rank;
    LiveShape(c, was, trace, repo.Contents());
    longer, visited := trace, start;
    for i := 0 to |c.hints|
      invariant Live(c, was, longer, repo.Contents())
      invariant PcAfter(c, longer) == WalkPoint(c, retry, visited)
      invariant Reached(c.hints, k, i, visited)
    {
      ReachedPast(c.hints, k, i, visited);
      if c.hints[i].kind != PRIORITY[k] {
        continue;
      }
      ReachedAt(c.hints, k, i, visited);
      hit, longer := WalkNext(c, retry, i, repo, was, longer);
      if hit.Some? {
        at := i;
        return;
      }
      visited := visited + 1;
    }
    hit, at := None, 0;
  }

  /** Looks the hints up kind by kind in priority order. The retry walk, made
      after a collision, always finds an owner. */
  method PriorityWalk(c: Call, retry: bool, repo: CustomerRepository, ghost was: Repo, ghost trace: seq<Turn>)
    returns (hit: Option<Customer>, at: nat, ghost longer: seq<Turn>)
    requires Live(c, was, trace, repo.Contents())
    requires PcAfter(c, trace) == if retry then Rewalk(0) else if c.hints == [] then Creating else Walk(0)
    modifies repo
    ensures Live(c, was, longer, repo.Contents())
    ensures retry ==> hit.Some?
    ensures if hit.Some? then
              at < |c.hints| && PcAfter(c, longer) == Attach(hit.value.id, Others(|c.hints|, at), [], Some(c.hints[at]))
            else PcAfter(c, longer) == Creating
  {
    hide Live, WellFormed, Sorted, PcAfter, NoDup, Others, Attach, Repo.Agrees, Reached, Rank;
    LiveShape(c, was, trace, repo.Contents());
    LiveHints(c, was, trace, repo.Contents());
    longer := trace;
    ghost var visited: nat := 0;
    ReachedNone(c.hints);
    for k := 0 to |PRIORITY|
      invariant Live(c, was, longer, repo.Contents())
      invariant PcAfter(c, longer) == WalkPoint(c, retry, visited)
      invariant Reached(c.hints, k, 0, visited) && (k == |PRIORITY| ==> visited == |c.hints|)
    {
      hit, at, longer, visited := WalkKind(c, retry, k, repo, was, longer, visited);
      if hit.Some? {
        return;
      }
      ReachedPast(c.hints, k, |c.hints|, visited);
    }
    hit, at := None, 0;
    WalkEnds(c, was, longer, repo.Contents(), retry);
  }

  lemma LiveHints(c: Call, was: Repo, trace: seq<Turn>, now: Repo)
    requires Live(c, was, trace, now)
    ensures PcAfter(c, trace).Rewalk? ==> c.hints != []
  {
  }

  lemma ReachedNone(hints: seq<Hint>)
    ensures Reached(hints, 0, 0, 0)
  {
  }

  function WalkPoint(c: Call, retry: bool, visited: nat): Pc {
    if retry then if visited < |c.hints| then Rewalk(visited) else Failed(Unresolved)
    else if visited < |c.hints| then Walk(visited) else Creating
  }

  lemma WalkEnds(c: Call, was: Repo, trace: seq<Turn>, now: Repo, retry: bool)
    requires Live(c, was, trace, now) && PcAfter(c, trace) == WalkPoint(c, retry, |c.hints|)
    ensures !retry
  {
  }

  method AddNext(c: Call, customer: string, todo: seq<nat>, added: seq<Hint>, matched: Option<Hint>,
                 repo: CustomerRepository, ghost was: Repo, ghost trace: seq<Turn>)
    returns (failure: Option<LinkError>, ghost longer: seq<Turn>)
    requires Live(c, was, trace, repo.Contents())
    requires todo != [] && PcAfter(c, trace) == Inserting(customer, todo, added, matched)
    modifies repo
    ensures Live(c, was, longer, repo.Contents())
    ensures failure != Some(UnknownExplicit)
    ensures PcAfter(c, longer) == if failure.Some? then Failed(failure.value)
                                  else Attach(customer, todo[1..], added + [c.hints[todo[0]]], matched)
  {
    hide Live, Repo.Agrees, Grows, PcAfter, Filed, Accepted, Holds;
    LiveShape(c, was, trace, repo.Contents());
    ghost var before := repo.Contents();
    LiveUndrawn(c, was, trace, before);
    Interference(c, repo, PcAfter(c, trace));
    OthersActed(c, was, trace, before, repo.Contents());
    ghost var now := repo.Contents();
    ProbeUndrawn(now, c, customer, todo, added, matched);
    var row := repo.AddIdentity(c.tenant, customer, c.hints[todo[0]], c.rowIds[todo[0]]);
    TurnTaken(c, was, trace, now);
    longer := trace + [Turn(now, repo.Contents())];
    failure := if row.Success? then None else Some(AddError(row.error));
  }

  lemma LiveUndrawn(c: Call, was: Repo, trace: seq<Turn>, now: Repo)
    requires Live(c, was, trace, now)
    ensures |c.rowIds| == |c.hints| && Undrawn(now, c, PcAfter(c, trace))
  {
  }

  method AttachNewIdentities(c: Call, customer: string, todo: seq<nat>, matched: Option<Hint>, repo: CustomerRepository,
                             ghost was: Repo, ghost trace: seq<Turn>)
    returns (end: Pc, ghost longer: seq<Turn>)
    requires Live(c, was, trace, repo.Contents())
    requires PcAfter(c, trace) == Attach(customer, todo, [], matched)
    modifies repo
    ensures Live(c, was, longer, repo.Contents())
    ensures end == PcAfter(c, longer) && Finished(end) && end != Failed(UnknownExplicit)
    ensures end.Failed? ==> FailsFor(repo.Contents(), c, end.error)
  {
    hide FailsFor, Live, Normal, PcAfter, Repo.Agrees, Repo.Find;
    LiveShape(c, was, trace, repo.Contents());
    longer := trace;
    var added := [];
    for j := 0 to |todo|
      invariant Live(c, was, longer, repo.Contents())
      invariant PcAfter(c, longer) == Attach(customer, todo[j..], added, matched)
    {
      LiveShape(c, was, longer, repo.Contents());
      var k := todo[j];
      assert todo[j..][0] == k && todo[j..][1..] == todo[j + 1..];
      ghost var now: Repo;
      var existing: Option<Customer>;
      existing, now := FindNext(c, c.hints[k], repo, was, longer);
      TurnTaken(c, was, longer, now);
      longer := longer + [Turn(now, now)];
      if existing.None? {
        var failure;
        failure, longer := AddNext(c, customer, todo[j..], added, matched, repo, was, longer);
        if failure.Some? {
          end := Failed(failure.value);
          LiveEnd(c, was, longer, repo.Contents());
          return;
        }
        added := added + [c.hints[k]];
      } else if existing.value.id != customer {
        end := Failed(Conflict);
        LiveEnd(c, was, longer, repo.Contents());
        return;
      }
    }
    end := Done(Outcome(customer, false, matched, added));
  }

  /** Under any interference, every repository call this method makes is the
      program's next step; when it returns a customer, all the request's hints
      are bound to that customer, the named one if one was named; and it fails
      only on a named customer that was not there at the start, a hint that
      belongs to somebody other than the customer chosen, or an over-long value. */
  method ResolveCustomer(c: Call, repo: CustomerRepository) returns (end: Pc, ghost trace: seq<Turn>)
    requires WellFormed(c) && repo.Contents().Agrees()
    requires (c.tenant, c.newId) !in repo.customers && repo.Contents().FreshRows(c.tenant, c.rowIds)
    modifies repo
    ensures repo.Contents().Agrees()
    ensures Linked(c, old(repo.Contents()), trace, repo.Contents())
    ensures end == PcAfter(c, trace) && Finished(end)
    ensures end.Done? ==> ResolvedTo(repo.Contents(), c, end.outcome.customer)
    ensures end.Failed? ==> FailsFor(repo.Contents(), c, end.error)
    ensures end == Failed(UnknownExplicit) ==> (c.tenant, c.explicit.value) !in old(repo.customers)
  {
    ghost var was := repo.Contents();
    trace := [];
    BeginsLive(c, was);
    end, trace := Resolve(c, repo, was);
    LiveEnd(c, was, trace, repo.Contents());
  }

  lemma BeginsLive(c: Call, was: Repo)
    requires WellFormed(c) && was.Agrees()
    requires (c.tenant, c.newId) !in was.customers && was.FreshRows(c.tenant, c.rowIds)
    ensures Live(c, was, [], was)
  {
  }

  lemma LiveEnd(c: Call, was: Repo, trace: seq<Turn>, now: Repo)
    requires Live(c, was, trace, now)
    ensures now.Agrees() && Linked(c, was, trace, now)
    ensures var end := PcAfter(c, trace);
            && (end.Done? ==> ResolvedTo(now, c, end.outcome.customer))
            && (end.Failed? ==> FailsFor(now, c, end.error))
  {
  }

  method Resolve(c: Call, repo: CustomerRepository, ghost was: Repo) returns (end: Pc, ghost trace: seq<Turn>)
    requires WellFormed(c) && was == repo.Contents() && Live(c, was, [], was)
    modifies repo
    ensures Live(c, was, trace, repo.Contents())
    ensures end == PcAfter(c, trace) && Finished(end)
    ensures end == Failed(UnknownExplicit) ==> c.explicit.Some? && (c.tenant, c.explicit.value) !in was.customers
  {
    hide FailsFor, Live, Normal, Sorted, PcAfter, Repo.Agrees, Repo.Find, Grows;
    ghost var now := was;
    trace := [];
    if c.explicit.Some? {
      var existing: Option<Customer>;
      existing, now := GetNext(c, repo, was, trace);
      LiveGrew(c, was, now);
      NothingYet(c);
      TurnTaken(c, was, trace, now);
      trace := trace + [Turn(now, now)];
      if existing.None? {
        end := Failed(UnknownExplicit);
        return;
      }
      end, trace := AttachNewIdentities(c, existing.value.id, Upto(0, |c.hints|), None, repo, was, trace);
      return;
    }
    NothingYet(c);
    TurnTaken(c, was, trace, now);
    trace := trace + [Turn(now, now)];
    var hit, at;
    hit, at, trace := PriorityWalk(c, false, repo, was, trace);
    if hit.Some? {
      end, trace := AttachNewIdentities(c, hit.value.id, Others(|c.hints|, at), Some(c.hints[at]), repo, was, trace);
      return;
    }
    var failure;
    failure, trace := CreateNext(c, repo, was, trace);
    if failure.None? {
      end := Done(Outcome(c.newId, true, None, c.hints));
      return;
    }
    if failure.value == Invalid {
      end := Failed(Unstorable);
      return;
    }
    hit, at, trace := PriorityWalk(c, true, repo, was, trace);
    end, trace := AttachNewIdentities(c, hit.value.id, Others(|c.hints|, at), Some(c.hints[at]), repo, was, trace);
  }

  lemma LiveGrew(c: Call, was: Repo, now: Repo)
    requires Live(c, was, [], now)
    ensures forall k :: k in was.customers ==> k in now.customers
  {
  }

  lemma NothingYet(c: Call)
    requires |c.rowIds| == |c.hints|
    ensures PcAfter(c, []) == Start
  {
  }

  method GetNext(c: Call, repo: CustomerRepository, ghost was: Repo, ghost trace: seq<Turn>)
    returns (found: Option<Customer>, ghost now: Repo)
    requires c.explicit.Some? && Live(c, was, trace, repo.Contents())
    modifies repo
    ensures Live(c, was, trace, repo.Contents()) && now == repo.Contents()
    ensures found == if (c.tenant, c.explicit.value) in now.customers then Some(now.customers[(c.tenant, c.explicit.value)]) else None
  {
    hide Repo.Agrees, Holds, Undrawn, Grows, WellFormed, Linked;
    LiveShape(c, was, trace, repo.Contents());
    ghost var before := repo.Contents();
    Interference(c, repo, PcAfter(c, trace));
    OthersActed(c, was, trace, before, repo.Contents());
    found := repo.GetCustomer(c.tenant, c.explicit.value);
    now := repo.Contents();
  }

  /** A collision means that some hint was taken meanwhile. */
  method CreateNext(c: Call, repo: CustomerRepository, ghost was: Repo, ghost trace: seq<Turn>)
    returns (failure: Option<RepoError>, ghost longer: seq<Turn>)
    requires Live(c, was, trace, repo.Contents()) && PcAfter(c, trace) == Creating
    modifies repo
    ensures Live(c, was, longer, repo.Contents())
    ensures failure.Some? ==> failure.value == Collision || failure.value == Invalid
    ensures PcAfter(c, longer) == if failure.None? then Done(Outcome(c.newId, true, None, c.hints))
                                  else if failure.value == Invalid then Failed(Unstorable) else Rewalk(0)
  {
    hide Live, Repo.Agrees, Grows, PcAfter, IndexValue, Repo.Create, Holds;
    LiveShape(c, was, trace, repo.Contents());
    ghost var before := repo.Contents();
    LiveUndrawn(c, was, trace, before);
    Interference(c, repo, PcAfter(c, trace));
    OthersActed(c, was, trace, before, repo.Contents());
    ghost var now := repo.Contents();
    LiveShape(c, was, trace, now);
    CreateBinds(now, c);
    var r := repo.CreateCustomer(c.tenant, c.newId, c.name, c.hints, c.rowIds);
    TurnTaken(c, was, trace, now);
    longer := trace + [Turn(now, repo.Contents())];
    failure := if r.Success? then None else Some(r.error);
  }
}
