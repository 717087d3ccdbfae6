/** Cross-channel linking: `resolve_customer` as a program of single repository
    calls, and the method that runs it. */
module Linking {
  import opened Common
  import opened Identities
  import opened Customers

  /** One request, with the ids it would draw if it had to create rows. */
  datatype Call = Call(
    tenant: string,
    explicit: Option<string>,
    hints: seq<Hint>,
    name: Option<string>,
    newId: string,
    rowIds: seq<string>)

  predicate WellFormed(c: Call) {
    && |c.rowIds| == |c.hints| && NoDup(c.rowIds)
    && NoDup(c.hints) && Sorted(c.hints)
    && (forall h :: h in c.hints ==> Normal(h))
  }

  datatype Outcome = Outcome(customer: string, created: bool, matched: Option<Hint>, added: seq<Hint>)

  datatype LinkError =
    | UnknownExplicit   // the request names a customer this tenant lacks
    | Conflict          // a hint belongs to somebody else
    | Unresolved        // collision, and still no match on the retry walk
    | MissingCustomer   // attaching to a customer that is not stored
    | Unstorable        // a value the identity contract refuses

  /** Where a call stands: each value but the last two awaits one repository call. */
  datatype Pc =
    | Start
    | Walk(i: nat)
    | Creating
    | Rewalk(i: nat)
    | Probe(customer: string, todo: seq<nat>, added: seq<Hint>, matched: Option<Hint>)
    | Inserting(customer: string, todo: seq<nat>, added: seq<Hint>, matched: Option<Hint>)
    | Done(outcome: Outcome)
    | Failed(error: LinkError)

  predicate Finished(pc: Pc) {
    pc.Done? || pc.Failed?
  }

  predicate PcOk(c: Call, pc: Pc) {
    match pc
    case Walk(i) => i < |c.hints|
    case Rewalk(i) => i < |c.hints|
    case Probe(_, todo, _, _) => 0 < |todo| <= |c.hints| && Within(todo, |c.hints|)
    case Inserting(_, todo, _, _) => 0 < |todo| <= |c.hints| && Within(todo, |c.hints|)
    case _ => true
  }

  /** Repository calls left, at most. */
  function Fuel(c: Call, pc: Pc): nat
    requires PcOk(c, pc)
  {
    var n := |c.hints|;
    match pc
    case Start => 4 * n + 2
    case Walk(i) => 3 * n + 1 + (n - i)
    case Creating => 3 * n + 1
    case Rewalk(i) => 2 * n + (n - i)
    case Probe(_, todo, _, _) => 2 * |todo|
    case Inserting(_, todo, _, _) => 2 * |todo| - 1
    case _ => 0
  }

  function Upto(lo: nat, hi: nat): (r: seq<nat>)
    requires lo <= hi
    ensures |r| == hi - lo
    ensures forall k :: 0 <= k < |r| ==> r[k] == lo + k
  {
    seq(hi - lo, k requires 0 <= k => lo + k)
  }

  /** Every position but `i`, in order. */
  function Others(n: nat, i: nat): (r: seq<nat>)
    requires i < n
    ensures |r| == n - 1 && Within(r, n) && NoDup(r)
    ensures forall k :: 0 <= k < |r| ==> r[k] == if k < i then k else k + 1
  {
    Upto(0, i) + Upto(i + 1, n)
  }

  predicate Within(todo: seq<nat>, n: nat) {
    forall k :: 0 <= k < |todo| ==> todo[k] < n
  }

  function Attach(customer: string, todo: seq<nat>, added: seq<Hint>, matched: Option<Hint>): Pc {
    if todo == [] then Done(Outcome(customer, false, matched, added)) else Probe(customer, todo, added, matched)
  }

  function AddError(e: RepoError): LinkError {
    match e
    case Collision => Conflict
    case UnknownCustomer => MissingCustomer
    case Invalid => Unstorable
  }

  /** One repository call of `c`, and where it leaves the call. */
  function Step(repo: Repo, c: Call, pc: Pc): (Repo, Pc)
    requires |c.rowIds| == |c.hints| && PcOk(c, pc) && !Finished(pc)
  {
    var n := |c.hints|;
    match pc
    case Start =>
      if c.explicit.None? then (repo, if n == 0 then Creating else Walk(0))
      else if (c.tenant, c.explicit.value) !in repo.customers then (repo, Failed(UnknownExplicit))
      else (repo, Attach(repo.customers[(c.tenant, c.explicit.value)].id, Upto(0, n), [], None))
    case Walk(i) =>
      var found := repo.Find(c.tenant, c.hints[i]);
      if found.Some? then (repo, Attach(found.value.id, Others(n, i), [], Some(c.hints[i])))
      else (repo, if i + 1 < n then Walk(i + 1) else Creating)
    case Creating =>
      var (next, r) := repo.Create(c.tenant, c.newId, c.name, c.hints, c.rowIds);
      if r.Success? then (next, Done(Outcome(c.newId, true, None, c.hints)))
      else if r.error == Invalid then (next, Failed(Unstorable))
      else (next, if n == 0 then Failed(Unresolved) else Rewalk(0))
    case Rewalk(i) =>
      var found := repo.Find(c.tenant, c.hints[i]);
      if found.Some? then (repo, Attach(found.value.id, Others(n, i), [], Some(c.hints[i])))
      else (repo, if i + 1 < n then Rewalk(i + 1) else Failed(Unresolved))
    case Probe(customer, todo, added, matched) =>
      var found := repo.Find(c.tenant, c.hints[todo[0]]);
      if found.None? then (repo, Inserting(customer, todo, added, matched))
      else if found.value.id != customer then (repo, Failed(Conflict))
      else (repo, Attach(customer, todo[1..], added, matched))
    case Inserting(customer, todo, added, matched) =>
      var (next, r) := repo.Add(c.tenant, customer, c.hints[todo[0]], c.rowIds[todo[0]]);
      if r.Success? then (next, Attach(customer, todo[1..], added + [c.hints[todo[0]]], matched))
      else (next, Failed(AddError(r.error)))
  }

  lemma AttachFuel(c: Call, customer: string, todo: seq<nat>, added: seq<Hint>, matched: Option<Hint>)
    requires |todo| <= |c.hints| && Within(todo, |c.hints|)
    ensures PcOk(c, Attach(customer, todo, added, matched))
    ensures Fuel(c, Attach(customer, todo, added, matched)) == 2 * |todo|
  {
  }

  /** Every call stays on its program and comes one step closer to its end. */
  lemma StepBurns(repo: Repo, c: Call, pc: Pc)
    requires |c.rowIds| == |c.hints| && PcOk(c, pc)
    ensures !Finished(pc) ==> PcOk(c, Step(repo, c, pc).1) && Fuel(c, Step(repo, c, pc).1) < Fuel(c, pc)
  {
    hide Repo.Find, Repo.Create, Repo.Add, Attach, Others, Upto;
    if !Finished(pc) {
      match pc {
        case Start =>
          if c.explicit.Some? && (c.tenant, c.explicit.value) in repo.customers {
            AttachFuel(c, repo.customers[(c.tenant, c.explicit.value)].id, Upto(0, |c.hints|), [], None);
          }
        case Walk(i) => FoundFuel(repo, c, i);
        case Rewalk(i) => FoundFuel(repo, c, i);
        case Creating =>
        case Probe(customer, todo, added, matched) => AttachFuel(c, customer, todo[1..], added, matched);
        case Inserting(customer, todo, added, matched) =>
          AttachFuel(c, customer, todo[1..], added + [c.hints[todo[0]]], matched);
      }
    }
  }

  lemma FoundFuel(repo: Repo, c: Call, i: nat)
    requires i < |c.hints|
    ensures var found := repo.Find(c.tenant, c.hints[i]);
            found.Some? ==>
              var pc := Attach(found.value.id, Others(|c.hints|, i), [], Some(c.hints[i]));
              PcOk(c, pc) && Fuel(c, pc) == 2 * (|c.hints| - 1)
  {
    hide Repo.Find, Attach, Fuel, PcOk;
    var found := repo.Find(c.tenant, c.hints[i]);
    if found.Some? {
      AttachFuel(c, found.value.id, Others(|c.hints|, i), [], Some(c.hints[i]));
    }
  }

  /** `c` running alone from `pc` to its end. */
  function Solo(repo: Repo, c: Call, pc: Pc): (Repo, Pc)
    requires |c.rowIds| == |c.hints| && PcOk(c, pc)
    decreases Fuel(c, pc)
  {
    if Finished(pc) then (repo, pc)
    else
      StepBurns(repo, c, pc);
      var (next, pc') := Step(repo, c, pc);
      Solo(next, c, pc')
  }

  /** The ids the next step would draw are unused. */
  predicate Fresh(repo: Repo, c: Call, pc: Pc)
    requires |c.rowIds| == |c.hints| && PcOk(c, pc)
  {
    match pc
    case Creating => (c.tenant, c.newId) !in repo.customers && repo.FreshRows(c.tenant, c.rowIds)
    case Inserting(_, todo, _, _) => (c.tenant, c.rowIds[todo[0]]) !in repo.identities
    case _ => true
  }

  // ----- what each point of the program knows -----

  predicate Bound(repo: Repo, c: Call, k: nat, customer: string)
    requires k < |c.hints|
  {
    KeyOf(c.tenant, c.hints[k]) in repo.index && repo.index[KeyOf(c.tenant, c.hints[k])] == customer
  }

  /** Every hint not in `todo` is bound to `customer`. */
  ghost predicate BoundBut(repo: Repo, c: Call, todo: seq<nat>, customer: string) {
    forall k: nat :: k < |c.hints| ==> k in todo || Bound(repo, c, k, customer)
  }

  /** From position `i` on, some hint has an owner. */
  ghost predicate SomeOwned(repo: Repo, c: Call, i: nat) {
    exists k: nat :: i <= k < |c.hints| && KeyOf(c.tenant, c.hints[k]) in repo.index
  }

  /** The customer a call attaches its hints to: the one it names, or else one
      that already owns some hint. */
  ghost predicate Chosen(repo: Repo, c: Call, customer: string) {
    if c.explicit.Some? then c.explicit.value == customer
    else exists k: nat :: k < |c.hints| && Bound(repo, c, k, customer)
  }

  /** Some hint is owned by somebody other than `customer`. */
  ghost predicate OwnedElsewhere(repo: Repo, c: Call, customer: string) {
    exists k: nat :: k < |c.hints| && KeyOf(c.tenant, c.hints[k]) in repo.index && !Bound(repo, c, k, customer)
  }

  /** The reasons a call can fail for. */
  ghost predicate FailsFor(repo: Repo, c: Call, e: LinkError) {
    match e
    case UnknownExplicit => c.explicit.Some?
    case Conflict => exists x :: Chosen(repo, c, x) && OwnedElsewhere(repo, c, x)
    case Unstorable => exists h :: h in c.hints && |h.value| > MAX_VALUE
    case _ => false
  }

  ghost predicate Attaching(repo: Repo, c: Call, todo: seq<nat>, customer: string) {
    (c.tenant, customer) in repo.customers && Chosen(repo, c, customer) && BoundBut(repo, c, todo, customer)
  }

  ghost predicate Holds(repo: Repo, c: Call, pc: Pc) {
    && PcOk(c, pc)
    && (match pc
        case Start => true
        case Walk(_) => c.explicit.None?
        case Creating => c.explicit.None?
        case Rewalk(i) => c.explicit.None? && SomeOwned(repo, c, i)
        case Probe(customer, todo, _, _) => Attaching(repo, c, todo, customer)
        case Inserting(customer, todo, _, _) => Attaching(repo, c, todo, customer)
        case Done(o) =>
          && (c.tenant, o.customer) in repo.customers && BoundBut(repo, c, [], o.customer)
          && (c.explicit.Some? ==> c.explicit.value == o.customer)
        case Failed(e) => FailsFor(repo, c, e))
  }

  lemma ChosenGrows(was: Repo, repo: Repo, c: Call, customer: string)
    requires Grows(was, repo)
    ensures Chosen(was, c, customer) ==> Chosen(repo, c, customer)
    ensures OwnedElsewhere(was, c, customer) ==> OwnedElsewhere(repo, c, customer)
  {
    GrowsKeeps(was, repo);
    if Chosen(was, c, customer) && c.explicit.None? {
      var k: nat :| k < |c.hints| && Bound(was, c, k, customer);
      assert Bound(repo, c, k, customer);
    }
    if OwnedElsewhere(was, c, customer) {
      var k: nat :| k < |c.hints| && KeyOf(c.tenant, c.hints[k]) in was.index && !Bound(was, c, k, customer);
      assert KeyOf(c.tenant, c.hints[k]) in repo.index && !Bound(repo, c, k, customer);
    }
  }

  /** Knowledge survives whatever the other calls do. */
  lemma HoldsGrows(was: Repo, repo: Repo, c: Call, pc: Pc)
    requires Grows(was, repo) && Holds(was, c, pc)
    ensures Holds(repo, c, pc)
  {
    hide Chosen, OwnedElsewhere;
    GrowsKeeps(was, repo);
    match pc {
      case Rewalk(i) =>
        var k: nat :| i <= k < |c.hints| && KeyOf(c.tenant, c.hints[k]) in was.index;
        assert KeyOf(c.tenant, c.hints[k]) in repo.index;
      case Probe(customer, _, _, _) => ChosenGrows(was, repo, c, customer);
      case Inserting(customer, _, _, _) => ChosenGrows(was, repo, c, customer);
      case Failed(e) =>
        if e == Conflict {
          var x :| Chosen(was, c, x) && OwnedElsewhere(was, c, x);
          ChosenGrows(was, repo, c, x);
        }
      case _ =>
    }
  }

  lemma FindMeansBound(repo: Repo, tenant: string, h: Hint)
    requires repo.Agrees()
    ensures var found := repo.Find(tenant, h);
            && (found.None? <==> KeyOf(tenant, h) !in repo.index)
            && (found.Some? ==> found.value.id == repo.index[KeyOf(tenant, h)] && (tenant, found.value.id) in repo.customers)
  {
  }

  lemma OthersCover(n: nat, i: nat)
    requires i < n
    ensures forall k: nat :: k < n && k != i ==> k in Others(n, i)
  {
    forall k: nat | k < n && k != i
      ensures k in Others(n, i)
    {
      assert Others(n, i)[if k < i then k else k - 1] == k;
    }
  }

  /** Starting to attach after hint `i` was found to belong to `customer`. */
  lemma MatchHolds(repo: Repo, c: Call, i: nat, customer: string)
    requires i < |c.hints| && Bound(repo, c, i, customer) && (c.tenant, customer) in repo.customers && c.explicit.None?
    ensures Holds(repo, c, Attach(customer, Others(|c.hints|, i), [], Some(c.hints[i])))
  {
    OthersCover(|c.hints|, i);
  }

  lemma ChosenIsNamed(repo: Repo, c: Call, customer: string)
    requires Chosen(repo, c, customer)
    ensures c.explicit.Some? ==> c.explicit.value == customer
  {
  }

  /** A hint found to belong to somebody else. */
  lemma ConflictHolds(repo: Repo, c: Call, customer: string, k: nat)
    requires Chosen(repo, c, customer) && k < |c.hints|
    requires KeyOf(c.tenant, c.hints[k]) in repo.index && repo.index[KeyOf(c.tenant, c.hints[k])] != customer
    ensures Holds(repo, c, Failed(Conflict))
  {
    hide Chosen;
    assert !Bound(repo, c, k, customer);
    assert OwnedElsewhere(repo, c, customer);
  }

  /** Moving on after the first hint of `todo` is known to be bound. */
  lemma AdvanceHolds(repo: Repo, c: Call, customer: string, todo: seq<nat>, added: seq<Hint>, matched: Option<Hint>)
    requires 0 < |todo| <= |c.hints| && Within(todo, |c.hints|)
    requires Attaching(repo, c, todo, customer) && Bound(repo, c, todo[0], customer)
    ensures Holds(repo, c, Attach(customer, todo[1..], added, matched))
  {
    hide Chosen;
    ChosenIsNamed(repo, c, customer);
    assert forall k :: k in todo ==> k == todo[0] || k in todo[1..];
  }

  /** Each repository call keeps the store sound, only adds to it, and leaves
      the caller with the knowledge its next point needs. */
  lemma StepHolds(repo: Repo, c: Call, pc: Pc)
    requires WellFormed(c) && repo.Agrees() && Holds(repo, c, pc) && !Finished(pc) && Fresh(repo, c, pc)
    ensures var (next, pc') := Step(repo, c, pc);
            next.Agrees() && Grows(repo, next) && Holds(next, c, pc')
  {
    hide Repo.Agrees, Normal, Sorted, Grows, BoundBut, Chosen, OwnedElsewhere;
    GrowsReflexive(repo);
    match pc {
      case Start => StartHolds(repo, c);
      case Walk(i) => WalkHolds(repo, c, i);
      case Creating => CreateHolds(repo, c);
      case Rewalk(i) => RewalkHolds(repo, c, i);
      case Probe(customer, todo, added, matched) =>
        FindMeansBound(repo, c.tenant, c.hints[todo[0]]);
        if KeyOf(c.tenant, c.hints[todo[0]]) in repo.index {
          if repo.index[KeyOf(c.tenant, c.hints[todo[0]])] == customer {
            AdvanceHolds(repo, c, customer, todo, added, matched);
          } else {
            ConflictHolds(repo, c, customer, todo[0]);
          }
        }
      case Inserting(customer, todo, added, matched) => InsertHolds(repo, c, customer, todo, added, matched);
    }
  }

  lemma StartHolds(repo: Repo, c: Call)
    requires |c.rowIds| == |c.hints| && repo.Agrees()
    ensures Step(repo, c, Start).0 == repo && Holds(repo, c, Step(repo, c, Start).1)
  {
    if c.explicit.Some? {
      forall k: nat | k < |c.hints|
        ensures k in Upto(0, |c.hints|)
      {
        assert Upto(0, |c.hints|)[k] == k;
      }
    }
  }

  lemma WalkHolds(repo: Repo, c: Call, i: nat)
    requires |c.rowIds| == |c.hints| && i < |c.hints| && repo.Agrees() && c.explicit.None?
    ensures Step(repo, c, Walk(i)).0 == repo && Holds(repo, c, Step(repo, c, Walk(i)).1)
  {
    hide Repo.Agrees, BoundBut;
    FindMeansBound(repo, c.tenant, c.hints[i]);
    if KeyOf(c.tenant, c.hints[i]) in repo.index {
      MatchHolds(repo, c, i, repo.index[KeyOf(c.tenant, c.hints[i])]);
    }
  }

  lemma RewalkHolds(repo: Repo, c: Call, i: nat)
    requires |c.rowIds| == |c.hints| && i < |c.hints| && repo.Agrees() && SomeOwned(repo, c, i) && c.explicit.None?
    ensures Step(repo, c, Rewalk(i)).0 == repo && Holds(repo, c, Step(repo, c, Rewalk(i)).1)
  {
    hide Repo.Agrees, BoundBut;
    FindMeansBound(repo, c.tenant, c.hints[i]);
    if KeyOf(c.tenant, c.hints[i]) in repo.index {
      MatchHolds(repo, c, i, repo.index[KeyOf(c.tenant, c.hints[i])]);
    } else {
      var k: nat :| i <= k < |c.hints| && KeyOf(c.tenant, c.hints[k]) in repo.index;
      assert i + 1 <= k;
    }
  }

  lemma Hints(c: Call, h: Hint)
    requires WellFormed(c) && h in c.hints
    ensures Normal(h) && Filed(h) == h && (Accepted(h) <==> |h.value| <= MAX_VALUE)
  {
    NormalAccepted(h);
  }

  /** A request's creation, on its own hints. */
  lemma CreateBinds(repo: Repo, c: Call)
    requires WellFormed(c) && repo.Agrees() && Fresh(repo, c, Creating)
    ensures var (next, r) := repo.Create(c.tenant, c.newId, c.name, c.hints, c.rowIds);
            && next.Agrees() && Grows(repo, next)
            && (r == Failure(Collision) ==> next == repo && SomeOwned(repo, c, 0))
            && (r == Failure(Invalid) ==> exists h :: h in c.hints && |h.value| > MAX_VALUE)
            && (r.Success? || r == Failure(Collision) || r == Failure(Invalid))
            && (r.Success? ==> (c.tenant, c.newId) in next.customers && BoundBut(next, c, [], c.newId))
            && (r == Failure(Collision) <==> SomeOwned(repo, c, 0))
            && (forall k :: k in next.index ==> k in repo.index || exists h :: h in c.hints && k == KeyOf(c.tenant, h))
            && (forall i :: i in next.identities ==> i in repo.identities || (i.0 == c.tenant && i.1 in c.rowIds))
            && (forall k :: k in next.customers ==> k in repo.customers || k == (c.tenant, c.newId))
  {
    hide Repo.Agrees, Normal, Accepted, Filed, Sorted, Grows, Repo.InsertAll, Leading;
    NormalFiled(c.hints);
    CreateAgrees(repo, c.tenant, c.newId, c.name, c.hints, c.rowIds);
    forall h | h in c.hints
      ensures Filed(h) == h && (Accepted(h) <==> |h.value| <= MAX_VALUE)
    {
      Hints(c, h);
    }
    var (next, r) := repo.Create(c.tenant, c.newId, c.name, c.hints, c.rowIds);
    if r == Failure(Collision) {
      var h :| h in c.hints && KeyOf(c.tenant, Filed(h)) in repo.index;
      var k: nat :| k < |c.hints| && c.hints[k] == h;
    } else if r == Failure(Invalid) {
      assert c.hints[Leading(c.hints)] in c.hints;
    } else {
      forall k: nat | k < |c.hints|
        ensures Bound(next, c, k, c.newId)
      {
        assert c.hints[k] in c.hints;
      }
    }
    forall k: nat | k < |c.hints| && KeyOf(c.tenant, c.hints[k]) in repo.index
      ensures r == Failure(Collision)
    {
      assert c.hints[k] in c.hints;
    }
  }

  lemma CreateHolds(repo: Repo, c: Call)
    requires WellFormed(c) && repo.Agrees() && Fresh(repo, c, Creating) && c.explicit.None?
    ensures var (next, pc') := Step(repo, c, Creating);
            next.Agrees() && Grows(repo, next) && Holds(next, c, pc')
  {
    hide Repo.Agrees, Normal, Sorted, Grows, Repo.Create, BoundBut;
    CreateBinds(repo, c);
  }

  /** A request's insertion of one of its own hints. */
  lemma AddBinds(repo: Repo, c: Call, customer: string, k: nat)
    requires WellFormed(c) && repo.Agrees() && k < |c.hints| && (c.tenant, c.rowIds[k]) !in repo.identities
    ensures var (next, r) := repo.Add(c.tenant, customer, c.hints[k], c.rowIds[k]);
            && next.Agrees() && Grows(repo, next) && next.customers == repo.customers
            && (r.Success? ==> Bound(next, c, k, customer))
            && (r == Failure(Invalid) ==> |c.hints[k].value| > MAX_VALUE)
            && (r == Failure(UnknownCustomer) ==> (c.tenant, customer) !in repo.customers)
            && (r == Failure(Collision) ==> next == repo && KeyOf(c.tenant, c.hints[k]) in repo.index
                                            && repo.index[KeyOf(c.tenant, c.hints[k])] != customer)
            && (forall x :: x in next.index ==> x in repo.index || x == KeyOf(c.tenant, c.hints[k]))
            && (forall i :: i in next.identities ==> i in repo.identities || i == (c.tenant, c.rowIds[k]))
  {
    hide Repo.Agrees, Normal, Accepted, Filed, Sorted, Grows;
    Hints(c, c.hints[k]);
    AddAgrees(repo, c.tenant, customer, c.hints[k], c.rowIds[k]);
  }

  lemma InsertHolds(repo: Repo, c: Call, customer: string, todo: seq<nat>, added: seq<Hint>, matched: Option<Hint>)
    requires WellFormed(c) && repo.Agrees()
    requires Holds(repo, c, Inserting(customer, todo, added, matched))
    requires Fresh(repo, c, Inserting(customer, todo, added, matched))
    ensures var (next, pc') := Step(repo, c, Inserting(customer, todo, added, matched));
            next.Agrees() && Grows(repo, next) && Holds(next, c, pc')
  {
    hide Repo.Agrees, Normal, Sorted, Grows, Repo.Add, Chosen, OwnedElsewhere;
    AddBinds(repo, c, customer, todo[0]);
    var (next, r) := repo.Add(c.tenant, customer, c.hints[todo[0]], c.rowIds[todo[0]]);
    HoldsGrows(repo, next, c, Inserting(customer, todo, added, matched));
    if r.Success? {
      AdvanceHolds(next, c, customer, todo, added + [c.hints[todo[0]]], matched);
    } else if r.error == Collision {
      ConflictHolds(repo, c, customer, todo[0]);
    } else {
      assert c.hints[todo[0]] in c.hints;
    }
  }

  // ----- replay -----

  lemma SoloUnfolds(repo: Repo, c: Call, pc: Pc)
    requires |c.rowIds| == |c.hints| && PcOk(c, pc)
    ensures !Finished(pc) ==> PcOk(c, Step(repo, c, pc).1)
    ensures Solo(repo, c, pc) == if Finished(pc) then (repo, pc) else Solo(Step(repo, c, pc).0, c, Step(repo, c, pc).1)
  {
    StepBurns(repo, c, pc);
  }

  /** A request that was resolved to `customer`: it is stored, owns every hint,
      and is the one the request names, if it names one. */
  ghost predicate ResolvedTo(repo: Repo, c: Call, customer: string) {
    && (c.tenant, customer) in repo.customers
    && BoundBut(repo, c, [], customer)
    && (c.explicit.Some? ==> c.explicit.value == customer)
  }

  /** Replaying a resolved request that has a hint or names its customer answers
      with that customer, matched on the most authoritative hint when none is
      named, and changes nothing. */
  lemma ReplayChangesNothing(repo: Repo, c: Call, customer: string)
    requires WellFormed(c) && repo.Agrees() && ResolvedTo(repo, c, customer)
    requires c.hints != [] || c.explicit.Some?
    ensures Solo(repo, c, Start)
            == (repo, Done(Outcome(customer, false, if c.explicit.Some? then None else Some(c.hints[0]), [])))
  {
    SoloUnfolds(repo, c, Start);
    if c.explicit.Some? {
      StoredUnder(repo, c.tenant, customer);
      hide Repo.Agrees, Normal, Sorted;
      AttachNothing(repo, c, customer, Upto(0, |c.hints|), None);
    } else {
      hide Repo.Agrees, Normal, Sorted;
      assert Bound(repo, c, 0, customer);
      FindMeansBound(repo, c.tenant, c.hints[0]);
      SoloUnfolds(repo, c, Walk(0));
      AttachNothing(repo, c, customer, Others(|c.hints|, 0), Some(c.hints[0]));
    }
  }

  lemma StoredUnder(repo: Repo, tenant: string, customer: string)
    requires repo.Agrees() && (tenant, customer) in repo.customers
    ensures repo.customers[(tenant, customer)].id == customer
  {
  }

  lemma {:induction false} AttachNothing(repo: Repo, c: Call, customer: string, todo: seq<nat>, matched: Option<Hint>)
    requires |c.rowIds| == |c.hints| && repo.Agrees() && BoundBut(repo, c, [], customer)
    requires |todo| <= |c.hints| && Within(todo, |c.hints|)
    ensures Solo(repo, c, Attach(customer, todo, [], matched)) == (repo, Done(Outcome(customer, false, matched, [])))
    decreases |todo|
  {
    if todo != [] {
      assert Bound(repo, c, todo[0], customer);
      FindMeansBound(repo, c.tenant, c.hints[todo[0]]);
      AttachNothing(repo, c, customer, todo[1..], matched);
    }
  }

  /** A call without hints always creates a customer that was not there. */
  lemma NoHintsCreates(repo: Repo, c: Call)
    requires WellFormed(c) && c.explicit.None? && c.hints == [] && (c.tenant, c.newId) !in repo.customers
    ensures Solo(repo, c, Start).1 == Done(Outcome(c.newId, true, None, []))
    ensures Solo(repo, c, Start).0
            == repo.(customers := repo.customers[(c.tenant, c.newId) := Customer(c.newId, c.tenant, c.name)])
    ensures Solo(repo, c, Start).0 != repo
  {
    SoloUnfolds(repo, c, Start);
    SoloUnfolds(repo, c, Creating);
    assert (c.tenant, c.newId) in Solo(repo, c, Start).0.customers;
  }

  /** Replaying a resolved request is idempotent exactly when it has a hint or
      names its customer. */
  lemma ReplayIdempotentIff(repo: Repo, c: Call, customer: string)
    requires WellFormed(c) && repo.Agrees() && ResolvedTo(repo, c, customer) && (c.tenant, c.newId) !in repo.customers
    ensures Solo(repo, c, Start).0 == repo <==> c.hints != [] || c.explicit.Some?
  {
    hide Solo, WellFormed, Repo.Agrees, ResolvedTo;
    if c.hints != [] || c.explicit.Some? {
      ReplayChangesNothing(repo, c, customer);
    } else {
      NoHintsCreates(repo, c);
    }
  }

  /** A request whose only identity is over-long raises, and each delivery of
      it leaves one more customer behind. */
  lemma OverlongStrandsCustomer(repo: Repo, c: Call)
    requires WellFormed(c) && repo.Agrees() && c.explicit.None? && (c.tenant, c.newId) !in repo.customers
    requires |c.hints| == 1 && |c.hints[0].value| > MAX_VALUE && KeyOf(c.tenant, c.hints[0]) !in repo.index
    ensures Solo(repo, c, Start)
            == (repo.(customers := repo.customers[(c.tenant, c.newId) := Customer(c.newId, c.tenant, c.name)]),
                Failed(Unstorable))
  {
    hide Repo.Agrees, Normal, Filed, Sorted, Accepted;
    Hints(c, c.hints[0]);
    SoloUnfolds(repo, c, Start);
    FindMeansBound(repo, c.tenant, c.hints[0]);
    SoloUnfolds(repo, c, Walk(0));
    SoloUnfolds(repo, c, Creating);
    assert FiledAll(c.hints)[..0] == [] && c.rowIds[..0] == [];
  }
}
