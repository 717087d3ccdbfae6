/** What `resolve_customer` answers when nobody interferes: whom it matches, on
    which hint, and which identities it reports as added. */
module LinkerOutcomes {
  import opened Common
  import opened Identities
  import opened Customers
  import opened Linking

  predicate Owned(repo: Repo, tenant: string, h: Hint) {
    (tenant, h.kind, h.value) in repo.index
  }

  function Owner(repo: Repo, tenant: string, h: Hint): string
    requires Owned(repo, tenant, h)
  {
    repo.index[(tenant, h.kind, h.value)]
  }

  /** The hints nobody owns yet, in order. */
  function Unowned(repo: Repo, tenant: string, hints: seq<Hint>): seq<Hint> {
    if hints == [] then []
    else (if Owned(repo, tenant, hints[0]) then [] else [hints[0]]) + Unowned(repo, tenant, hints[1..])
  }

  /** Nothing stands in the way of attaching `h` to `customer`. */
  predicate Attachable(repo: Repo, tenant: string, h: Hint, customer: string) {
    if Owned(repo, tenant, h) then Owner(repo, tenant, h) == customer else |h.value| <= 256
  }

  /** The most authoritative hint that has an owner is the `i`-th. */
  ghost predicate FirstOwned(repo: Repo, c: Call, i: nat) {
    && i < |c.hints| && Owned(repo, c.tenant, c.hints[i])
    && (forall j :: 0 <= j < i ==> !Owned(repo, c.tenant, c.hints[j]))
  }

  // ----- the hints at some positions -----

  function HintsAt(c: Call, todo: seq<nat>): (r: seq<Hint>)
    requires Within(todo, |c.hints|)
    ensures |r| == |todo|
    ensures forall k :: 0 <= k < |todo| ==> r[k] == c.hints[todo[k]]
  {
    seq(|todo|, k requires 0 <= k < |todo| => c.hints[todo[k]])
  }

  lemma {:induction false} UnownedConcat(repo: Repo, tenant: string, a: seq<Hint>, b: seq<Hint>)
    ensures Unowned(repo, tenant, a + b) == Unowned(repo, tenant, a) + Unowned(repo, tenant, b)
  {
    if a == [] {
      assert a + b == b;
    } else {
      assert (a + b)[1..] == a[1..] + b;
      UnownedConcat(repo, tenant, a[1..], b);
      var first := if Owned(repo, tenant, a[0]) then [] else [a[0]];
      assert first + (Unowned(repo, tenant, a[1..]) + Unowned(repo, tenant, b))
          == first + Unowned(repo, tenant, a[1..]) + Unowned(repo, tenant, b);
    }
  }

  /** Leaving out an owned hint changes nothing. */
  lemma UnownedOthers(repo: Repo, c: Call, i: nat)
    requires i < |c.hints| && Owned(repo, c.tenant, c.hints[i])
    ensures Unowned(repo, c.tenant, HintsAt(c, Others(|c.hints|, i))) == Unowned(repo, c.tenant, c.hints)
  {
    var before, after := c.hints[..i], c.hints[i + 1..];
    assert HintsAt(c, Others(|c.hints|, i)) == before + after;
    assert c.hints == before + ([c.hints[i]] + after);
    UnownedConcat(repo, c.tenant, before, after);
    UnownedConcat(repo, c.tenant, before, [c.hints[i]] + after);
    assert ([c.hints[i]] + after)[1..] == after;
  }

  lemma {:induction false} UnownedSame(repo: Repo, next: Repo, tenant: string, hints: seq<Hint>)
    requires forall h :: h in hints ==> (Owned(repo, tenant, h) <==> Owned(next, tenant, h))
    ensures Unowned(repo, tenant, hints) == Unowned(next, tenant, hints)
  {
    if hints != [] {
      assert hints[0] in hints;
      UnownedSame(repo, next, tenant, hints[1..]);
    }
  }

  // ----- attaching -----

  /** The positions left are distinct, and their row ids unused. */
  ghost predicate Ready(repo: Repo, c: Call, customer: string, todo: seq<nat>) {
    && WellFormed(c) && repo.Agrees() && (c.tenant, customer) in repo.customers
    && |todo| <= |c.hints| && Within(todo, |c.hints|) && NoDup(todo)
    && (forall k :: k in todo ==> (c.tenant, c.rowIds[k]) !in repo.identities)
  }

  /** How attaching the hints at `todo` must end. */
  ghost predicate AttachEnds(repo: Repo, c: Call, customer: string, todo: seq<nat>, added: seq<Hint>,
                             matched: Option<Hint>, pc: Pc)
    requires Within(todo, |c.hints|)
  {
    && (pc.Done? <==> forall k :: 0 <= k < |todo| ==> Attachable(repo, c.tenant, c.hints[todo[k]], customer))
    && (pc.Done? ==>
          pc.outcome == Outcome(customer, false, matched, added + Unowned(repo, c.tenant, HintsAt(c, todo))))
  }

  lemma AddOne(repo: Repo, c: Call, customer: string, todo: seq<nat>)
    requires Ready(repo, c, customer, todo) && todo != [] && !Owned(repo, c.tenant, c.hints[todo[0]])
    ensures var (next, r) := repo.Add(c.tenant, customer, c.hints[todo[0]], c.rowIds[todo[0]]);
            && (r.Success? <==> |c.hints[todo[0]].value| <= 256)
            && (r.Success? ==>
                  && Ready(next, c, customer, todo[1..])
                  && forall k :: 0 <= k < |todo[1..]| ==>
                       var h := c.hints[todo[1..][k]];
                       && (Owned(next, c.tenant, h) <==> Owned(repo, c.tenant, h))
                       && (Owned(repo, c.tenant, h) ==> Owner(next, c.tenant, h) == Owner(repo, c.tenant, h)))
  {
    hide Repo.Agrees, Normal, Accepted, Filed, Sorted, Grows;
    var k := todo[0];
    assert c.hints[k] in c.hints;
    Hints(c, c.hints[k]);
    assert k in todo;
    AddBinds(repo, c, customer, k);
    var (next, r) := repo.Add(c.tenant, customer, c.hints[k], c.rowIds[k]);
    GrowsKeeps(repo, next);
    if r.Success? {
      forall j | j in todo[1..]
        ensures (c.tenant, c.rowIds[j]) !in next.identities
      {
        assert j in todo && j != k;
      }
      forall j | 0 <= j < |todo[1..]|
        ensures Owned(next, c.tenant, c.hints[todo[1..][j]]) <==> Owned(repo, c.tenant, c.hints[todo[1..][j]])
      {
        assert todo[1..][j] == todo[j + 1] != k;
        OtherKey(c, k, todo[j + 1]);
      }
    }
  }

  lemma OtherKey(c: Call, k: nat, j: nat)
    requires WellFormed(c) && k < |c.hints| && j < |c.hints| && j != k
    ensures KeyOf(c.tenant, c.hints[j]) != KeyOf(c.tenant, c.hints[k])
  {
    hide Normal, Sorted;
  }

  lemma {:induction false} AttachSolo(repo: Repo, c: Call, customer: string, todo: seq<nat>, added: seq<Hint>,
                                      matched: Option<Hint>)
    requires Ready(repo, c, customer, todo)
    ensures PcOk(c, Attach(customer, todo, added, matched))
    ensures AttachEnds(repo, c, customer, todo, added, matched, Solo(repo, c, Attach(customer, todo, added, matched)).1)
    decreases |todo|
  {
    hide Repo.Agrees, WellFormed, Repo.Find, Repo.Add, NoDup, AttachEnds;
    RowPerHint(c);
    AttachNone(repo, c, customer, added, matched);
    if todo != [] {
      var h, rest := c.hints[todo[0]], todo[1..];
      AttachFuel(c, customer, todo, added, matched);
      SoloUnfolds(repo, c, Probe(customer, todo, added, matched));
      FindMeansBound(repo, c.tenant, h);
      if Owned(repo, c.tenant, h) {
        if Owner(repo, c.tenant, h) == customer {
          RestReady(repo, c, customer, todo);
          AttachSolo(repo, c, customer, rest, added, matched);
          AttachGoesOn(repo, repo, c, customer, todo, added, matched, Solo(repo, c, Attach(customer, rest, added, matched)).1);
        } else {
          SoloUnfolds(repo, c, Failed(Conflict));
          AttachStops(repo, c, customer, todo, added, matched, Conflict);
        }
      } else {
        AddOne(repo, c, customer, todo);
        var (next, r) := repo.Add(c.tenant, customer, h, c.rowIds[todo[0]]);
        SoloUnfolds(repo, c, Inserting(customer, todo, added, matched));
        if r.Success? {
          AttachSolo(next, c, customer, rest, added + [h], matched);
          AttachGoesOn(repo, next, c, customer, todo, added, matched,
                       Solo(next, c, Attach(customer, rest, added + [h], matched)).1);
        } else {
          SoloUnfolds(next, c, Failed(AddError(r.error)));
          AttachStops(repo, c, customer, todo, added, matched, AddError(r.error));
        }
      }
    }
  }

  lemma RowPerHint(c: Call)
    requires WellFormed(c)
    ensures |c.rowIds| == |c.hints|
  {
  }

  lemma AttachNone(repo: Repo, c: Call, customer: string, added: seq<Hint>, matched: Option<Hint>)
    ensures AttachEnds(repo, c, customer, [], added, matched, Done(Outcome(customer, false, matched, added)))
  {
  }

  /** From the rest of the positions, seen from the store before or after the
      first was attached, to all of them. */
  lemma AttachGoesOn(repo: Repo, next: Repo, c: Call, customer: string, todo: seq<nat>, added: seq<Hint>,
                     matched: Option<Hint>, pc: Pc)
    requires Within(todo, |c.hints|) && todo != []
    requires Attachable(repo, c.tenant, c.hints[todo[0]], customer)
    requires forall k :: 0 <= k < |todo[1..]| ==>
               var h := c.hints[todo[1..][k]];
               && (Owned(next, c.tenant, h) <==> Owned(repo, c.tenant, h))
               && (Owned(repo, c.tenant, h) ==> Owner(next, c.tenant, h) == Owner(repo, c.tenant, h))
    requires AttachEnds(next, c, customer, todo[1..],
                        if Owned(repo, c.tenant, c.hints[todo[0]]) then added else added + [c.hints[todo[0]]], matched, pc)
    ensures AttachEnds(repo, c, customer, todo, added, matched, pc)
  {
    hide Owned;
    var h, rest := c.hints[todo[0]], todo[1..];
    assert HintsAt(c, todo)[0] == h && HintsAt(c, todo)[1..] == HintsAt(c, rest);
    AttachSplits(repo, c, customer, todo);
    forall k | 0 <= k < |rest|
      ensures Attachable(next, c.tenant, c.hints[rest[k]], customer) <==> Attachable(repo, c.tenant, c.hints[rest[k]], customer)
    {
    }
    UnownedSame(repo, next, c.tenant, HintsAt(c, rest));
    assert added + [h] + Unowned(repo, c.tenant, HintsAt(c, rest)) == added + ([h] + Unowned(repo, c.tenant, HintsAt(c, rest)));
    assert [] + Unowned(repo, c.tenant, HintsAt(c, rest)) == Unowned(repo, c.tenant, HintsAt(c, rest));
  }

  lemma AttachStops(repo: Repo, c: Call, customer: string, todo: seq<nat>, added: seq<Hint>, matched: Option<Hint>, e: LinkError)
    requires Within(todo, |c.hints|) && todo != []
    requires !Attachable(repo, c.tenant, c.hints[todo[0]], customer)
    ensures AttachEnds(repo, c, customer, todo, added, matched, Failed(e))
  {
    hide Attachable;
    AttachSplits(repo, c, customer, todo);
  }

  lemma RestReady(repo: Repo, c: Call, customer: string, todo: seq<nat>)
    requires Ready(repo, c, customer, todo) && todo != []
    ensures Ready(repo, c, customer, todo[1..])
  {
    hide Repo.Agrees, WellFormed;
  }

  lemma AttachSplits(repo: Repo, c: Call, customer: string, todo: seq<nat>)
    requires Within(todo, |c.hints|) && todo != []
    ensures (forall k :: 0 <= k < |todo| ==> Attachable(repo, c.tenant, c.hints[todo[k]], customer))
            <==> Attachable(repo, c.tenant, c.hints[todo[0]], customer)
                 && forall k :: 0 <= k < |todo[1..]| ==> Attachable(repo, c.tenant, c.hints[todo[1..][k]], customer)
  {
    hide Attachable;
    assert forall k :: 0 < k < |todo| ==> todo[k] == todo[1..][k - 1];
  }

  // ----- the whole call -----

  lemma {:induction false} WalkSolo(repo: Repo, c: Call, i: nat)
    requires WellFormed(c) && repo.Agrees() && i < |c.hints|
    requires forall j :: 0 <= j < i ==> !Owned(repo, c.tenant, c.hints[j])
    ensures (forall j :: 0 <= j < |c.hints| ==> !Owned(repo, c.tenant, c.hints[j])) ==>
              Solo(repo, c, Walk(i)) == Solo(repo, c, Creating)
    ensures forall f: nat :: FirstOwned(repo, c, f) ==>
              && (c.tenant, Owner(repo, c.tenant, c.hints[f])) in repo.customers
              && PcOk(c, Attach(Owner(repo, c.tenant, c.hints[f]), Others(|c.hints|, f), [], Some(c.hints[f])))
              && Solo(repo, c, Walk(i))
                 == Solo(repo, c, Attach(Owner(repo, c.tenant, c.hints[f]), Others(|c.hints|, f), [], Some(c.hints[f])))
    decreases |c.hints| - i
  {
    hide Repo.Agrees, WellFormed, Repo.Find, Solo, Attach, PcOk, Others;
    RowPerHint(c);
    WalkOk(c, i);
    SoloUnfolds(repo, c, Walk(i));
    FindMeansBound(repo, c.tenant, c.hints[i]);
    FoundFuel(repo, c, i);
    if !Owned(repo, c.tenant, c.hints[i]) {
      assert forall f: nat :: FirstOwned(repo, c, f) ==> f != i;
      if i + 1 < |c.hints| {
        WalkOk(c, i + 1);
        WalkSolo(repo, c, i + 1);
      }
    } else {
      assert forall f: nat :: FirstOwned(repo, c, f) ==> f == i;
    }
  }

  lemma WalkOk(c: Call, i: nat)
    requires i < |c.hints|
    ensures PcOk(c, Walk(i)) && PcOk(c, Creating)
  {
  }

  /** A call that can draw its ids, on a consistent repository. */
  ghost predicate Callable(repo: Repo, c: Call) {
    && WellFormed(c) && repo.Agrees()
    && (c.tenant, c.newId) !in repo.customers
    && (forall r :: r in c.rowIds ==> (c.tenant, r) !in repo.identities)
  }

  lemma PositionsReady(repo: Repo, c: Call, customer: string, todo: seq<nat>)
    requires Callable(repo, c) && (c.tenant, customer) in repo.customers
    requires |todo| <= |c.hints| && Within(todo, |c.hints|) && NoDup(todo)
    ensures Ready(repo, c, customer, todo)
  {
    hide Repo.Agrees, Normal, Sorted, NoDup;
    forall k | k in todo
      ensures (c.tenant, c.rowIds[k]) !in repo.identities
    {
      assert c.rowIds[k] in c.rowIds;
    }
  }

  ghost predicate AllAttachable(repo: Repo, c: Call, customer: string) {
    forall h :: h in c.hints ==> Attachable(repo, c.tenant, h, customer)
  }

  /** A request naming its customer succeeds exactly when that customer is
      stored, no hint belongs to another and no new hint is over-long; it
      reports no match, and as added the hints nobody owned. */
  lemma NamedOutcome(repo: Repo, c: Call)
    requires Callable(repo, c) && c.explicit.Some?
    ensures var end := Solo(repo, c, Start).1;
            && (end.Done? <==> (c.tenant, c.explicit.value) in repo.customers && AllAttachable(repo, c, c.explicit.value))
            && (end.Done? ==>
                  end.outcome == Outcome(c.explicit.value, false, None, Unowned(repo, c.tenant, c.hints)))
  {
    hide Repo.Agrees, Normal, Sorted, NoDup, Attachable;
    SoloUnfolds(repo, c, Start);
    var customer := c.explicit.value;
    if (c.tenant, customer) in repo.customers {
      StoredUnder(repo, c.tenant, customer);
      var todo := Upto(0, |c.hints|);
      DistinctUpto(|c.hints|);
      PositionsReady(repo, c, customer, todo);
      AttachSolo(repo, c, customer, todo, [], None);
      assert HintsAt(c, todo) == c.hints;
      assert [] + Unowned(repo, c.tenant, c.hints) == Unowned(repo, c.tenant, c.hints);
    } else {
      SoloUnfolds(repo, c, Failed(UnknownExplicit));
    }
  }

  lemma DistinctUpto(n: nat)
    ensures Within(Upto(0, n), n) && NoDup(Upto(0, n))
  {
  }

  /** Without a name, the owner of the most authoritative owned hint is matched
      on that hint. The call succeeds exactly when no other hint belongs to
      another and no new hint is over-long, and reports the new ones as added. */
  lemma MatchedOutcome(repo: Repo, c: Call, i: nat)
    requires Callable(repo, c) && c.explicit.None? && FirstOwned(repo, c, i)
    ensures var (end, owner) := (Solo(repo, c, Start).1, Owner(repo, c.tenant, c.hints[i]));
            && (end.Done? <==> AllAttachable(repo, c, owner))
            && (end.Done? ==>
                  end.outcome == Outcome(owner, false, Some(c.hints[i]), Unowned(repo, c.tenant, c.hints)))
  {
    hide Repo.Agrees, Normal, Sorted, NoDup;
    SoloUnfolds(repo, c, Start);
    WalkSolo(repo, c, 0);
    var owner, todo := Owner(repo, c.tenant, c.hints[i]), Others(|c.hints|, i);
    PositionsReady(repo, c, owner, todo);
    AttachSolo(repo, c, owner, todo, [], Some(c.hints[i]));
    UnownedOthers(repo, c, i);
    assert [] + Unowned(repo, c.tenant, c.hints) == Unowned(repo, c.tenant, c.hints);
    OthersCover(|c.hints|, i);
    forall k: nat | k < |c.hints|
      ensures (forall j :: 0 <= j < |todo| ==> Attachable(repo, c.tenant, c.hints[todo[j]], owner))
              ==> Attachable(repo, c.tenant, c.hints[k], owner)
    {
      if k != i {
        assert k in todo;
      }
    }
  }

  /** When nobody owns any hint, a new customer is created with all of them,
      exactly when none is over-long. */
  lemma CreatedOutcome(repo: Repo, c: Call)
    requires Callable(repo, c) && c.explicit.None? && forall h :: h in c.hints ==> !Owned(repo, c.tenant, h)
    ensures var end := Solo(repo, c, Start).1;
            && (end.Done? <==> forall h :: h in c.hints ==> |h.value| <= 256)
            && (end.Done? ==> end.outcome == Outcome(c.newId, true, None, c.hints))
  {
    hide Repo.Agrees, Normal, Sorted, NoDup;
    SoloUnfolds(repo, c, Start);
    if c.hints != [] {
      WalkSolo(repo, c, 0);
    }
    SoloUnfolds(repo, c, Creating);
    CreateEnds(repo, c);
    var (next, r) := repo.Create(c.tenant, c.newId, c.name, c.hints, c.rowIds);
    if r.Success? {
      SoloUnfolds(next, c, Done(Outcome(c.newId, true, None, c.hints)));
    } else {
      SoloUnfolds(next, c, Failed(Unstorable));
    }
  }

  lemma CreateEnds(repo: Repo, c: Call)
    requires Callable(repo, c) && forall h :: h in c.hints ==> !Owned(repo, c.tenant, h)
    ensures var r := repo.Create(c.tenant, c.newId, c.name, c.hints, c.rowIds).1;
            && (r.Success? <==> forall h :: h in c.hints ==> |h.value| <= 256)
            && (r.Failure? ==> r.error == Invalid)
  {
    hide Repo.Agrees, Normal, Sorted, NoDup, Accepted, Filed, Repo.InsertAll;
    forall h | h in c.hints
      ensures Filed(h) == h && (Accepted(h) <==> |h.value| <= 256)
    {
      Hints(c, h);
    }
    if Leading(c.hints) < |c.hints| {
      assert c.hints[Leading(c.hints)] in c.hints;
    }
  }
}
