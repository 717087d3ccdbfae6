/** Customers, their identity rows, and the uniqueness index over
    (tenant, kind, value) that every lookup goes through. */
module Customers {
  import opened Common
  import opened Identities

  datatype Customer = Customer(id: string, tenant: string, name: Option<string>)

  datatype Identity = Identity(id: string, tenant: string, customer: string, kind: Kind, value: string)

  type Key = (string, Kind, string)

  /** `Invalid` is the row contract's refusal of a value. */
  datatype RepoError = Collision | UnknownCustomer | Invalid

  function KeyOf(tenant: string, h: Hint): Key {
    (tenant, h.kind, h.value)
  }

  function RowKey(row: Identity): Key {
    (row.tenant, row.kind, row.value)
  }

  const MAX_VALUE: nat := 256

  /** What the identity contract accepts; length is checked before stripping. */
  predicate Accepted(h: Hint) {
    1 <= |h.value| <= MAX_VALUE && Strip(h.value) != ""
  }

  /** The hint as an accepted row carries it. */
  function Filed(h: Hint): Hint {
    Hint(h.kind, IndexValue(h.kind, h.value))
  }

  function FiledAll(hints: seq<Hint>): (r: seq<Hint>)
    ensures |r| == |hints|
    ensures forall i :: 0 <= i < |r| ==> r[i] == Filed(hints[i])
  {
    seq(|hints|, i requires 0 <= i < |hints| => Filed(hints[i]))
  }

  /** A value in normal form, as hint extraction produces it. */
  predicate Normal(h: Hint) {
    h.value != "" && Filed(h) == h
  }

  lemma BlankIndexValue(h: Hint)
    ensures Strip(h.value) == "" ==> IndexValue(h.kind, h.value) == ""
  {
    assert Lower("") == "";
  }

  lemma NormalAccepted(h: Hint)
    requires Normal(h)
    ensures Accepted(h) <==> |h.value| <= MAX_VALUE
  {
    BlankIndexValue(h);
  }

  lemma NormalFiled(hints: seq<Hint>)
    requires forall h :: h in hints ==> Normal(h)
    ensures FiledAll(hints) == hints
  {
    hide Normal;
    forall i | 0 <= i < |hints|
      ensures FiledAll(hints)[i] == hints[i]
    {
      assert Normal(hints[i]);
      NormalIsFiled(hints[i]);
    }
  }

  lemma NormalIsFiled(h: Hint)
    requires Normal(h)
    ensures Filed(h) == h
  {
  }

  /** How many hints come before the first that is not accepted. */
  function Leading(hints: seq<Hint>): (k: nat)
    ensures k <= |hints|
    ensures forall j :: 0 <= j < k ==> Accepted(hints[j])
    ensures k < |hints| ==> !Accepted(hints[k])
  {
    if hints == [] || !Accepted(hints[0]) then 0 else 1 + Leading(hints[1..])
  }

  ghost predicate RowsIndexed(identities: map<(string, string), Identity>, index: map<Key, string>) {
    forall r :: r in identities ==>
      && identities[r].tenant == r.0 && identities[r].id == r.1
      && RowKey(identities[r]) in index
      && index[RowKey(identities[r])] == identities[r].customer
  }

  ghost predicate RowsDistinct(identities: map<(string, string), Identity>) {
    forall r, q :: r in identities && q in identities && RowKey(identities[r]) == RowKey(identities[q]) ==> r == q
  }

  ghost predicate Backed(identities: map<(string, string), Identity>, k: Key) {
    exists r :: r in identities && RowKey(identities[r]) == k
  }

  ghost predicate IndexBacked(customers: map<(string, string), Customer>, identities: map<(string, string), Identity>,
                              index: map<Key, string>)
  {
    forall k :: k in index ==> (k.0, index[k]) in customers && Backed(identities, k)
  }

  datatype Repo = Repo(customers: map<(string, string), Customer>,
                       identities: map<(string, string), Identity>,
                       index: map<Key, string>)
  {
    function Find(tenant: string, h: Hint): Option<Customer> {
      if KeyOf(tenant, h) in index && (tenant, index[KeyOf(tenant, h)]) in customers
      then Some(customers[(tenant, index[KeyOf(tenant, h)])])
      else None
    }

    predicate Free(tenant: string, hints: seq<Hint>) {
      forall h :: h in hints ==> KeyOf(tenant, Filed(h)) !in index
    }

    function Insert(tenant: string, customer: string, h: Hint, rowId: string): Repo {
      this.(identities := identities[(tenant, rowId) := Identity(rowId, tenant, customer, h.kind, h.value)],
            index := index[KeyOf(tenant, h) := customer])
    }

    function InsertAll(tenant: string, customer: string, hints: seq<Hint>, rowIds: seq<string>): Repo
      requires |rowIds| == |hints|
    {
      if hints == [] then this
      else
        InsertAll(tenant, customer, hints[..|hints| - 1], rowIds[..|hints| - 1])
        .Insert(tenant, customer, hints[|hints| - 1], rowIds[|hints| - 1])
    }

    /** One atomic `create_customer`: a refused value stops it with the customer
        and the hints before that value already stored. */
    function Create(tenant: string, customer: string, name: Option<string>, hints: seq<Hint>, rowIds: seq<string>)
      : (Repo, Result<Customer, RepoError>)
      requires |rowIds| == |hints|
    {
      if !Free(tenant, hints) then (this, Failure(Collision))
      else
        var c := Customer(customer, tenant, name);
        var k := Leading(hints);
        (this.(customers := customers[(tenant, customer) := c])
         .InsertAll(tenant, customer, FiledAll(hints)[..k], rowIds[..k]),
         if k == |hints| then Success(c) else Failure(Invalid))
    }

    /** One atomic `add_identity`; the row returned for a repeat is the stored one. */
    function Add(tenant: string, customer: string, h: Hint, rowId: string): (Repo, Result<(), RepoError>) {
      var key := KeyOf(tenant, Filed(h));
      if key in index && index[key] != customer then (this, Failure(Collision))
      else if key in index then (this, Success(()))
      else if (tenant, customer) !in customers then (this, Failure(UnknownCustomer))
      else if !Accepted(h) then (this, Failure(Invalid))
      else (Insert(tenant, customer, Filed(h), rowId), Success(()))
    }

    /** Identity rows and index entries correspond one to one, and every
        identity belongs to a stored customer. */
    ghost predicate Agrees() {
      && (forall k :: k in customers ==> customers[k].tenant == k.0 && customers[k].id == k.1)
      && RowsIndexed(identities, index)
      && RowsDistinct(identities)
      && IndexBacked(customers, identities, index)
    }

    /** Row ids not yet used in `tenant`, one per hint. */
    predicate FreshRows(tenant: string, rowIds: seq<string>) {
      NoDup(rowIds) && forall r :: r in rowIds ==> (tenant, r) !in identities
    }
  }

  /** Nothing is ever removed or rebound. */
  ghost predicate Grows(was: Repo, repo: Repo) {
    && (forall k :: k in was.customers ==> k in repo.customers && repo.customers[k] == was.customers[k])
    && (forall k :: k in was.identities ==> k in repo.identities && repo.identities[k] == was.identities[k])
    && (forall k :: k in was.index ==> k in repo.index && repo.index[k] == was.index[k])
  }

  lemma InsertRow(identities: map<(string, string), Identity>, index: map<Key, string>, row: Identity)
    requires RowsIndexed(identities, index) && RowsDistinct(identities)
    requires RowKey(row) !in index && (row.tenant, row.id) !in identities
    ensures RowsIndexed(identities[(row.tenant, row.id) := row], index[RowKey(row) := row.customer])
    ensures RowsDistinct(identities[(row.tenant, row.id) := row])
  {
  }

  lemma InsertBacked(customers: map<(string, string), Customer>, identities: map<(string, string), Identity>,
                     index: map<Key, string>, row: Identity)
    requires IndexBacked(customers, identities, index) && (row.tenant, row.customer) in customers
    requires (row.tenant, row.id) !in identities
    ensures IndexBacked(customers, identities[(row.tenant, row.id) := row], index[RowKey(row) := row.customer])
  {
    var identities' := identities[(row.tenant, row.id) := row];
    forall k | k == RowKey(row) || k in index
      ensures Backed(identities', k)
    {
      if k == RowKey(row) {
        assert RowKey(identities'[(row.tenant, row.id)]) == k;
      } else {
        assert Backed(identities, k);
        var r :| r in identities && RowKey(identities[r]) == k;
        assert RowKey(identities'[r]) == k;
      }
    }
  }

  lemma InsertAgrees(repo: Repo, tenant: string, customer: string, h: Hint, rowId: string)
    requires repo.Agrees() && KeyOf(tenant, h) !in repo.index
    requires (tenant, customer) in repo.customers && (tenant, rowId) !in repo.identities
    ensures var next := repo.Insert(tenant, customer, h, rowId);
            next.Agrees() && Grows(repo, next)
  {
    var row := Identity(rowId, tenant, customer, h.kind, h.value);
    InsertRow(repo.identities, repo.index, row);
    InsertBacked(repo.customers, repo.identities, repo.index, row);
    hide RowsIndexed, RowsDistinct, IndexBacked;
  }

  lemma GrowsReflexive(repo: Repo)
    ensures Grows(repo, repo)
  {
  }

  /** A binding, once made, stays. */
  lemma GrowsKeeps(was: Repo, repo: Repo)
    requires Grows(was, repo)
    ensures forall k :: k in was.index ==> k in repo.index && repo.index[k] == was.index[k]
  {
  }

  lemma GrowsTransitive(a: Repo, b: Repo, c: Repo)
    requires Grows(a, b) && Grows(b, c)
    ensures Grows(a, c)
  {
  }

  /** Inserting distinct free hints binds exactly them, all to `customer`. */
  lemma {:induction false} InsertAllAgrees(repo: Repo, tenant: string, customer: string, hints: seq<Hint>, rowIds: seq<string>)
    requires |rowIds| == |hints| && repo.Agrees() && NoDup(hints)
    requires forall h :: h in hints ==> KeyOf(tenant, h) !in repo.index
    requires (tenant, customer) in repo.customers && repo.FreshRows(tenant, rowIds)
    ensures var next := repo.InsertAll(tenant, customer, hints, rowIds);
            && next.Agrees() && Grows(repo, next) && next.customers == repo.customers
            && (forall h :: h in hints ==> KeyOf(tenant, h) in next.index && next.index[KeyOf(tenant, h)] == customer)
            && (forall k :: k in next.index ==> k in repo.index || exists h :: h in hints && k == KeyOf(tenant, h))
            && (forall r :: r in next.identities ==> r in repo.identities || (r.0 == tenant && r.1 in rowIds))
    decreases |hints|
  {
    hide Repo.Agrees, Grows;
    GrowsReflexive(repo);
    if hints != [] {
      var n := |hints| - 1;
      assert hints == hints[..n] + [hints[n]] && rowIds == rowIds[..n] + [rowIds[n]];
      InsertAllAgrees(repo, tenant, customer, hints[..n], rowIds[..n]);
      var mid := repo.InsertAll(tenant, customer, hints[..n], rowIds[..n]);
      InsertAgrees(mid, tenant, customer, hints[n], rowIds[n]);
      GrowsTransitive(repo, mid, mid.Insert(tenant, customer, hints[n], rowIds[n]));
      GrowsKeeps(mid, mid.Insert(tenant, customer, hints[n], rowIds[n]));
    }
  }

  /** Creation fails on a taken hint and changes nothing, or stores the customer
      and binds to it the hints before the first refused value, which is all of
      them when it succeeds. */
  lemma CreateAgrees(repo: Repo, tenant: string, customer: string, name: Option<string>, hints: seq<Hint>, rowIds: seq<string>)
    requires |rowIds| == |hints| && repo.Agrees() && NoDup(FiledAll(hints))
    requires (tenant, customer) !in repo.customers && repo.FreshRows(tenant, rowIds)
    ensures var (next, r) := repo.Create(tenant, customer, name, hints, rowIds);
            && next.Agrees() && Grows(repo, next)
            && (r == Failure(Collision) ==> next == repo && exists h :: h in hints && KeyOf(tenant, Filed(h)) in repo.index)
            && (r != Failure(Collision) ==>
                  && next.customers == repo.customers[(tenant, customer) := Customer(customer, tenant, name)]
                  && (forall j :: 0 <= j < Leading(hints) ==>
                        KeyOf(tenant, Filed(hints[j])) in next.index
                        && next.index[KeyOf(tenant, Filed(hints[j]))] == customer))
            && (r.Success? <==> repo.Free(tenant, hints) && Leading(hints) == |hints|)
            && (forall k :: k in next.index ==> k in repo.index || exists h :: h in hints && k == KeyOf(tenant, Filed(h)))
            && (forall i :: i in next.identities ==> i in repo.identities || (i.0 == tenant && i.1 in rowIds))
  {
    hide Repo.Agrees, Filed, Accepted, Grows, Repo.InsertAll, Repo.FreshRows, NoDup, Leading;
    GrowsReflexive(repo);
    if repo.Free(tenant, hints) {
      CustomerStored(repo, tenant, customer, name, rowIds);
      var based := repo.(customers := repo.customers[(tenant, customer) := Customer(customer, tenant, name)]);
      InsertLeading(based, tenant, customer, hints, rowIds);
      GrowsTransitive(repo, based, repo.Create(tenant, customer, name, hints, rowIds).0);
    }
  }

  lemma PrefixFresh(repo: Repo, tenant: string, rowIds: seq<string>, k: nat)
    requires k <= |rowIds| && repo.FreshRows(tenant, rowIds)
    ensures repo.FreshRows(tenant, rowIds[..k])
    ensures forall i :: i in rowIds[..k] ==> i in rowIds
  {
  }

  lemma PrefixDistinct<T>(s: seq<T>, k: nat)
    requires k <= |s| && NoDup(s)
    ensures NoDup(s[..k])
  {
  }

  lemma FiledIn(hints: seq<Hint>, k: nat)
    requires k <= |hints|
    ensures forall f :: f in FiledAll(hints)[..k] ==> exists h :: h in hints && f == Filed(h)
    ensures forall j :: 0 <= j < k ==> Filed(hints[j]) in FiledAll(hints)[..k]
  {
    hide Filed;
    forall f | f in FiledAll(hints)[..k]
      ensures exists h :: h in hints && f == Filed(h)
    {
      var j :| 0 <= j < k && FiledAll(hints)[..k][j] == f;
      assert hints[j] in hints && f == Filed(hints[j]);
    }
    forall j | 0 <= j < k
      ensures Filed(hints[j]) in FiledAll(hints)[..k]
    {
      assert FiledAll(hints)[..k][j] == Filed(hints[j]);
    }
  }

  /** Filing the hints before the first refused one. */
  lemma InsertLeading(repo: Repo, tenant: string, customer: string, hints: seq<Hint>, rowIds: seq<string>)
    requires |rowIds| == |hints| && repo.Agrees() && NoDup(FiledAll(hints)) && repo.Free(tenant, hints)
    requires (tenant, customer) in repo.customers && repo.FreshRows(tenant, rowIds)
    ensures var k := Leading(hints);
            var next := repo.InsertAll(tenant, customer, FiledAll(hints)[..k], rowIds[..k]);
            && next.Agrees() && Grows(repo, next) && next.customers == repo.customers
            && (forall j :: 0 <= j < k ==>
                  KeyOf(tenant, Filed(hints[j])) in next.index && next.index[KeyOf(tenant, Filed(hints[j]))] == customer)
            && (forall k :: k in next.index ==> k in repo.index || exists h :: h in hints && k == KeyOf(tenant, Filed(h)))
            && (forall i :: i in next.identities ==> i in repo.identities || (i.0 == tenant && i.1 in rowIds))
  {
    hide Repo.Agrees, Filed, Accepted, Grows, Repo.InsertAll, Repo.FreshRows, NoDup;
    var k := Leading(hints);
    FiledIn(hints, k);
    PrefixFresh(repo, tenant, rowIds, k);
    PrefixDistinct(FiledAll(hints), k);
    InsertAllAgrees(repo, tenant, customer, FiledAll(hints)[..k], rowIds[..k]);
  }

  lemma CustomerStored(repo: Repo, tenant: string, customer: string, name: Option<string>, rowIds: seq<string>)
    requires repo.Agrees() && (tenant, customer) !in repo.customers && repo.FreshRows(tenant, rowIds)
    ensures var based := repo.(customers := repo.customers[(tenant, customer) := Customer(customer, tenant, name)]);
            based.Agrees() && Grows(repo, based) && based.FreshRows(tenant, rowIds)
  {
  }

  /** Creation is all or nothing exactly when a hint is taken or every value is
      accepted: otherwise it raises and leaves a customer behind. */
  lemma AllOrNothingIff(repo: Repo, tenant: string, customer: string, name: Option<string>, hints: seq<Hint>,
                        rowIds: seq<string>)
    requires |rowIds| == |hints| && repo.Agrees() && NoDup(FiledAll(hints))
    requires (tenant, customer) !in repo.customers && repo.FreshRows(tenant, rowIds)
    ensures var (next, r) := repo.Create(tenant, customer, name, hints, rowIds);
            && ((r.Failure? ==> next == repo) <==> !repo.Free(tenant, hints) || forall h :: h in hints ==> Accepted(h))
            && (r == Failure(Invalid) ==> (tenant, customer) in next.customers)
  {
    hide Repo.Agrees, Accepted, Repo.Free, Filed, Grows;
    CreateAgrees(repo, tenant, customer, name, hints, rowIds);
    var k := Leading(hints);
    if k < |hints| {
      assert hints[k] in hints;
    }
  }

  lemma InsertAllStep(repo: Repo, tenant: string, customer: string, hints: seq<Hint>, rowIds: seq<string>, i: nat)
    requires |rowIds| == |hints| && i < |hints|
    ensures repo.InsertAll(tenant, customer, hints[..i + 1], rowIds[..i + 1])
            == repo.InsertAll(tenant, customer, hints[..i], rowIds[..i]).Insert(tenant, customer, hints[i], rowIds[i])
  {
    assert hints[..i + 1][..i] == hints[..i] && rowIds[..i + 1][..i] == rowIds[..i];
  }

  lemma InsertNothing(repo: Repo, tenant: string, customer: string)
    ensures repo.InsertAll(tenant, customer, [], []) == repo
  {
  }

  lemma CreateKeepsAgreement(repo: Repo, tenant: string, customer: string, name: Option<string>, hints: seq<Hint>,
                             rowIds: seq<string>)
    requires |rowIds| == |hints| && repo.Agrees() && NoDup(FiledAll(hints))
    requires (tenant, customer) !in repo.customers && repo.FreshRows(tenant, rowIds)
    ensures repo.Create(tenant, customer, name, hints, rowIds).0.Agrees()
  {
    hide Repo.Agrees, Repo.Create, Repo.FreshRows, Grows, NoDup;
    CreateAgrees(repo, tenant, customer, name, hints, rowIds);
  }

  lemma AddAgrees(repo: Repo, tenant: string, customer: string, h: Hint, rowId: string)
    requires repo.Agrees() && (tenant, rowId) !in repo.identities
    ensures var (next, r) := repo.Add(tenant, customer, h, rowId);
            var key := KeyOf(tenant, Filed(h));
            && next.Agrees() && Grows(repo, next) && next.customers == repo.customers
            && (r.Success? ==> key in next.index && next.index[key] == customer)
            && (r.Failure? ==> next == repo)
            && (r == Failure(Collision) ==> key in repo.index && repo.index[key] != customer)
            && (r == Failure(Invalid) ==> !Accepted(h))
            && (forall k :: k in next.index ==> k in repo.index || k == key)
            && (forall i :: i in next.identities ==> i in repo.identities || i == (tenant, rowId))
  {
    hide Filed, Accepted, Repo.Agrees, Grows;
    GrowsReflexive(repo);
    if KeyOf(tenant, Filed(h)) !in repo.index && (tenant, customer) in repo.customers {
      InsertAgrees(repo, tenant, customer, Filed(h), rowId);
    }
  }

  class CustomerRepository {
    var customers: map<(string, string), Customer>
    var identities: map<(string, string), Identity>
    var index: map<Key, string>

    ghost function Contents(): Repo
      reads this
    {
      Repo(customers, identities, index)
    }

    constructor ()
      ensures Contents() == Repo(map[], map[], map[]) && Contents().Agrees()
    {
      customers, identities, index := map[], map[], map[];
    }

    method GetCustomer(tenant: string, customer: string) returns (found: Option<Customer>)
      ensures found == if (tenant, customer) in customers then Some(customers[(tenant, customer)]) else None
    {
      found := if (tenant, customer) in customers then Some(customers[(tenant, customer)]) else None;
    }

    method FindCustomerByIdentity(tenant: string, h: Hint) returns (found: Option<Customer>)
      ensures found == Contents().Find(tenant, h)
    {
      if (tenant, h.kind, h.value) !in index {
        return None;
      }
      found := GetCustomer(tenant, index[(tenant, h.kind, h.value)]);
    }

    method CreateCustomer(tenant: string, customer: string, name: Option<string>, hints: seq<Hint>, rowIds: seq<string>)
      returns (r: Result<Customer, RepoError>)
      requires |rowIds| == |hints| && Contents().Agrees()
      requires (tenant, customer) !in customers && Contents().FreshRows(tenant, rowIds)
      modifies this
      ensures (Contents(), r) == old(Contents()).Create(tenant, customer, name, hints, rowIds)
      ensures NoDup(FiledAll(hints)) ==> Contents().Agrees()
    {
      hide Repo.Agrees, IndexValue, Accepted, Repo.FreshRows, NoDup, Repo.InsertAll, Leading;
      if NoDup(FiledAll(hints)) {
        CreateKeepsAgreement(Contents(), tenant, customer, name, hints, rowIds);
      }
      for i := 0 to |hints|
        invariant Contents() == old(Contents())
        invariant forall j :: 0 <= j < i ==> KeyOf(tenant, Filed(hints[j])) !in index
      {
        if (tenant, hints[i].kind, IndexValue(hints[i].kind, hints[i].value)) in index {
          assert hints[i] in hints && KeyOf(tenant, Filed(hints[i])) in Contents().index;
          return Failure(Collision);
        }
      }
      var created := Customer(customer, tenant, name);
      customers := customers[(tenant, customer) := created];
      ghost var based := Contents();
      ghost var filed := FiledAll(hints);
      InsertNothing(based, tenant, customer);
      assert filed[..0] == [] && rowIds[..0] == [];
      for i := 0 to |hints|
        invariant Contents() == based.InsertAll(tenant, customer, filed[..i], rowIds[..i])
        invariant forall j :: 0 <= j < i ==> Accepted(hints[j])
      {
        var done := InsertIdentity(tenant, customer, hints[i], rowIds[i]);
        if !done {
          assert Leading(hints) == i;
          return Failure(Invalid);
        }
        InsertAllStep(based, tenant, customer, filed, rowIds, i);
      }
      assert Leading(hints) == |hints|;
      r := Success(created);
    }

    method AddIdentity(tenant: string, customer: string, h: Hint, rowId: string)
      returns (r: Result<Identity, RepoError>)
      requires Contents().Agrees() && (tenant, rowId) !in identities
      modifies this
      ensures Contents().Agrees()
      ensures var (next, done) := old(Contents()).Add(tenant, customer, h, rowId);
              Contents() == next && (r.Failure? <==> done.Failure?) && (r.Failure? ==> r.error == done.error)
      ensures r.Success? ==> RowKey(r.value) == KeyOf(tenant, Filed(h)) && r.value.customer == customer
                             && (tenant, r.value.id) in identities && identities[(tenant, r.value.id)] == r.value
    {
      hide IndexValue, Accepted;
      AddAgrees(Contents(), tenant, customer, h, rowId);
      var value := IndexValue(h.kind, h.value);
      if (tenant, h.kind, value) in index {
        if index[(tenant, h.kind, value)] != customer {
          return Failure(Collision);
        }
        var rows := identities.Keys;
        while rows != {}
          invariant rows <= identities.Keys
          invariant forall k :: k in identities && RowKey(identities[k]) == KeyOf(tenant, Filed(h)) ==> k in rows
          decreases |rows|
        {
          var k :| k in rows;
          var row := identities[k];
          if k.0 == tenant && row.customer == customer && row.kind == h.kind && row.value == value {
            return Success(row);
          }
          rows := rows - {k};
        }
        assert false;
      }
      if (tenant, customer) !in customers {
        return Failure(UnknownCustomer);
      }
      var done := InsertIdentity(tenant, customer, h, rowId);
      if !done {
        return Failure(Invalid);
      }
      r := Success(Identity(rowId, tenant, customer, h.kind, value));
    }

    /** False, with nothing stored, when the row contract refuses the value. */
    method InsertIdentity(tenant: string, customer: string, h: Hint, rowId: string) returns (done: bool)
      modifies this`identities, this`index
      ensures done == Accepted(h)
      ensures Contents() == if done then old(Contents()).Insert(tenant, customer, Filed(h), rowId) else old(Contents())
    {
      if |h.value| < 1 || |h.value| > MAX_VALUE || Strip(h.value) == "" {
        return false;
      }
      var row := Identity(rowId, tenant, customer, h.kind, IndexValue(h.kind, h.value));
      identities := identities[(tenant, rowId) := row];
      index := index[(tenant, row.kind, row.value) := customer];
      done := true;
    }
  }
}
