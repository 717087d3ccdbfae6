/** Whole runs of the semantic cache: LRU refinement, freshness and provenance
    of what it serves, its counters, and isolation between tenants. */
module CacheRuns {
  import opened Common
  import opened Embeddings
  import opened SemanticCaches

  datatype Op = Look(tenant: string, key: string) | Put(tenant: string, key: string, response: string)

  function Step(cache: Cache, c: Config, op: Op): (Cache, Option<string>) {
    match op
    case Look(tenant, key) => var (after, found) := Lookup(cache, c, tenant, key); (after, found.response)
    case Put(tenant, key, response) => (Store(cache, c, tenant, key, response), None)
  }

  function Run(ops: seq<Op>, c: Config): Cache {
    if ops == [] then EMPTY_CACHE else Step(Run(ops[..|ops| - 1], c), c, ops[|ops| - 1]).0
  }

  lemma RunNothing(c: Config)
    ensures Run([], c) == EMPTY_CACHE
  {
  }

  lemma RunPlus(ops: seq<Op>, op: Op, c: Config)
    ensures Run(ops + [op], c) == Step(Run(ops, c), c, op).0
  {
    hide Step;
    assert (ops + [op])[..|ops|] == ops;
  }

  function SlotsAfter(ops: seq<Op>, c: Config, tenant: string): Slots {
    Bucket(Run(ops, c).store, tenant)
  }

  /** What an operation does to its own tenant's slots. */
  function StepSlots(slots: Slots, nextId: nat, c: Config, op: Op): Slots {
    match op
    case Look(_, key) =>
      var at := Match(slots, key, c).0;
      MatchInRange(slots, key, c);
      if at.None? then slots
      else Touch(slots, at.value, slots[at.value].entry.(hits := slots[at.value].entry.hits + 1))
    case Put(_, key, response) =>
      var i := PosOf(slots, key);
      if i < |slots|
      then Touch(slots, i, slots[i].entry.(response := response, outTokens := EstimateTokens(response)))
      else Trim(slots + [Slot(nextId, Fresh(key, response))], c.cap)
  }

  /** An operation reaches only its own tenant's slots. */
  lemma StepReaches(cache: Cache, c: Config, op: Op, tenant: string)
    ensures Bucket(Step(cache, c, op).0.store, tenant)
            == if op.tenant == tenant then StepSlots(Bucket(cache.store, tenant), cache.nextId, c, op)
               else Bucket(cache.store, tenant)
  {
    hide Match, PosOf, Touch, Fresh, Trim, Served;
  }

  // ----- LRU refinement -----

  /** The keys touched in `tenant` by one operation: a stored key, or the key
      of the entry a lookup is served from. */
  function TouchedBy(slots: Slots, c: Config, op: Op): seq<string> {
    match op
    case Put(_, key, _) => [key]
    case Look(_, key) =>
      MatchInRange(slots, key, c);
      var at := Match(slots, key, c).0;
      if at.None? then [] else [slots[at.value].entry.key]
  }

  function TouchLog(ops: seq<Op>, c: Config, tenant: string): seq<string> {
    if ops == [] then []
    else
      var n := |ops| - 1;
      TouchLog(ops[..n], c, tenant)
      + if ops[n].tenant == tenant then TouchedBy(SlotsAfter(ops[..n], c, tenant), c, ops[n]) else []
  }

  /** The distinct keys of a touch log, in order of last touch. */
  function Recent(log: seq<string>): seq<string> {
    if log == [] then []
    else
      var n := |log| - 1;
      RemoveFirst(Recent(log[..n]), log[n]) + [log[n]]
  }

  function LastAt(log: seq<string>, key: string): (i: nat)
    requires key in log
    ensures i < |log| && log[i] == key
    ensures forall j :: i < j < |log| ==> log[j] != key
  {
    var n := |log| - 1;
    if log[n] == key then n else LastAt(log[..n], key)
  }

  ghost predicate InOrder(keys: seq<string>, log: seq<string>) {
    && (forall k :: k in keys ==> k in log)
    && forall i, j :: 0 <= i < j < |keys| ==> LastAt(log, keys[i]) < LastAt(log, keys[j])
  }

  lemma LastAtGrows(log: seq<string>, x: string, k: string)
    requires k in log && k != x
    ensures LastAt(log + [x], k) == LastAt(log, k)
  {
    assert (log + [x])[..|log|] == log;
  }

  lemma RemoveKeepsOrder(keys: seq<string>, x: string, log: seq<string>)
    requires NoDup(keys) && InOrder(keys, log)
    ensures InOrder(RemoveFirst(keys, x), log + [x])
  {
    hide NoDup, RemoveFirst, LastAt;
    var rest := RemoveFirst(keys, x);
    RemoveFirstKeeps(keys, x);
    forall k | k in rest
      ensures k in log && LastAt(log + [x], k) == LastAt(log, k)
    {
      LastAtGrows(log, x, k);
    }
    if x in keys {
      var p :| 0 <= p < |keys| && keys[p] == x;
      RemoveFirstAt(keys, p);
    } else {
      RemoveFirstAbsent(keys, x);
    }
  }

  lemma AppendKeepsOrder(keys: seq<string>, x: string, log: seq<string>)
    requires NoDup(keys) && x !in keys && InOrder(keys, log + [x])
    ensures NoDup(keys + [x]) && InOrder(keys + [x], log + [x])
  {
    var all := keys + [x];
    forall i, j | 0 <= i < j < |all|
      ensures LastAt(log + [x], all[i]) < LastAt(log + [x], all[j])
    {
      if j == |keys| {
        assert all[i] == keys[i] && keys[i] in log + [x];
      }
    }
  }

  /** `Recent` is what it says: every touched key once, by last touch. */
  lemma {:induction false} RecentMeaning(log: seq<string>)
    ensures NoDup(Recent(log))
    ensures forall k :: k in Recent(log) <==> k in log
    ensures InOrder(Recent(log), log)
  {
    hide InOrder, NoDup, RemoveFirst;
    if log == [] {
      EmptyInOrder();
    } else {
      var n := |log| - 1;
      RecentMeaning(log[..n]);
      RemoveFirstKeeps(Recent(log[..n]), log[n]);
      RemoveKeepsOrder(Recent(log[..n]), log[n], log[..n]);
      AppendKeepsOrder(RemoveFirst(Recent(log[..n]), log[n]), log[n], log[..n]);
      assert log[..n] + [log[n]] == log;
    }
  }

  lemma EmptyInOrder()
    ensures NoDup<string>([]) && InOrder([], [])
  {
  }

  lemma {:induction false} RemoveFirstAt<T>(s: seq<T>, p: nat)
    requires NoDup(s) && p < |s|
    ensures RemoveFirst(s, s[p]) == s[..p] + s[p + 1..]
  {
    if p > 0 {
      RemoveFirstAt(s[1..], p - 1);
    }
  }

  lemma TrimMovedLost<T>(s: seq<T>, p: nat, cut: nat)
    requires p < cut <= |s|
    ensures (s[..p] + s[p + 1..] + [s[p]])[cut..] == (s[cut..] + [s[p]])[1..]
  {
  }

  lemma InSuffix<T>(s: seq<T>, p: nat, cut: nat)
    requires p < |s| && cut <= |s|
    ensures cut <= p ==> s[p] in s[cut..]
  {
    if cut <= p {
      assert s[cut..][p - cut] == s[p];
    }
  }

  lemma NoDupHead<T>(s: seq<T>, p: nat)
    requires NoDup(s) && 0 < p < |s|
    ensures s[0] != s[p] && NoDup(s[1..])
  {
  }

  lemma SplitHead<T>(s: seq<T>, cut: nat)
    requires 0 < cut <= |s|
    ensures s[1..][cut - 1..] == s[cut..] && s[..cut] == [s[0]] + s[1..][..cut - 1]
  {
  }

  lemma {:induction false} MoveKept<T>(s: seq<T>, p: nat, cut: nat)
    requires NoDup(s) && cut <= p < |s|
    ensures RemoveFirst(s, s[p]) == s[..cut] + RemoveFirst(s[cut..], s[p])
  {
    hide NoDup;
    if cut == 0 {
      hide RemoveFirst;
      assert s[0..] == s && s[..0] == [];
    } else {
      NoDupHead(s, p);
      MoveKept(s[1..], p - 1, cut - 1);
      assert RemoveFirst(s, s[p]) == [s[0]] + RemoveFirst(s[1..], s[p]);
      hide RemoveFirst;
      SplitHead(s, cut);
    }
  }

  lemma TrimTouchKept(keys: seq<string>, x: string, cap: nat)
    requires NoDup(keys) && cap > 0 && x in Trim(keys, cap)
    ensures Trim(RemoveFirst(keys, x) + [x], cap) == RemoveFirst(Trim(keys, cap), x) + [x]
  {
    hide RemoveFirst, NoDup;
    var cut := |keys| - |Trim(keys, cap)|;
    assert keys[cut..] == Trim(keys, cap);
    var p := FirstFrom(keys, x, cut);
    RemoveFirstAt(keys, p);
    MoveKept(keys, p, cut);
  }

  lemma FirstFrom<T>(s: seq<T>, x: T, cut: nat) returns (p: nat)
    requires cut <= |s| && x in s[cut..]
    ensures cut <= p < |s| && s[p] == x
  {
    var q :| 0 <= q < |s[cut..]| && s[cut..][q] == x;
    p := cut + q;
  }

  lemma TrimTouchNew(keys: seq<string>, x: string, cap: nat)
    requires NoDup(keys) && cap > 0 && x !in Trim(keys, cap)
    ensures Trim(RemoveFirst(keys, x) + [x], cap) == Trim(Trim(keys, cap) + [x], cap)
  {
    hide RemoveFirst;
    if x in keys {
      var p :| 0 <= p < |keys| && keys[p] == x;
      RemoveFirstAt(keys, p);
      var cut := |keys| - |Trim(keys, cap)|;
      InSuffix(keys, p, cut);
      TrimMovedLost(keys, p, cut);
    } else {
      RemoveFirstAbsent(keys, x);
    }
  }

  /** Touching commutes with keeping only the newest `cap` keys. */
  lemma TrimTouch(keys: seq<string>, x: string, cap: nat)
    requires NoDup(keys) && cap > 0
    ensures NoDup(Trim(keys, cap))
    ensures Trim(RemoveFirst(keys, x) + [x], cap)
            == if x in Trim(keys, cap) then RemoveFirst(Trim(keys, cap), x) + [x]
               else Trim(Trim(keys, cap) + [x], cap)
  {
    if x in Trim(keys, cap) {
      TrimTouchKept(keys, x, cap);
    } else {
      TrimTouchNew(keys, x, cap);
    }
  }

  lemma TouchKeys(slots: Slots, i: nat, e: Entry)
    requires i < |slots| && e.key == slots[i].entry.key && NoDup(KeysOf(slots))
    ensures KeysOf(Touch(slots, i, e)) == RemoveFirst(KeysOf(slots), e.key) + [e.key]
  {
    RemoveFirstAt(KeysOf(slots), i);
  }

  lemma PosOfIffKey(slots: Slots, key: string)
    ensures PosOf(slots, key) < |slots| <==> key in KeysOf(slots)
  {
    if key in KeysOf(slots) {
      var i :| 0 <= i < |slots| && KeysOf(slots)[i] == key;
      PosOfPresent(slots, i);
    }
  }

  lemma AppendKeys(slots: Slots, slot: Slot, cap: nat)
    ensures KeysOf(Trim(slots + [slot], cap)) == Trim(KeysOf(slots) + [slot.entry.key], cap)
  {
  }

  lemma LookKeys(slots: Slots, nextId: nat, c: Config, op: Op)
    requires op.Look? && NoDup(KeysOf(slots))
    ensures var touched := TouchedBy(slots, c, op);
            && |touched| <= 1
            && (touched == [] ==> StepSlots(slots, nextId, c, op) == slots)
            && (touched != [] ==>
                  && touched[0] in KeysOf(slots)
                  && KeysOf(StepSlots(slots, nextId, c, op)) == RemoveFirst(KeysOf(slots), touched[0]) + touched)
  {
    hide Match, Touch, NoDup;
    MatchInRange(slots, op.key, c);
    var at := Match(slots, op.key, c).0;
    if at.Some? {
      assert KeysOf(slots)[at.value] == TouchedBy(slots, c, op)[0];
      TouchKeys(slots, at.value, slots[at.value].entry.(hits := slots[at.value].entry.hits + 1));
    }
  }

  lemma PutKeys(slots: Slots, nextId: nat, c: Config, op: Op)
    requires op.Put? && NoDup(KeysOf(slots))
    ensures KeysOf(StepSlots(slots, nextId, c, op))
            == if op.key in KeysOf(slots) then RemoveFirst(KeysOf(slots), op.key) + [op.key]
               else Trim(KeysOf(slots) + [op.key], c.cap)
  {
    hide Fresh, Touch, Trim, NoDup;
    PosOfIffKey(slots, op.key);
    var i := PosOf(slots, op.key);
    if i < |slots| {
      TouchKeys(slots, i, slots[i].entry.(response := op.response, outTokens := EstimateTokens(op.response)));
    } else {
      AppendKeys(slots, Slot(nextId, Fresh(op.key, op.response)), c.cap);
      FreshKey(op.key, op.response);
    }
  }

  lemma StepKeys(slots: Slots, nextId: nat, c: Config, op: Op, keys: seq<string>)
    requires c.cap > 0 && NoDup(keys) && KeysOf(slots) == Trim(keys, c.cap)
    ensures var touched := TouchedBy(slots, c, op);
            && |touched| <= 1
            && KeysOf(StepSlots(slots, nextId, c, op))
               == Trim(if touched == [] then keys else RemoveFirst(keys, touched[0]) + touched, c.cap)
  {
    hide Match, StepSlots, NoDup, Trim, RemoveFirst;
    TrimTouch(keys, "", c.cap);
    if op.Look? {
      hide TouchedBy;
      LookKeys(slots, nextId, c, op);
    } else {
      PutKeys(slots, nextId, c, op);
    }
    var touched := TouchedBy(slots, c, op);
    if touched != [] {
      TrimTouch(keys, touched[0], c.cap);
    }
  }

  lemma FreshKey(key: string, response: string)
    ensures Fresh(key, response).key == key
  {
  }

  /** After any run a tenant holds exactly the `cap` most recently touched
      distinct keys, ordered by last touch. */
  lemma {:induction false} LruRefinement(ops: seq<Op>, c: Config, tenant: string)
    requires c.cap > 0
    ensures KeysOf(SlotsAfter(ops, c, tenant)) == Trim(Recent(TouchLog(ops, c, tenant)), c.cap)
  {
    hide StepSlots, TouchedBy, Step, Trim, Recent, RemoveFirst, NoDup, InOrder, KeysOf;
    if ops == [] {
      NothingTouched(c.cap);
    } else {
      var n := |ops| - 1;
      LruRefinement(ops[..n], c, tenant);
      StepReaches(Run(ops[..n], c), c, ops[n], tenant);
      if ops[n].tenant == tenant {
        var log := TouchLog(ops[..n], c, tenant);
        RecentMeaning(log);
        StepKeys(SlotsAfter(ops[..n], c, tenant), Run(ops[..n], c).nextId, c, ops[n], Recent(log));
        var touched := TouchedBy(SlotsAfter(ops[..n], c, tenant), c, ops[n]);
        if touched != [] {
          assert touched == [touched[0]];
          RecentPlus(log, touched[0]);
        } else {
          assert log + touched == log;
        }
      } else {
        assert TouchLog(ops[..n], c, tenant) + [] == TouchLog(ops[..n], c, tenant);
      }
    }
  }

  lemma NothingTouched(cap: nat)
    ensures KeysOf([]) == Trim(Recent([]), cap)
  {
  }

  lemma RecentPlus(log: seq<string>, key: string)
    ensures Recent(log + [key]) == RemoveFirst(Recent(log), key) + [key]
  {
    assert (log + [key])[..|log|] == log;
  }

  // ----- what live entries hold -----

  /** The response most recently stored for `key` in `tenant`. */
  function LatestPut(ops: seq<Op>, tenant: string, key: string): Option<string> {
    if ops == [] then None
    else
      var n := |ops| - 1;
      match ops[n]
      case Put(t, k, response) => if t == tenant && k == key then Some(response) else LatestPut(ops[..n], tenant, key)
      case Look(_, _) => LatestPut(ops[..n], tenant, key)
  }

  /** The entry's response and token counts are those of the latest store. */
  predicate Current(e: Entry, ops: seq<Op>, tenant: string) {
    && LatestPut(ops, tenant, e.key) == Some(e.response)
    && e.embedding == Embedding(e.key)
    && e.inTokens == EstimateTokens(e.key) && e.outTokens == EstimateTokens(e.response)
  }

  ghost predicate AllCurrent(slots: Slots, ops: seq<Op>, tenant: string) {
    forall i :: 0 <= i < |slots| ==> Current(slots[i].entry, ops, tenant)
  }

  lemma TouchAll(slots: Slots, i: nat, e: Entry, ops: seq<Op>, tenant: string)
    requires i < |slots|
    requires Current(e, ops, tenant)
    requires forall j :: 0 <= j < |slots| && j != i ==> Current(slots[j].entry, ops, tenant)
    ensures AllCurrent(Touch(slots, i, e), ops, tenant)
  {
    hide Current;
  }

  lemma CurrentLater(e: Entry, ops: seq<Op>, tenant: string)
    requires ops != [] && Current(e, ops[..|ops| - 1], tenant)
    requires ops[|ops| - 1] == Put(ops[|ops| - 1].tenant, e.key, e.response)
             || !(ops[|ops| - 1].Put? && ops[|ops| - 1].tenant == tenant && ops[|ops| - 1].key == e.key)
    ensures Current(e, ops, tenant)
  {
  }

  lemma StepCurrent(slots: Slots, nextId: nat, c: Config, ops: seq<Op>, tenant: string)
    requires ops != [] && ops[|ops| - 1].tenant == tenant && NoDup(KeysOf(slots))
    requires AllCurrent(slots, ops[..|ops| - 1], tenant)
    ensures AllCurrent(StepSlots(slots, nextId, c, ops[|ops| - 1]), ops, tenant)
  {
    hide Match, Touch, Current, Embedding;
    var op := ops[|ops| - 1];
    match op
    case Look(_, key) =>
      forall j | 0 <= j < |slots|
        ensures Current(slots[j].entry, ops, tenant)
      {
        CurrentLater(slots[j].entry, ops, tenant);
      }
      MatchInRange(slots, key, c);
      var at := Match(slots, key, c).0;
      if at.Some? {
        var e := slots[at.value].entry;
        TouchCurrent(e, ops, tenant);
        TouchAll(slots, at.value, e.(hits := e.hits + 1), ops, tenant);
      }
    case Put(_, key, response) =>
      var i := PosOf(slots, key);
      forall j | 0 <= j < |slots| && j != i
        ensures Current(slots[j].entry, ops, tenant)
      {
        assert KeysOf(slots)[j] != key by {
          if i < |slots| {
            assert KeysOf(slots)[i] == key;
          } else {
            assert slots[j].entry.key != key;
          }
        }
        CurrentLater(slots[j].entry, ops, tenant);
      }
      if i < |slots| {
        RefreshCurrent(slots[i].entry, response, ops, tenant);
        TouchAll(slots, i, slots[i].entry.(response := response, outTokens := EstimateTokens(response)), ops, tenant);
      } else {
        FreshCurrent(key, response, ops, tenant);
      }
  }

  lemma TouchCurrent(e: Entry, ops: seq<Op>, tenant: string)
    requires Current(e, ops, tenant)
    ensures Current(e.(hits := e.hits + 1), ops, tenant)
  {
  }

  lemma RefreshCurrent(e: Entry, response: string, ops: seq<Op>, tenant: string)
    requires ops != [] && ops[|ops| - 1] == Put(tenant, e.key, response)
    requires Current(e, ops[..|ops| - 1], tenant)
    ensures Current(e.(response := response, outTokens := EstimateTokens(response)), ops, tenant)
  {
  }

  lemma FreshCurrent(key: string, response: string, ops: seq<Op>, tenant: string)
    requires ops != [] && ops[|ops| - 1] == Put(tenant, key, response)
    ensures Current(Fresh(key, response), ops, tenant)
  {
  }

  /** After any run a tenant's live entries have distinct keys, and each holds
      the response last stored for its key. */
  lemma {:induction false} EntriesAreCurrent(ops: seq<Op>, c: Config, tenant: string)
    requires c.cap > 0
    ensures NoDup(KeysOf(SlotsAfter(ops, c, tenant)))
    ensures AllCurrent(SlotsAfter(ops, c, tenant), ops, tenant)
  {
    hide Step, StepSlots, Recent, TouchLog, NoDup;
    LruRefinement(ops, c, tenant);
    RecentMeaning(TouchLog(ops, c, tenant));
    TrimTouch(Recent(TouchLog(ops, c, tenant)), "", c.cap);
    hide Trim;
    if ops != [] {
      var n := |ops| - 1;
      EntriesAreCurrent(ops[..n], c, tenant);
      StepReaches(Run(ops[..n], c), c, ops[n], tenant);
      if ops[n].tenant == tenant {
        StepCurrent(SlotsAfter(ops[..n], c, tenant), Run(ops[..n], c).nextId, c, ops, tenant);
      } else {
        OtherTenantCurrent(SlotsAfter(ops, c, tenant), ops, tenant);
      }
    }
  }

  lemma OtherTenantCurrent(slots: Slots, ops: seq<Op>, tenant: string)
    requires ops != [] && ops[|ops| - 1].tenant != tenant
    requires AllCurrent(slots, ops[..|ops| - 1], tenant)
    ensures AllCurrent(slots, ops, tenant)
  {
    hide Embedding;
    forall j | 0 <= j < |slots|
      ensures Current(slots[j].entry, ops, tenant)
    {
      CurrentLater(slots[j].entry, ops, tenant);
    }
  }

  // ----- what a lookup answers -----

  predicate CloseEnough(one: string, other: string, c: Config) {
    SimSq(Embedding(one), Embedding(other)) >= Gate(c)
  }

  ghost predicate SomeMatch(live: seq<string>, key: string, c: Config) {
    exists i :: 0 <= i < |live| && (live[i] == key || CloseEnough(key, live[i], c))
  }

  lemma SomeMatchAt(live: seq<string>, k: string, key: string, c: Config)
    requires k in live && (k == key || CloseEnough(key, k, c))
    ensures SomeMatch(live, key, c)
  {
    hide CloseEnough;
    var i :| 0 <= i < |live| && live[i] == k;
  }

  lemma MatchIff(slots: Slots, key: string, c: Config)
    requires ValidConfig(c)
    requires forall i :: 0 <= i < |slots| ==> slots[i].entry.embedding == Embedding(slots[i].entry.key)
    ensures var at := Match(slots, key, c).0;
            && (at.None? ==> key !in KeysOf(slots)
                             && forall i :: 0 <= i < |slots| ==> !CloseEnough(key, KeysOf(slots)[i], c))
            && (at.Some? ==> at.value < |slots|
                             && (KeysOf(slots)[at.value] == key || CloseEnough(key, KeysOf(slots)[at.value], c)))
            && (key in KeysOf(slots) ==> at.Some? && KeysOf(slots)[at.value] == key && Match(slots, key, c).2 == Exact)
  {
    hide Embedding, SimSq, Gate;
    PosOfIffKey(slots, key);
    BestIsFirstMaximal(slots, Embedding(key));
    ThresholdPositive(c);
    if Match(slots, key, c).0.None? {
      forall i | 0 <= i < |slots|
        ensures !CloseEnough(key, KeysOf(slots)[i], c)
      {
        assert slots[i].entry.embedding == Embedding(KeysOf(slots)[i]);
        assert SimSq(Embedding(key), slots[i].entry.embedding) <= Best(slots, Embedding(key)).1;
        assert Best(slots, Embedding(key)).1 < Gate(c);
      }
    }
  }

  /** A lookup answers exactly when its key is live or some live key is close
      enough; the answer is the latest response stored for the live key it was
      served from, which is the key itself whenever that is live. */
  lemma LookupAnswers(ops: seq<Op>, c: Config, tenant: string, key: string)
    requires ValidConfig(c)
    ensures var live := KeysOf(SlotsAfter(ops, c, tenant));
            var found := Lookup(Run(ops, c), c, tenant, key).1;
            && (found.response.Some? <==> SomeMatch(live, key, c))
            && (key in live ==> found.response == LatestPut(ops, tenant, key) && found.kind == Exact)
            && (found.response.Some? ==>
                  exists i :: 0 <= i < |live| && (live[i] == key || CloseEnough(key, live[i], c))
                              && found.response == LatestPut(ops, tenant, live[i]))
  {
    hide Embedding, Run, LatestPut, Touch, Match, CloseEnough;
    var slots := SlotsAfter(ops, c, tenant);
    EntriesAreCurrent(ops, c, tenant);
    assert forall i :: 0 <= i < |slots| ==> Current(slots[i].entry, ops, tenant);
    MatchIff(slots, key, c);
    MatchInRange(slots, key, c);
    var at := Match(slots, key, c).0;
    if at.Some? {
      assert KeysOf(slots)[at.value] == slots[at.value].entry.key;
    }
  }

  lemma ThresholdPositive(c: Config)
    requires ValidConfig(c)
    ensures Gate(c) > 0.0
  {
    TimesNonNegative(c.threshold, c.threshold);
  }

  // ----- what an exact verdict means -----

  /** A scan match of `one` with `other` is reported as exact. */
  predicate LooksExact(one: string, other: string, c: Config) {
    CloseEnough(one, other, c) && SimSq(Embedding(one), Embedding(other)) >= EXACT_GATE
  }

  ghost predicate SomeLooksExact(live: seq<string>, key: string, c: Config) {
    exists i :: 0 <= i < |live| && LooksExact(key, live[i], c)
  }

  lemma MatchKind(slots: Slots, key: string, c: Config)
    requires forall i :: 0 <= i < |slots| ==> slots[i].entry.embedding == Embedding(slots[i].entry.key)
    ensures Match(slots, key, c).2 == Exact <==> key in KeysOf(slots) || SomeLooksExact(KeysOf(slots), key, c)
    ensures Match(slots, key, c).0.None? ==> Match(slots, key, c).2 == Miss
  {
    hide Embedding, SimSq, Gate;
    PosOfIffKey(slots, key);
    BestIsFirstMaximal(slots, Embedding(key));
    var (at, sim) := Best(slots, Embedding(key));
    if sim > 0.0 && sim >= Gate(c) && sim >= EXACT_GATE {
      assert LooksExact(key, KeysOf(slots)[at], c);
    }
    forall i | 0 <= i < |slots| && LooksExact(key, KeysOf(slots)[i], c)
      ensures sim > 0.0 && sim >= Gate(c) && sim >= EXACT_GATE
    {
      assert slots[i].entry.embedding == Embedding(KeysOf(slots)[i]);
      assert SimSq(Embedding(key), slots[i].entry.embedding) <= sim;
    }
  }

  /** After any run a verdict is exact exactly when the prompt itself is live
      or some live prompt passes both bounds. So an exact verdict implies that
      the prompt itself is live exactly when it is live, whatever else passes
      the bounds, or nothing passes them. */
  lemma ExactVerdictIff(ops: seq<Op>, c: Config, tenant: string, key: string)
    requires ValidConfig(c)
    ensures var live := KeysOf(SlotsAfter(ops, c, tenant));
            var found := Lookup(Run(ops, c), c, tenant, key).1;
            && (found.kind == Exact <==> key in live || SomeLooksExact(live, key, c))
            && ((found.kind == Exact ==> key in live) <==> (key in live || !SomeLooksExact(live, key, c)))
  {
    hide Embedding, Run, Touch, Match, SomeLooksExact;
    var slots := SlotsAfter(ops, c, tenant);
    EntriesAreCurrent(ops, c, tenant);
    assert forall i :: 0 <= i < |slots| ==> Current(slots[i].entry, ops, tenant);
    MatchKind(slots, key, c);
    MatchInRange(slots, key, c);
  }

  /** A prompt whose word counts are a multiple of another's is taken for it. */
  lemma ProportionalPromptServedAsExact(c: Config, tenant: string, one: string, other: string, response: string, k: real)
    requires ValidConfig(c) && one != other
    requires Embedding(one) != map[] && Embedding(other) != map[] && k > 0.0
    requires Scaled(Embedding(one), Embedding(other), k)
    ensures Lookup(Run([Put(tenant, one, response)], c), c, tenant, other).1 == Found(Some(response), 1.0, Exact)
  {
    var slots := [Slot(0, Fresh(one, response))];
    RunPlus([], Put(tenant, one, response), c);
    assert [] + [Put(tenant, one, response)] == [Put(tenant, one, response)];
    assert Run([Put(tenant, one, response)], c).store[tenant] == slots by {
      RunNothing(c);
    }
    hide Tokens, SimSq, Run, Embedding, Scaled;
    EmbeddingIsEmbedded(one);
    ScaledIsSimilar(Embedding(one), Embedding(other), k);
    assert Best(slots[..0], Embedding(other)) == (0, 0.0);
    assert Best(slots, Embedding(other)) == (0, 1.0);
    UnitThreshold(c);
  }

  /** An exact verdict does not mean equal prompts: after storing one prompt in
      an empty namespace, another with the same words in another order is
      served the first one's answer, reported as exact. */
  lemma ReorderedPromptServedAsExact(c: Config, tenant: string, one: string, other: string, response: string)
    requires ValidConfig(c) && one != other
    requires multiset(Tokens(one, "")) == multiset(Tokens(other, "")) && Tokens(one, "") != []
    ensures Lookup(Run([Put(tenant, one, response)], c), c, tenant, other).1 == Found(Some(response), 1.0, Exact)
  {
    hide Lookup, Run, Embedding, Times, Tokens;
    EmbeddingIgnoresOrder(one, other);
    TokenHasBucket(one);
    assert Scaled(Embedding(one), Embedding(other), 1.0) by {
      TimesOne(Embedding(one));
    }
    ProportionalPromptServedAsExact(c, tenant, one, other, response, 1.0);
  }

  lemma TimesOne(v: Vec)
    ensures forall i: nat :: Times(1.0, At(v, i)) == At(v, i)
  {
  }

  /** So is one that says every word of it twice. */
  lemma RepeatedPromptServedAsExact(c: Config, tenant: string, one: string, other: string, response: string)
    requires ValidConfig(c) && one != other
    requires Tokens(other, "") == Tokens(one, "") + Tokens(one, "") && Tokens(one, "") != []
    ensures Lookup(Run([Put(tenant, one, response)], c), c, tenant, other).1 == Found(Some(response), 1.0, Exact)
  {
    hide Lookup, Run, Embedding, Tokens;
    TokenHasBucket(one);
    TokenHasBucket(other);
    forall i: nat | i < DIM
      ensures At(Embedding(other), i) == Times(2.0, At(Embedding(one), i))
    {
      CountTwice(one, other, i);
    }
    ProportionalPromptServedAsExact(c, tenant, one, other, response, 2.0);
  }

  lemma CountTwice(one: string, other: string, b: nat)
    requires Tokens(other, "") == Tokens(one, "") + Tokens(one, "") && b < DIM
    ensures At(Embedding(other), b) == Times(2.0, At(Embedding(one), b))
  {
    CountConcat(Tokens(one, ""), Tokens(one, ""), b);
  }

  /** Among equally similar entries a lookup serves the one used longest ago,
      not the one inserted first: storing `one`, then `other`, then refreshing
      `one` leaves `other` to answer for a third wording of both. */
  lemma TieGoesToLeastRecentlyUsed(c: Config, tenant: string, one: string, other: string, third: string,
                                   r1: string, r2: string, r3: string)
    requires ValidConfig(c) && c.cap >= 2 && one != other && third != one && third != other
    requires multiset(Tokens(one, "")) == multiset(Tokens(third, "")) && Tokens(third, "") != []
    requires multiset(Tokens(other, "")) == multiset(Tokens(third, ""))
    ensures var ops := [Put(tenant, one, r1), Put(tenant, other, r2), Put(tenant, one, r3)];
            Lookup(Run(ops, c), c, tenant, third).1.response == Some(r2)
  {
    hide Tokens, Run, Embedding;
    ThreePuts(c, tenant, one, other, r1, r2, r3);
    EmbeddingIgnoresOrder(one, third);
    EmbeddingIgnoresOrder(other, third);
    TokenHasBucket(third);
    var b := Slot(1, Fresh(other, r2));
    FirstOfTwo([b, Slot(0, Fresh(one, r1).(response := r3, outTokens := EstimateTokens(r3)))], c, third);
  }

  /** Among the live entries, the most similar to `key`. */
  ghost predicate Maximal(slots: Slots, key: string, i: nat) {
    && i < |slots|
    && forall j :: 0 <= j < |slots| ==>
                     SimSq(Embedding(key), slots[j].entry.embedding) <= SimSq(Embedding(key), slots[i].entry.embedding)
  }

  /** When a key was last touched; -1 before that. */
  function TouchedAt(log: seq<string>, key: string): int {
    if key in log then LastAt(log, key) else -1
  }

  lemma OrderedByTouch(ops: seq<Op>, c: Config, tenant: string)
    requires c.cap > 0
    ensures var keys := KeysOf(SlotsAfter(ops, c, tenant));
            forall i, j :: 0 <= i < j < |keys| ==>
                             TouchedAt(TouchLog(ops, c, tenant), keys[i]) < TouchedAt(TouchLog(ops, c, tenant), keys[j])
  {
    hide Recent, TouchLog, Run, LastAt;
    LruRefinement(ops, c, tenant);
    var log := TouchLog(ops, c, tenant);
    RecentMeaning(log);
    var keys, recent := KeysOf(SlotsAfter(ops, c, tenant)), Recent(log);
    var cut := |recent| - |keys|;
    forall i, j | 0 <= i < j < |keys|
      ensures TouchedAt(log, keys[i]) < TouchedAt(log, keys[j])
    {
      assert keys[i] == recent[cut + i] && keys[j] == recent[cut + j];
      assert recent[cut + i] in recent && recent[cut + j] in recent;
    }
  }

  /** Among the most similar entries, the one inserted first: ids count up. */
  ghost predicate EarliestInserted(slots: Slots, key: string, first: nat) {
    Maximal(slots, key, first) && forall j: nat :: Maximal(slots, key, j) ==> slots[first].id <= slots[j].id
  }

  /** ... and the one last touched before every other. */
  ghost predicate LeastRecentlyTouched(slots: Slots, log: seq<string>, key: string, first: nat)
    requires first < |slots|
  {
    forall j: nat :: Maximal(slots, key, j) && j != first ==>
                       TouchedAt(log, slots[first].entry.key) < TouchedAt(log, slots[j].entry.key)
  }

  /** A scan serves the earliest-inserted of the most similar entries exactly
      when that entry was also last touched before every other. */
  lemma TieBreakIff(ops: seq<Op>, c: Config, tenant: string, key: string, first: nat)
    requires ValidConfig(c) && key !in KeysOf(SlotsAfter(ops, c, tenant))
    requires Match(SlotsAfter(ops, c, tenant), key, c).0.Some?
    requires EarliestInserted(SlotsAfter(ops, c, tenant), key, first)
    ensures Match(SlotsAfter(ops, c, tenant), key, c).0 == Some(first)
            <==> LeastRecentlyTouched(SlotsAfter(ops, c, tenant), TouchLog(ops, c, tenant), key, first)
  {
    hide Embedding, SimSq, Run, TouchLog, TouchedAt, Gate;
    var (slots, log) := (SlotsAfter(ops, c, tenant), TouchLog(ops, c, tenant));
    PosOfIffKey(slots, key);
    BestIsFirstMaximal(slots, Embedding(key));
    OrderedByTouch(ops, c, tenant);
    var at := Match(slots, key, c).0.value;
    assert Maximal(slots, key, at);
    forall j: nat | Maximal(slots, key, j) && j != at
      ensures TouchedAt(log, slots[at].entry.key) < TouchedAt(log, slots[j].entry.key)
    {
      assert at < j;
      assert KeysOf(slots)[at] == slots[at].entry.key && KeysOf(slots)[j] == slots[j].entry.key;
    }
  }

  lemma FirstOfTwo(slots: Slots, c: Config, key: string)
    requires ValidConfig(c) && |slots| == 2 && Embedding(key) != map[]
    requires forall i :: 0 <= i < 2 ==> slots[i].entry.key != key && slots[i].entry.embedding == Embedding(key)
    ensures Match(slots, key, c).0 == Some(0)
  {
    hide Embedding, SimSq, Gate;
    EmbeddingIsEmbedded(key);
    SimilarityRange(Embedding(key), Embedding(key));
    UnitThreshold(c);
    PosOfAbsent(slots, key);
    assert slots[..1] == [slots[0]] && slots[..1][..0] == [];
    assert Best(slots[..1], Embedding(key)) == (0, 1.0);
  }

  lemma PutNew(slots: Slots, nextId: nat, c: Config, op: Op)
    requires op.Put? && |slots| < c.cap && op.key !in KeysOf(slots)
    ensures StepSlots(slots, nextId, c, op) == slots + [Slot(nextId, Fresh(op.key, op.response))]
    ensures PosOf(slots, op.key) == |slots|
  {
    hide Fresh;
    PosOfIffKey(slots, op.key);
  }

  lemma ThreePuts(c: Config, tenant: string, one: string, other: string, r1: string, r2: string, r3: string)
    requires c.cap >= 2 && one != other
    ensures SlotsAfter([Put(tenant, one, r1), Put(tenant, other, r2), Put(tenant, one, r3)], c, tenant)
            == [Slot(1, Fresh(other, r2)), Slot(0, Fresh(one, r1).(response := r3, outTokens := EstimateTokens(r3)))]
  {
    hide StepSlots, Step, Run, Embedding, PosOf, Fresh;
    var p1, p2, p3 := Put(tenant, one, r1), Put(tenant, other, r2), Put(tenant, one, r3);
    var a, b := Slot(0, Fresh(one, r1)), Slot(1, Fresh(other, r2));
    FreshKey(one, r1);
    RunPlus([], p1, c);
    RunPlus([p1], p2, c);
    RunPlus([p1, p2], p3, c);
    assert [] + [p1] == [p1] && [p1] + [p2] == [p1, p2] && [p1, p2] + [p3] == [p1, p2, p3];
    assert SlotsAfter([], c, tenant) == [] && Run([], c).nextId == 0 by {
      RunNothing(c);
    }
    StepReaches(Run([], c), c, p1, tenant);
    StepIds(Run([], c), c, p1);
    PutNew([], 0, c, p1);
    assert SlotsAfter([p1], c, tenant) == [a];
    StepReaches(Run([p1], c), c, p2, tenant);
    PutNew([a], 1, c, p2);
    assert SlotsAfter([p1, p2], c, tenant) == [a, b];
    StepReaches(Run([p1, p2], c), c, p3, tenant);
    SwapByRefresh(a, b, Run([p1, p2], c).nextId, c, p3);
  }

  lemma SwapByRefresh(a: Slot, b: Slot, nextId: nat, c: Config, op: Op)
    requires op.Put? && op.key == a.entry.key
    ensures StepSlots([a, b], nextId, c, op)
            == [b, Slot(a.id, a.entry.(response := op.response, outTokens := EstimateTokens(op.response)))]
  {
    assert PosOf([a, b], op.key) == 0;
  }

  lemma StepIds(cache: Cache, c: Config, op: Op)
    requires op.Put?
    ensures Step(cache, c, op).0.nextId
            == cache.nextId + if PosOf(Bucket(cache.store, op.tenant), op.key) == |Bucket(cache.store, op.tenant)| then 1
                              else 0
  {
    hide Match, Touch, Trim, Fresh, Served;
  }

  lemma UnitThreshold(c: Config)
    requires ValidConfig(c)
    ensures Gate(c) <= 1.0
  {
    assert c.threshold * c.threshold <= c.threshold * 1.0;
  }

  lemma TokenHasBucket(text: string)
    requires Tokens(text, "") != []
    ensures Embedding(text) != map[]
  {
    var tokens := Tokens(text, "");
    var b := BucketOf(tokens[|tokens| - 1]);
    assert Count(tokens, b) > 0;
    assert b in Embedding(text);
  }

  lemma {:induction false} TokensRead(word: string, rest: string, before: string)
    requires forall i :: 0 <= i < |word| ==> 'a' <= word[i] <= 'z'
    ensures Tokens(word + rest, before) == Tokens(rest, before + word)
  {
    if word == "" {
      assert word + rest == rest && before + word == before;
    } else {
      assert (word + rest)[1..] == word[1..] + rest;
      TokensRead(word[1..], rest, before + [word[0]]);
      assert before + [word[0]] + word[1..] == before + word;
    }
  }

  lemma TokensSplit(rest: string, before: string)
    requires |before| >= 2
    ensures Tokens(" " + rest, before) == [before] + Tokens(rest, "")
    ensures Tokens("", before) == [before]
  {
    assert (" " + rest)[1..] == rest;
  }

  lemma TwoWords(one: string, other: string)
    requires |one| >= 2 && |other| >= 2
    requires forall i :: 0 <= i < |one| ==> 'a' <= one[i] <= 'z'
    requires forall i :: 0 <= i < |other| ==> 'a' <= other[i] <= 'z'
    ensures Tokens(one + " " + other, "") == [one, other]
  {
    hide Tokens;
    TokensRead(one, " " + other, "");
    TokensSplit(other, one);
    TokensRead(other, "", "");
    TokensSplit("", other);
    assert one + (" " + other) == one + " " + other && other + "" == other;
    assert "" + one == one && "" + other == other;
  }

  /** Two such prompts. */
  lemma ReorderedPromptsExist()
    ensures var (one, other) := ("due pay", "pay due");
            && one != other && Tokens(one, "") != []
            && multiset(Tokens(one, "")) == multiset(Tokens(other, ""))
  {
    hide Tokens;
    TwoWords("due", "pay");
    TwoWords("pay", "due");
    assert "due" + " " + "pay" == "due pay" && "pay" + " " + "due" == "pay due";
    assert "due pay"[0] != "pay due"[0];
  }

  /** A prompt said twice. */
  lemma RepeatedPromptsExist()
    ensures var (one, other) := ("pay", "pay pay");
            one != other && Tokens(one, "") != [] && Tokens(other, "") == Tokens(one, "") + Tokens(one, "")
  {
    hide Tokens;
    TwoWords("pay", "pay");
    TokensRead("pay", "", "");
    TokensSplit("", "pay");
    assert "pay" + "" == "pay" && "" + "pay" == "pay" && "pay" + " " + "pay" == "pay pay";
    assert |"pay"| != |"pay pay"|;
  }

  lemma TrailingSpace(text: string, one: string, other: string)
    requires |one| >= 2 && |other| >= 2
    requires forall i :: 0 <= i < |one| ==> 'a' <= one[i] <= 'z'
    requires forall i :: 0 <= i < |other| ==> 'a' <= other[i] <= 'z'
    requires text == one + (" " + (other + " "))
    ensures Tokens(text, "") == [one, other]
  {
    hide Tokens;
    TokensRead(one, " " + (other + " "), "");
    TokensSplit(other + " ", one);
    TokensRead(other, " ", "");
    TokensSplit("", other);
    TokensNothing();
    assert " " + "" == " " && "" + one == one && "" + other == other;
  }

  /** Three wordings of one prompt. */
  lemma ThreeWordingsExist()
    ensures var (one, other, third) := ("due pay", "pay due", "due pay ");
            && one != other && third != one && third != other && Tokens(third, "") != []
            && multiset(Tokens(one, "")) == multiset(Tokens(third, ""))
            && multiset(Tokens(other, "")) == multiset(Tokens(third, ""))
  {
    hide Tokens;
    ReorderedPromptsExist();
    TwoWords("due", "pay");
    assert "due" + " " + "pay" == "due pay";
    TrailingSpace("due pay ", "due", "pay");
    assert |"due pay "| != |"due pay"| && |"due pay "| != |"pay due"|;
  }

  lemma TokensNothing()
    ensures Tokens("", "") == []
  {
  }

  // ----- counters -----

  function Looks(ops: seq<Op>): nat {
    if ops == [] then 0 else Looks(ops[..|ops| - 1]) + if ops[|ops| - 1].Look? then 1 else 0
  }

  function Answered(ops: seq<Op>, c: Config): nat {
    if ops == [] then 0
    else
      var n := |ops| - 1;
      Answered(ops[..n], c) + if Step(Run(ops[..n], c), c, ops[n]).1.Some? then 1 else 0
  }

  /** The lookups answered with an exact verdict. */
  function Exacts(ops: seq<Op>, c: Config): nat {
    if ops == [] then 0
    else
      var n := |ops| - 1;
      Exacts(ops[..n], c)
      + if ops[n].Look? && Lookup(Run(ops[..n], c), c, ops[n].tenant, ops[n].key).1.kind == Exact then 1 else 0
  }

  lemma CostAdds(i: nat, o: nat, i': nat, o': nat, c: Config)
    ensures Cost(i + i', o + o', c) == Cost(i, o, c) + Cost(i', o', c)
  {
    assert (i + i') as real / 1000000.0 * c.inPrice
           == i as real / 1000000.0 * c.inPrice + i' as real / 1000000.0 * c.inPrice;
    assert (o + o') as real / 1000000.0 * c.outPrice
           == o as real / 1000000.0 * c.outPrice + o' as real / 1000000.0 * c.outPrice;
  }

  /** The counters after any run: lookups split into hits and misses, hits into
      exact and near; hits are the answered lookups, stores the puts; and the
      saved cost is the price of the saved tokens. */
  lemma {:induction false} CountersTell(ops: seq<Op>, c: Config)
    ensures var s := Run(ops, c).stats;
            && s.lookups == Looks(ops) && s.stores == |ops| - Looks(ops)
            && s.hits == Answered(ops, c) && s.hits + s.misses == s.lookups
            && s.exactHits == Exacts(ops, c) && s.exactHits + s.nearHits == s.hits
            && s.costSaved == Cost(s.inSaved, s.outSaved, c)
  {
    hide Match, PosOf, Touch, Fresh, Trim, Cost;
    if ops == [] {
      NoCost(c);
    } else {
      var n := |ops| - 1;
      CountersTell(ops[..n], c);
      var before := Run(ops[..n], c);
      if ops[n].Look? {
        var slots := Bucket(before.store, ops[n].tenant);
        MatchInRange(slots, ops[n].key, c);
        var at := Match(slots, ops[n].key, c).0;
        if at.Some? {
          var e := slots[at.value].entry;
          CostAdds(before.stats.inSaved, before.stats.outSaved, e.inTokens, e.outTokens, c);
        }
      }
    }
  }

  lemma NoCost(c: Config)
    ensures Cost(0, 0, c) == 0.0
  {
  }
}
