/** The caching LLM client over the semantic cache: where its answers come
    from, when it calls the inner client, and isolation between tenants. */
module CachingClients {
  import opened Common
  import opened Embeddings
  import opened SemanticCaches
  import opened CacheRuns

  // ----- tenants do not see each other -----

  function Entries(slots: Slots): seq<Entry> {
    seq(|slots|, i requires 0 <= i < |slots| => slots[i].entry)
  }

  lemma {:induction false} BestSeesEntries(one: Slots, other: Slots, query: Vec)
    requires Entries(one) == Entries(other)
    ensures Best(one, query) == Best(other, query)
  {
    hide SimSq;
    assert |Entries(one)| == |one| && |Entries(other)| == |other|;
    if one != [] {
      var n := |one| - 1;
      assert Entries(one)[n] == one[n].entry && Entries(other)[n] == other[n].entry;
      assert Entries(one[..n]) == Entries(one)[..n] && Entries(other[..n]) == Entries(other)[..n];
      BestSeesEntries(one[..n], other[..n], query);
    }
  }

  lemma {:induction false} PosOfSeesEntries(one: Slots, other: Slots, key: string)
    requires Entries(one) == Entries(other)
    ensures PosOf(one, key) == PosOf(other, key)
  {
    assert |Entries(one)| == |one| && |Entries(other)| == |other|;
    if one != [] {
      assert Entries(one)[0] == one[0].entry && Entries(other)[0] == other[0].entry;
      assert Entries(one[1..]) == Entries(one)[1..] && Entries(other[1..]) == Entries(other)[1..];
      PosOfSeesEntries(one[1..], other[1..], key);
    }
  }

  lemma MatchSeesEntries(one: Slots, other: Slots, key: string, c: Config)
    requires Entries(one) == Entries(other)
    ensures |one| == |other| && Match(one, key, c) == Match(other, key, c)
  {
    hide Best, PosOf, Embedding;
    assert |Entries(one)| == |one| && |Entries(other)| == |other|;
    BestSeesEntries(one, other, Embedding(key));
    PosOfSeesEntries(one, other, key);
  }

  lemma TouchSeesEntries(one: Slots, other: Slots, i: nat, e: Entry)
    requires Entries(one) == Entries(other) && |one| == |other| && i < |one|
    ensures one[i].entry == other[i].entry
    ensures Entries(Touch(one, i, e)) == Entries(Touch(other, i, e))
  {
    assert forall j :: 0 <= j < |one| ==> Entries(one)[j] == one[j].entry && Entries(other)[j] == other[j].entry;
  }

  lemma GrowSeesEntries(one: Slots, other: Slots, id: nat, id': nat, e: Entry, cap: nat)
    requires Entries(one) == Entries(other) && |one| == |other|
    ensures Entries(Trim(one + [Slot(id, e)], cap)) == Entries(Trim(other + [Slot(id', e)], cap))
  {
    assert forall j :: 0 <= j < |one| ==> Entries(one)[j] == one[j].entry && Entries(other)[j] == other[j].entry;
  }

  lemma StepSeesEntries(one: Slots, other: Slots, id: nat, id': nat, c: Config, op: Op)
    requires Entries(one) == Entries(other)
    ensures Entries(StepSlots(one, id, c, op)) == Entries(StepSlots(other, id', c, op))
  {
    hide Match, Touch, Trim, Fresh, Entries;
    MatchSeesEntries(one, other, op.key, c);
    match op
    case Look(_, key) =>
      MatchInRange(one, key, c);
      var at := Match(one, key, c).0;
      if at.Some? {
        TouchSeesEntries(one, other, at.value, one[at.value].entry.(hits := one[at.value].entry.hits + 1));
      }
    case Put(_, key, response) =>
      PosOfSeesEntries(one, other, key);
      var i := PosOf(one, key);
      if i < |one| {
        TouchSeesEntries(one, other, i, one[i].entry.(response := response, outTokens := EstimateTokens(response)));
      } else {
        GrowSeesEntries(one, other, id, id', Fresh(key, response), c.cap);
      }
  }

  function Own(ops: seq<Op>, tenant: string): seq<Op> {
    if ops == [] then []
    else
      var n := |ops| - 1;
      Own(ops[..n], tenant) + if ops[n].tenant == tenant then [ops[n]] else []
  }

  lemma {:induction false} EntriesAreOwn(ops: seq<Op>, c: Config, tenant: string)
    ensures Entries(SlotsAfter(ops, c, tenant)) == Entries(SlotsAfter(Own(ops, tenant), c, tenant))
  {
    hide Step, StepSlots, Entries;
    if ops != [] {
      var n := |ops| - 1;
      EntriesAreOwn(ops[..n], c, tenant);
      StepReaches(Run(ops[..n], c), c, ops[n], tenant);
      if ops[n].tenant == tenant {
        var own := Own(ops[..n], tenant);
        assert (own + [ops[n]])[..|own|] == own;
        StepReaches(Run(own, c), c, ops[n], tenant);
        StepSeesEntries(SlotsAfter(ops[..n], c, tenant), SlotsAfter(own, c, tenant),
                        Run(ops[..n], c).nextId, Run(own, c).nextId, c, ops[n]);
      } else {
        assert Own(ops, tenant) == Own(ops[..n], tenant);
      }
    }
  }

  /** Removing every other tenant's operations from a run changes neither what
      a tenant has cached, in LRU order, nor what any of its lookups answers. */
  lemma TenantIsolation(ops: seq<Op>, c: Config, tenant: string, key: string)
    ensures Entries(SlotsAfter(ops, c, tenant)) == Entries(SlotsAfter(Own(ops, tenant), c, tenant))
    ensures Lookup(Run(ops, c), c, tenant, key).1 == Lookup(Run(Own(ops, tenant), c), c, tenant, key).1
  {
    hide Match, Touch, Run, Own, Served;
    EntriesAreOwn(ops, c, tenant);
    var one, other := SlotsAfter(ops, c, tenant), SlotsAfter(Own(ops, tenant), c, tenant);
    MatchSeesEntries(one, other, key, c);
    MatchInRange(one, key, c);
    if Match(one, key, c).0.Some? {
      TouchSeesEntries(one, other, Match(one, key, c).0.value, one[Match(one, key, c).0.value].entry);
    }
  }

  // ----- the client -----

  /** A completed inner call; as a request, `answer` is what the inner client
      would say if it were called. */
  datatype Call = Call(tenant: string, prompt: string, answer: string)

  datatype Service = Service(cache: Cache, calls: seq<Call>)

  function Complete(s: Service, c: Config, ask: Call): (Service, string) {
    var (cache, found) := Lookup(s.cache, c, ask.tenant, ask.prompt);
    if found.response.Some? then (s.(cache := cache), found.response.value)
    else (Service(Store(cache, c, ask.tenant, ask.prompt, ask.answer), s.calls + [ask]), ask.answer)
  }

  function Serve(asks: seq<Call>, c: Config): Service {
    if asks == [] then Service(EMPTY_CACHE, [])
    else Complete(Serve(asks[..|asks| - 1], c), c, asks[|asks| - 1]).0
  }

  /** The cache operations a run of requests performs. */
  function OpsOf(asks: seq<Call>, c: Config): seq<Op> {
    if asks == [] then []
    else
      var n := |asks| - 1;
      var ops := OpsOf(asks[..n], c);
      var look := Look(asks[n].tenant, asks[n].prompt);
      if Step(Run(ops, c), c, look).1.Some? then ops + [look]
      else ops + [look] + [Put(asks[n].tenant, asks[n].prompt, asks[n].answer)]
  }

  function Puts(ops: seq<Op>): seq<Call> {
    if ops == [] then []
    else
      var n := |ops| - 1;
      Puts(ops[..n]) + if ops[n].Put? then [Call(ops[n].tenant, ops[n].key, ops[n].response)] else []
  }

  lemma CountsPlus(ops: seq<Op>, op: Op)
    ensures Looks(ops + [op]) == Looks(ops) + if op.Look? then 1 else 0
    ensures Puts(ops + [op]) == Puts(ops) + if op.Put? then [Call(op.tenant, op.key, op.response)] else []
  {
    assert (ops + [op])[..|ops|] == ops;
  }

  /** Requests act on the cache only through those operations, and the inner
      calls are exactly the stores. */
  lemma {:induction false} ServeIsRun(asks: seq<Call>, c: Config)
    ensures Serve(asks, c) == Service(Run(OpsOf(asks, c), c), Puts(OpsOf(asks, c)))
    ensures Looks(OpsOf(asks, c)) == |asks|
  {
    hide Lookup, Store, Run, Looks, Puts;
    if asks == [] {
      RunNothing(c);
      CountNothing();
    } else {
      var n := |asks| - 1;
      ServeIsRun(asks[..n], c);
      var ops := OpsOf(asks[..n], c);
      var look := Look(asks[n].tenant, asks[n].prompt);
      var put := Put(asks[n].tenant, asks[n].prompt, asks[n].answer);
      RunPlus(ops, look, c);
      RunPlus(ops + [look], put, c);
      CountsPlus(ops, look);
      CountsPlus(ops + [look], put);
    }
  }

  lemma CountNothing()
    ensures Puts([]) == [] && Looks([]) == 0
  {
  }

  lemma {:induction false} LatestPutIsCall(ops: seq<Op>, tenant: string, key: string)
    ensures LatestPut(ops, tenant, key).Some? ==> Call(tenant, key, LatestPut(ops, tenant, key).value) in Puts(ops)
  {
    if ops != [] {
      LatestPutIsCall(ops[..|ops| - 1], tenant, key);
    }
  }

  /** Every reply was produced by an inner call in the same tenant, for the
      same prompt or one at least as similar as the threshold asks; inner
      calls are the misses, and every request is one lookup. */
  lemma ReplyProvenance(asks: seq<Call>, c: Config, ask: Call)
    requires ValidConfig(c)
    ensures var (after, reply) := Complete(Serve(asks, c), c, ask);
            && (exists call <- after.calls :: call.tenant == ask.tenant && call.answer == reply
                                              && (call.prompt == ask.prompt || CloseEnough(ask.prompt, call.prompt, c)))
            && |after.calls| == after.cache.stats.misses
            && after.cache.stats.lookups == |asks| + 1
  {
    hide CloseEnough, Lookup, Store, Run, Puts, LatestPut, KeysOf;
    var ops := OpsOf(asks, c);
    ServeIsRun(asks, c);
    LookupAnswers(ops, c, ask.tenant, ask.prompt);
    var (after, reply) := Complete(Serve(asks, c), c, ask);
    var found := Lookup(Run(ops, c), c, ask.tenant, ask.prompt).1;
    if found.response.Some? {
      var live := KeysOf(SlotsAfter(ops, c, ask.tenant));
      var i :| 0 <= i < |live| && (live[i] == ask.prompt || CloseEnough(ask.prompt, live[i], c))
               && found.response == LatestPut(ops, ask.tenant, live[i]);
      LatestPutIsCall(ops, ask.tenant, live[i]);
      assert Call(ask.tenant, live[i], reply) in after.calls;
    } else {
      assert ask in after.calls;
    }
    CallsAreMisses(asks + [ask], c);
    assert (asks + [ask])[..|asks|] == asks;
  }

  lemma {:induction false} CallsAreMisses(asks: seq<Call>, c: Config)
    ensures |Serve(asks, c).calls| == Serve(asks, c).cache.stats.misses
    ensures Serve(asks, c).cache.stats.lookups == |asks|
  {
    hide Match, PosOf, Touch, Fresh, Trim, Cost;
    if asks != [] {
      CallsAreMisses(asks[..|asks| - 1], c);
    }
  }

  lemma LiveAfterLook(slots: Slots, nextId: nat, c: Config, op: Op, key: string)
    requires op.Look? && NoDup(KeysOf(slots)) && key in KeysOf(slots)
    ensures key in KeysOf(StepSlots(slots, nextId, c, op))
  {
    hide StepSlots, KeysOf, TouchedBy, RemoveFirst;
    LookKeys(slots, nextId, c, op);
    var touched := TouchedBy(slots, c, op);
    if touched != [] {
      RemoveFirstKeeps(KeysOf(slots), touched[0]);
    }
  }

  lemma LiveAfterPut(slots: Slots, nextId: nat, c: Config, op: Op)
    requires op.Put? && NoDup(KeysOf(slots)) && c.cap > 0
    ensures op.key in KeysOf(StepSlots(slots, nextId, c, op))
  {
    hide StepSlots, KeysOf, RemoveFirst;
    PutKeys(slots, nextId, c, op);
    var grown := KeysOf(slots) + [op.key];
    assert Trim(grown, c.cap)[|Trim(grown, c.cap)| - 1] == op.key;
  }

  /** Asking again right away never calls the inner client. */
  lemma AskingAgainIsFree(asks: seq<Call>, c: Config, ask: Call, again: Call)
    requires ValidConfig(c) && again.tenant == ask.tenant && again.prompt == ask.prompt
    ensures var after := Complete(Serve(asks, c), c, ask).0;
            Complete(after, c, again).0.calls == after.calls
  {
    hide CloseEnough, Lookup, Store, Run, Puts, LatestPut, KeysOf, OpsOf, Looks, StepSlots;
    var (ops, ops') := (OpsOf(asks, c), OpsOf(asks + [ask], c));
    var (t, p) := (ask.tenant, ask.prompt);
    ServeIsRun(asks, c);
    ServeIsRun(asks + [ask], c);
    assert (asks + [ask])[..|asks|] == asks;
    LookupAnswers(ops, c, t, p);
    LookupAnswers(ops', c, t, p);
    WitnessStays(asks, c, ask);
  }

  lemma WitnessStays(asks: seq<Call>, c: Config, ask: Call)
    requires ValidConfig(c)
    ensures SomeMatch(KeysOf(SlotsAfter(OpsOf(asks + [ask], c), c, ask.tenant)), ask.prompt, c)
  {
    hide CloseEnough, Lookup, Store, Run, Puts, LatestPut, KeysOf, Looks, StepSlots, NoDup;
    var (t, p) := (ask.tenant, ask.prompt);
    assert (asks + [ask])[..|asks|] == asks;
    var ops := OpsOf(asks, c);
    var look, put := Look(t, p), Put(t, p, ask.answer);
    var slots := SlotsAfter(ops, c, t);
    EntriesAreCurrent(ops, c, t);
    LookupAnswers(ops, c, t, p);
    RunPlus(ops, look, c);
    StepReaches(Run(ops, c), c, look, t);
    var live := KeysOf(SlotsAfter(OpsOf(asks + [ask], c), c, t));
    if Step(Run(ops, c), c, look).1.Some? {
      var i :| 0 <= i < |KeysOf(slots)| && (KeysOf(slots)[i] == p || CloseEnough(p, KeysOf(slots)[i], c));
      LiveAfterLook(slots, Run(ops, c).nextId, c, look, KeysOf(slots)[i]);
      SomeMatchAt(live, KeysOf(slots)[i], p, c);
    } else {
      EntriesAreCurrent(ops + [look], c, t);
      RunPlus(ops + [look], put, c);
      StepReaches(Run(ops + [look], c), c, put, t);
      LiveAfterPut(SlotsAfter(ops + [look], c, t), Run(ops + [look], c).nextId, c, put);
      SomeMatchAt(live, p, p, c);
    }
  }

  /** Stands for the wrapped provider; it keeps a record of its calls. */
  class InnerClient {
    var calls: seq<Call>

    constructor ()
      ensures calls == []
    {
      calls := [];
    }

    method Complete(tenant: string, prompt: string, answer: string) returns (response: string)
      modifies this
      ensures calls == old(calls) + [Call(tenant, prompt, answer)] && response == answer
    {
      calls := calls + [Call(tenant, prompt, answer)];
      response := answer;
    }
  }

  class CachingLLMClient {
    const inner: InnerClient
    const cache: SemanticCache
    const tenant: string

    constructor (inner: InnerClient, cache: SemanticCache, tenant: string)
      ensures this.inner == inner && this.cache == cache && this.tenant == tenant
    {
      this.inner, this.cache, this.tenant := inner, cache, tenant;
    }

    ghost function Contents(): Service
      reads inner, cache
    {
      Service(cache.Contents(), inner.calls)
    }

    method CompletePrompt(prompt: string, answer: string) returns (response: string)
      requires cache.Valid()
      modifies inner, cache
      ensures cache.Valid()
      ensures (Contents(), response) == Complete(old(Contents()), cache.config, Call(tenant, prompt, answer))
    {
      hide Lookup, Store;
      var result := cache.LookupKey(tenant, prompt);
      if result.response.Some? {
        return result.response.value;
      }
      response := inner.Complete(tenant, prompt, answer);
      cache.StoreResponse(tenant, prompt, response);
    }
  }
}
