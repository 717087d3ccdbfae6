/** The per-tenant semantic response cache: an LRU-ordered dictionary, an
    exact-key index beside it, and a nearest-neighbour scan. */
module SemanticCaches {
  import opened Common
  import opened Embeddings

  datatype Entry = Entry(key: string, embedding: Vec, response: string, inTokens: nat, outTokens: nat, hits: nat)

  datatype Slot = Slot(id: nat, entry: Entry)

  /** One tenant's ordered dictionary, least recently used first. */
  type Slots = seq<Slot>

  datatype Config = Config(threshold: real, cap: nat, inPrice: real, outPrice: real)

  predicate ValidConfig(c: Config) {
    0.0 < c.threshold <= 1.0 && c.cap > 0
  }

  /** The threshold, squared. */
  function Gate(c: Config): real {
    c.threshold * c.threshold
  }

  datatype Kind = Exact | Near | Miss

  /** `simSq` is the square of the reported similarity. */
  datatype Found = Found(response: Option<string>, simSq: real, kind: Kind)

  datatype Stats = Stats(lookups: nat, hits: nat, misses: nat, exactHits: nat, nearHits: nat, stores: nat,
                         evictions: nat, inSaved: nat, outSaved: nat, costSaved: real)

  const NO_STATS := Stats(0, 0, 0, 0, 0, 0, 0, 0, 0, 0.0)

  /** Similarity from which a scan match is reported as exact. */
  const EXACT_SIM := 1.0 - 0.000000001

  /** The same bound on squared similarities. */
  const EXACT_GATE := EXACT_SIM * EXACT_SIM

  function Cost(inTokens: nat, outTokens: nat, c: Config): real {
    inTokens as real / 1000000.0 * c.inPrice + outTokens as real / 1000000.0 * c.outPrice
  }

  datatype Cache = Cache(store: map<string, Slots>, nextId: nat, stats: Stats)

  const EMPTY_CACHE := Cache(map[], 0, NO_STATS)

  // ----- one tenant's slots -----

  function KeysOf(slots: Slots): (keys: seq<string>)
    ensures |keys| == |slots|
    ensures forall i :: 0 <= i < |slots| ==> keys[i] == slots[i].entry.key
  {
    seq(|slots|, i requires 0 <= i < |slots| => slots[i].entry.key)
  }

  /** Where `key` is, or the length when it is absent. */
  function PosOf(slots: Slots, key: string): (i: nat)
    ensures i <= |slots|
    ensures i < |slots| ==> slots[i].entry.key == key
    ensures forall j :: 0 <= j < i ==> slots[j].entry.key != key
  {
    if slots == [] || slots[0].entry.key == key then 0 else 1 + PosOf(slots[1..], key)
  }

  /** The entry at `i`, replaced by `e`, becomes the most recently used. */
  function Touch(slots: Slots, i: nat, e: Entry): Slots
    requires i < |slots|
  {
    slots[..i] + slots[i + 1..] + [Slot(slots[i].id, e)]
  }

  /** The scan: position and squared similarity of the best match so far. */
  function Best(slots: Slots, query: Vec): (nat, real) {
    if slots == [] then (0, 0.0)
    else
      var n := |slots| - 1;
      var best := Best(slots[..n], query);
      var sim := SimSq(query, slots[n].entry.embedding);
      if sim > best.1 then (n, sim) else best
  }

  /** The scan finds the first entry in LRU order among those of maximal
      similarity, and no entry when every similarity is zero. */
  lemma {:induction false} BestIsFirstMaximal(slots: Slots, query: Vec)
    ensures var (at, sim) := Best(slots, query);
            && sim >= 0.0
            && (forall i :: 0 <= i < |slots| ==> SimSq(query, slots[i].entry.embedding) <= sim)
            && (sim > 0.0 ==>
                  && at < |slots|
                  && SimSq(query, slots[at].entry.embedding) == sim
                  && (forall i :: 0 <= i < at ==> SimSq(query, slots[i].entry.embedding) < sim))
  {
    hide SimSq;
    if slots != [] {
      BestIsFirstMaximal(slots[..|slots| - 1], query);
    }
  }

  function Served(s: Stats, e: Entry, kind: Kind, c: Config): Stats {
    s.(lookups := s.lookups + 1, hits := s.hits + 1,
       exactHits := if kind == Exact then s.exactHits + 1 else s.exactHits,
       nearHits := if kind == Exact then s.nearHits else s.nearHits + 1,
       inSaved := s.inSaved + e.inTokens, outSaved := s.outSaved + e.outTokens,
       costSaved := s.costSaved + Cost(e.inTokens, e.outTokens, c))
  }

  // ----- cache operations -----

  /** The position a lookup serves from, if any, with similarity and kind. */
  function Match(slots: Slots, key: string, c: Config): (Option<nat>, real, Kind) {
    var i := PosOf(slots, key);
    if i < |slots| then (Some(i), 1.0, Exact)
    else
      var (at, sim) := Best(slots, Embedding(key));
      if sim > 0.0 && sim >= Gate(c)
      then (Some(at), sim, if sim >= EXACT_GATE then Exact else Near)
      else (None, sim, Miss)
  }

  lemma MatchInRange(slots: Slots, key: string, c: Config)
    ensures Match(slots, key, c).0.Some? ==> Match(slots, key, c).0.value < |slots|
  {
    BestIsFirstMaximal(slots, Embedding(key));
  }

  lemma NoMatch(key: string, c: Config)
    ensures Match([], key, c) == (None, 0.0, Miss)
  {
  }

  function Lookup(cache: Cache, c: Config, tenant: string, key: string): (Cache, Found) {
    var slots := Bucket(cache.store, tenant);
    var (at, sim, kind) := Match(slots, key, c);
    MatchInRange(slots, key, c);
    if at.None? then
      (cache.(stats := cache.stats.(lookups := cache.stats.lookups + 1, misses := cache.stats.misses + 1)),
       Found(None, sim, Miss))
    else
      var e := slots[at.value].entry;
      (cache.(store := cache.store[tenant := Touch(slots, at.value, e.(hits := e.hits + 1))],
              stats := Served(cache.stats, e, kind, c)),
       Found(Some(e.response), sim, kind))
  }

  /** Drops from the front, the least recently used side, down to `cap`. */
  function Trim<T>(s: seq<T>, cap: nat): seq<T> {
    if |s| > cap then s[|s| - cap..] else s
  }

  function Fresh(key: string, response: string): Entry {
    Entry(key, Embedding(key), response, EstimateTokens(key), EstimateTokens(response), 0)
  }

  function Store(cache: Cache, c: Config, tenant: string, key: string, response: string): Cache {
    var slots := Bucket(cache.store, tenant);
    var i := PosOf(slots, key);
    if i < |slots| then
      Cache(cache.store[tenant := Touch(slots, i, slots[i].entry.(response := response, outTokens := EstimateTokens(response)))],
            cache.nextId, cache.stats.(stores := cache.stats.stores + 1))
    else
      var grown := slots + [Slot(cache.nextId, Fresh(key, response))];
      Cache(cache.store[tenant := Trim(grown, c.cap)], cache.nextId + 1,
            cache.stats.(stores := cache.stats.stores + 1,
                         evictions := cache.stats.evictions + if |grown| > c.cap then |grown| - c.cap else 0))
  }

  // ----- the exact index -----

  /** A slot is filed in the index under its key, with that key's embedding. */
  predicate Filed(slot: Slot, index: map<string, nat>, nextId: nat) {
    && slot.entry.key in index && index[slot.entry.key] == slot.id
    && slot.id < nextId
    && slot.entry.embedding == Embedding(slot.entry.key)
  }

  ghost predicate AllFiled(slots: Slots, index: map<string, nat>, nextId: nat) {
    forall i :: 0 <= i < |slots| ==> Filed(slots[i], index, nextId)
  }

  ghost predicate IdsDistinct(slots: Slots) {
    forall i, j :: 0 <= i < j < |slots| ==> slots[i].id != slots[j].id
  }

  /** Every indexed key is live. */
  ghost predicate AllLive(slots: Slots, index: map<string, nat>) {
    forall k :: k in index ==> PosOf(slots, k) < |slots|
  }

  function IndexFor(exact: map<string, map<string, nat>>, tenant: string): map<string, nat> {
    if tenant in exact then exact[tenant] else map[]
  }

  /** The index is a bijection between the live keys and their entries. */
  ghost predicate Paired(slots: Slots, index: map<string, nat>, nextId: nat) {
    AllFiled(slots, index, nextId) && IdsDistinct(slots) && AllLive(slots, index)
  }

  ghost predicate Tidy(slots: Slots, index: map<string, nat>, nextId: nat, cap: nat) {
    Paired(slots, index, nextId) && |slots| <= cap
  }

  ghost predicate AllTidy(store: map<string, Slots>, exact: map<string, map<string, nat>>, nextId: nat, cap: nat) {
    forall t :: Tidy(Bucket(store, t), IndexFor(exact, t), nextId, cap)
  }

  /** Position of the slot with this id. */
  function IndexOfId(slots: Slots, id: nat): (i: nat)
    ensures i <= |slots|
    ensures i < |slots| ==> slots[i].id == id
    ensures forall j :: 0 <= j < i ==> slots[j].id != id
  {
    if slots == [] || slots[0].id == id then 0 else 1 + IndexOfId(slots[1..], id)
  }

  lemma PosOfPresent(slots: Slots, i: nat)
    requires i < |slots|
    ensures PosOf(slots, slots[i].entry.key) < |slots|
  {
  }

  lemma PosOfAbsent(slots: Slots, key: string)
    requires forall i :: 0 <= i < |slots| ==> slots[i].entry.key != key
    ensures PosOf(slots, key) == |slots|
  {
  }

  /** Reached through the index, an id leads to the key's own position. */
  lemma IndexLeadsToKey(slots: Slots, index: map<string, nat>, nextId: nat, key: string)
    requires Paired(slots, index, nextId)
    ensures key in index <==> PosOf(slots, key) < |slots|
    ensures key in index ==> IndexOfId(slots, index[key]) == PosOf(slots, key)
  {
    hide Embedding;
    var i := PosOf(slots, key);
    if i < |slots| {
      assert Filed(slots[i], index, nextId);
      var j := IndexOfId(slots, slots[i].id);
    }
  }

  /** Where the entry now at `j` was before the touch at `i`. */
  function Source(i: nat, n: nat, j: nat): nat
    requires i < n && j < n
  {
    if j == n - 1 then i else if j < i then j else j + 1
  }

  lemma Touched(slots: Slots, i: nat, e: Entry)
    requires i < |slots| && e.key == slots[i].entry.key && e.embedding == slots[i].entry.embedding
    ensures |Touch(slots, i, e)| == |slots|
    ensures forall j :: 0 <= j < |slots| ==>
                          && Touch(slots, i, e)[j].id == slots[Source(i, |slots|, j)].id
                          && Touch(slots, i, e)[j].entry.key == slots[Source(i, |slots|, j)].entry.key
                          && Touch(slots, i, e)[j].entry.embedding == slots[Source(i, |slots|, j)].entry.embedding
  {
  }

  lemma TouchFiled(slots: Slots, index: map<string, nat>, nextId: nat, i: nat, e: Entry)
    requires AllFiled(slots, index, nextId) && i < |slots|
    requires e.key == slots[i].entry.key && e.embedding == slots[i].entry.embedding
    ensures AllFiled(Touch(slots, i, e), index, nextId)
  {
    hide Embedding, Touch;
    Touched(slots, i, e);
    forall j | 0 <= j < |slots|
      ensures Filed(Touch(slots, i, e)[j], index, nextId)
    {
      assert Filed(slots[Source(i, |slots|, j)], index, nextId);
    }
  }

  lemma TouchDistinct(slots: Slots, i: nat, e: Entry)
    requires IdsDistinct(slots) && i < |slots|
    requires e.key == slots[i].entry.key && e.embedding == slots[i].entry.embedding
    ensures IdsDistinct(Touch(slots, i, e))
  {
    hide Touch;
    Touched(slots, i, e);
    var n := |slots|;
    forall j, k | 0 <= j < k < n
      ensures Touch(slots, i, e)[j].id != Touch(slots, i, e)[k].id
    {
      assert slots[Source(i, n, j)].id != slots[Source(i, n, k)].id;
    }
  }

  lemma TouchLive(slots: Slots, index: map<string, nat>, i: nat, e: Entry)
    requires AllLive(slots, index) && i < |slots|
    requires e.key == slots[i].entry.key && e.embedding == slots[i].entry.embedding
    ensures AllLive(Touch(slots, i, e), index)
  {
    hide Touch;
    Touched(slots, i, e);
    var n := |slots|;
    forall k | k in index
      ensures PosOf(Touch(slots, i, e), k) < n
    {
      var p := PosOf(slots, k);
      var q := if p < i then p else if p == i then n - 1 else p - 1;
      assert Source(i, n, q) == p;
      PosOfPresent(Touch(slots, i, e), q);
    }
  }

  lemma TouchTidy(slots: Slots, index: map<string, nat>, nextId: nat, cap: nat, i: nat, e: Entry)
    requires Tidy(slots, index, nextId, cap) && i < |slots|
    requires e.key == slots[i].entry.key && e.embedding == slots[i].entry.embedding
    ensures Tidy(Touch(slots, i, e), index, nextId, cap)
  {
    hide AllFiled, IdsDistinct, AllLive, Touch;
    Touched(slots, i, e);
    TouchFiled(slots, index, nextId, i, e);
    TouchDistinct(slots, i, e);
    TouchLive(slots, index, i, e);
  }

  lemma AppendPaired(slots: Slots, index: map<string, nat>, nextId: nat, e: Entry)
    requires Paired(slots, index, nextId) && e.key !in index && e.embedding == Embedding(e.key)
    ensures Paired(slots + [Slot(nextId, e)], index[e.key := nextId], nextId + 1)
  {
    hide Embedding;
    var grown, index' := slots + [Slot(nextId, e)], index[e.key := nextId];
    forall j | 0 <= j < |grown|
      ensures Filed(grown[j], index', nextId + 1)
    {
      assert j < |slots| ==> Filed(slots[j], index, nextId);
    }
    assert IdsDistinct(grown) by {
      assert forall j :: 0 <= j < |slots| ==> Filed(slots[j], index, nextId);
    }
    forall k | k in index'
      ensures PosOf(grown, k) < |grown|
    {
      PosOfPresent(grown, if k == e.key then |slots| else PosOf(slots, k));
    }
  }

  lemma PopPaired(slots: Slots, index: map<string, nat>, nextId: nat)
    requires slots != [] && Paired(slots, index, nextId)
    ensures slots[0].entry.key in index && index[slots[0].entry.key] == slots[0].id
    ensures Paired(slots[1..], index - {slots[0].entry.key}, nextId)
  {
    hide Embedding;
    var rest, index' := slots[1..], index - {slots[0].entry.key};
    assert Filed(slots[0], index, nextId);
    forall j | 0 <= j < |rest|
      ensures Filed(rest[j], index', nextId)
    {
      assert Filed(slots[j + 1], index, nextId) && slots[0].id != slots[j + 1].id;
    }
    assert IdsDistinct(rest);
    forall k | k in index'
      ensures PosOf(rest, k) < |rest|
    {
      PosOfPresent(rest, PosOf(slots, k) - 1);
    }
  }

  lemma TidyLater(slots: Slots, index: map<string, nat>, nextId: nat, cap: nat, nextId': nat)
    requires Tidy(slots, index, nextId, cap) && nextId <= nextId'
    ensures Tidy(slots, index, nextId', cap)
  {
    hide Embedding;
    forall i | 0 <= i < |slots|
      ensures Filed(slots[i], index, nextId')
    {
      assert Filed(slots[i], index, nextId);
    }
  }

  lemma AllTidyUpdate(store: map<string, Slots>, exact: map<string, map<string, nat>>, nextId: nat, cap: nat,
                      tenant: string, slots: Slots, index: map<string, nat>, nextId': nat)
    requires AllTidy(store, exact, nextId, cap) && nextId <= nextId'
    requires Tidy(slots, index, nextId', cap)
    ensures AllTidy(store[tenant := slots], exact[tenant := index], nextId', cap)
    ensures IndexFor(exact, tenant) == index ==> AllTidy(store[tenant := slots], exact, nextId', cap)
  {
    forall t: string
      ensures Tidy(Bucket(store[tenant := slots], t), IndexFor(exact[tenant := index], t), nextId', cap)
      ensures IndexFor(exact, tenant) == index ==>
                Tidy(Bucket(store[tenant := slots], t), IndexFor(exact, t), nextId', cap)
    {
      assert Tidy(Bucket(store, t), IndexFor(exact, t), nextId, cap);
      TidyLater(Bucket(store, t), IndexFor(exact, t), nextId, cap, nextId');
    }
  }

  class SemanticCache {
    const config: Config
    var store: map<string, Slots>
    var exact: map<string, map<string, nat>>
    var nextId: nat
    var stats: Stats

    ghost function Contents(): Cache
      reads this
    {
      Cache(store, nextId, stats)
    }

    ghost predicate Valid()
      reads this
    {
      ValidConfig(config) && AllTidy(store, exact, nextId, config.cap)
    }

    constructor (c: Config)
      requires ValidConfig(c)
      ensures Valid() && config == c && Contents() == EMPTY_CACHE
    {
      config := c;
      store, exact, nextId, stats := map[], map[], 0, NO_STATS;
    }

    method LookupKey(tenant: string, key: string) returns (r: Found)
      requires Valid()
      modifies this
      ensures Valid()
      ensures (Contents(), r) == Lookup(old(Contents()), config, tenant, key)
    {
      hide Embedding, SimSq, AllTidy, Tidy, Paired, Touch, Cost, Best, PosOf, Gate, IndexOfId;
      stats := stats.(lookups := stats.lookups + 1);
      var slots := Bucket(store, tenant);
      if slots == [] {
        stats := stats.(misses := stats.misses + 1);
        NoMatch(key, config);
        return Found(None, 0.0, Miss);
      }
      TenantTidy(tenant);
      IndexLeadsToKey(slots, IndexFor(exact, tenant), nextId, key);
      if key in IndexFor(exact, tenant) {
        r := RecordHit(tenant, IndexFor(exact, tenant)[key], 1.0, Exact);
        return;
      }
      var best, sim := Scan(slots, key);
      BestIsFirstMaximal(slots, Embedding(key));
      if sim > 0.0 && sim >= Gate(config) {
        DistinctIds(slots, IndexFor(exact, tenant), nextId, best);
        r := RecordHit(tenant, slots[best].id, sim, if sim >= EXACT_GATE then Exact else Near);
        return;
      }
      stats := stats.(misses := stats.misses + 1);
      r := Found(None, sim, Miss);
    }

    lemma TenantTidy(tenant: string)
      requires Valid()
      ensures Paired(Bucket(store, tenant), IndexFor(exact, tenant), nextId)
      ensures Tidy(Bucket(store, tenant), IndexFor(exact, tenant), nextId, config.cap)
      ensures forall i :: 0 <= i < |Bucket(store, tenant)| ==>
                            Bucket(store, tenant)[i].entry.embedding == Embedding(Bucket(store, tenant)[i].entry.key)
    {
      hide Embedding;
      assert Tidy(Bucket(store, tenant), IndexFor(exact, tenant), nextId, config.cap);
      forall i | 0 <= i < |Bucket(store, tenant)|
        ensures Filed(Bucket(store, tenant)[i], IndexFor(exact, tenant), nextId)
      {
      }
    }

    /** The nearest-neighbour loop over the tenant's entries, oldest use first. */
    method Scan(slots: Slots, key: string) returns (best: nat, bestSim: real)
      requires forall i :: 0 <= i < |slots| ==> slots[i].entry.embedding == Embedding(slots[i].entry.key)
      ensures (best, bestSim) == Best(slots, Embedding(key))
    {
      hide SimSq;
      var query := Embed(key);
      EmbeddingIsEmbedded(key);
      best, bestSim := 0, 0.0;
      for i := 0 to |slots|
        invariant (best, bestSim) == Best(slots[..i], query)
      {
        assert slots[..i + 1][..i] == slots[..i];
        EmbeddingIsEmbedded(slots[i].entry.key);
        var sim := CosineSquared(query, slots[i].entry.embedding);
        if sim > bestSim {
          best, bestSim := i, sim;
        }
      }
      assert slots[..|slots|] == slots;
    }

    /** `ns[id] = e; ns.move_to_end(id)` for the entry at position `i`. */
    method Promote(tenant: string, i: nat, e: Entry)
      requires Valid() && i < |Bucket(store, tenant)|
      requires e.key == Bucket(store, tenant)[i].entry.key
      requires e.embedding == Bucket(store, tenant)[i].entry.embedding
      modifies this`store
      ensures Valid()
      ensures store == old(store)[tenant := Touch(old(Bucket(store, tenant)), i, e)]
    {
      hide Embedding, Paired, AllTidy, Tidy;
      var slots := Bucket(store, tenant);
      ghost var index := IndexFor(exact, tenant);
      TenantTidy(tenant);
      TouchTidy(slots, index, nextId, config.cap, i, e);
      AllTidyUpdate(store, exact, nextId, config.cap, tenant, Touch(slots, i, e), index, nextId);
      store := store[tenant := slots[..i] + slots[i + 1..] + [Slot(slots[i].id, e)]];
    }

    method RecordHit(tenant: string, id: nat, simSq: real, kind: Kind) returns (r: Found)
      requires Valid() && kind != Miss && stats.lookups > 0
      requires IndexOfId(Bucket(store, tenant), id) < |Bucket(store, tenant)|
      modifies this`store, this`stats
      ensures Valid()
      ensures var slots := old(Bucket(store, tenant));
              var i := IndexOfId(slots, id);
              var e := slots[i].entry;
              && store == old(store)[tenant := Touch(slots, i, e.(hits := e.hits + 1))]
              && stats == Served(old(stats).(lookups := old(stats).lookups - 1), e, kind, config)
              && r == Found(Some(e.response), simSq, kind)
    {
      hide AllTidy, Cost, Touch;
      var i := IndexOfId(Bucket(store, tenant), id);
      var e := Bucket(store, tenant)[i].entry;
      Promote(tenant, i, e.(hits := e.hits + 1));
      stats := stats.(hits := stats.hits + 1);
      if kind == Exact {
        stats := stats.(exactHits := stats.exactHits + 1);
      } else {
        stats := stats.(nearHits := stats.nearHits + 1);
      }
      stats := stats.(inSaved := stats.inSaved + e.inTokens, outSaved := stats.outSaved + e.outTokens,
      costSaved := stats.costSaved + Cost(e.inTokens, e.outTokens, config));
      r := Found(Some(e.response), simSq, kind);
    }

    method StoreResponse(tenant: string, key: string, response: string)
      requires Valid()
      modifies this
      ensures Valid()
      ensures Contents() == Store(old(Contents()), config, tenant, key, response)
    {
      hide Embedding, Paired, AllTidy, Tidy, Touch, Trim;
      var slots, index := Bucket(store, tenant), IndexFor(exact, tenant);
      TenantTidy(tenant);
      IndexLeadsToKey(slots, index, nextId, key);
      if key in index {
        var i := IndexOfId(slots, index[key]);
        Promote(tenant, i, slots[i].entry.(response := response, outTokens := EstimateTokens(response)));
        stats := stats.(stores := stats.stores + 1);
        return;
      }
      var id := nextId;
      nextId := nextId + 1;
      var vec := Embed(key);
      var e := Entry(key, vec, response, EstimateTokens(key), EstimateTokens(response), 0);
      AppendPaired(slots, index, id, e);
      stats := stats.(stores := stats.stores + 1);
      EvictIfNeeded(tenant, slots + [Slot(id, e)], index[key := id], id);
    }

    /** Pops least recently used entries until the tenant is back under its cap. */
    method EvictIfNeeded(tenant: string, grown: Slots, index: map<string, nat>, ghost was: nat)
      requires ValidConfig(config) && AllTidy(store, exact, was, config.cap) && was <= nextId
      requires Paired(grown, index, nextId)
      modifies this`store, this`exact, this`stats
      ensures Valid()
      ensures store == old(store)[tenant := Trim(grown, config.cap)]
      ensures stats == old(stats).(evictions := old(stats).evictions + if |grown| > config.cap then |grown| - config.cap else 0)
    {
      hide Embedding, Paired, AllTidy;
      var slots, index := grown, index;
      while |slots| > config.cap
        invariant |slots| <= |grown| && slots == grown[|grown| - |slots|..]
        invariant |slots| < |grown| ==> |slots| >= config.cap
        invariant Paired(slots, index, nextId)
        invariant store == old(store) && exact == old(exact)
        invariant stats == old(stats).(evictions := old(stats).evictions + |grown| - |slots|)
      {
        PopPaired(slots, index, nextId);
        var evicted := slots[0];
        slots := slots[1..];
        if evicted.entry.key in index && index[evicted.entry.key] == evicted.id {
          index := index - {evicted.entry.key};
        }
        stats := stats.(evictions := stats.evictions + 1);
      }
      AllTidyUpdate(store, exact, was, config.cap, tenant, slots, index, nextId);
      store, exact := store[tenant := slots], exact[tenant := index];
    }
  }

  lemma DistinctIds(slots: Slots, index: map<string, nat>, nextId: nat, i: nat)
    requires Paired(slots, index, nextId)
    ensures i < |slots| ==> IndexOfId(slots, slots[i].id) == i
  {
    hide AllFiled, AllLive;
  }
}
