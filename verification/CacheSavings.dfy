/** What the cache reports it saved, summed up from the operations of a run and
    the answers they got. */
module CacheSavings {
  import opened Common
  import opened Embeddings
  import opened SemanticCaches
  import opened CacheRuns

  // ----- the prompt a lookup is served from -----

  /** The live prompt at `i` is the nearest to `key`, and the first such. */
  ghost predicate Nearest(live: seq<string>, key: string, i: nat) {
    && i < |live|
    && (forall j :: 0 <= j < |live| ==> SimSq(Embedding(key), Embedding(live[j])) <= SimSq(Embedding(key), Embedding(live[i])))
    && (forall j :: 0 <= j < i ==> SimSq(Embedding(key), Embedding(live[j])) < SimSq(Embedding(key), Embedding(live[i])))
  }

  /** The prompt itself when it is live, else the first of the nearest ones. */
  ghost predicate SourceOf(live: seq<string>, key: string, prompt: string) {
    if key in live then prompt == key else exists i: nat :: Nearest(live, key, i) && live[i] == prompt
  }

  lemma OneSource(live: seq<string>, key: string, one: string, other: string)
    requires SourceOf(live, key, one) && SourceOf(live, key, other)
    ensures one == other
  {
    hide SimSq, Embedding;
    if key !in live {
      var i: nat :| Nearest(live, key, i) && live[i] == one;
      var j: nat :| Nearest(live, key, j) && live[j] == other;
    }
  }

  lemma MatchIsSource(slots: Slots, key: string, c: Config)
    requires forall i :: 0 <= i < |slots| ==> slots[i].entry.embedding == Embedding(slots[i].entry.key)
    ensures var (at, sim, kind) := Match(slots, key, c);
            at.Some? ==>
              && at.value < |slots|
              && SourceOf(KeysOf(slots), key, slots[at.value].entry.key)
              && sim == if key in KeysOf(slots) then 1.0 else SimSq(Embedding(key), Embedding(slots[at.value].entry.key))
  {
    hide Embedding, SimSq, Gate;
    PosOfIffKey(slots, key);
    BestIsFirstMaximal(slots, Embedding(key));
    var (at, sim) := Best(slots, Embedding(key));
    if key !in KeysOf(slots) && Match(slots, key, c).0.Some? {
      assert Nearest(KeysOf(slots), key, at) by {
        assert forall i :: 0 <= i < |slots| ==> Embedding(KeysOf(slots)[i]) == slots[i].entry.embedding;
      }
    }
  }

  /** An answered lookup is served from that prompt, with its latest response
      and its similarity. */
  lemma LookupSource(ops: seq<Op>, c: Config, tenant: string, key: string)
    requires ValidConfig(c)
    ensures var live := KeysOf(SlotsAfter(ops, c, tenant));
            var found := Lookup(Run(ops, c), c, tenant, key).1;
            found.response.Some? ==>
              exists prompt ::
                && SourceOf(live, key, prompt)
                && found.response == LatestPut(ops, tenant, prompt)
                && found.simSq == (if key in live then 1.0 else SimSq(Embedding(key), Embedding(prompt)))
  {
    hide Embedding, SimSq, Run, LatestPut, Touch, Match, SourceOf, Served;
    var slots := SlotsAfter(ops, c, tenant);
    EntriesAreCurrent(ops, c, tenant);
    assert forall i :: 0 <= i < |slots| ==> Current(slots[i].entry, ops, tenant);
    MatchIsSource(slots, key, c);
    MatchInRange(slots, key, c);
  }

  /** A miss reports the similarity of the nearest live prompt, zero for none. */
  lemma MissReportsNearest(ops: seq<Op>, c: Config, tenant: string, key: string)
    requires ValidConfig(c)
    ensures var live := KeysOf(SlotsAfter(ops, c, tenant));
            var found := Lookup(Run(ops, c), c, tenant, key).1;
            found.response.None? ==>
              && found.kind == Miss
              && (found.simSq == 0.0 || exists i :: 0 <= i < |live| && found.simSq == SimSq(Embedding(key), Embedding(live[i])))
              && (forall i :: 0 <= i < |live| ==> SimSq(Embedding(key), Embedding(live[i])) <= found.simSq)
  {
    hide Embedding, SimSq, Run, LatestPut, Touch, Served, Gate;
    var slots := SlotsAfter(ops, c, tenant);
    EntriesAreCurrent(ops, c, tenant);
    assert forall i :: 0 <= i < |slots| ==> Current(slots[i].entry, ops, tenant);
    BestIsFirstMaximal(slots, Embedding(key));
    var (at, sim) := Best(slots, Embedding(key));
    forall i | 0 <= i < |slots|
      ensures SimSq(Embedding(key), Embedding(KeysOf(slots)[i])) <= sim
      ensures sim > 0.0 && i == at ==> SimSq(Embedding(key), Embedding(KeysOf(slots)[i])) == sim
    {
      assert slots[i].entry.embedding == Embedding(KeysOf(slots)[i]);
    }
  }

  /** The squared bounds say what the plain ones say. */
  lemma BoundsUnsquared(c: Config, sim: real)
    requires ValidConfig(c) && sim >= 0.0
    ensures sim * sim >= Gate(c) <==> sim >= c.threshold
    ensures sim * sim >= EXACT_GATE <==> sim >= 0.999999999
  {
    SquaresKeepOrder(sim, sim, c.threshold);
    SquaresKeepOrder(sim, sim, 0.999999999);
  }

  // ----- sums -----

  /** What each operation was answered, in order. */
  function Answers(ops: seq<Op>, c: Config): (r: seq<Option<string>>)
    ensures |r| == |ops|
  {
    if ops == [] then []
    else
      var n := |ops| - 1;
      Answers(ops[..n], c) + [Step(Run(ops[..n], c), c, ops[n]).1]
  }

  /** The prompts, one for each operation, that answered lookups were served from. */
  ghost predicate Sources(ops: seq<Op>, c: Config, prompts: seq<Option<string>>) {
    && |prompts| == |ops|
    && (forall n :: 0 <= n < |ops| ==> SourceAt(ops, c, n, prompts[n]))
  }

  ghost predicate SourceAt(ops: seq<Op>, c: Config, n: nat, prompt: Option<string>)
    requires n < |ops|
  {
    && (prompt.Some? <==> Answers(ops, c)[n].Some?)
    && (prompt.Some? ==> SourceOf(KeysOf(SlotsAfter(ops[..n], c, ops[n].tenant)), ops[n].key, prompt.value))
  }

  lemma OneSources(ops: seq<Op>, c: Config, one: seq<Option<string>>, other: seq<Option<string>>)
    requires Sources(ops, c, one) && Sources(ops, c, other)
    ensures one == other
  {
    hide SourceOf;
    forall n | 0 <= n < |ops|
      ensures one[n] == other[n]
    {
      assert SourceAt(ops, c, n, one[n]) && SourceAt(ops, c, n, other[n]);
      if one[n].Some? {
        OneSource(KeysOf(SlotsAfter(ops[..n], c, ops[n].tenant)), ops[n].key, one[n].value, other[n].value);
      }
    }
  }

  /** A token is four characters, rounded down text by text. */
  function Tokens(texts: seq<Option<string>>): nat {
    if texts == [] then 0
    else
      var last := texts[|texts| - 1];
      Tokens(texts[..|texts| - 1]) + if last.Some? then |last.value| / 4 else 0
  }

  lemma TokensPlus(texts: seq<Option<string>>, text: Option<string>)
    ensures Tokens(texts + [text]) == Tokens(texts) + if text.Some? then |text.value| / 4 else 0
  {
    assert (texts + [text])[..|texts|] == texts;
  }

  lemma SourcesPlus(ops: seq<Op>, c: Config, prompts: seq<Option<string>>, prompt: Option<string>)
    requires ops != [] && Sources(ops[..|ops| - 1], c, prompts) && SourceAt(ops, c, |ops| - 1, prompt)
    ensures Sources(ops, c, prompts + [prompt])
  {
    hide SourceOf, Step, SlotsAfter;
    var front := ops[..|ops| - 1];
    forall n | 0 <= n < |ops|
      ensures SourceAt(ops, c, n, (prompts + [prompt])[n])
    {
      if n < |front| {
        assert SourceAt(front, c, n, prompts[n]);
        assert front[..n] == ops[..n];
      }
    }
  }

  /** One operation's part in the savings. */
  lemma StepSaves(ops: seq<Op>, c: Config, op: Op) returns (prompt: Option<string>)
    requires ValidConfig(c)
    ensures var (s, answer) := (Run(ops, c).stats, Step(Run(ops, c), c, op).1);
            var next := Step(Run(ops, c), c, op).0.stats;
            && (prompt.Some? <==> answer.Some?)
            && (prompt.Some? ==> SourceOf(KeysOf(SlotsAfter(ops, c, op.tenant)), op.key, prompt.value))
            && next.inSaved == s.inSaved + (if prompt.Some? then |prompt.value| / 4 else 0)
            && next.outSaved == s.outSaved + if answer.Some? then |answer.value| / 4 else 0
  {
    hide Embedding, SimSq, Run, LatestPut, Touch, Match, SourceOf, Fresh, Trim, Cost, PosOf;
    prompt := None;
    if op.Look? {
      var slots := SlotsAfter(ops, c, op.tenant);
      EntriesAreCurrent(ops, c, op.tenant);
      assert forall i :: 0 <= i < |slots| ==> Current(slots[i].entry, ops, op.tenant);
      MatchIsSource(slots, op.key, c);
      MatchInRange(slots, op.key, c);
      var at := Match(slots, op.key, c).0;
      if at.Some? {
        prompt := Some(slots[at.value].entry.key);
      }
    }
  }

  lemma {:induction false} SumsTell(ops: seq<Op>, c: Config) returns (prompts: seq<Option<string>>)
    requires ValidConfig(c)
    ensures Sources(ops, c, prompts)
    ensures Run(ops, c).stats.inSaved == Tokens(prompts)
    ensures Run(ops, c).stats.outSaved == Tokens(Answers(ops, c))
  {
    hide Step, SourceOf, SlotsAfter, Tokens;
    if ops == [] {
      prompts := [];
      NoTokens();
    } else {
      var n := |ops| - 1;
      var front := SumsTell(ops[..n], c);
      var prompt := StepSaves(ops[..n], c, ops[n]);
      prompts := front + [prompt];
      assert SourceAt(ops, c, n, prompt);
      SourcesPlus(ops, c, front, prompt);
      TokensPlus(front, prompt);
      TokensPlus(Answers(ops[..n], c), Step(Run(ops[..n], c), c, ops[n]).1);
    }
  }

  lemma NoTokens()
    ensures Tokens([]) == 0
  {
  }

  /** The saved output tokens are those of the answers given, the saved input
      tokens those of the live prompts they were served from, and the saved
      cost their price at so much a million. */
  lemma SavingsTell(ops: seq<Op>, c: Config) returns (prompts: seq<Option<string>>)
    requires ValidConfig(c)
    ensures Sources(ops, c, prompts)
    ensures var s := Run(ops, c).stats;
            && s.inSaved == Tokens(prompts) && s.outSaved == Tokens(Answers(ops, c))
            && s.costSaved == Tokens(prompts) as real / 1000000.0 * c.inPrice
                              + Tokens(Answers(ops, c)) as real / 1000000.0 * c.outPrice
  {
    hide Run, Sources, Tokens, Answers;
    CountersTell(ops, c);
    prompts := SumsTell(ops, c);
  }

  /** Entries are conserved: what a store adds is live or counted as evicted,
      and nothing else is evicted or comes and goes. */
  lemma EvictionsBalance(ops: seq<Op>, c: Config, op: Op)
    requires c.cap > 0
    ensures var (now, later) := (SlotsAfter(ops, c, op.tenant), SlotsAfter(ops + [op], c, op.tenant));
            |later| + Run(ops + [op], c).stats.evictions
            == |now| + Run(ops, c).stats.evictions + if op.Put? && op.key !in KeysOf(now) then 1 else 0
  {
    hide Match, Served, Fresh;
    RunPlus(ops, op, c);
    var slots := SlotsAfter(ops, c, op.tenant);
    PosOfIffKey(slots, op.key);
    if op.Look? {
      MatchInRange(slots, op.key, c);
      ServedEvictsNothing(Run(ops, c).stats, c);
    }
  }

  lemma ServedEvictsNothing(s: Stats, c: Config)
    ensures forall e, kind :: Served(s, e, kind, c).evictions == s.evictions
  {
    hide Cost;
  }
}
