/** What a hybrid brief contains, counted off its input: the summary of the cold
    tail, and one segment for each action and each warm or mid-range message. */
module HybridContents {
  import opened Common
  import opened BriefAssembly
  import opened Sorting
  import opened Hybrid

  // ----- counting -----

  function Count<T>(s: seq<T>, p: T -> bool): nat {
    if s == [] then 0 else Count(s[..|s| - 1], p) + if p(s[|s| - 1]) then 1 else 0
  }

  lemma {:induction false} CountAppend<T>(a: seq<T>, b: seq<T>, p: T -> bool)
    ensures Count(a + b, p) == Count(a, p) + Count(b, p)
  {
    if b == [] {
      assert a + b == a;
    } else {
      var n := |b| - 1;
      assert (a + b)[..|a| + n] == a + b[..n];
      CountAppend(a, b[..n], p);
    }
  }

  lemma {:induction false} CountInsert<T>(s: seq<T>, x: T, key: T -> real, p: T -> bool)
    ensures Count(Insert(s, x, key), p) == Count(s, p) + if p(x) then 1 else 0
  {
    if s == [] {
      assert [x][..0] == [];
    } else {
      var n := |s| - 1;
      if key(s[n]) >= key(x) {
        assert (s + [x])[..|s|] == s;
      } else {
        CountInsert(s[..n], x, key, p);
        var t := Insert(s[..n], x, key);
        assert (t + [s[n]])[..|t|] == t;
      }
    }
  }

  /** Sorting changes no count. */
  lemma {:induction false} CountSorted<T>(s: seq<T>, key: T -> real, p: T -> bool)
    ensures Count(StableDesc(s, key), p) == Count(s, p)
  {
    hide Insert;
    if s != [] {
      CountSorted(s[..|s| - 1], key, p);
      CountInsert(StableDesc(s[..|s| - 1], key), s[|s| - 1], key, p);
    }
  }

  /** A mapped list is counted by what its elements are mapped to. */
  lemma {:induction false} CountMapped<S, T>(s: seq<S>, f: S -> T, p: T -> bool, q: S -> bool)
    requires forall x <- s :: p(f(x)) == q(x)
    ensures Count(Map(s, f), p) == Count(s, q)
  {
    if s != [] {
      var n := |s| - 1;
      assert s == s[..n] + [s[n]];
      assert Map(s, f)[..n] == Map(s[..n], f);
      CountMapped(s[..n], f, p, q);
    }
  }

  lemma {:induction false} CountNone<T>(s: seq<T>, p: T -> bool)
    requires forall x <- s :: !p(x)
    ensures Count(s, p) == 0
  {
    if s != [] {
      assert s == s[..|s| - 1] + [s[|s| - 1]];
      CountNone(s[..|s| - 1], p);
    }
  }

  lemma {:induction false} CountTier(messages: seq<Message>, t: Tier, warmCutoff: real, coldCutoff: real,
                                     p: Message -> bool, q: Message -> bool)
    requires forall m <- messages :: q(m) == (p(m) && TierOf(m, warmCutoff, coldCutoff) == t)
    ensures Count(InTier(messages, t, warmCutoff, coldCutoff), p) == Count(messages, q)
  {
    if messages != [] {
      var n := |messages| - 1;
      assert messages == messages[..n] + [messages[n]];
      CountTier(messages[..n], t, warmCutoff, coldCutoff, p, q);
      var last := if TierOf(messages[n], warmCutoff, coldCutoff) == t then [messages[n]] else [];
      CountAppend(InTier(messages[..n], t, warmCutoff, coldCutoff), last, p);
      assert [messages[n]][..0] == [];
    }
  }

  // ----- the reference time -----

  /** The newest time among messages and actions. */
  ghost predicate IsNewest(t: real, messages: seq<Message>, actions: seq<PastAction>) {
    && ((exists m :: m in messages && m.time == t) || (exists a :: a in actions && a.time == t))
    && (forall m <- messages :: m.time <= t) && (forall a <- actions :: a.time <= t)
  }

  lemma CutoffIs(t: real, messages: seq<Message>, actions: seq<PastAction>, hours: int)
    requires IsNewest(t, messages, actions)
    ensures messages != [] || actions != []
    ensures Cutoff(messages, actions, hours) == t - hours as real * 3600.0
  {
    hide Latest;
    var times := Map(messages, MessageTime) + Map(actions, ActionTime);
    if m :| m in messages && m.time == t {
      var i :| 0 <= i < |messages| && messages[i] == m;
      assert times[i] == t;
    } else {
      var a :| a in actions && a.time == t;
      var i :| 0 <= i < |actions| && actions[i] == a;
      assert times[|messages| + i] == t;
    }
    var k :| 0 <= k < |times| && times[k] == t;
    LatestIs(times, t, k);
  }

  // ----- what each segment stands for -----

  /** Segments of one source with this text, its estimate and this priority. */
  function Reading(source: Source, line: string, priority: real): Segment -> bool {
    (s: Segment) => s.source == source && s.body == line && s.tokenEstimate == |line| / 4 && s.priority == priority
  }

  /** Actions with this line that the action band gives this priority. */
  function ActionsReading(line: string, priority: real): PastAction -> bool {
    (a: PastAction) => a.line == line && priority == 1000000000000.0 + a.time
  }

  /** Messages no older than `from`, in the warm band. */
  function WarmReading(line: string, priority: real, from: real): Message -> bool {
    (m: Message) => m.line == line && priority == 1000000.0 + m.time && m.time >= from
  }

  /** Messages older than `to` but no older than `from`, by score. */
  function MidReading(line: string, priority: real, from: real, to: real, score: string -> real): Message -> bool {
    (m: Message) =>
      m.line == line && priority == score(m.content) + m.time * 0.000000000001 && from <= m.time < to
  }

  lemma CountParts(messages: seq<Message>, actions: seq<PastAction>, warmHours: int, coldHours: int, o: Oracles,
                   out: seq<Segment>, p: Segment -> bool)
    requires messages != [] || actions != []
    requires Segments(messages, actions, warmHours, coldHours, o) == Success(out)
    ensures Count(out, p) ==
            Count(SummaryPart(TierMessages(messages, actions, warmHours, coldHours, Cold), o), p)
            + Count(Map(actions, ActionSegment), p)
            + Count(Map(TierMessages(messages, actions, warmHours, coldHours, Warm), WarmSegment), p)
            + Count(Map(TierMessages(messages, actions, warmHours, coldHours, Mid), (m: Message) => MidSegment(m, o.score)), p)
  {
    hide StableDesc, InTier, Latest, Count, TierMessages, SummaryPart;
    var a := SummaryPart(TierMessages(messages, actions, warmHours, coldHours, Cold), o);
    var b := Map(actions, ActionSegment);
    var c := Map(TierMessages(messages, actions, warmHours, coldHours, Warm), WarmSegment);
    var d := Map(TierMessages(messages, actions, warmHours, coldHours, Mid), (m: Message) => MidSegment(m, o.score));
    CountSorted(a + b + c + d, Priority, p);
    CountAppend(a + b + c, d, p);
    CountAppend(a + b, c, p);
    CountAppend(a, b, p);
  }

  lemma OtherSource(part: seq<Segment>, source: Source, line: string, priority: real)
    requires forall s <- part :: s.source != source
    ensures Count(part, Reading(source, line, priority)) == 0
  {
    CountNone(part, Reading(source, line, priority));
  }

  lemma PartSources(messages: seq<Message>, actions: seq<PastAction>, o: Oracles)
    ensures forall s <- SummaryPart(messages, o) :: s.source == Summary
    ensures forall s <- Map(actions, ActionSegment) :: s.source == PriorAction
    ensures forall s <- Map(messages, WarmSegment) :: s.source == RecentMessage
    ensures forall s <- Map(messages, (m: Message) => MidSegment(m, o.score)) :: s.source == SemanticMatch
  {
  }

  /** Every action has its own segment, as often as it has copies. */
  lemma ActionsCounted(messages: seq<Message>, actions: seq<PastAction>, warmHours: int, coldHours: int, o: Oracles,
                       out: seq<Segment>, line: string, priority: real)
    requires Segments(messages, actions, warmHours, coldHours, o) == Success(out)
    ensures Count(out, Reading(PriorAction, line, priority)) == Count(actions, ActionsReading(line, priority))
  {
    hide StableDesc, InTier, Latest, Count, TierMessages, SummaryPart, Segments;
    if messages == [] && actions == [] {
      NothingIn(warmHours, coldHours, o, out, Reading(PriorAction, line, priority));
      CountNone(actions, ActionsReading(line, priority));
    } else {
      var p := Reading(PriorAction, line, priority);
      CountParts(messages, actions, warmHours, coldHours, o, out, p);
      PartSources(TierMessages(messages, actions, warmHours, coldHours, Cold), actions, o);
      PartSources(TierMessages(messages, actions, warmHours, coldHours, Warm), actions, o);
      PartSources(TierMessages(messages, actions, warmHours, coldHours, Mid), actions, o);
      OtherSource(SummaryPart(TierMessages(messages, actions, warmHours, coldHours, Cold), o), PriorAction, line, priority);
      OtherSource(Map(TierMessages(messages, actions, warmHours, coldHours, Warm), WarmSegment), PriorAction, line, priority);
      OtherSource(Map(TierMessages(messages, actions, warmHours, coldHours, Mid), (m: Message) => MidSegment(m, o.score)),
                  PriorAction, line, priority);
      CountMapped(actions, ActionSegment, p, ActionsReading(line, priority));
    }
  }

  lemma NothingIn(warmHours: int, coldHours: int, o: Oracles, out: seq<Segment>, p: Segment -> bool)
    requires Segments([], [], warmHours, coldHours, o) == Success(out)
    ensures out == [] && Count(out, p) == 0
  {
  }

  /** Every warm message has its own segment, as often as it has copies. */
  lemma WarmCounted(messages: seq<Message>, actions: seq<PastAction>, warmHours: int, coldHours: int, o: Oracles,
                    newest: real, out: seq<Segment>, line: string, priority: real)
    requires IsNewest(newest, messages, actions)
    requires Segments(messages, actions, warmHours, coldHours, o) == Success(out)
    ensures Count(out, Reading(RecentMessage, line, priority))
            == Count(messages, WarmReading(line, priority, newest - warmHours as real * 3600.0))
  {
    hide StableDesc, InTier, Latest, Count, SummaryPart, Segments;
    CutoffIs(newest, messages, actions, warmHours);
    var p, q := Reading(RecentMessage, line, priority), WarmReading(line, priority, newest - warmHours as real * 3600.0);
    var (warm, warmFrom, midFrom) := (TierMessages(messages, actions, warmHours, coldHours, Warm),
                                      Cutoff(messages, actions, warmHours), Cutoff(messages, actions, coldHours));
    CountParts(messages, actions, warmHours, coldHours, o, out, p);
    PartSources(TierMessages(messages, actions, warmHours, coldHours, Cold), actions, o);
    PartSources(TierMessages(messages, actions, warmHours, coldHours, Mid), actions, o);
    OtherSource(SummaryPart(TierMessages(messages, actions, warmHours, coldHours, Cold), o), RecentMessage, line, priority);
    OtherSource(Map(actions, ActionSegment), RecentMessage, line, priority);
    OtherSource(Map(TierMessages(messages, actions, warmHours, coldHours, Mid), (m: Message) => MidSegment(m, o.score)),
                RecentMessage, line, priority);
    var r := (m: Message) => p(WarmSegment(m));
    CountMapped(warm, WarmSegment, p, r);
    CountSorted(InTier(messages, Warm, warmFrom, midFrom), MessageTime, r);
    forall m | m in messages
      ensures q(m) == (r(m) && TierOf(m, warmFrom, midFrom) == Warm)
    {
      var s := WarmSegment(m);
      assert r(m) == p(s);
      assert s.source == RecentMessage && s.body == m.line && s.tokenEstimate == |m.line| / 4 && s.priority == 1000000.0 + m.time;
      assert p(s) <==> m.line == line && priority == 1000000.0 + m.time;
    }
    CountTier(messages, Warm, warmFrom, midFrom, r, q);
  }

  /** Every mid-range message has its own segment, as often as it has copies. */
  lemma MidCounted(messages: seq<Message>, actions: seq<PastAction>, warmHours: int, coldHours: int, o: Oracles,
                   newest: real, out: seq<Segment>, line: string, priority: real)
    requires IsNewest(newest, messages, actions)
    requires Segments(messages, actions, warmHours, coldHours, o) == Success(out)
    ensures Count(out, Reading(SemanticMatch, line, priority))
            == Count(messages, MidReading(line, priority, newest - coldHours as real * 3600.0,
                                          newest - warmHours as real * 3600.0, o.score))
  {
    hide StableDesc, InTier, Latest, Count, SummaryPart, Segments;
    CutoffIs(newest, messages, actions, warmHours);
    CutoffIs(newest, messages, actions, coldHours);
    var p, q := Reading(SemanticMatch, line, priority),
    MidReading(line, priority, newest - coldHours as real * 3600.0, newest - warmHours as real * 3600.0, o.score);
    var (mid, warmFrom, midFrom) := (TierMessages(messages, actions, warmHours, coldHours, Mid),
                                     Cutoff(messages, actions, warmHours), Cutoff(messages, actions, coldHours));
    CountParts(messages, actions, warmHours, coldHours, o, out, p);
    PartSources(TierMessages(messages, actions, warmHours, coldHours, Cold), actions, o);
    PartSources(TierMessages(messages, actions, warmHours, coldHours, Warm), actions, o);
    OtherSource(SummaryPart(TierMessages(messages, actions, warmHours, coldHours, Cold), o), SemanticMatch, line, priority);
    OtherSource(Map(actions, ActionSegment), SemanticMatch, line, priority);
    OtherSource(Map(TierMessages(messages, actions, warmHours, coldHours, Warm), WarmSegment), SemanticMatch, line, priority);
    var r := (m: Message) => p(MidSegment(m, o.score));
    CountMapped(mid, (m: Message) => MidSegment(m, o.score), p, r);
    CountSorted(InTier(messages, Mid, warmFrom, midFrom), MessageTime, r);
    CountTier(messages, Mid, warmFrom, midFrom, r, q);
  }

  // ----- the cold tail -----

  /** `cold` holds the messages older than `from`, newest first, and those of
      one time in the order they came. */
  ghost predicate ColdTail(cold: seq<Message>, messages: seq<Message>, from: real) {
    && Descending(cold, MessageTime)
    && (forall v: real :: AtKey(cold, MessageTime, v) == if v < from then AtKey(messages, MessageTime, v) else [])
  }

  lemma {:induction false} AtKeyHas<T>(s: seq<T>, key: T -> real, v: real)
    ensures AtKey(s, key, v) != [] <==> exists x :: x in s && key(x) == v
  {
    if s != [] {
      AtKeyHas(s[..|s| - 1], key, v);
      assert s == s[..|s| - 1] + [s[|s| - 1]];
    }
  }

  lemma LastLeast<T>(s: seq<T>, key: T -> real)
    requires s != [] && Descending(s, key)
    ensures forall x <- s :: key(x) >= key(s[|s| - 1])
  {
  }

  /** A list in descending order is told by its sublists of equal keys. */
  lemma {:induction false} DescendingTold<T>(s: seq<T>, t: seq<T>, key: T -> real)
    requires Descending(s, key) && Descending(t, key)
    requires forall v: real :: AtKey(s, key, v) == AtKey(t, key, v)
    ensures s == t
    decreases |s|
  {
    if s == [] || t == [] {
      if s != [] {
        AtKeyHas(s, key, key(s[0]));
        AtKeyHas(t, key, key(s[0]));
      }
      if t != [] {
        AtKeyHas(t, key, key(t[0]));
        AtKeyHas(s, key, key(t[0]));
      }
    } else {
      SameLast(s, t, key, key(s[|s| - 1]), key(t[|t| - 1]));
      var (s', t', x) := (s[..|s| - 1], t[..|t| - 1], s[|s| - 1]);
      assert s == s' + [x] && t == t' + [x];
      DescendingFront(s, key);
      DescendingFront(t, key);
      forall v: real
        ensures AtKey(s', key, v) == AtKey(t', key, v)
      {
        assert AtKey(s, key, v) == AtKey(t, key, v);
        var last := if key(x) == v then [x] else [];
        SameFront(AtKey(s', key, v), AtKey(t', key, v), last);
      }
      DescendingTold(s', t', key);
    }
  }

  lemma SameFront<T>(a: seq<T>, b: seq<T>, last: seq<T>)
    ensures a + last == b + last ==> a == b
  {
    if a + last == b + last {
      assert a == (a + last)[..|a + last| - |last|];
      assert b == (b + last)[..|b + last| - |last|];
    }
  }

  lemma LastOfKey<T>(s: seq<T>, key: T -> real)
    requires s != []
    ensures var all := AtKey(s, key, key(s[|s| - 1])); all != [] && all[|all| - 1] == s[|s| - 1]
  {
  }

  lemma NoKeyBelow<T>(s: seq<T>, key: T -> real, v: real)
    requires s != [] && Descending(s, key) && AtKey(s, key, v) != []
    ensures v >= key(s[|s| - 1])
  {
    hide Descending, AtKey;
    AtKeyHas(s, key, v);
    LastLeast(s, key);
  }

  lemma SameLast<T>(s: seq<T>, t: seq<T>, key: T -> real, v: real, w: real)
    requires s != [] && t != [] && Descending(s, key) && Descending(t, key)
    requires v == key(s[|s| - 1]) && w == key(t[|t| - 1])
    requires AtKey(s, key, v) == AtKey(t, key, v) && AtKey(s, key, w) == AtKey(t, key, w)
    ensures s[|s| - 1] == t[|t| - 1]
  {
    hide Descending, AtKey;
    LastOfKey(s, key);
    LastOfKey(t, key);
    NoKeyBelow(s, key, w);
    NoKeyBelow(t, key, v);
  }

  lemma {:induction false} AtKeyCold(messages: seq<Message>, warmCutoff: real, coldCutoff: real, v: real)
    requires coldCutoff <= warmCutoff
    ensures AtKey(InTier(messages, Cold, warmCutoff, coldCutoff), MessageTime, v)
            == if v < coldCutoff then AtKey(messages, MessageTime, v) else []
  {
    if messages != [] {
      var n := |messages| - 1;
      AtKeyCold(messages[..n], warmCutoff, coldCutoff, v);
      var front := InTier(messages[..n], Cold, warmCutoff, coldCutoff);
      if TierOf(messages[n], warmCutoff, coldCutoff) == Cold {
        assert (front + [messages[n]])[..|front|] == front;
      } else {
        assert front + [] == front;
      }
    }
  }

  /** There is one such list, and it is what the summariser is given. */
  lemma ColdTailIs(messages: seq<Message>, actions: seq<PastAction>, warmHours: int, coldHours: int, newest: real,
                   cold: seq<Message>)
    requires warmHours < coldHours && IsNewest(newest, messages, actions)
    requires messages != [] || actions != []
    ensures ColdTail(cold, messages, newest - coldHours as real * 3600.0)
            <==> cold == TierMessages(messages, actions, warmHours, coldHours, Cold)
  {
    hide StableDesc, InTier, Latest, AtKey, Descending;
    CutoffIs(newest, messages, actions, warmHours);
    CutoffIs(newest, messages, actions, coldHours);
    var (warmFrom, midFrom) := (Cutoff(messages, actions, warmHours), Cutoff(messages, actions, coldHours));
    var tail := TierMessages(messages, actions, warmHours, coldHours, Cold);
    StableDescMeaning(InTier(messages, Cold, warmFrom, midFrom), MessageTime);
    forall v: real
      ensures AtKey(tail, MessageTime, v) == if v < midFrom then AtKey(messages, MessageTime, v) else []
    {
      AtKeyCold(messages, warmFrom, midFrom, v);
    }
    if ColdTail(cold, messages, midFrom) {
      DescendingTold(cold, tail, MessageTime);
    }
  }

  lemma ColdTailNonEmpty(cold: seq<Message>, messages: seq<Message>, from: real)
    requires ColdTail(cold, messages, from)
    ensures cold != [] <==> exists m :: m in messages && m.time < from
  {
    hide AtKey, Descending;
    if cold != [] {
      var v := cold[0].time;
      AtKeyHas(cold, MessageTime, v);
      AtKeyHas(messages, MessageTime, v);
      assert cold[0] in cold && MessageTime(cold[0]) == v;
    }
    forall m | m in messages && m.time < from
      ensures cold != []
    {
      AtKeyHas(messages, MessageTime, m.time);
      AtKeyHas(cold, MessageTime, m.time);
      assert MessageTime(m) == m.time;
    }
  }

  function IsSummary(): Segment -> bool {
    (s: Segment) => s.source == Summary
  }

  lemma SummaryCounted(messages: seq<Message>, actions: seq<PastAction>, warmHours: int, coldHours: int, o: Oracles,
                       out: seq<Segment>)
    requires messages != [] || actions != []
    requires Segments(messages, actions, warmHours, coldHours, o) == Success(out)
    ensures var cold := TierMessages(messages, actions, warmHours, coldHours, Cold);
            Count(out, IsSummary()) == if cold != [] && o.summarize(cold) != "" then 1 else 0
  {
    hide StableDesc, InTier, Latest, TierMessages, Segments;
    var p := IsSummary();
    CountParts(messages, actions, warmHours, coldHours, o, out, p);
    PartSources(TierMessages(messages, actions, warmHours, coldHours, Warm), actions, o);
    PartSources(TierMessages(messages, actions, warmHours, coldHours, Mid), actions, o);
    CountNone(Map(actions, ActionSegment), p);
    CountNone(Map(TierMessages(messages, actions, warmHours, coldHours, Warm), WarmSegment), p);
    CountNone(Map(TierMessages(messages, actions, warmHours, coldHours, Mid), (m: Message) => MidSegment(m, o.score)), p);
    OneOrNone(SummaryPart(TierMessages(messages, actions, warmHours, coldHours, Cold), o), p);
  }

  lemma OneOrNone<T>(s: seq<T>, p: T -> bool)
    requires |s| <= 1 && forall x <- s :: p(x)
    ensures Count(s, p) == |s|
  {
  }

  lemma BandsBelow(actions: seq<PastAction>, warm: seq<Message>, mid: seq<Message>, o: Oracles, query: string)
    requires forall a <- actions :: EARLIEST <= a.time <= LATEST
    requires forall m <- warm :: EARLIEST <= m.time <= LATEST
    requires forall m <- mid :: EARLIEST <= m.time <= LATEST && IsCosine(o.score, query, m.content)
    ensures forall s <- Map(actions, ActionSegment) :: s.source != Summary && s.priority <= SUMMARY_PRIORITY
    ensures forall s <- Map(warm, WarmSegment) :: s.source != Summary && s.priority <= SUMMARY_PRIORITY
    ensures forall s <- Map(mid, (m: Message) => MidSegment(m, o.score)) ::
              s.source != Summary && s.priority <= SUMMARY_PRIORITY
  {
    hide IsCosine, Map;
    ActionsInBand(actions);
    WarmInBand(warm);
    MidInBand(mid, query, o);
    PartSources(warm, actions, o);
    PartSources(mid, actions, o);
  }

  lemma AllThree<T>(a: seq<T>, b: seq<T>, c: seq<T>, p: T -> bool)
    requires (forall x <- a :: p(x)) && (forall x <- b :: p(x)) && (forall x <- c :: p(x))
    ensures forall x <- a + b + c :: p(x)
  {
  }

  lemma TierReceivable(messages: seq<Message>, actions: seq<PastAction>, warmHours: int, coldHours: int, o: Oracles,
                       query: string, t: Tier)
    requires (messages != [] || actions != []) && Receivable(messages, actions) && Scored(messages, query, o)
    ensures forall m <- TierMessages(messages, actions, warmHours, coldHours, t) ::
              EARLIEST <= m.time <= LATEST && IsCosine(o.score, query, m.content)
  {
    hide StableDesc, InTier, Latest, IsCosine, Descending;
    NewestInTier(messages, t, Cutoff(messages, actions, warmHours), Cutoff(messages, actions, coldHours));
  }

  /** What can be given ranks below the summary. */
  lemma RestBelow(messages: seq<Message>, actions: seq<PastAction>, warmHours: int, coldHours: int, o: Oracles,
                  query: string) returns (rest: seq<Segment>)
    requires messages != [] || actions != []
    requires Receivable(messages, actions) && Scored(messages, query, o)
    ensures Unsorted(messages, actions, warmHours, coldHours, o)
            == SummaryPart(TierMessages(messages, actions, warmHours, coldHours, Cold), o) + rest
    ensures forall s <- rest :: s.source != Summary && s.priority <= SUMMARY_PRIORITY
  {
    hide TierMessages, IsCosine, SummaryPart, Map;
    var (warm, mid) := (TierMessages(messages, actions, warmHours, coldHours, Warm),
                        TierMessages(messages, actions, warmHours, coldHours, Mid));
    TierReceivable(messages, actions, warmHours, coldHours, o, query, Warm);
    TierReceivable(messages, actions, warmHours, coldHours, o, query, Mid);
    BandsBelow(actions, warm, mid, o, query);
    var mids := Map(mid, (m: Message) => MidSegment(m, o.score));
    rest := Map(actions, ActionSegment) + Map(warm, WarmSegment) + mids;
    AllThree(Map(actions, ActionSegment), Map(warm, WarmSegment), mids,
             (s: Segment) => s.source != Summary && s.priority <= SUMMARY_PRIORITY);
  }

  lemma SummaryOnTop(messages: seq<Message>, actions: seq<PastAction>, warmHours: int, coldHours: int, o: Oracles,
                     query: string, out: seq<Segment>)
    requires messages != [] || actions != []
    requires Segments(messages, actions, warmHours, coldHours, o) == Success(out)
    requires Receivable(messages, actions) && Scored(messages, query, o)
    ensures var top := SummaryPart(TierMessages(messages, actions, warmHours, coldHours, Cold), o);
            top <= out && forall i :: |top| <= i < |out| ==> out[i].source != Summary
  {
    hide StableDesc, Unsorted, TierMessages, SummaryPart, Receivable, Scored;
    var top := SummaryPart(TierMessages(messages, actions, warmHours, coldHours, Cold), o);
    var rest := RestBelow(messages, actions, warmHours, coldHours, o, query);
    SummaryAlone(TierMessages(messages, actions, warmHours, coldHours, Cold), o);
    BandsSortApart(top, rest, Priority);
    forall s | s in StableDesc(rest, Priority)
      ensures s.source != Summary
    {
      SortHas(rest, Priority, s);
    }
  }

  /** When some message is older than the cold cutoff and the summariser has
      something to say of those messages, newest first, that comes first, under
      its heading, and once. Otherwise there is no summary. */
  lemma SummaryFirst(messages: seq<Message>, actions: seq<PastAction>, warmHours: int, coldHours: int, o: Oracles,
                     query: string, newest: real, cold: seq<Message>, out: seq<Segment>)
    requires IsNewest(newest, messages, actions) && ColdTail(cold, messages, newest - coldHours as real * 3600.0)
    requires Segments(messages, actions, warmHours, coldHours, o) == Success(out)
    ensures var told := (exists m :: m in messages && m.time < newest - coldHours as real * 3600.0) && o.summarize(cold) != "";
            && Count(out, IsSummary()) == (if told then 1 else 0)
            && (told && Receivable(messages, actions) && Scored(messages, query, o) ==>
                  && out != [] && out[0].source == Summary
                  && out[0].body == "[summary] " + o.summarize(cold)
                  && out[0].tokenEstimate == |"[summary] " + o.summarize(cold)| / 4
                  && forall i :: 0 < i < |out| ==> out[i].source != Summary)
  {
    hide StableDesc, InTier, Latest, IsCosine, Receivable, Scored, Count, ColdTail, TierMessages;
    CutoffIs(newest, messages, actions, coldHours);
    ColdTailIs(messages, actions, warmHours, coldHours, newest, cold);
    ColdTailNonEmpty(cold, messages, newest - coldHours as real * 3600.0);
    SummaryCounted(messages, actions, warmHours, coldHours, o, out);
    if Receivable(messages, actions) && Scored(messages, query, o) {
      SummaryOnTop(messages, actions, warmHours, coldHours, o, query, out);
    }
  }

  /** Every segment is charged a quarter of its text, and priorities descend. */
  lemma ChargedAndRanked(messages: seq<Message>, actions: seq<PastAction>, warmHours: int, coldHours: int, o: Oracles,
                         out: seq<Segment>)
    requires Segments(messages, actions, warmHours, coldHours, o) == Success(out)
    ensures forall s <- out :: s.tokenEstimate == |s.body| / 4
    ensures forall i, j :: 0 <= i < j < |out| ==> out[i].priority >= out[j].priority
  {
    hide StableDesc, InTier, Latest, TierMessages;
    if messages != [] || actions != [] {
      var all := Unsorted(messages, actions, warmHours, coldHours, o);
      StableDescMeaning(all, Priority);
      forall s | s in out
        ensures s.tokenEstimate == |s.body| / 4
      {
        SortHas(all, Priority, s);
      }
      forall i, j | 0 <= i < j < |out|
        ensures out[i].priority >= out[j].priority
      {
        assert Priority(out[i]) >= Priority(out[j]);
      }
    }
  }
}
