/** Hybrid retrieval: messages split into tiers by age, one priority band per
    tier, and a single stable sort by priority. Times are epoch seconds and
    priorities reals; rendered lines are taken as given. */
module Hybrid {
  import opened Common
  import opened Embeddings
  import opened BriefAssembly
  import opened Sorting

  datatype Message = Message(content: string, line: string, time: real)

  datatype PastAction = PastAction(line: string, time: real)

  datatype Tier = Warm | Mid | Cold

  datatype CutoffError = CutoffsNotOrdered

  const SUMMARY_PRIORITY := 1000000000000000000.0
  const ACTION_BAND := 1000000000000.0
  const WARM_BAND := 1000000.0
  const TIEBREAK := 0.000000000001

  /** Epoch seconds of the years a `datetime` can carry, with a day to either
      side for its time zone. */
  const EARLIEST := -62135683200.0
  const LATEST := 253402387200.0

  /** From this time on a warm message outranks every mid-range one. */
  const SAFE_TIME := (1.0 - WARM_BAND) / (1.0 - TIEBREAK)

  /** The cosine similarity of a text to the query, and the summariser, are
      taken as functions; `score` is constrained below through its square. */
  datatype Oracles = Oracles(score: string -> real, summarize: seq<Message> -> string)

  ghost predicate IsCosine(score: string -> real, query: string, content: string) {
    score(content) >= 0.0 && score(content) * score(content) == SimSq(Embedding(query), Embedding(content))
  }

  function MessageTime(m: Message): real {
    m.time
  }

  function ActionTime(a: PastAction): real {
    a.time
  }

  function Priority(s: Segment): real {
    s.priority
  }

  // ----- tiers -----

  function TierOf(m: Message, warmCutoff: real, coldCutoff: real): Tier {
    if m.time >= warmCutoff then Warm else if m.time >= coldCutoff then Mid else Cold
  }

  function InTier(messages: seq<Message>, tier: Tier, warmCutoff: real, coldCutoff: real): seq<Message> {
    if messages == [] then []
    else
      var n := |messages| - 1;
      InTier(messages[..n], tier, warmCutoff, coldCutoff)
      + if TierOf(messages[n], warmCutoff, coldCutoff) == tier then [messages[n]] else []
  }

  function Newest(messages: seq<Message>): seq<Message> {
    StableDesc(messages, MessageTime)
  }

  lemma {:induction false} InTierHas(messages: seq<Message>, t: Tier, warmCutoff: real, coldCutoff: real, m: Message)
    requires m in InTier(messages, t, warmCutoff, coldCutoff)
    ensures m in messages && TierOf(m, warmCutoff, coldCutoff) == t
  {
    var n := |messages| - 1;
    if m in InTier(messages[..n], t, warmCutoff, coldCutoff) {
      InTierHas(messages[..n], t, warmCutoff, coldCutoff, m);
    }
  }

  lemma {:induction false} InTierTakes(messages: seq<Message>, t: Tier, warmCutoff: real, coldCutoff: real, m: Message)
    requires m in messages && TierOf(m, warmCutoff, coldCutoff) == t
    ensures m in InTier(messages, t, warmCutoff, coldCutoff)
  {
    var n := |messages| - 1;
    if m in messages[..n] {
      InTierTakes(messages[..n], t, warmCutoff, coldCutoff, m);
    }
  }

  function CopiesIn(messages: seq<Message>, t: Tier, warmCutoff: real, coldCutoff: real, m: Message): nat {
    multiset(InTier(messages, t, warmCutoff, coldCutoff))[m]
  }

  lemma {:induction false} InTierConserves(messages: seq<Message>, warmCutoff: real, coldCutoff: real, m: Message)
    ensures multiset(messages)[m] == CopiesIn(messages, Warm, warmCutoff, coldCutoff, m)
                                     + CopiesIn(messages, Mid, warmCutoff, coldCutoff, m)
                                     + CopiesIn(messages, Cold, warmCutoff, coldCutoff, m)
  {
    if messages != [] {
      var n := |messages| - 1;
      InTierConserves(messages[..n], warmCutoff, coldCutoff, m);
      InTierGrows(messages, Warm, warmCutoff, coldCutoff, m);
      InTierGrows(messages, Mid, warmCutoff, coldCutoff, m);
      InTierGrows(messages, Cold, warmCutoff, coldCutoff, m);
      hide CopiesIn;
      assert messages == messages[..n] + [messages[n]];
    }
  }

  lemma InTierGrows(messages: seq<Message>, t: Tier, warmCutoff: real, coldCutoff: real, m: Message)
    requires messages != []
    ensures var n := |messages| - 1;
            CopiesIn(messages, t, warmCutoff, coldCutoff, m)
            == CopiesIn(messages[..n], t, warmCutoff, coldCutoff, m)
               + if TierOf(messages[n], warmCutoff, coldCutoff) == t && messages[n] == m then 1 else 0
  {
  }

  /** The partition loses and repeats nothing: each message is in the one list
      its age selects, and each list runs from newest to oldest. */
  lemma PartitionConserves(messages: seq<Message>, warmCutoff: real, coldCutoff: real)
    ensures var warm := Newest(InTier(messages, Warm, warmCutoff, coldCutoff));
            var mid := Newest(InTier(messages, Mid, warmCutoff, coldCutoff));
            var cold := Newest(InTier(messages, Cold, warmCutoff, coldCutoff));
            && multiset(warm) + multiset(mid) + multiset(cold) == multiset(messages)
            && (forall m <- warm :: m.time >= warmCutoff)
            && (forall m <- mid :: coldCutoff <= m.time < warmCutoff)
            && (forall m <- cold :: m.time < coldCutoff && m.time < warmCutoff)
            && Descending(warm, MessageTime) && Descending(mid, MessageTime) && Descending(cold, MessageTime)
  {
    hide InTier, StableDesc, Descending, AtKey;
    forall m: Message
      ensures multiset(messages)[m] == CopiesIn(messages, Warm, warmCutoff, coldCutoff, m)
                                       + CopiesIn(messages, Mid, warmCutoff, coldCutoff, m)
                                       + CopiesIn(messages, Cold, warmCutoff, coldCutoff, m)
    {
      InTierConserves(messages, warmCutoff, coldCutoff, m);
    }
    forall t: Tier
      ensures var s := InTier(messages, t, warmCutoff, coldCutoff);
              && Descending(Newest(s), MessageTime) && multiset(Newest(s)) == multiset(s)
              && forall m <- Newest(s) :: TierOf(m, warmCutoff, coldCutoff) == t
    {
      NewestInTier(messages, t, warmCutoff, coldCutoff);
    }
    assert Tier.Warm == Warm && Tier.Mid == Mid && Tier.Cold == Cold;
  }

  lemma NewestInTier(messages: seq<Message>, t: Tier, warmCutoff: real, coldCutoff: real)
    ensures var s := InTier(messages, t, warmCutoff, coldCutoff);
            && Descending(Newest(s), MessageTime) && multiset(Newest(s)) == multiset(s)
            && forall m <- Newest(s) :: m in messages && TierOf(m, warmCutoff, coldCutoff) == t
  {
    hide InTier, StableDesc, Descending, AtKey;
    var s := InTier(messages, t, warmCutoff, coldCutoff);
    StableDescMeaning(s, MessageTime);
    forall m | m in Newest(s)
      ensures m in messages && TierOf(m, warmCutoff, coldCutoff) == t
    {
      SortHas(s, MessageTime, m);
      InTierHas(messages, t, warmCutoff, coldCutoff, m);
    }
  }

  method PartitionMessages(messages: seq<Message>, warmCutoff: real, coldCutoff: real)
    returns (warm: seq<Message>, mid: seq<Message>, cold: seq<Message>)
    ensures warm == Newest(InTier(messages, Warm, warmCutoff, coldCutoff))
    ensures mid == Newest(InTier(messages, Mid, warmCutoff, coldCutoff))
    ensures cold == Newest(InTier(messages, Cold, warmCutoff, coldCutoff))
  {
    warm, mid, cold := [], [], [];
    for i := 0 to |messages|
      invariant warm == InTier(messages[..i], Warm, warmCutoff, coldCutoff)
      invariant mid == InTier(messages[..i], Mid, warmCutoff, coldCutoff)
      invariant cold == InTier(messages[..i], Cold, warmCutoff, coldCutoff)
    {
      assert messages[..i + 1][..i] == messages[..i];
      var time := messages[i].time;
      if time >= warmCutoff {
        warm := warm + [messages[i]];
      } else if time >= coldCutoff {
        mid := mid + [messages[i]];
      } else {
        cold := cold + [messages[i]];
      }
    }
    assert messages[..|messages|] == messages;
    warm := StableDesc(warm, MessageTime);
    mid := StableDesc(mid, MessageTime);
    cold := StableDesc(cold, MessageTime);
  }

  // ----- segments -----

  function Render(source: Source, body: string, priority: real): Segment {
    Segment(source, body, EstimateTokens(body), priority)
  }

  function ActionSegment(a: PastAction): Segment {
    Render(PriorAction, a.line, ACTION_BAND + a.time)
  }

  function WarmSegment(m: Message): Segment {
    Render(RecentMessage, m.line, WARM_BAND + m.time)
  }

  function MidPriority(m: Message, score: string -> real): real {
    score(m.content) + m.time * TIEBREAK
  }

  function MidSegment(m: Message, score: string -> real): Segment {
    Render(SemanticMatch, m.line, MidPriority(m, score))
  }

  /** The one summary segment, absent when nothing is cold or the summary is empty. */
  function SummaryPart(cold: seq<Message>, o: Oracles): seq<Segment> {
    if cold == [] || o.summarize(cold) == "" then []
    else [Render(Summary, "[summary] " + o.summarize(cold), SUMMARY_PRIORITY)]
  }

  function Latest(times: seq<real>): (t: real)
    requires times != []
    ensures exists i :: 0 <= i < |times| && times[i] == t
    ensures forall i :: 0 <= i < |times| ==> times[i] <= t
  {
    var n := |times| - 1;
    if n == 0 || times[n] > Latest(times[..n]) then times[n] else Latest(times[..n])
  }

  /** `hours` before the newest message or action. */
  function Cutoff(messages: seq<Message>, actions: seq<PastAction>, hours: int): real
    requires messages != [] || actions != []
  {
    Latest(Map(messages, MessageTime) + Map(actions, ActionTime)) - (hours * 3600) as real
  }

  function TierMessages(messages: seq<Message>, actions: seq<PastAction>, warmHours: int, coldHours: int,
                        tier: Tier): seq<Message>
    requires messages != [] || actions != []
  {
    Newest(InTier(messages, tier, Cutoff(messages, actions, warmHours), Cutoff(messages, actions, coldHours)))
  }

  /** The segments in the order they are built, before sorting. */
  function Unsorted(messages: seq<Message>, actions: seq<PastAction>, warmHours: int, coldHours: int,
                    o: Oracles): seq<Segment>
    requires messages != [] || actions != []
  {
    SummaryPart(TierMessages(messages, actions, warmHours, coldHours, Cold), o)
    + Map(actions, ActionSegment)
    + Map(TierMessages(messages, actions, warmHours, coldHours, Warm), WarmSegment)
    + Map(TierMessages(messages, actions, warmHours, coldHours, Mid), (m: Message) => MidSegment(m, o.score))
  }

  function Segments(messages: seq<Message>, actions: seq<PastAction>, warmHours: int, coldHours: int,
                    o: Oracles): Result<seq<Segment>, CutoffError>
  {
    if coldHours <= warmHours then Failure(CutoffsNotOrdered)
    else if messages == [] && actions == [] then Success([])
    else Success(StableDesc(Unsorted(messages, actions, warmHours, coldHours, o), Priority))
  }

  method HybridSegments(messages: seq<Message>, actions: seq<PastAction>, warmHours: int, coldHours: int, o: Oracles)
    returns (r: Result<seq<Segment>, CutoffError>)
    ensures r == Segments(messages, actions, warmHours, coldHours, o)
  {
    hide InTier, StableDesc, Latest;
    if coldHours <= warmHours {
      return Failure(CutoffsNotOrdered);
    }
    if messages == [] && actions == [] {
      return Success([]);
    }
    var warmCutoff, coldCutoff := Cutoff(messages, actions, warmHours), Cutoff(messages, actions, coldHours);
    var warm, mid, cold := PartitionMessages(messages, warmCutoff, coldCutoff);
    var segments := SummaryPart(cold, o);
    ghost var sum := segments;
    for i := 0 to |actions|
      invariant segments == sum + Map(actions[..i], ActionSegment)
    {
      segments := segments + [ActionSegment(actions[i])];
      MapSnoc(actions, i, ActionSegment);
    }
    assert actions[..|actions|] == actions;
    ghost var acts := segments;
    for i := 0 to |warm|
      invariant segments == acts + Map(warm[..i], WarmSegment)
    {
      segments := segments + [WarmSegment(warm[i])];
      MapSnoc(warm, i, WarmSegment);
    }
    assert warm[..|warm|] == warm;
    ghost var warms := segments;
    ghost var midSegment := (m: Message) => MidSegment(m, o.score);
    for i := 0 to |mid|
      invariant segments == warms + Map(mid[..i], midSegment)
    {
      segments := segments + [MidSegment(mid[i], o.score)];
      MapSnoc(mid, i, midSegment);
    }
    assert mid[..|mid|] == mid;
    assert segments == Unsorted(messages, actions, warmHours, coldHours, o);
    r := Success(StableDesc(segments, Priority));
  }

  lemma MapSnoc<S, T>(s: seq<S>, i: nat, f: S -> T)
    requires i < |s|
    ensures Map(s[..i + 1], f) == Map(s[..i], f) + [f(s[i])]
  {
  }

  // ----- tier order -----

  /** Times the code can be given. */
  ghost predicate Receivable(messages: seq<Message>, actions: seq<PastAction>) {
    && (forall m <- messages :: EARLIEST <= m.time <= LATEST)
    && (forall a <- actions :: EARLIEST <= a.time <= LATEST)
  }

  ghost predicate Scored(messages: seq<Message>, query: string, o: Oracles) {
    forall m <- messages :: IsCosine(o.score, query, m.content)
  }

  lemma CosineInUnit(score: string -> real, query: string, content: string)
    requires IsCosine(score, query, content)
    ensures 0.0 <= score(content) <= 1.0
  {
    hide SimSq, Embedding;
    SimilarityRange(Embedding(query), Embedding(content));
    SquareAtMostOne(score(content));
  }

  lemma SquareAtMostOne(x: real)
    requires x >= 0.0 && x * x <= 1.0
    ensures x <= 1.0
  {
    SquareGrows(x);
  }

  lemma SquareGrows(x: real)
    ensures x > 1.0 ==> x * x > 1.0
  {
    if x > 1.0 {
      assert x * x > 1.0 * x;
    }
  }

  lemma ActionsSortByTime(actions: seq<PastAction>)
    ensures StableDesc(Map(actions, ActionSegment), Priority) == Map(StableDesc(actions, ActionTime), ActionSegment)
  {
    var all := set a | a in actions;
    assert SameOrder(all, ActionSegment, ActionTime, Priority);
    SortMap(actions, ActionSegment, ActionTime, Priority, all);
  }

  lemma WarmStaysSorted(warm: seq<Message>)
    requires Descending(warm, MessageTime)
    ensures StableDesc(Map(warm, WarmSegment), Priority) == Map(warm, WarmSegment)
  {
    assert Descending(Map(warm, WarmSegment), Priority);
    SortedStays(Map(warm, WarmSegment), Priority);
  }

  lemma MidSortsByPriority(mid: seq<Message>, score: string -> real)
    ensures StableDesc(Map(mid, (m: Message) => MidSegment(m, score)), Priority)
            == Map(StableDesc(mid, (m: Message) => MidPriority(m, score)), (m: Message) => MidSegment(m, score))
  {
    var f := (m: Message) => MidSegment(m, score);
    var key := (m: Message) => MidPriority(m, score);
    var all := set m | m in mid;
    assert SameOrder(all, f, key, Priority);
    SortMap(mid, f, key, Priority, all);
  }

  lemma FourBands(a: seq<Segment>, b: seq<Segment>, c: seq<Segment>, d: seq<Segment>, ab: real, bc: real)
    requires ab >= bc
    requires (forall s <- a :: s.priority >= ab) && (forall s <- b :: ab >= s.priority >= bc)
    requires (forall s <- c :: bc >= s.priority) && (forall s <- d :: bc >= s.priority)
    requires forall s, t :: s in c && t in d ==> s.priority >= t.priority
    ensures StableDesc(a + b + c + d, Priority)
            == StableDesc(a, Priority) + StableDesc(b, Priority) + StableDesc(c, Priority) + StableDesc(d, Priority)
  {
    hide StableDesc;
    assert forall s <- a + b :: s.priority >= bc;
    BandsSortApart(a + b + c, d, Priority);
    BandsSortApart(a + b, c, Priority);
    BandsSortApart(a, b, Priority);
  }

  /** The order the bands stand for: the summary if there is one, every action
      newest first, every warm message newest first, then the mid-range
      messages by score with time as a tie-break. */
  function TierSequence(messages: seq<Message>, actions: seq<PastAction>, warmHours: int, coldHours: int,
                        o: Oracles): seq<Segment>
    requires messages != [] || actions != []
  {
    SummaryPart(TierMessages(messages, actions, warmHours, coldHours, Cold), o)
    + Map(StableDesc(actions, ActionTime), ActionSegment)
    + Map(TierMessages(messages, actions, warmHours, coldHours, Warm), WarmSegment)
    + Map(StableDesc(TierMessages(messages, actions, warmHours, coldHours, Mid), (m: Message) => MidPriority(m, o.score)),
          (m: Message) => MidSegment(m, o.score))
  }

  /** No warm message is worth less than a mid-range one. */
  ghost predicate WarmOutranksMid(warm: seq<Message>, mid: seq<Message>, score: string -> real) {
    forall w, d :: w in warm && d in mid ==> WARM_BAND + w.time >= MidPriority(d, score)
  }

  ghost predicate InTierOrder(messages: seq<Message>, actions: seq<PastAction>, warmHours: int, coldHours: int,
                              o: Oracles)
    requires messages != [] || actions != []
  {
    Segments(messages, actions, warmHours, coldHours, o)
    == Success(TierSequence(messages, actions, warmHours, coldHours, o))
  }

  /** On everything the code can be given, the output is in tier order exactly
      when no warm message is worth less than a mid-range one; the other bands
      never meet. */
  lemma TierOrder(messages: seq<Message>, actions: seq<PastAction>, warmHours: int, coldHours: int, o: Oracles,
                  query: string)
    requires warmHours < coldHours && (messages != [] || actions != [])
    requires Receivable(messages, actions) && Scored(messages, query, o)
    ensures InTierOrder(messages, actions, warmHours, coldHours, o)
            <==> WarmOutranksMid(TierMessages(messages, actions, warmHours, coldHours, Warm),
                                 TierMessages(messages, actions, warmHours, coldHours, Mid), o.score)
  {
    hide StableDesc, InTier, Latest, Descending, IsCosine, WarmOutranksMid;
    var warm := TierMessages(messages, actions, warmHours, coldHours, Warm);
    var mid := TierMessages(messages, actions, warmHours, coldHours, Mid);
    if WarmOutranksMid(warm, mid, o.score) {
      OutranksGivesOrder(messages, actions, warmHours, coldHours, o, query);
    }
    if InTierOrder(messages, actions, warmHours, coldHours, o) {
      OrderGivesOutranks(messages, actions, warmHours, coldHours, o);
    }
  }

  lemma OutranksGivesOrder(messages: seq<Message>, actions: seq<PastAction>, warmHours: int, coldHours: int, o: Oracles,
                           query: string)
    requires warmHours < coldHours && (messages != [] || actions != [])
    requires Receivable(messages, actions) && Scored(messages, query, o)
    requires WarmOutranksMid(TierMessages(messages, actions, warmHours, coldHours, Warm),
                             TierMessages(messages, actions, warmHours, coldHours, Mid), o.score)
    ensures InTierOrder(messages, actions, warmHours, coldHours, o)
  {
    hide StableDesc, InTier, Latest, Descending, IsCosine;
    var (warmCutoff, coldCutoff) := (Cutoff(messages, actions, warmHours), Cutoff(messages, actions, coldHours));
    NewestInTier(messages, Warm, warmCutoff, coldCutoff);
    NewestInTier(messages, Mid, warmCutoff, coldCutoff);
    var top := SummaryPart(TierMessages(messages, actions, warmHours, coldHours, Cold), o);
    var warm := TierMessages(messages, actions, warmHours, coldHours, Warm);
    var mid := TierMessages(messages, actions, warmHours, coldHours, Mid);
    var midSegment := (m: Message) => MidSegment(m, o.score);
    var acts, warms, mids := Map(actions, ActionSegment), Map(warm, WarmSegment), Map(mid, midSegment);
    ActionsInBand(actions);
    WarmInBand(warm);
    MidInBand(mid, query, o);
    SummaryAlone(TierMessages(messages, actions, warmHours, coldHours, Cold), o);
    WarmAboveMid(warm, mid, o.score);
    FourBands(top, acts, warms, mids, SUMMARY_PRIORITY, LOW_ACTION);
    ActionsSortByTime(actions);
    WarmStaysSorted(warm);
    MidSortsByPriority(mid, o.score);
  }

  lemma WarmAboveMid(warm: seq<Message>, mid: seq<Message>, score: string -> real)
    requires WarmOutranksMid(warm, mid, score)
    ensures forall s, t :: s in Map(warm, WarmSegment) && t in Map(mid, (m: Message) => MidSegment(m, score)) ==>
                             s.priority >= t.priority
  {
    var mids := Map(mid, (m: Message) => MidSegment(m, score));
    forall s, t | s in Map(warm, WarmSegment) && t in mids
      ensures s.priority >= t.priority
    {
      var i :| 0 <= i < |warm| && Map(warm, WarmSegment)[i] == s;
      var j :| 0 <= j < |mid| && mids[j] == t;
      assert warm[i] in warm && mid[j] in mid;
    }
  }

  lemma OrderGivesOutranks(messages: seq<Message>, actions: seq<PastAction>, warmHours: int, coldHours: int, o: Oracles)
    requires warmHours < coldHours && (messages != [] || actions != [])
    requires InTierOrder(messages, actions, warmHours, coldHours, o)
    ensures WarmOutranksMid(TierMessages(messages, actions, warmHours, coldHours, Warm),
                            TierMessages(messages, actions, warmHours, coldHours, Mid), o.score)
  {
    hide StableDesc, InTier, Latest, AtKey, SummaryPart;
    var warm := TierMessages(messages, actions, warmHours, coldHours, Warm);
    var mid := TierMessages(messages, actions, warmHours, coldHours, Mid);
    var key := (m: Message) => MidPriority(m, o.score);
    var top := SummaryPart(TierMessages(messages, actions, warmHours, coldHours, Cold), o)
               + Map(StableDesc(actions, ActionTime), ActionSegment);
    var warms := Map(warm, WarmSegment);
    var mids := Map(StableDesc(mid, key), (m: Message) => MidSegment(m, o.score));
    StableDescMeaning(Unsorted(messages, actions, warmHours, coldHours, o), Priority);
    forall w, d | w in warm && d in mid
      ensures WARM_BAND + w.time >= MidPriority(d, o.score)
    {
      SortKeeps(mid, key, d);
      var i :| 0 <= i < |warm| && warm[i] == w;
      var j :| 0 <= j < |mid| && StableDesc(mid, key)[j] == d;
      assert (top + warms + mids)[|top| + i] == WarmSegment(w);
      assert (top + warms + mids)[|top| + |warms| + j] == MidSegment(d, o.score);
    }
  }

  /** From `SAFE_TIME` on no score can bring a mid-range message above a warm one. */
  lemma SafeTimeSuffices(messages: seq<Message>, actions: seq<PastAction>, warmHours: int, coldHours: int, o: Oracles,
                         query: string)
    requires warmHours < coldHours && (messages != [] || actions != [])
    requires Receivable(messages, actions) && Scored(messages, query, o)
    requires forall w <- TierMessages(messages, actions, warmHours, coldHours, Warm) :: w.time >= SAFE_TIME
    ensures InTierOrder(messages, actions, warmHours, coldHours, o)
  {
    hide StableDesc, InTier, Latest, IsCosine, InTierOrder;
    var (warmCutoff, coldCutoff) := (Cutoff(messages, actions, warmHours), Cutoff(messages, actions, coldHours));
    NewestInTier(messages, Warm, warmCutoff, coldCutoff);
    NewestInTier(messages, Mid, warmCutoff, coldCutoff);
    var warm := TierMessages(messages, actions, warmHours, coldHours, Warm);
    var mid := TierMessages(messages, actions, warmHours, coldHours, Mid);
    forall w, d | w in warm && d in mid
      ensures WARM_BAND + w.time >= MidPriority(d, o.score)
    {
      CosineInUnit(o.score, query, d.content);
      assert d.time < w.time;
    }
    TierOrder(messages, actions, warmHours, coldHours, o, query);
  }

  /** Every input whose warm messages are no older than `t` comes out in tier order. */
  ghost predicate SafeFrom(t: real, warmHours: int, coldHours: int, o: Oracles, query: string)
    requires warmHours < coldHours
  {
    forall messages: seq<Message>, actions: seq<PastAction> ::
      (messages != [] || actions != []) && Receivable(messages, actions) && Scored(messages, query, o)
      && (forall w <- TierMessages(messages, actions, warmHours, coldHours, Warm) :: w.time >= t)
      ==> InTierOrder(messages, actions, warmHours, coldHours, o)
  }

  /** `SAFE_TIME`, in December 1969, is exactly the earliest such time. */
  lemma SafeTimeIsEarliest(t: real, warmHours: int, coldHours: int, o: Oracles, query: string)
    requires 0 <= warmHours < coldHours && SAFE_TIME + (warmHours * 3600) as real <= LATEST
    requires Embedding(query) != map[] && IsCosine(o.score, query, query)
    ensures SafeFrom(t, warmHours, coldHours, o, query) <==> t >= SAFE_TIME
  {
    if t >= SAFE_TIME {
      forall messages: seq<Message>, actions: seq<PastAction>
        | (messages != [] || actions != []) && Receivable(messages, actions) && Scored(messages, query, o)
          && (forall w <- TierMessages(messages, actions, warmHours, coldHours, Warm) :: w.time >= t)
        ensures InTierOrder(messages, actions, warmHours, coldHours, o)
      {
        SafeTimeSuffices(messages, actions, warmHours, coldHours, o, query);
      }
    } else {
      var messages := UnsafeInput(t, warmHours, coldHours, o, query);
      var actions: seq<PastAction> := [];
      assert (messages != [] || actions != []) && Receivable(messages, actions) && Scored(messages, query, o);
      assert !InTierOrder(messages, actions, warmHours, coldHours, o);
    }
  }

  /** Below `SAFE_TIME`: a warm message in December 1969 or before, and one just
      too old to be warm that repeats the query. */
  lemma UnsafeInput(t: real, warmHours: int, coldHours: int, o: Oracles, query: string) returns (messages: seq<Message>)
    requires 0 <= warmHours < coldHours && SAFE_TIME + (warmHours * 3600) as real <= LATEST
    requires Embedding(query) != map[] && IsCosine(o.score, query, query) && t < SAFE_TIME
    ensures messages != [] && Receivable(messages, []) && Scored(messages, query, o)
    ensures forall w <- TierMessages(messages, [], warmHours, coldHours, Warm) :: w.time >= t
    ensures !InTierOrder(messages, [], warmHours, coldHours, o)
  {
    hide StableDesc, InTier, Latest, IsCosine, InTierOrder, Embedding;
    var start := if t < -2000000.0 then -2000000.0 else t;
    var gap := if SAFE_TIME - start > 1.0 then 1.0 else SAFE_TIME - start;
    var r := Message(query, "", start + (warmHours * 3600) as real);
    var w, d := Message(query, "", start), Message(query, "", start - gap);
    messages := [r, w, d];
    LatestIs(Map(messages, MessageTime) + Map([], ActionTime), r.time, 0);
    var (warmCutoff, coldCutoff) := (Cutoff(messages, [], warmHours), Cutoff(messages, [], coldHours));
    assert warmCutoff == start;
    NewestInTier(messages, Warm, warmCutoff, coldCutoff);
    InTierTakes(messages, Warm, warmCutoff, coldCutoff, w);
    InTierTakes(messages, Mid, warmCutoff, coldCutoff, d);
    SortKeeps(InTier(messages, Warm, warmCutoff, coldCutoff), MessageTime, w);
    SortKeeps(InTier(messages, Mid, warmCutoff, coldCutoff), MessageTime, d);
    SelfScore(o.score, query);
    assert WARM_BAND + w.time < MidPriority(d, o.score);
    TierOrder(messages, [], warmHours, coldHours, o, query);
  }

  lemma SelfScore(score: string -> real, query: string)
    requires Embedding(query) != map[] && IsCosine(score, query, query)
    ensures score(query) == 1.0
  {
    hide SimSq, Embedding;
    EmbeddingIsEmbedded(query);
    SimilarityRange(Embedding(query), Embedding(query));
    SquareIsOne(score(query));
  }

  lemma SquareIsOne(x: real)
    requires x >= 0.0 && x * x == 1.0
    ensures x == 1.0
  {
    SquareAtMostOne(x);
    SquareShrinks(x);
  }

  lemma SquareShrinks(x: real)
    ensures 0.0 <= x < 1.0 ==> x * x < 1.0
  {
    if 0.0 <= x < 1.0 {
      assert x * x <= 1.0 * x;
    }
  }

  lemma LatestIs(times: seq<real>, t: real, i: nat)
    requires i < |times| && times[i] == t && forall j :: 0 <= j < |times| ==> times[j] <= t
    ensures Latest(times) == t
  {
    hide Latest;
  }

  lemma SummaryAlone(cold: seq<Message>, o: Oracles)
    ensures forall s <- SummaryPart(cold, o) :: s.priority >= SUMMARY_PRIORITY
    ensures StableDesc(SummaryPart(cold, o), Priority) == SummaryPart(cold, o)
  {
    SortedStays(SummaryPart(cold, o), Priority);
  }

  /** What the oldest receivable action is worth. */
  const LOW_ACTION := ACTION_BAND + EARLIEST

  lemma ActionsInBand(actions: seq<PastAction>)
    requires forall a <- actions :: EARLIEST <= a.time <= LATEST
    ensures forall s <- Map(actions, ActionSegment) :: SUMMARY_PRIORITY >= s.priority >= LOW_ACTION
  {
  }

  lemma WarmInBand(warm: seq<Message>)
    requires forall m <- warm :: EARLIEST <= m.time <= LATEST
    ensures forall s <- Map(warm, WarmSegment) :: LOW_ACTION >= s.priority
  {
  }

  lemma MidInBand(mid: seq<Message>, query: string, o: Oracles)
    requires forall m <- mid :: EARLIEST <= m.time <= LATEST && IsCosine(o.score, query, m.content)
    ensures forall s <- Map(mid, (m: Message) => MidSegment(m, o.score)) :: LOW_ACTION >= s.priority
  {
    hide IsCosine;
    forall m | m in mid
      ensures LOW_ACTION >= MidSegment(m, o.score).priority
    {
      CosineInUnit(o.score, query, m.content);
    }
  }

  /** Within the mid range a similarity gap above 1e-12 of the time gap decides
      the order, and equal similarities fall back to newest first. */
  lemma MidOrder(mid: seq<Message>, score: string -> real, i: nat, j: nat)
    requires var sorted := StableDesc(mid, (m: Message) => MidPriority(m, score));
             i < |sorted| && j < |sorted|
    ensures var sorted := StableDesc(mid, (m: Message) => MidPriority(m, score));
            && (score(sorted[i].content) - score(sorted[j].content) > TIEBREAK * (sorted[j].time - sorted[i].time) ==>
                  i < j)
            && (score(sorted[i].content) == score(sorted[j].content) && sorted[i].time > sorted[j].time ==> i < j)
  {
    hide StableDesc;
    StableDescMeaning(mid, (m: Message) => MidPriority(m, score));
  }

  /** Such an input with the default cutoffs: a message of 8 December 1969 is
      warm, and one thirty hours older is sorted before it whatever its score. */
  lemma PreEpochOutOfOrder(w: Message, d: Message, o: Oracles)
    requires w.time == -2000000.0 && d.time == -2108000.0 && o.score(d.content) >= 0.0
    ensures Segments([w, d], [], 24, 72, o) == Success([MidSegment(d, o.score), WarmSegment(w)])
  {
    hide StableDesc, Latest, InTier;
    LatestIs(Map([w, d], MessageTime) + Map([], ActionTime), w.time, 0);
    var (warmCutoff, coldCutoff) := (Cutoff([w, d], [], 24), Cutoff([w, d], [], 72));
    PairInTiers(w, d, warmCutoff, coldCutoff);
    SortOne(w, MessageTime);
    SortOne(d, MessageTime);
    var midSegment := (m: Message) => MidSegment(m, o.score);
    SortNone(MessageTime);
    assert Map([w], WarmSegment) == [WarmSegment(w)] && Map([d], midSegment) == [MidSegment(d, o.score)];
    assert Unsorted([w, d], [], 24, 72, o) == [WarmSegment(w), MidSegment(d, o.score)];
    SortTwo(WarmSegment(w), MidSegment(d, o.score), Priority);
  }

  lemma PairInTiers(w: Message, d: Message, warmCutoff: real, coldCutoff: real)
    requires TierOf(w, warmCutoff, coldCutoff) == Warm && TierOf(d, warmCutoff, coldCutoff) == Mid
    ensures InTier([w, d], Warm, warmCutoff, coldCutoff) == [w] && InTier([w, d], Mid, warmCutoff, coldCutoff) == [d]
    ensures InTier([w, d], Cold, warmCutoff, coldCutoff) == []
  {
    assert [w, d][..1] == [w];
    LoneInTier(w, warmCutoff, coldCutoff);
  }

  lemma LoneInTier(m: Message, warmCutoff: real, coldCutoff: real)
    ensures forall t :: InTier([m], t, warmCutoff, coldCutoff)
                        == if TierOf(m, warmCutoff, coldCutoff) == t then [m] else []
  {
    assert [m][..0] == [];
  }

  lemma SortNone<T>(key: T -> real)
    ensures StableDesc([], key) == []
  {
  }

  lemma SortOne<T>(x: T, key: T -> real)
    ensures StableDesc([x], key) == [x]
  {
    assert [x][..0] == [];
  }

  lemma SortTwo<T>(x: T, y: T, key: T -> real)
    requires key(y) > key(x)
    ensures StableDesc([x, y], key) == [y, x]
  {
    SortOne(x, key);
    assert [x, y][..1] == [x] && [x][..0] == [];
    assert Insert([x], y, key) == [y] + [x];
  }
}
