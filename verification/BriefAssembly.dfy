/** The brief assembler: greedy, order-preserving packing of segments under a
    token budget, with a defensive trim of the joined text. */
module BriefAssembly {
  import opened Common

  datatype Source = Summary | PriorAction | RecentMessage | SemanticMatch

  datatype Segment = Segment(source: Source, body: string, tokenEstimate: nat, priority: real)

  datatype BudgetError = NonPositiveBudget

  const NEWLINE_TOKEN_COST: nat := 1

  /** `"\n".join(parts)` */
  function Join(parts: seq<string>): string {
    if parts == [] then ""
    else if |parts| == 1 then parts[0]
    else Join(parts[..|parts| - 1]) + "\n" + parts[|parts| - 1]
  }

  /** `text.split("\n")` */
  function Lines(text: string): (r: seq<string>)
    ensures r != []
  {
    if text == "" then [""]
    else
      var n := |text| - 1;
      var front := Lines(text[..n]);
      if text[n] == '\n' then front + [""] else front[..|front| - 1] + [front[|front| - 1] + [text[n]]]
  }

  lemma {:induction false} LinesTail(text: string, line: string)
    requires '\n' !in line
    ensures Lines(text + "\n" + line) == Lines(text) + [line]
  {
    if line == "" {
      var t := text + "\n";
      assert t + "" == t && t[..|t| - 1] == text;
    } else {
      var n := |line| - 1;
      var t := text + "\n" + line;
      LinesTail(text, line[..n]);
      assert t[..|t| - 1] == text + "\n" + line[..n] && t[|t| - 1] == line[n];
      assert line[..n] + [line[n]] == line;
    }
  }

  lemma {:induction false} LinesWhole(line: string)
    requires '\n' !in line
    ensures Lines(line) == [line]
  {
    if line != "" {
      var n := |line| - 1;
      LinesWhole(line[..n]);
      assert line[..n] + [line[n]] == line;
    }
  }

  /** The join can be taken apart again: splitting it at the newlines gives back
      the parts, in order, when each is one line. */
  lemma {:induction false} JoinSplits(parts: seq<string>)
    requires parts != [] && forall p <- parts :: '\n' !in p
    ensures Lines(Join(parts)) == parts
  {
    var n := |parts| - 1;
    assert parts[n] in parts && parts == parts[..n] + [parts[n]];
    if n == 0 {
      LinesWhole(parts[0]);
    } else {
      JoinSplits(parts[..n]);
      LinesTail(Join(parts[..n]), parts[n]);
    }
  }

  lemma JoinPlus(parts: seq<string>, part: string)
    ensures Join(parts + [part]) == if parts == [] then part else Join(parts) + "\n" + part
  {
    assert (parts + [part])[..|parts|] == parts;
  }

  /** Whatever the parts hold, two joins are joined by one newline. */
  lemma {:induction false} JoinConcat(one: seq<string>, other: seq<string>)
    requires one != [] && other != []
    ensures Join(one + other) == Join(one) + "\n" + Join(other)
  {
    hide Join;
    var n := |other| - 1;
    var front, last := other[..n], other[n];
    assert other == front + [last];
    JoinPlus(front, last);
    JoinPlus(one + front, last);
    assert one + other == (one + front) + [last];
    if n == 0 {
      assert one + front == one;
    } else {
      JoinConcat(one, front);
      assert Join(one) + "\n" + Join(front) + "\n" + last == Join(one) + "\n" + (Join(front) + "\n" + last);
    }
  }

  predicate Fits(parts: seq<string>, budget: nat) {
    EstimateTokens(Join(parts)) <= budget
  }

  // ----- selections -----

  function SegmentCost(s: Segment): nat {
    s.tokenEstimate + NEWLINE_TOKEN_COST
  }

  /** What the segments chosen by `mask` are charged. */
  function Spent(segments: seq<Segment>, mask: seq<bool>): nat
    requires |mask| == |segments|
  {
    if mask == [] then 0
    else
      var n := |mask| - 1;
      Spent(segments[..n], mask[..n]) + if mask[n] then SegmentCost(segments[n]) else 0
  }

  /** The chosen segments' bodies, in the caller's order. */
  function Chosen(segments: seq<Segment>, mask: seq<bool>): seq<string>
    requires |mask| == |segments|
  {
    if mask == [] then []
    else
      var n := |mask| - 1;
      Chosen(segments[..n], mask[..n]) + if mask[n] then [segments[n].body] else []
  }

  /** The loop's choice with `room` tokens: a segment too large for what is left
      is skipped, and later ones are still tried. */
  function Greedy(segments: seq<Segment>, room: nat): (mask: seq<bool>)
    ensures |mask| == |segments|
  {
    if segments == [] then []
    else
      var n := |segments| - 1;
      var mask := Greedy(segments[..n], room);
      mask + [Spent(segments[..n], mask) + SegmentCost(segments[n]) <= room]
  }

  lemma {:induction false} GreedyFits(segments: seq<Segment>, room: nat)
    ensures Spent(segments, Greedy(segments, room)) <= room
  {
    if segments != [] {
      var n := |segments| - 1;
      GreedyFits(segments[..n], room);
      assert Greedy(segments, room)[..n] == Greedy(segments[..n], room);
    }
  }

  /** One turn of the loop. */
  lemma GreedyTurn(segments: seq<Segment>, i: nat, room: nat)
    requires i < |segments|
    ensures var (mask, cost) := (Greedy(segments[..i], room), SegmentCost(segments[i]));
            var keep := Spent(segments[..i], mask) + cost <= room;
            && Greedy(segments[..i + 1], room) == mask + [keep]
            && Spent(segments[..i + 1], Greedy(segments[..i + 1], room))
               == Spent(segments[..i], mask) + (if keep then cost else 0)
            && Chosen(segments[..i + 1], Greedy(segments[..i + 1], room))
               == Chosen(segments[..i], mask) + (if keep then [segments[i].body] else [])
  {
    assert segments[..i + 1][..i] == segments[..i];
    assert Greedy(segments[..i + 1], room)[..i] == Greedy(segments[..i], room);
  }

  lemma {:induction false} GreedyPrefix(segments: seq<Segment>, room: nat, k: nat)
    requires k <= |segments|
    ensures Greedy(segments, room)[..k] == Greedy(segments[..k], room)
    decreases |segments|
  {
    if k == |segments| {
      assert segments[..k] == segments;
    } else {
      var n := |segments| - 1;
      GreedyPrefix(segments[..n], room, k);
      assert segments[..n][..k] == segments[..k];
      assert Greedy(segments, room)[..n] == Greedy(segments[..n], room);
      assert Greedy(segments, room)[..k] == Greedy(segments, room)[..n][..k];
    }
  }

  lemma {:induction false} SpentGrows(segments: seq<Segment>, mask: seq<bool>, k: nat)
    requires |mask| == |segments| && k <= |mask|
    ensures Spent(segments[..k], mask[..k]) <= Spent(segments, mask)
  {
    if k == |mask| {
      assert segments[..k] == segments && mask[..k] == mask;
    } else {
      var n := |mask| - 1;
      SpentGrows(segments[..n], mask[..n], k);
      assert segments[..n][..k] == segments[..k] && mask[..n][..k] == mask[..k];
    }
  }

  /** Where two selections of the same segments first differ. */
  function FirstDifference(one: seq<bool>, other: seq<bool>): (d: nat)
    requires |one| == |other| && one != other
    ensures d < |one| && one[d] != other[d] && one[..d] == other[..d]
  {
    if one[0] != other[0] then 0 else 1 + FirstDifference(one[1..], other[1..])
  }

  /** Among all selections that fit, the greedy one is lexicographically first:
      where any other fitting selection first departs from it, greedy keeps the
      segment and the other drops it. */
  lemma GreedyIsFirst(segments: seq<Segment>, room: nat, mask: seq<bool>)
    requires |mask| == |segments| && Spent(segments, mask) <= room
    ensures Spent(segments, Greedy(segments, room)) <= room
    ensures mask != Greedy(segments, room) ==>
              Greedy(segments, room)[FirstDifference(Greedy(segments, room), mask)]
  {
    hide Greedy;
    GreedyFits(segments, room);
    var greedy := Greedy(segments, room);
    if mask != greedy {
      var d := FirstDifference(greedy, mask);
      GreedyPrefix(segments, room, d);
      GreedyPrefix(segments, room, d + 1);
      GreedyTurn(segments, d, room);
      assert greedy[..d + 1][d] == greedy[d];
      SpentGrows(segments, mask, d + 1);
      SpentSplit(segments, mask, d);
    }
  }

  lemma SpentSplit(segments: seq<Segment>, mask: seq<bool>, d: nat)
    requires |mask| == |segments| && d < |mask|
    ensures Spent(segments[..d + 1], mask[..d + 1])
            == Spent(segments[..d], mask[..d]) + if mask[d] then SegmentCost(segments[d]) else 0
  {
    assert segments[..d + 1][..d] == segments[..d] && mask[..d + 1][..d] == mask[..d];
  }

  // ----- the budget bound -----

  function Charged(parts: seq<string>): nat {
    if parts == [] then 0
    else Charged(parts[..|parts| - 1]) + EstimateTokens(parts[|parts| - 1]) + NEWLINE_TOKEN_COST
  }

  /** Charging each part its own floor plus one covers the floor of the whole. */
  lemma {:induction false} JoinIsCharged(parts: seq<string>)
    ensures EstimateTokens(Join(parts)) <= Charged(parts)
    ensures parts != [] ==> |Join(parts)| + 1 <= 4 * Charged(parts)
  {
    if parts != [] {
      JoinIsCharged(parts[..|parts| - 1]);
    }
  }

  lemma ChargedPlus(parts: seq<string>, part: string)
    ensures Charged(parts + [part]) == Charged(parts) + EstimateTokens(part) + NEWLINE_TOKEN_COST
  {
    hide EstimateTokens;
    assert (parts + [part])[..|parts|] == parts;
  }

  lemma {:induction false} ChargedConcat(one: seq<string>, other: seq<string>)
    ensures Charged(one + other) == Charged(one) + Charged(other)
  {
    hide EstimateTokens;
    if other == [] {
      assert one + other == one;
    } else {
      var n := |other| - 1;
      ChargedConcat(one, other[..n]);
      assert (one + other)[..|one| + n] == one + other[..n];
    }
  }

  lemma {:induction false} ChosenIsCharged(segments: seq<Segment>, mask: seq<bool>)
    requires |mask| == |segments|
    requires forall s <- segments :: s.tokenEstimate >= EstimateTokens(s.body)
    ensures Charged(Chosen(segments, mask)) <= Spent(segments, mask)
  {
    hide EstimateTokens, Charged;
    if mask == [] {
      assert Charged([]) == 0 by {
        ChargedNothing();
      }
    } else {
      var n := |mask| - 1;
      assert segments[n] in segments;
      ChosenIsCharged(segments[..n], mask[..n]);
      ChargedPlus(Chosen(segments[..n], mask[..n]), segments[n].body);
      assert Chosen(segments[..n], mask[..n]) + [] == Chosen(segments[..n], mask[..n]);
    }
  }

  lemma ChargedNothing()
    ensures Charged([]) == 0
  {
  }

  // ----- the trim -----

  /** The trim loop: pops parts off the end until the join fits. */
  function TrimToFit(parts: seq<string>, budget: nat): seq<string> {
    if !Fits(parts, budget) && parts != [] then TrimToFit(parts[..|parts| - 1], budget) else parts
  }

  /** The trim ends within budget, at the longest prefix that fits. */
  lemma {:induction false} TrimIsLongestFit(parts: seq<string>, budget: nat)
    ensures TrimToFit(parts, budget) <= parts
    ensures Fits(TrimToFit(parts, budget), budget)
    ensures forall k :: |TrimToFit(parts, budget)| < k <= |parts| ==> !Fits(parts[..k], budget)
  {
    if !Fits(parts, budget) && parts != [] {
      var n := |parts| - 1;
      TrimIsLongestFit(parts[..n], budget);
      forall k | |TrimToFit(parts, budget)| < k <= |parts|
        ensures !Fits(parts[..k], budget)
      {
        if k == |parts| {
          assert parts[..k] == parts;
        } else {
          assert parts[..n][..k] == parts[..k];
        }
      }
    }
  }

  // ----- packing -----

  /** The header goes first when it is not empty and fits on its own. */
  function HeaderParts(header: Option<string>, budget: nat): seq<string> {
    if header.Some? && header.value != "" && EstimateTokens(header.value) + NEWLINE_TOKEN_COST <= budget
    then [header.value] else []
  }

  /** The parts selected before any trimming. */
  function Parts(segments: seq<Segment>, budget: nat, header: Option<string>): seq<string> {
    var top := HeaderParts(header, budget);
    HeaderFits(header, budget);
    top + Chosen(segments, Greedy(segments, budget - Charged(top)))
  }

  lemma HeaderFits(header: Option<string>, budget: nat)
    ensures Charged(HeaderParts(header, budget)) <= budget
  {
    var top := HeaderParts(header, budget);
    if top != [] {
      assert Charged(top[..0]) == 0;
    }
  }

  function Pack(segments: seq<Segment>, budget: int, header: Option<string>): Result<string, BudgetError> {
    if budget <= 0 then Failure(NonPositiveBudget)
    else Success(Join(TrimToFit(Parts(segments, budget, header), budget)))
  }

  /** Whatever the estimates say, a brief is within its budget, and it is the
      longest prefix of the selected parts that is. */
  lemma BriefWithinBudget(segments: seq<Segment>, budget: int, header: Option<string>)
    requires budget > 0
    ensures EstimateTokens(Pack(segments, budget, header).value) <= budget
    ensures var parts := Parts(segments, budget, header);
            exists k :: 0 <= k <= |parts| && Pack(segments, budget, header) == Success(Join(parts[..k]))
                        && forall j :: k < j <= |parts| ==> !Fits(parts[..j], budget)
  {
    hide Join, Parts;
    var parts := Parts(segments, budget, header);
    TrimIsLongestFit(parts, budget);
    assert parts[..|TrimToFit(parts, budget)|] == TrimToFit(parts, budget);
  }

  /** When no estimate undercounts its body, in particular when each is the
      body's own `len // 4`, every selected part survives: the trim never runs. */
  lemma TrimNeverRuns(segments: seq<Segment>, budget: nat, header: Option<string>)
    requires budget > 0
    requires forall s <- segments :: s.tokenEstimate >= EstimateTokens(s.body)
    ensures Pack(segments, budget, header) == Success(Join(Parts(segments, budget, header)))
  {
    hide Greedy, Spent, Chosen, Join, TrimToFit, HeaderParts, Charged, EstimateTokens;
    var top := HeaderParts(header, budget);
    HeaderFits(header, budget);
    var mask := Greedy(segments, budget - Charged(top));
    GreedyFits(segments, budget - Charged(top));
    ChosenIsCharged(segments, mask);
    ChargedConcat(top, Chosen(segments, mask));
    JoinIsCharged(Parts(segments, budget, header));
    TrimTurn(Parts(segments, budget, header), budget);
  }

  /** With honest estimates a header that fits opens the brief, the chosen
      segments after it; any other header is as good as none. */
  lemma HeaderOpens(segments: seq<Segment>, budget: nat, header: string)
    requires budget > 0
    requires forall s <- segments :: s.tokenEstimate >= EstimateTokens(s.body)
    ensures var brief := Pack(segments, budget, Some(header)).value;
            var fits := header != "" && |header| / 4 + 1 <= budget;
            && (!fits ==> Pack(segments, budget, Some(header)) == Pack(segments, budget, None))
            && (fits ==>
                  var picks := Chosen(segments, Greedy(segments, budget - |header| / 4 - 1));
                  brief == if picks == [] then header else header + "\n" + Join(picks))
  {
    hide Greedy, Chosen, TrimToFit, Join, Pack;
    TrimNeverRuns(segments, budget, Some(header));
    TrimNeverRuns(segments, budget, None);
    HeaderPart(segments, budget, header);
    if header != "" && |header| / 4 + 1 <= budget {
      JoinHeader(header, Chosen(segments, Greedy(segments, budget - |header| / 4 - 1)));
    }
  }

  lemma HeaderPart(segments: seq<Segment>, budget: nat, header: string)
    ensures if header != "" && |header| / 4 + 1 <= budget
            then Parts(segments, budget, Some(header))
                 == [header] + Chosen(segments, Greedy(segments, budget - |header| / 4 - 1))
            else Parts(segments, budget, Some(header)) == Parts(segments, budget, None)
  {
    hide Greedy, Chosen;
    assert [header][..0] == [];
    assert Charged([header]) == |header| / 4 + 1;
  }

  lemma JoinHeader(header: string, picks: seq<string>)
    ensures Join([header] + picks) == if picks == [] then header else header + "\n" + Join(picks)
  {
    hide Join;
    JoinPlus([], header);
    assert [] + [header] == [header];
    if picks == [] {
      assert [header] + picks == [header];
    } else {
      JoinConcat([header], picks);
    }
  }

  /** A single call keeps every selected part exactly when their join fits. */
  lemma AllKeptIff(segments: seq<Segment>, budget: nat, header: Option<string>)
    requires budget > 0
    ensures Pack(segments, budget, header) == Success(Join(Parts(segments, budget, header)))
            <==> Fits(Parts(segments, budget, header), budget)
  {
    hide Parts, Join;
    TrimIsLongestFit(Parts(segments, budget, header), budget);
    TrimTurn(Parts(segments, budget, header), budget);
  }

  /** Whatever segments of the pool are packed, in whatever budget, every
      selected part is in the brief. */
  ghost predicate NeverTrimmed(pool: set<Segment>) {
    forall segments: seq<Segment>, budget: nat, header: Option<string> ::
      budget > 0 && (forall s <- segments :: s in pool)
      ==> Pack(segments, budget, header) == Success(Join(Parts(segments, budget, header)))
  }

  /** The trim can be relied on never to run exactly when no estimate of the
      pool undercounts its body, by however little. */
  lemma NeverTrimmedIff(pool: set<Segment>)
    ensures NeverTrimmed(pool) <==> forall s <- pool :: s.tokenEstimate >= EstimateTokens(s.body)
  {
    if forall s <- pool :: s.tokenEstimate >= EstimateTokens(s.body) {
      forall segments: seq<Segment>, budget: nat, header: Option<string>
        | budget > 0 && (forall s <- segments :: s in pool)
        ensures Pack(segments, budget, header) == Success(Join(Parts(segments, budget, header)))
      {
        TrimNeverRuns(segments, budget, header);
      }
    }
    forall s | s in pool && s.tokenEstimate < EstimateTokens(s.body)
      ensures !NeverTrimmed(pool)
    {
      FiveCopiesOverflow(s);
      assert forall x <- Copies(s, 5) :: x in pool;
    }
  }

  function Copies(s: Segment, n: nat): (r: seq<Segment>)
    ensures |r| == n && forall i :: 0 <= i < n ==> r[i] == s
  {
    seq(n, _ => s)
  }

  function Every(n: nat): (r: seq<bool>)
    ensures |r| == n && forall i :: 0 <= i < n ==> r[i]
  {
    seq(n, _ => true)
  }

  lemma CopyMore(s: Segment, m: nat)
    ensures Spent(Copies(s, m + 1), Every(m + 1)) == Spent(Copies(s, m), Every(m)) + SegmentCost(s)
    ensures Chosen(Copies(s, m + 1), Every(m + 1)) == Chosen(Copies(s, m), Every(m)) + [s.body]
  {
    assert Copies(s, m + 1)[..m] == Copies(s, m) && Every(m + 1)[..m] == Every(m);
  }

  lemma JoinMore(parts: seq<string>, part: string)
    ensures |Join(parts + [part])| == if parts == [] then |part| else |Join(parts)| + 1 + |part|
  {
    assert (parts + [part])[..|parts|] == parts;
  }

  function Multiple(n: nat, k: nat): nat {
    if n == 0 then 0 else Multiple(n - 1, k) + k
  }

  lemma FiveMultiple(k: nat)
    ensures Multiple(5, k) == 5 * k
  {
    assert Multiple(5, k) == Multiple(3, k) + k + k;
    assert Multiple(3, k) == Multiple(1, k) + k + k;
    assert Multiple(1, k) == k;
  }

  lemma {:induction false} CopiesSpend(s: Segment, n: nat)
    ensures Spent(Copies(s, n), Every(n)) == Multiple(n, SegmentCost(s))
    ensures |Chosen(Copies(s, n), Every(n))| == n
    ensures n > 0 ==> |Join(Chosen(Copies(s, n), Every(n)))| + 1 == Multiple(n, |s.body| + 1)
  {
    hide Join, SegmentCost;
    if n > 0 {
      CopiesSpend(s, n - 1);
      hide Spent, Chosen;
      CopyMore(s, n - 1);
      JoinMore(Chosen(Copies(s, n - 1), Every(n - 1)), s.body);
    }
  }

  /** Five copies of a segment, under a budget their estimates just fill, are
      all selected and do not fit. */
  lemma FiveCopiesOverflow(s: Segment)
    requires s.tokenEstimate < EstimateTokens(s.body)
    ensures var (segments, budget) := (Copies(s, 5), 5 * SegmentCost(s));
            && Greedy(segments, budget) == Every(5)
            && Pack(segments, budget, None) != Success(Join(Parts(segments, budget, None)))
  {
    hide Greedy, Chosen, Spent, Join, TrimToFit, Pack;
    var (segments, budget) := (Copies(s, 5), 5 * SegmentCost(s));
    CopiesSpend(s, 5);
    FiveMultiple(SegmentCost(s));
    FiveMultiple(|s.body| + 1);
    GreedyIsFirst(segments, budget, Every(5));
    OnlyChosen(segments, budget);
    AllKeptIff(segments, budget, None);
  }

  /** An undercounted estimate can lose a selected segment: one of eight
      characters claiming none is selected under a budget of one, then popped. */
  lemma UndercountIsTrimmed(s: Segment)
    requires |s.body| == 8 && s.tokenEstimate == 0
    ensures Greedy([s], 1) == [true] && Pack([s], 1, None) == Success("")
  {
    hide TrimToFit, Parts;
    assert [s][..0] == [] && [true][..0] == [];
    assert Greedy([s], 1) == [true];
    assert Chosen([s], [true]) == [s.body];
    assert Parts([s], 1, None) == [s.body] by {
      OnlyChosen([s], 1);
    }
    assert [s.body][..0] == [];
    TrimTurn([s.body], 1);
    TrimTurn([], 1);
  }

  lemma OnlyChosen(segments: seq<Segment>, budget: nat)
    ensures Parts(segments, budget, None) == Chosen(segments, Greedy(segments, budget))
  {
    hide Greedy, Chosen, EstimateTokens;
    assert [] + Chosen(segments, Greedy(segments, budget)) == Chosen(segments, Greedy(segments, budget));
  }

  method PackSegments(segments: seq<Segment>, budget: int, header: Option<string>)
    returns (r: Result<string, BudgetError>)
    ensures r == Pack(segments, budget, header)
  {
    hide Greedy, Spent, Chosen, Join, TrimToFit, HeaderParts, Charged;
    if budget <= 0 {
      return Failure(NonPositiveBudget);
    }
    var parts: seq<string> := [];
    var used: nat := 0;
    if header.Some? && header.value != "" {
      var cost := EstimateTokens(header.value) + NEWLINE_TOKEN_COST;
      if cost <= budget {
        parts := parts + [header.value];
        used := used + cost;
      }
    }
    HeaderFits(header, budget);
    HeaderTaken(header, budget, parts, used);
    ghost var room := budget - Charged(parts);
    ghost var top := parts;
    NothingChosen(room);
    for i := 0 to |segments|
      invariant parts == top + Chosen(segments[..i], Greedy(segments[..i], room))
      invariant used == Charged(top) + Spent(segments[..i], Greedy(segments[..i], room))
    {
      GreedyTurn(segments, i, room);
      var cost := SegmentCost(segments[i]);
      if used + cost > budget {
        continue;
      }
      parts := parts + [segments[i].body];
      used := used + cost;
    }
    assert segments[..|segments|] == segments;
    ghost var all := parts;
    var brief := Join(parts);
    while EstimateTokens(brief) > budget && parts != []
      invariant brief == Join(parts)
      invariant TrimToFit(parts, budget) == TrimToFit(all, budget)
      decreases |parts|
    {
      TrimTurn(parts, budget);
      parts := parts[..|parts| - 1];
      brief := Join(parts);
    }
    TrimTurn(parts, budget);
    r := Success(brief);
  }

  lemma HeaderTaken(header: Option<string>, budget: nat, parts: seq<string>, used: nat)
    requires if header.Some? && header.value != "" && EstimateTokens(header.value) + NEWLINE_TOKEN_COST <= budget
             then parts == [header.value] && used == EstimateTokens(header.value) + NEWLINE_TOKEN_COST
             else parts == [] && used == 0
    ensures parts == HeaderParts(header, budget) && used == Charged(parts)
  {
    if parts != [] {
      assert Charged(parts[..0]) == 0;
    }
  }

  lemma NothingChosen(room: nat)
    ensures Greedy([], room) == [] && Chosen([], []) == [] && Spent([], []) == 0
  {
  }

  lemma TrimTurn(parts: seq<string>, budget: nat)
    ensures TrimToFit(parts, budget)
            == if EstimateTokens(Join(parts)) > budget && parts != [] then TrimToFit(parts[..|parts| - 1], budget) else parts
  {
  }
}
