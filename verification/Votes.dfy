/** What a sequence of votes on one row means, independently of how the queue
    processes them one at a time. */
module Votes {
  import opened Common
  import opened Contracts
  import opened Approvals

  /** A named attempt, as the pipeline makes them. */
  datatype Attempt = Approve(voter: string) | Veto(voter: string, reason: string)

  /** The row after one attempt; a refused attempt leaves it alone. */
  function Try(row: ApprovalRow, at: Attempt, now: int): ApprovalRow {
    var vote := match at
      case Approve(v) => CastApproval(row, Some(v), now)
      case Veto(v, reason) => CastVeto(row, Some(v), reason, now);
    if vote.Success? then vote.value else row
  }

  function After(row: ApprovalRow, attempts: seq<Attempt>, now: int): ApprovalRow
    decreases |attempts|
  {
    if attempts == [] then row else After(Try(row, attempts[0], now), attempts[1..], now)
  }

  function Seats(names: seq<string>): set<string> {
    set v | v in names
  }

  /** A row that votes can still change. */
  ghost predicate Open(row: ApprovalRow) {
    && row.state == Pending
    && ValidArming(row.required, row.eligible)
    && NoDup(row.approvals)
    && |row.approvals| < row.required
    && (forall v :: v in row.approvals ==> Eligible(row.eligible, Some(v)))
  }

  /** Position of the first eligible veto, or the length when there is none. */
  function VetoPoint(pool: Option<seq<string>>, attempts: seq<Attempt>): (k: nat)
    ensures k <= |attempts|
  {
    if attempts == [] || (attempts[0].Veto? && Eligible(pool, Some(attempts[0].voter))) then 0
    else 1 + VetoPoint(pool, attempts[1..])
  }

  /** The distinct eligible people who approved before the first eligible veto. */
  function Backers(pool: Option<seq<string>>, attempts: seq<Attempt>): set<string> {
    if attempts == [] || (attempts[0].Veto? && Eligible(pool, Some(attempts[0].voter))) then {}
    else
      (if attempts[0].Approve? && Eligible(pool, Some(attempts[0].voter)) then {attempts[0].voter} else {})
      + Backers(pool, attempts[1..])
  }

  lemma {:induction false} SeatsSize(names: seq<string>)
    requires NoDup(names)
    ensures |Seats(names)| == |names|
  {
    if names != [] {
      var front, last := names[..|names| - 1], names[|names| - 1];
      SeatsSize(front);
      assert Seats(names) == Seats(front) + {last};
    }
  }

  lemma SubsetSize<T>(a: set<T>, b: set<T>)
    requires a <= b
    ensures |a| <= |b|
  {
    assert b == a + (b - a);
  }

  lemma {:induction false} ResolvedStays(row: ApprovalRow, attempts: seq<Attempt>, now: int)
    requires row.state != Pending
    ensures After(row, attempts, now) == row
  {
    if attempts != [] {
      ResolvedStays(row, attempts[1..], now);
    }
  }

  /** `end` is what `row` must become when `backers` have approved and `vetoed`
      says whether an eligible veto followed them. */
  ghost predicate Settles(row: ApprovalRow, backers: set<string>, vetoed: bool, end: ApprovalRow) {
    && end.state == (if |backers| >= row.required then Approved else if vetoed then Vetoed else Pending)
    && NoDup(end.approvals)
    && Seats(end.approvals) <= backers
    && |end.approvals| == (if |backers| >= row.required then row.required else |backers|)
    && end.required == row.required
    && end.eligible == row.eligible
  }

  lemma NewVote(row: ApprovalRow, v: string, now: int)
    requires Open(row) && Eligible(row.eligible, Some(v)) && v !in row.approvals
    ensures var next := Try(row, Approve(v), now);
            && next.approvals == row.approvals + [v]
            && NoDup(next.approvals)
            && Seats(next.approvals) == Seats(row.approvals) + {v}
            && |Seats(next.approvals)| == |row.approvals| + 1
            && next.required == row.required && next.eligible == row.eligible
            && (if |row.approvals| + 1 >= row.required then next.state == Approved else Open(next))
  {
    hide Seats;
    SeatsPlus(row.approvals, v);
    SeatsSize(row.approvals + [v]);
  }

  lemma SeatsPlus(names: seq<string>, v: string)
    ensures Seats(names + [v]) == Seats(names) + {v}
  {
  }

  /** The verdict depends only on who approved before the first eligible veto. */
  lemma {:induction false} Verdict(row: ApprovalRow, attempts: seq<Attempt>, now: int)
    requires Open(row)
    ensures Settles(row, Seats(row.approvals) + Backers(row.eligible, attempts),
                    VetoPoint(row.eligible, attempts) < |attempts|, After(row, attempts, now))
    decreases |attempts|, 1
  {
    SeatsSize(row.approvals);
    if attempts == [] {
      assert Seats(row.approvals) + Backers(row.eligible, attempts) == Seats(row.approvals);
    } else {
      var at, rest := attempts[0], attempts[1..];
      if !Eligible(row.eligible, Some(at.voter)) {
        Verdict(row, rest, now);
      } else if at.Veto? {
        assert Seats(row.approvals) + Backers(row.eligible, attempts) == Seats(row.approvals);
        ResolvedStays(Try(row, at, now), rest, now);
      } else {
        VerdictOnApproval(row, attempts, now);
      }
    }
  }

  lemma {:induction false} VerdictOnApproval(row: ApprovalRow, attempts: seq<Attempt>, now: int)
    requires Open(row)
    requires attempts != [] && attempts[0].Approve? && Eligible(row.eligible, Some(attempts[0].voter))
    ensures Settles(row, Seats(row.approvals) + Backers(row.eligible, attempts),
                    VetoPoint(row.eligible, attempts) < |attempts|, After(row, attempts, now))
    decreases |attempts|, 0
  {
    hide NoDup, Eligible, ValidArming;
    var v, rest := attempts[0].voter, attempts[1..];
    var backers := Seats(row.approvals) + Backers(row.eligible, attempts);
    if v in row.approvals {
      assert backers == Seats(row.approvals) + Backers(row.eligible, rest);
      Verdict(row, rest, now);
    } else {
      NewVote(row, v, now);
      var next := Try(row, attempts[0], now);
      assert backers == Seats(next.approvals) + Backers(row.eligible, rest);
      if next.state == Approved {
        ResolvedStays(next, rest, now);
        SubsetSize(Seats(next.approvals), backers);
      } else {
        Verdict(next, rest, now);
      }
    }
  }

  lemma {:induction false} BackersIgnoreOrder(pool: Option<seq<string>>, attempts: seq<Attempt>)
    requires forall at :: at in attempts ==> at.Approve?
    ensures Backers(pool, attempts) == set at | at in attempts && Eligible(pool, Some(at.voter)) :: at.voter
    ensures VetoPoint(pool, attempts) == |attempts|
  {
    if attempts != [] {
      var at, rest := attempts[0], attempts[1..];
      BackersIgnoreOrder(pool, rest);
      assert forall x :: x in attempts <==> x == at || x in rest;
      var voters := set a | a in attempts && Eligible(pool, Some(a.voter)) :: a.voter;
      var others := set a | a in rest && Eligible(pool, Some(a.voter)) :: a.voter;
      assert voters == others + if Eligible(pool, Some(at.voter)) then {at.voter} else {} by {
        hide Eligible;
        forall v | v in others
          ensures v in voters
        {
          var a :| a in rest && Eligible(pool, Some(a.voter)) && a.voter == v;
          assert a in attempts;
        }
      }
    }
  }

  /** Approvals may arrive in any order, and repeats change nothing. */
  lemma OrderIrrelevant(row: ApprovalRow, one: seq<Attempt>, other: seq<Attempt>, now: int)
    requires Open(row)
    requires forall at :: at in one ==> at.Approve?
    requires forall at :: at in one <==> at in other
    ensures After(row, one, now).state == After(row, other, now).state
    ensures |After(row, one, now).approvals| == |After(row, other, now).approvals|
  {
    BackersIgnoreOrder(row.eligible, one);
    BackersIgnoreOrder(row.eligible, other);
    assert Backers(row.eligible, one) == Backers(row.eligible, other);
    Verdict(row, one, now);
    Verdict(row, other, now);
  }

  function Remaining(row: ApprovalRow): int {
    if row.required > |row.approvals| then row.required - |row.approvals| else 0
  }

  function Longest(names: seq<string>): (n: nat)
    ensures forall v :: v in names ==> |v| <= n
  {
    if names == [] then 0
    else
      var n := Longest(names[1..]);
      if |names[0]| > n then |names[0]| else n
  }

  /** Somebody who may vote and has not yet done so. */
  lemma UnusedVoter(row: ApprovalRow) returns (v: string)
    requires Open(row)
    ensures Eligible(row.eligible, Some(v)) && v !in row.approvals
  {
    if row.eligible.None? {
      v := seq(Longest(row.approvals) + 1, i => 'v');
    } else {
      SeatsSize(row.approvals);
      SeatsSize(row.eligible.value);
      if Seats(row.eligible.value) <= Seats(row.approvals) {
        SubsetSize(Seats(row.eligible.value), Seats(row.approvals));
        assert false;
      }
      v :| v in Seats(row.eligible.value) && v !in Seats(row.approvals);
    }
  }

  /** No row gets stuck: `Remaining` further approvals always suffice. */
  lemma {:induction false} CanComplete(row: ApprovalRow, now: int) returns (votes: seq<Attempt>)
    requires Open(row)
    ensures |votes| == Remaining(row)
    ensures forall at :: at in votes ==> at.Approve?
    ensures After(row, votes, now).state == Approved
    decreases Remaining(row)
  {
    var v := UnusedVoter(row);
    var next := Try(row, Approve(v), now);
    assert next.approvals == row.approvals + [v];
    if next.state == Approved {
      votes := [Approve(v)];
      assert votes[1..] == [];
    } else {
      var rest := CanComplete(next, now);
      votes := [Approve(v)] + rest;
      assert votes[1..] == rest;
    }
  }

  lemma {:induction false} BackersSize(pool: Option<seq<string>>, attempts: seq<Attempt>)
    ensures |Backers(pool, attempts)| <= |attempts|
  {
    if attempts != [] {
      BackersSize(pool, attempts[1..]);
    }
  }

  /** ... and fewer never do. */
  lemma NoShortcut(row: ApprovalRow, attempts: seq<Attempt>, now: int)
    requires Open(row)
    requires After(row, attempts, now).state == Approved
    ensures |attempts| >= Remaining(row)
  {
    Verdict(row, attempts, now);
    SeatsSize(row.approvals);
    BackersSize(row.eligible, attempts);
  }
}
