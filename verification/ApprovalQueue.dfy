/** The approval queue: N-of-M voting rows with a single-voter veto, and the
    per-tenant FIFO list of rows still pending. */
module Approvals {
  import opened Common
  import opened Contracts

  datatype QueueError =
    | NotFound
    | AlreadyResolved(state: RowState)
    | NotEligible
    | DuplicateVote
    | BadArguments

  /** What `enqueue` and `QuorumRule` both demand of a quorum. */
  predicate ValidArming(required: int, eligible: Option<seq<string>>) {
    && required >= 1
    && (eligible.Some? ==> NoDup(eligible.value) && required <= |eligible.value|)
  }

  predicate Eligible(pool: Option<seq<string>>, voter: Option<string>) {
    pool.None? || (voter.Some? && voter.value in pool.value)
  }

  function Armed(rowId: string, action: string, tenant: string, required: int,
                 eligible: Option<seq<string>>, now: int): ApprovalRow
  {
    ApprovalRow(rowId, tenant, action, Pending, required, eligible, [], now, None, None, None, 1)
  }

  function Resolved(row: ApprovalRow, state: RowState, voter: Option<string>, note: Option<string>,
                    approvals: seq<string>, now: int): ApprovalRow
  {
    row.(state := state, approvals := approvals, decidedAt := Some(now), decidedBy := voter,
         note := note, version := row.version + 1)
  }

  /** One approval vote on `row`. */
  function CastApproval(row: ApprovalRow, voter: Option<string>, now: int): Result<ApprovalRow, QueueError> {
    if row.state != Pending then Failure(AlreadyResolved(row.state))
    else if !Eligible(row.eligible, voter) then Failure(NotEligible)
    else if row.required <= 1 then
      var seats := if voter.Some? && voter.value !in row.approvals then row.approvals + [voter.value] else row.approvals;
      Success(Resolved(row, Approved, voter, None, seats, now))
    else if voter.None? then Failure(NotEligible)
    else if voter.value in row.approvals then Failure(DuplicateVote)
    else
      var seats := row.approvals + [voter.value];
      if |seats| >= row.required then Success(Resolved(row, Approved, voter, None, seats, now))
      else Success(row.(approvals := seats, version := row.version + 1))
  }

  /** One veto on `row`. */
  function CastVeto(row: ApprovalRow, voter: Option<string>, reason: string, now: int): Result<ApprovalRow, QueueError> {
    if row.state != Pending then Failure(AlreadyResolved(row.state))
    else if !Eligible(row.eligible, voter) then Failure(NotEligible)
    else Success(Resolved(row, Vetoed, voter, if reason == "" then None else Some(reason), row.approvals, now))
  }

  datatype Queue = Queue(rows: map<string, ApprovalRow>, pending: map<string, seq<string>>) {

    /** Stores a voted-on row; a row that left `Pending` also leaves its tenant's list. */
    function Update(row: ApprovalRow): Queue {
      Queue(rows[row.action := row],
            if row.state == Pending || row.tenant !in pending then pending
            else pending[row.tenant := RemoveFirst(pending[row.tenant], row.action)])
    }

    function Enqueue(rowId: string, action: string, tenant: string, required: int,
                     eligible: Option<seq<string>>, now: int): (Queue, Result<ApprovalRow, QueueError>)
    {
      if action == "" || tenant == "" || !ValidArming(required, eligible) then (this, Failure(BadArguments))
      else if action in rows then (this, Success(rows[action]))
      else
        var row := Armed(rowId, action, tenant, required, eligible, now);
        (Queue(rows[action := row], Push(pending, tenant, action)), Success(row))
    }

    function Approve(action: string, voter: Option<string>, now: int): (Queue, Result<ApprovalRow, QueueError>) {
      if action !in rows then (this, Failure(NotFound))
      else
        var vote := CastApproval(rows[action], voter, now);
        (if vote.Success? then Update(vote.value) else this, vote)
    }

    function Reject(action: string, voter: Option<string>, reason: string, now: int): (Queue, Result<ApprovalRow, QueueError>) {
      if action !in rows then (this, Failure(NotFound))
      else
        var vote := CastVeto(rows[action], voter, reason, now);
        (if vote.Success? then Update(vote.value) else this, vote)
    }
  }

  class ApprovalQueue {
    var rows: map<string, ApprovalRow>
    var pendingByTenant: map<string, seq<string>>

    ghost function Contents(): Queue
      reads this
    {
      Queue(rows, pendingByTenant)
    }

    /** Rows are filed under their own action id. */
    ghost predicate Valid()
      reads this
    {
      forall a :: a in rows ==> rows[a].action == a
    }

    constructor ()
      ensures Valid() && Contents() == Queue(map[], map[])
    {
      rows, pendingByTenant := map[], map[];
    }

    method Enqueue(rowId: string, action: string, tenant: string, required: int,
                   eligible: Option<seq<string>>, now: int)
      returns (r: Result<ApprovalRow, QueueError>)
      requires Valid()
      modifies this
      ensures Valid()
      ensures (Contents(), r) == old(Contents()).Enqueue(rowId, action, tenant, required, eligible, now)
      ensures r.Failure? <==> action == "" || tenant == "" || !ValidArming(required, eligible)
      ensures r.Failure? || action in old(rows) ==> Contents() == old(Contents())
      ensures r.Success? && action in old(rows) ==> r.value == old(rows)[action]
      ensures r.Success? && action !in old(rows) ==>
                && r.value == ApprovalRow(rowId, tenant, action, Pending, required, eligible, [], now, None, None, None, 1)
                && rows == old(rows)[action := r.value]
    {
      if action == "" || tenant == "" || required < 1 {
        return Failure(BadArguments);
      }
      if eligible.Some? {
        if !NoDup(eligible.value) || required > |eligible.value| {
          return Failure(BadArguments);
        }
      }
      if action in rows {
        return Success(rows[action]);
      }
      var row := ApprovalRow(rowId, tenant, action, Pending, required, eligible, [], now, None, None, None, 1);
      rows := rows[action := row];
      pendingByTenant := Push(pendingByTenant, tenant, action);
      r := Success(row);
    }

    method Approve(action: string, voter: Option<string>, now: int) returns (r: Result<ApprovalRow, QueueError>)
      requires Valid()
      modifies this
      ensures Valid()
      ensures (Contents(), r) == old(Contents()).Approve(action, voter, now)
    {
      var found := RequirePending(action);
      if found.Failure? {
        return found;
      }
      var row := found.value;
      if !Eligible(row.eligible, voter) {
        return Failure(NotEligible);
      }
      var recorded := row.approvals;
      if row.required <= 1 {
        if voter.Some? && voter.value !in recorded {
          recorded := recorded + [voter.value];
        }
        r := Resolve(row, Approved, voter, None, recorded, now);
        return;
      }
      if voter.None? {
        return Failure(NotEligible);
      }
      if voter.value in row.approvals {
        return Failure(DuplicateVote);
      }
      recorded := recorded + [voter.value];
      if |recorded| >= row.required {
        r := Resolve(row, Approved, voter, None, recorded, now);
        return;
      }
      var updated := row.(approvals := recorded, version := row.version + 1);
      rows := rows[action := updated];
      r := Success(updated);
    }

    method Reject(action: string, voter: Option<string>, reason: string, now: int)
      returns (r: Result<ApprovalRow, QueueError>)
      requires Valid()
      modifies this
      ensures Valid()
      ensures (Contents(), r) == old(Contents()).Reject(action, voter, reason, now)
    {
      var found := RequirePending(action);
      if found.Failure? {
        return found;
      }
      var row := found.value;
      if !Eligible(row.eligible, voter) {
        return Failure(NotEligible);
      }
      r := Resolve(row, Vetoed, voter, if reason == "" then None else Some(reason), row.approvals, now);
    }

    method RequirePending(action: string) returns (r: Result<ApprovalRow, QueueError>)
      requires Valid()
      ensures r ==
              if action !in rows then Failure(NotFound)
              else if rows[action].state != Pending then Failure(AlreadyResolved(rows[action].state))
              else Success(rows[action])
    {
      if action !in rows {
        return Failure(NotFound);
      }
      var row := rows[action];
      if row.state != Pending {
        return Failure(AlreadyResolved(row.state));
      }
      r := Success(row);
    }

    method Resolve(row: ApprovalRow, target: RowState, voter: Option<string>, note: Option<string>,
                   approvals: seq<string>, now: int)
      returns (r: Result<ApprovalRow, QueueError>)
      requires Valid() && row.action in rows && target != Pending
      modifies this
      ensures Valid()
      ensures r == Success(Resolved(row, target, voter, note, approvals, now))
      ensures Contents() == old(Contents()).Update(r.value)
    {
      var resolved := row.(state := target, approvals := approvals, decidedAt := Some(now),
      decidedBy := voter, note := note, version := row.version + 1);
      rows := rows[row.action := resolved];
      if row.tenant in pendingByTenant {
        pendingByTenant := pendingByTenant[row.tenant := RemoveFirst(pendingByTenant[row.tenant], row.action)];
      }
      r := Success(resolved);
    }

    /** Rows of the tenant's pending list, oldest first. */
    method ListPending(tenant: string) returns (found: seq<ApprovalRow>)
      ensures found == RowsOf(Bucket(pendingByTenant, tenant), rows)
    {
      var ids := Bucket(pendingByTenant, tenant);
      found := [];
      for i := 0 to |ids|
        invariant found == RowsOf(ids[..i], rows)
      {
        assert ids[..i + 1][..i] == ids[..i];
        if ids[i] in rows {
          found := found + [rows[ids[i]]];
        }
      }
      assert ids[..|ids|] == ids;
    }
  }

  function RowsOf(ids: seq<string>, rows: map<string, ApprovalRow>): seq<ApprovalRow> {
    if ids == [] then []
    else
      var front := RowsOf(ids[..|ids| - 1], rows);
      var last := ids[|ids| - 1];
      if last in rows then front + [rows[last]] else front
  }
}
