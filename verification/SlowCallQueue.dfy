/** The deferred-call queue: a bounded FIFO buffer per tenant. */
module SlowCallQueues {
  import opened Common

  datatype DeferReason = DeadlineExceeded | TransientError | ExplicitDefer

  datatype DeferredCall = DeferredCall(id: string, tenant: string, operation: string, reason: DeferReason,
                                       detail: string, payload: map<string, string>, deferredAt: int)

  datatype DeferError = TenantRequired | NonPositiveCap

  type Buffers = map<string, seq<DeferredCall>>

  /** The oldest entries beyond `cap`, and what is left once they are deleted. */
  function Overflow(buf: seq<DeferredCall>, cap: nat): seq<DeferredCall> {
    if |buf| > cap then buf[..|buf| - cap] else []
  }

  function Kept(buf: seq<DeferredCall>, cap: nat): seq<DeferredCall> {
    buf[|Overflow(buf, cap)|..]
  }

  function Defer(b: Buffers, cap: nat, call: DeferredCall): Buffers {
    b[call.tenant := Kept(Bucket(b, call.tenant) + [call], cap)]
  }

  function Taken(buf: seq<DeferredCall>, limit: int): seq<DeferredCall> {
    if limit <= 0 then [] else if limit < |buf| then buf[..limit] else buf
  }

  function Drain(b: Buffers, tenant: string, limit: int): Buffers {
    if limit <= 0 then b else b[tenant := Bucket(b, tenant)[|Taken(Bucket(b, tenant), limit)|..]]
  }

  function Reversed<T>(s: seq<T>): (r: seq<T>)
    ensures |r| == |s|
    ensures forall i :: 0 <= i < |s| ==> r[i] == s[|s| - 1 - i]
  {
    seq(|s|, i requires 0 <= i < |s| => s[|s| - 1 - i])
  }

  class SlowCallQueue {
    const cap: nat
    var buffers: Buffers

    constructor (cap: nat)
      requires cap > 0
      ensures this.cap == cap && buffers == map[]
    {
      this.cap, buffers := cap, map[];
    }

    static method New(maxPerTenant: int) returns (r: Result<SlowCallQueue, DeferError>)
      ensures maxPerTenant <= 0 ==> r == Failure(NonPositiveCap)
      ensures maxPerTenant > 0 ==> r.Success? && fresh(r.value) && r.value.cap == maxPerTenant && r.value.buffers == map[]
    {
      if maxPerTenant <= 0 {
        return Failure(NonPositiveCap);
      }
      var q := new SlowCallQueue(maxPerTenant);
      r := Success(q);
    }

    method DeferCall(call: DeferredCall) returns (r: Result<DeferredCall, DeferError>)
      modifies this
      ensures call.tenant == "" ==> r == Failure(TenantRequired) && buffers == old(buffers)
      ensures call.tenant != "" ==> r == Success(call) && buffers == Defer(old(buffers), cap, call)
    {
      if call.tenant == "" {
        return Failure(TenantRequired);
      }
      var buf := Bucket(buffers, call.tenant) + [call];
      if |buf| > cap {
        buf := buf[|buf| - cap..];
      }
      buffers := buffers[call.tenant := buf];
      r := Success(call);
    }

    /** Newest first, without removing anything. */
    method PendingCalls(tenant: string, limit: int) returns (r: seq<DeferredCall>)
      ensures limit <= 0 ==> r == []
      ensures limit > 0 ==>
                var buf := Bucket(buffers, tenant);
                && |r| == (if limit < |buf| then limit else |buf|)
                && forall i :: 0 <= i < |r| ==> r[i] == buf[|buf| - 1 - i]
    {
      if limit <= 0 {
        return [];
      }
      var buf := Bucket(buffers, tenant);
      r := Reversed(if limit < |buf| then buf[|buf| - limit..] else buf);
    }

    method DrainCalls(tenant: string, limit: int) returns (r: seq<DeferredCall>)
      modifies this
      ensures r == Taken(old(Bucket(buffers, tenant)), limit)
      ensures buffers == Drain(old(buffers), tenant, limit)
      ensures limit <= 0 ==> r == [] && buffers == old(buffers)
      ensures limit > 0 ==> |r| == (if limit < |old(Bucket(buffers, tenant))| then limit else |old(Bucket(buffers, tenant))|)
                            && buffers == old(buffers)[tenant := Bucket(buffers, tenant)]
                            && r + Bucket(buffers, tenant) == old(Bucket(buffers, tenant))
    {
      if limit <= 0 {
        return [];
      }
      var buf := Bucket(buffers, tenant);
      var cut := if limit < |buf| then limit else |buf|;
      r := buf[..cut];
      buffers := buffers[tenant := buf[cut..]];
    }
  }

  // ----- runs -----

  datatype Op = DeferOp(call: DeferredCall) | DrainOp(tenant: string, limit: int)

  function Step(b: Buffers, cap: nat, op: Op): Buffers {
    match op
    case DeferOp(call) => if call.tenant == "" then b else Defer(b, cap, call)
    case DrainOp(tenant, limit) => Drain(b, tenant, limit)
  }

  function Run(ops: seq<Op>, cap: nat): Buffers {
    if ops == [] then map[] else Step(Run(ops[..|ops| - 1], cap), cap, ops[|ops| - 1])
  }

  function TenantOf(op: Op): string {
    match op
    case DeferOp(call) => call.tenant
    case DrainOp(tenant, _) => tenant
  }

  /** The calls deferred for a tenant, in order of arrival. */
  function Arrivals(ops: seq<Op>, tenant: string): seq<DeferredCall> {
    if ops == [] then []
    else
      var op := ops[|ops| - 1];
      Arrivals(ops[..|ops| - 1], tenant) + if op.DeferOp? && tenant != "" && op.call.tenant == tenant then [op.call] else []
  }

  datatype Fate = Drained | Evicted

  /** A call that left its buffer, and how. */
  datatype Departure = Departure(call: DeferredCall, fate: Fate)

  function Depart(calls: seq<DeferredCall>, fate: Fate): (r: seq<Departure>)
    ensures |r| == |calls|
    ensures forall i :: 0 <= i < |calls| ==> r[i] == Departure(calls[i], fate)
  {
    seq(|calls|, i requires 0 <= i < |calls| => Departure(calls[i], fate))
  }

  /** What leaves `tenant`'s buffer in one step: the calls a drain returns, or
      the ones a full buffer pushes out. */
  function Leaving(buf: seq<DeferredCall>, cap: nat, op: Op, tenant: string): seq<Departure> {
    match op
    case DeferOp(call) =>
      if tenant == "" || call.tenant != tenant then [] else Depart(Overflow(buf + [call], cap), Evicted)
    case DrainOp(t, limit) => if t != tenant then [] else Depart(Taken(buf, limit), Drained)
  }

  function Departures(ops: seq<Op>, cap: nat, tenant: string): seq<Departure> {
    if ops == [] then []
    else
      var before := ops[..|ops| - 1];
      Departures(before, cap, tenant) + Leaving(Bucket(Run(before, cap), tenant), cap, ops[|ops| - 1], tenant)
  }

  function CallsOf(departures: seq<Departure>): (r: seq<DeferredCall>)
    ensures |r| == |departures|
    ensures forall i :: 0 <= i < |r| ==> r[i] == departures[i].call
  {
    seq(|departures|, i requires 0 <= i < |departures| => departures[i].call)
  }

  lemma StepConserves(b: Buffers, cap: nat, op: Op, tenant: string)
    ensures var buf := Bucket(b, tenant);
            CallsOf(Leaving(buf, cap, op, tenant)) + Bucket(Step(b, cap, op), tenant)
            == buf + if op.DeferOp? && tenant != "" && op.call.tenant == tenant then [op.call] else []
  {
    var buf := Bucket(b, tenant);
    var gone, left := CallsOf(Leaving(buf, cap, op, tenant)), Bucket(Step(b, cap, op), tenant);
    match op
    case DeferOp(call) =>
      if tenant != "" && call.tenant == tenant {
        var all := buf + [call];
        assert gone == Overflow(all, cap) && left == Kept(all, cap);
        assert all == all[..|Overflow(all, cap)|] + all[|Overflow(all, cap)|..];
      } else {
        assert gone == [];
      }
    case DrainOp(t, limit) =>
      if t == tenant && limit > 0 {
        assert gone == Taken(buf, limit) && left == buf[|Taken(buf, limit)|..];
        assert buf == buf[..|Taken(buf, limit)|] + buf[|Taken(buf, limit)|..];
      } else {
        assert gone == [];
      }
  }

  /** A drain takes the oldest calls, as many as it is allowed and there are. */
  lemma DrainTakesOldest(b: Buffers, cap: nat, tenant: string, limit: int)
    ensures var buf := Bucket(b, tenant);
            var taken := if limit <= 0 then 0 else if |buf| <= limit then |buf| else limit;
            && Bucket(Step(b, cap, DrainOp(tenant, limit)), tenant) == buf[taken..]
            && Leaving(buf, cap, DrainOp(tenant, limit), tenant) == Depart(buf[..taken], Drained)
  {
    var buf := Bucket(b, tenant);
    assert buf[..|buf|] == buf && buf[0..] == buf && buf[..0] == [];
  }

  /** Conservation: the arrivals of a tenant are its departures, in the order
      they left, followed by its buffer; so calls leave in arrival order, each
      once, whether drained or evicted. */
  lemma {:induction false} ArrivalsConserved(ops: seq<Op>, cap: nat, tenant: string)
    ensures Arrivals(ops, tenant) == CallsOf(Departures(ops, cap, tenant)) + Bucket(Run(ops, cap), tenant)
  {
    hide Step, Leaving;
    if ops == [] {
      assert Bucket(Run([], cap), tenant) == [];
    } else {
      var before, op := ops[..|ops| - 1], ops[|ops| - 1];
      ArrivalsConserved(before, cap, tenant);
      StepConserves(Run(before, cap), cap, op, tenant);
      var leaving := Leaving(Bucket(Run(before, cap), tenant), cap, op, tenant);
      var gone, left := CallsOf(Departures(before, cap, tenant)), Bucket(Run(ops, cap), tenant);
      assert CallsOf(Departures(ops, cap, tenant)) == gone + CallsOf(leaving);
      assert gone + CallsOf(leaving) + left == gone + (CallsOf(leaving) + left);
    }
  }

  /** When deferred calls are distinct, each one deferred has exactly one of
      the three fates, and nothing else does. */
  lemma OneFate(ops: seq<Op>, cap: nat, tenant: string, call: DeferredCall)
    requires NoDup(Arrivals(ops, tenant))
    ensures var (gone, waiting) := (Departures(ops, cap, tenant), Bucket(Run(ops, cap), tenant));
            var (drained, evicted) := (Departure(call, Drained), Departure(call, Evicted));
            && (call in Arrivals(ops, tenant) <==> drained in gone || evicted in gone || call in waiting)
            && !(drained in gone && evicted in gone)
            && !(call in CallsOf(gone) && call in waiting)
            && (call in CallsOf(gone) <==> drained in gone || evicted in gone)
  {
    hide Arrivals, Run, Departures, NoDup;
    ArrivalsConserved(ops, cap, tenant);
    var gone, waiting := Departures(ops, cap, tenant), Bucket(Run(ops, cap), tenant);
    var all := CallsOf(gone) + waiting;
    FateOf(gone, call);
    if Departure(call, Drained) in gone && Departure(call, Evicted) in gone {
      var i :| 0 <= i < |gone| && gone[i] == Departure(call, Drained);
      var j :| 0 <= j < |gone| && gone[j] == Departure(call, Evicted);
      Apart(all, i, j);
    }
    if call in CallsOf(gone) && call in waiting {
      var i :| 0 <= i < |gone| && CallsOf(gone)[i] == call;
      var j :| 0 <= j < |waiting| && waiting[j] == call;
      Apart(all, i, |gone| + j);
    }
  }

  lemma Apart<T>(s: seq<T>, i: nat, j: nat)
    requires NoDup(s) && i < |s| && j < |s| && i != j
    ensures s[i] != s[j]
  {
  }

  lemma FateOf(gone: seq<Departure>, call: DeferredCall)
    ensures call in CallsOf(gone) <==> Departure(call, Drained) in gone || Departure(call, Evicted) in gone
  {
    if call in CallsOf(gone) {
      var i :| 0 <= i < |gone| && CallsOf(gone)[i] == call;
      assert gone[i] in gone && (gone[i].fate == Drained || gone[i].fate == Evicted);
      assert gone[i] == Departure(call, gone[i].fate);
    }
  }

  /** No buffer exceeds its cap, and a defer evicts only from a full buffer,
      and then only its oldest call. */
  lemma {:induction false} BufferBounded(ops: seq<Op>, cap: nat, tenant: string)
    requires cap > 0
    ensures |Bucket(Run(ops, cap), tenant)| <= cap
    ensures forall call: DeferredCall :: call.tenant == tenant != "" ==>
              var buf := Bucket(Run(ops, cap), tenant);
              Leaving(buf, cap, DeferOp(call), tenant)
              == if |buf| == cap then [Departure(buf[0], Evicted)] else []
  {
    if ops != [] {
      BufferBounded(ops[..|ops| - 1], cap, tenant);
    }
  }

  function Own(ops: seq<Op>, tenant: string): seq<Op> {
    if ops == [] then []
    else Own(ops[..|ops| - 1], tenant) + if TenantOf(ops[|ops| - 1]) == tenant then [ops[|ops| - 1]] else []
  }

  lemma StepLocal(b: Buffers, other: Buffers, cap: nat, op: Op, tenant: string)
    requires Bucket(b, tenant) == Bucket(other, tenant)
    ensures TenantOf(op) == tenant ==> Bucket(Step(b, cap, op), tenant) == Bucket(Step(other, cap, op), tenant)
    ensures TenantOf(op) != tenant ==>
              Bucket(Step(b, cap, op), tenant) == Bucket(b, tenant) && Leaving(Bucket(b, tenant), cap, op, tenant) == []
  {
    hide Overflow, Taken, Kept;
  }

  /** Other tenants' defers and drains do not touch a tenant's buffer, nor what
      leaves it. */
  lemma {:induction false} OtherTenantsUntouched(ops: seq<Op>, cap: nat, tenant: string)
    ensures Bucket(Run(ops, cap), tenant) == Bucket(Run(Own(ops, tenant), cap), tenant)
    ensures Departures(ops, cap, tenant) == Departures(Own(ops, tenant), cap, tenant)
  {
    hide Step, Leaving;
    if ops != [] {
      var before, op := ops[..|ops| - 1], ops[|ops| - 1];
      OtherTenantsUntouched(before, cap, tenant);
      var own := Own(before, tenant);
      StepLocal(Run(before, cap), Run(own, cap), cap, op, tenant);
      if TenantOf(op) == tenant {
        assert (own + [op])[..|own|] == own;
      } else {
        assert own + [] == own;
      }
    }
  }
}
