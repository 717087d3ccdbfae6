/** Idempotent ingestion: the event repository, the in-process event bus, and
    the two-step that publishes an event exactly when it is first stored. */
module Ingestion {
  import opened Common

  datatype Event = Event(id: string, tenant: string, customer: Option<string>, channel: string, eventType: string,
                         key: string, payload: string, receivedAt: int)

  datatype Envelope = Envelope(event: string, tenant: string, customer: Option<string>, channel: string,
                               eventType: string, receivedAt: int)

  datatype Publication = Publication(topic: string, envelope: Envelope)

  function ChannelFor(tenant: string): string {
    "events." + tenant
  }

  function EnvelopeFor(e: Event): Envelope {
    Envelope(e.id, e.tenant, e.customer, e.channel, e.eventType, e.receivedAt)
  }

  function PublicationOf(e: Event): Publication {
    Publication(ChannelFor(e.tenant), EnvelopeFor(e))
  }

  // ----- repository -----

  /** Both dictionaries are keyed by tenant and by event id or idempotency key. */
  datatype Store = Store(byId: map<(string, string), Event>, byIdem: map<(string, string), string>)

  /** Every remembered key leads to a stored event of that tenant and key. */
  ghost predicate Closed(s: Store) {
    forall k :: k in s.byIdem ==>
      && (k.0, s.byIdem[k]) in s.byId
      && s.byId[(k.0, s.byIdem[k])].tenant == k.0
      && s.byId[(k.0, s.byIdem[k])].id == s.byIdem[k]
  }

  function Fetch(s: Store, tenant: string, key: string): Option<Event> {
    if (tenant, key) !in s.byIdem then None
    else if (tenant, s.byIdem[(tenant, key)]) in s.byId then Some(s.byId[(tenant, s.byIdem[(tenant, key)])])
    else None
  }

  function Upsert(s: Store, e: Event): (Store, Event, bool)
    requires Closed(s)
  {
    if (e.tenant, e.key) in s.byIdem then (s, s.byId[(e.tenant, s.byIdem[(e.tenant, e.key)])], false)
    else (Store(s.byId[(e.tenant, e.id) := e], s.byIdem[(e.tenant, e.key) := e.id]), e, true)
  }

  lemma UpsertCloses(s: Store, e: Event)
    requires Closed(s)
    ensures Closed(Upsert(s, e).0)
  {
  }

  class InMemoryEventRepository {
    var byId: map<(string, string), Event>
    var byIdem: map<(string, string), string>

    ghost function Contents(): Store
      reads this
    {
      Store(byId, byIdem)
    }

    constructor ()
      ensures Contents() == Store(map[], map[])
    {
      byId, byIdem := map[], map[];
    }

    method UpsertEvent(e: Event) returns (stored: Event, created: bool)
      requires Closed(Contents())
      modifies this
      ensures Closed(Contents())
      ensures (Contents(), stored, created) == Upsert(old(Contents()), e)
    {
      UpsertCloses(Contents(), e);
      var idem := (e.tenant, e.key);
      if idem in byIdem {
        return byId[(e.tenant, byIdem[idem])], false;
      }
      byId := byId[(e.tenant, e.id) := e];
      byIdem := byIdem[idem := e.id];
      return e, true;
    }

    method GetEventByIdempotency(tenant: string, key: string) returns (r: Option<Event>)
      ensures r == Fetch(Contents(), tenant, key)
    {
      if (tenant, key) !in byIdem {
        return None;
      }
      var id := byIdem[(tenant, key)];
      r := if (tenant, id) in byId then Some(byId[(tenant, id)]) else None;
    }

    method GetEventById(tenant: string, id: string) returns (r: Option<Event>)
      ensures r.Some? <==> (tenant, id) in byId
      ensures r.Some? ==> r.value == byId[(tenant, id)]
    {
      r := if (tenant, id) in byId then Some(byId[(tenant, id)]) else None;
    }
  }

  // ----- bus -----

  /** What a callback may do to the bus while it runs. */
  datatype Change = Joins(callback: string) | Leaves(callback: string)

  /** What each callback does to the bus, up to its end or its exception, when
      it is handed one particular publication. */
  type Reactions = map<string, seq<Change>>

  /** `delivered` records each callback run, whether or not it raised. */
  datatype Bus = Bus(published: seq<Publication>, subscribers: seq<string>, delivered: seq<(string, Publication)>)

  function Fanout(subscribers: seq<string>, p: Publication): (r: seq<(string, Publication)>)
    ensures |r| == |subscribers|
    ensures forall i :: 0 <= i < |r| ==> r[i] == (subscribers[i], p)
  {
    seq(|subscribers|, i requires 0 <= i < |subscribers| => (subscribers[i], p))
  }

  function Subscribe(b: Bus, callback: string): Bus {
    if callback in b.subscribers then b else b.(subscribers := b.subscribers + [callback])
  }

  function Unsubscribe(b: Bus, callback: string): Bus {
    b.(subscribers := RemoveFirst(b.subscribers, callback))
  }

  function Apply(b: Bus, changes: seq<Change>): (r: Bus)
    ensures r.published == b.published && r.delivered == b.delivered
  {
    if changes == [] then b
    else
      var before := Apply(b, changes[..|changes| - 1]);
      match changes[|changes| - 1]
      case Joins(callback) => Subscribe(before, callback)
      case Leaves(callback) => Unsubscribe(before, callback)
  }

  /** The changes made by the callbacks of a snapshot, run in order. */
  function Reacted(snapshot: seq<string>, reactions: Reactions): seq<Change> {
    if snapshot == [] then []
    else Reacted(snapshot[..|snapshot| - 1], reactions) + Bucket(reactions, snapshot[|snapshot| - 1])
  }

  /** Subscribers are those of the moment of publication: what they change takes
      effect from the next one. */
  function Publish(b: Bus, p: Publication, reactions: Reactions): Bus {
    Apply(Bus(b.published + [p], b.subscribers, b.delivered + Fanout(b.subscribers, p)),
          Reacted(b.subscribers, reactions))
  }

  lemma {:induction false} ApplyConcat(b: Bus, one: seq<Change>, other: seq<Change>)
    ensures Apply(b, one + other) == Apply(Apply(b, one), other)
  {
    hide Subscribe, Unsubscribe;
    if other == [] {
      assert one + other == one;
    } else {
      var n := |other| - 1;
      ApplyConcat(b, one, other[..n]);
      assert (one + other)[..|one| + n] == one + other[..n];
    }
  }

  lemma {:induction false} ApplyFrames(b: Bus, c: Bus, changes: seq<Change>)
    requires b.subscribers == c.subscribers
    ensures Apply(b, changes).subscribers == Apply(c, changes).subscribers
  {
    if changes != [] {
      ApplyFrames(b, c, changes[..|changes| - 1]);
    }
  }

  lemma {:induction false} ApplyDistinct(b: Bus, changes: seq<Change>)
    requires NoDup(b.subscribers)
    ensures NoDup(Apply(b, changes).subscribers)
  {
    if changes != [] {
      var n := |changes| - 1;
      ApplyDistinct(b, changes[..n]);
      if changes[n].Leaves? {
        RemoveFirstKeeps(Apply(b, changes[..n]).subscribers, changes[n].callback);
      }
    }
  }

  class InMemoryEventBus {
    var published: seq<Publication>
    var subscribers: seq<string>
    var delivered: seq<(string, Publication)>

    ghost function Contents(): Bus
      reads this
    {
      Bus(published, subscribers, delivered)
    }

    constructor ()
      ensures Contents() == Bus([], [], [])
    {
      published, subscribers, delivered := [], [], [];
    }

    method PublishTo(p: Publication, reactions: Reactions)
      modifies this
      ensures Contents() == Publish(old(Contents()), p, reactions)
    {
      hide Apply, Reacted, Fanout;
      published := published + [p];
      var snapshot := subscribers;
      ghost var begun := Bus(published, snapshot, delivered);
      NothingYet(begun, p, reactions);
      for i := 0 to |snapshot|
        invariant published == begun.published
        invariant delivered == begun.delivered + Fanout(snapshot[..i], p)
        invariant subscribers == Apply(begun, Reacted(snapshot[..i], reactions)).subscribers
      {
        delivered := delivered + [(snapshot[i], p)];
        RunCallback(Bucket(reactions, snapshot[i]));
        OneMore(begun, snapshot, i, p, reactions);
      }
      assert snapshot[..|snapshot|] == snapshot;
      ApplyFrames(begun, begun.(delivered := delivered), Reacted(snapshot, reactions));
    }

    /** A callback's effect on the bus. */
    method RunCallback(changes: seq<Change>)
      modifies this`subscribers
      ensures subscribers == Apply(old(Contents()), changes).subscribers
    {
      assert changes[..0] == [];
      for j := 0 to |changes|
        invariant subscribers == Apply(old(Contents()), changes[..j]).subscribers
      {
        assert changes[..j + 1][..j] == changes[..j];
        match changes[j]
        case Joins(callback) =>
          if callback !in subscribers {
            subscribers := subscribers + [callback];
          }
        case Leaves(callback) =>
          subscribers := RemoveFirst(subscribers, callback);
      }
      assert changes[..|changes|] == changes;
    }

    method SubscribeCallback(callback: string)
      modifies this
      ensures Contents() == Subscribe(old(Contents()), callback)
    {
      if callback !in subscribers {
        subscribers := subscribers + [callback];
      }
    }

    method UnsubscribeCallback(callback: string)
      modifies this
      ensures Contents() == Unsubscribe(old(Contents()), callback)
    {
      subscribers := RemoveFirst(subscribers, callback);
    }
  }

  lemma NothingYet(b: Bus, p: Publication, reactions: Reactions)
    ensures b.delivered + Fanout(b.subscribers[..0], p) == b.delivered
    ensures Apply(b, Reacted(b.subscribers[..0], reactions)) == b
  {
  }

  lemma OneMore(b: Bus, snapshot: seq<string>, i: nat, p: Publication, reactions: Reactions)
    requires i < |snapshot|
    ensures Fanout(snapshot[..i + 1], p) == Fanout(snapshot[..i], p) + [(snapshot[i], p)]
    ensures forall c: Bus :: c.subscribers == Apply(b, Reacted(snapshot[..i], reactions)).subscribers ==>
              Apply(c, Bucket(reactions, snapshot[i])).subscribers
              == Apply(b, Reacted(snapshot[..i + 1], reactions)).subscribers
  {
    assert snapshot[..i + 1][..i] == snapshot[..i];
    hide Apply, Bucket;
    ApplyConcat(b, Reacted(snapshot[..i], reactions), Bucket(reactions, snapshot[i]));
    forall c: Bus | c.subscribers == Apply(b, Reacted(snapshot[..i], reactions)).subscribers
      ensures Apply(c, Bucket(reactions, snapshot[i])).subscribers
              == Apply(b, Reacted(snapshot[..i + 1], reactions)).subscribers
    {
      ApplyFrames(c, Apply(b, Reacted(snapshot[..i], reactions)), Bucket(reactions, snapshot[i]));
    }
  }

  // ----- ingestion -----

  datatype World = World(store: Store, bus: Bus)

  const EMPTY_WORLD := World(Store(map[], map[]), Bus([], [], []))

  function Ingest(w: World, e: Event, reactions: Reactions): World
    requires Closed(w.store)
  {
    var (store, stored, created) := Upsert(w.store, e);
    World(store, if created then Publish(w.bus, PublicationOf(stored), reactions) else w.bus)
  }

  method IngestEvent(e: Event, repo: InMemoryEventRepository, bus: InMemoryEventBus, reactions: Reactions)
    returns (stored: Event, created: bool)
    requires Closed(repo.Contents())
    modifies repo, bus
    ensures Closed(repo.Contents())
    ensures World(repo.Contents(), bus.Contents()) == Ingest(World(old(repo.Contents()), old(bus.Contents())), e, reactions)
    ensures (stored, created) == (Upsert(old(repo.Contents()), e).1, Upsert(old(repo.Contents()), e).2)
  {
    stored, created := repo.UpsertEvent(e);
    if created {
      bus.PublishTo(Publication(ChannelFor(stored.tenant), EnvelopeFor(stored)), reactions);
    }
  }

  datatype Op = Deliver(event: Event, reactions: Reactions) | Join(callback: string) | Leave(callback: string)

  function Step(w: World, op: Op): World
    requires Closed(w.store)
  {
    match op
    case Deliver(e, reactions) => Ingest(w, e, reactions)
    case Join(callback) => w.(bus := Subscribe(w.bus, callback))
    case Leave(callback) => w.(bus := Unsubscribe(w.bus, callback))
  }

  function Run(ops: seq<Op>): (w: World)
    ensures Closed(w.store)
  {
    if ops == [] then EMPTY_WORLD
    else
      var w := Run(ops[..|ops| - 1]);
      var op := ops[|ops| - 1];
      if op.Deliver? then UpsertCloses(w.store, op.event); Step(w, op) else Step(w, op)
  }

  // ----- what a run stores and publishes -----

  /** The first delivered event with this tenant and key. */
  function First(ops: seq<Op>, tenant: string, key: string): Option<Event> {
    if ops == [] then None
    else
      var before, op := First(ops[..|ops| - 1], tenant, key), ops[|ops| - 1];
      if before.Some? then before
      else if op.Deliver? && op.event.tenant == tenant && op.event.key == key then Some(op.event)
      else None
  }

  predicate IsNew(ops: seq<Op>, op: Op) {
    op.Deliver? && First(ops, op.event.tenant, op.event.key).None?
  }

  /** The first event of each tenant and key, in order of arrival. */
  function Creations(ops: seq<Op>): seq<Event> {
    if ops == [] then []
    else
      var before, op := ops[..|ops| - 1], ops[|ops| - 1];
      Creations(before) + if IsNew(before, op) then [op.event] else []
  }

  /** Event ids are generated per delivery and never repeat in a tenant. */
  ghost predicate FreshIds(ops: seq<Op>) {
    forall i, j :: 0 <= i < j < |ops| && ops[i].Deliver? && ops[j].Deliver? ==>
      (ops[i].event.tenant, ops[i].event.id) != (ops[j].event.tenant, ops[j].event.id)
  }

  lemma {:induction false} FirstWasDelivered(ops: seq<Op>, tenant: string, key: string) returns (i: nat)
    requires First(ops, tenant, key).Some?
    ensures i < |ops| && ops[i].Deliver? && ops[i].event == First(ops, tenant, key).value
    ensures First(ops, tenant, key).value.tenant == tenant && First(ops, tenant, key).value.key == key
  {
    var n := |ops| - 1;
    if First(ops[..n], tenant, key).Some? {
      i := FirstWasDelivered(ops[..n], tenant, key);
    } else {
      i := n;
    }
  }

  lemma FreshPrefix(ops: seq<Op>)
    requires ops != [] && FreshIds(ops)
    ensures FreshIds(ops[..|ops| - 1])
  {
  }

  lemma FirstIsElsewhere(ops: seq<Op>, tenant: string, key: string)
    requires ops != [] && FreshIds(ops) && ops[|ops| - 1].Deliver?
    requires First(ops[..|ops| - 1], tenant, key).Some?
    ensures var (e, f) := (First(ops[..|ops| - 1], tenant, key).value, ops[|ops| - 1].event);
            (e.tenant, e.id) != (f.tenant, f.id)
  {
    var i := FirstWasDelivered(ops[..|ops| - 1], tenant, key);
    assert ops[i] == ops[..|ops| - 1][i];
  }

  /** The repository holds, for every tenant and key, the first event delivered
      with them, whatever came later. */
  lemma {:induction false} FirstIsStored(ops: seq<Op>, tenant: string, key: string)
    requires FreshIds(ops)
    ensures Fetch(Run(ops).store, tenant, key) == First(ops, tenant, key)
    ensures (tenant, key) in Run(ops).store.byIdem <==> First(ops, tenant, key).Some?
    ensures First(ops, tenant, key).Some? ==>
              Run(ops).store.byIdem[(tenant, key)] == First(ops, tenant, key).value.id
  {
    if ops != [] {
      var before, op := ops[..|ops| - 1], ops[|ops| - 1];
      FreshPrefix(ops);
      hide FreshIds;
      FirstIsStored(before, tenant, key);
      if op.Deliver? {
        FirstIsStored(before, op.event.tenant, op.event.key);
        if First(before, tenant, key).Some? {
          FirstIsElsewhere(ops, tenant, key);
          var i := FirstWasDelivered(before, tenant, key);
        }
      }
    }
  }

  lemma {:induction false} FirstStays(ops: seq<Op>, later: seq<Op>, tenant: string, key: string)
    requires First(ops, tenant, key).Some?
    ensures First(ops + later, tenant, key) == First(ops, tenant, key)
  {
    if later == [] {
      assert ops + later == ops;
    } else {
      var n := |later| - 1;
      FirstStays(ops, later[..n], tenant, key);
      assert (ops + later)[..|ops + later| - 1] == ops + later[..n];
    }
  }

  /** What the repository holds under a tenant and key is never changed by
      anything that happens later. */
  lemma StoredForGood(ops: seq<Op>, later: seq<Op>, tenant: string, key: string)
    requires FreshIds(ops + later) && Fetch(Run(ops).store, tenant, key).Some?
    ensures Fetch(Run(ops + later).store, tenant, key) == Fetch(Run(ops).store, tenant, key)
  {
    hide Run, First;
    assert FreshIds(ops) by {
      assert forall i :: 0 <= i < |ops| ==> (ops + later)[i] == ops[i];
    }
    hide FreshIds;
    FirstIsStored(ops, tenant, key);
    FirstIsStored(ops + later, tenant, key);
    FirstStays(ops, later, tenant, key);
  }

  function Publications(events: seq<Event>): (r: seq<Publication>)
    ensures |r| == |events|
    ensures forall i :: 0 <= i < |r| ==> r[i] == PublicationOf(events[i])
  {
    seq(|events|, i requires 0 <= i < |events| => PublicationOf(events[i]))
  }

  ghost predicate DistinctKeys(events: seq<Event>) {
    forall i, j :: 0 <= i < j < |events| ==> (events[i].tenant, events[i].key) != (events[j].tenant, events[j].key)
  }

  ghost predicate AreFirsts(events: seq<Event>, ops: seq<Op>) {
    forall e :: e in events <==> First(ops, e.tenant, e.key) == Some(e)
  }

  /** The created events are the first of each tenant and key, once each. */
  lemma {:induction false} CreationsMeaning(ops: seq<Op>)
    ensures DistinctKeys(Creations(ops)) && AreFirsts(Creations(ops), ops)
  {
    if ops != [] {
      var before, op := ops[..|ops| - 1], ops[|ops| - 1];
      CreationsMeaning(before);
      CreationsStep(before, op);
      assert before + [op] == ops;
    }
  }

  /** The bus carries exactly one envelope per tenant and key, in creation order. */
  lemma {:induction false} PublishedOnce(ops: seq<Op>)
    requires FreshIds(ops)
    ensures Run(ops).bus.published == Publications(Creations(ops))
    ensures DistinctKeys(Creations(ops)) && AreFirsts(Creations(ops), ops)
  {
    hide FreshIds, DistinctKeys, AreFirsts;
    CreationsMeaning(ops);
    if ops != [] {
      var before, op := ops[..|ops| - 1], ops[|ops| - 1];
      FreshPrefix(ops);
      PublishedOnce(before);
      if op.Deliver? {
        FirstIsStored(before, op.event.tenant, op.event.key);
        PublicationsPlus(Creations(before), op.event);
      }
    }
  }

  lemma ChannelsApart(one: string, other: string)
    ensures ChannelFor(one) == ChannelFor(other) <==> one == other
    ensures |ChannelFor(one)| == 7 + |one| && "events." <= ChannelFor(one) && ChannelFor(one)[7..] == one
  {
    assert ChannelFor(one)[7..] == one && ChannelFor(other)[7..] == other;
  }

  /** Every publication announces a stored event: on the channel of its tenant
      and of no other, with the fields of the delivery that was stored. */
  lemma AnnouncesStored(ops: seq<Op>, i: nat)
    requires FreshIds(ops) && i < |Run(ops).bus.published|
    ensures var p := Run(ops).bus.published[i];
            exists e ::
              && e in Creations(ops) && Fetch(Run(ops).store, e.tenant, e.key) == Some(e)
              && p.topic == "events." + e.tenant
              && p.envelope == Envelope(e.id, e.tenant, e.customer, e.channel, e.eventType, e.receivedAt)
  {
    hide Run, FreshIds;
    PublishedOnce(ops);
    var e := Creations(ops)[i];
    assert e in Creations(ops);
    FirstIsStored(ops, e.tenant, e.key);
  }

  lemma PublicationsPlus(events: seq<Event>, e: Event)
    ensures Publications(events + [e]) == Publications(events) + [PublicationOf(e)]
  {
  }

  lemma CreationsStep(before: seq<Op>, op: Op)
    requires DistinctKeys(Creations(before)) && AreFirsts(Creations(before), before)
    ensures DistinctKeys(Creations(before + [op])) && AreFirsts(Creations(before + [op]), before + [op])
  {
    assert (before + [op])[..|before|] == before;
    var created := Creations(before);
    assert forall i :: 0 <= i < |created| ==> created[i] in created;
  }

  lemma DeliveryAnswers(ops: seq<Op>, e: Event, reactions: Reactions)
    requires FreshIds(ops + [Deliver(e, reactions)])
    ensures var (_, stored, created) := Upsert(Run(ops).store, e);
            && Some(stored) == First(ops + [Deliver(e, reactions)], e.tenant, e.key)
            && (created <==> First(ops, e.tenant, e.key).None?)
  {
    assert (ops + [Deliver(e, reactions)])[..|ops|] == ops;
    FreshPrefix(ops + [Deliver(e, reactions)]);
    FirstIsStored(ops, e.tenant, e.key);
  }

  /** Storing a new key keeps every stored event exactly when its id is new to
      the tenant; an id in use would overwrite the event that has it. */
  lemma NewKeyKeepsStoredIff(s: Store, e: Event)
    requires Closed(s) && (e.tenant, e.key) !in s.byIdem
    requires forall k :: k in s.byIdem ==> s.byId[(k.0, s.byIdem[k])].key == k.1
    ensures (forall k :: k in s.byIdem ==> Fetch(Upsert(s, e).0, k.0, k.1) == Fetch(s, k.0, k.1))
            <==> (forall k :: k in s.byIdem ==> (k.0, s.byIdem[k]) != (e.tenant, e.id))
  {
    var s' := Upsert(s, e).0;
    forall k | k in s.byIdem
      ensures (k.0, k.1) == k
      ensures Fetch(s', k.0, k.1) == Fetch(s, k.0, k.1) <==> (k.0, s.byIdem[k]) != (e.tenant, e.id)
    {
      assert (k.0, k.1) == k;
      assert s.byId[(k.0, s.byIdem[k])].key == k.1;
    }
  }

  // ----- what subscribers see -----

  /** The publications made while `callback` was subscribed. */
  function Heard(ops: seq<Op>, callback: string): seq<Publication> {
    if ops == [] then []
    else
      var before, op := ops[..|ops| - 1], ops[|ops| - 1];
      Heard(before, callback)
      + if callback in Run(before).bus.subscribers && IsNew(before, op) then [PublicationOf(op.event)] else []
  }

  function DeliveredTo(delivered: seq<(string, Publication)>, callback: string): seq<Publication> {
    if delivered == [] then []
    else
      var n := |delivered| - 1;
      DeliveredTo(delivered[..n], callback) + if delivered[n].0 == callback then [delivered[n].1] else []
  }

  lemma {:induction false} DeliveredConcat(one: seq<(string, Publication)>, other: seq<(string, Publication)>,
                                           callback: string)
    ensures DeliveredTo(one + other, callback) == DeliveredTo(one, callback) + DeliveredTo(other, callback)
  {
    if other == [] {
      assert one + other == one;
    } else {
      var n := |other| - 1;
      DeliveredConcat(one, other[..n], callback);
      assert (one + other)[..|one| + n] == one + other[..n];
    }
  }

  lemma {:induction false} FanoutReachesOnce(subscribers: seq<string>, p: Publication, callback: string)
    requires NoDup(subscribers)
    ensures DeliveredTo(Fanout(subscribers, p), callback) == if callback in subscribers then [p] else []
  {
    if subscribers != [] {
      var n := |subscribers| - 1;
      FanoutReachesOnce(subscribers[..n], p, callback);
      assert Fanout(subscribers, p)[..n] == Fanout(subscribers[..n], p);
      assert subscribers == subscribers[..n] + [subscribers[n]];
    }
  }

  lemma {:induction false} SubscribersDistinct(ops: seq<Op>)
    ensures NoDup(Run(ops).bus.subscribers)
  {
    if ops != [] {
      var before, op := ops[..|ops| - 1], ops[|ops| - 1];
      SubscribersDistinct(before);
      if op.Leave? {
        RemoveFirstKeeps(Run(before).bus.subscribers, op.callback);
      } else if op.Deliver? {
        var b := Run(before).bus;
        ApplyDistinct(Bus(b.published + [PublicationOf(op.event)], b.subscribers,
                          b.delivered + Fanout(b.subscribers, PublicationOf(op.event))),
                      Reacted(b.subscribers, op.reactions));
      }
    }
  }

  /** Each callback runs exactly once per publication made while it was
      subscribed, in order, however often it subscribed. */
  lemma {:induction false} HeardOnce(ops: seq<Op>, callback: string)
    requires FreshIds(ops)
    ensures DeliveredTo(Run(ops).bus.delivered, callback) == Heard(ops, callback)
  {
    hide FreshIds, Fanout, Apply, Reacted;
    if ops != [] {
      var before, op := ops[..|ops| - 1], ops[|ops| - 1];
      FreshPrefix(ops);
      HeardOnce(before, callback);
      if op.Deliver? {
        FirstIsStored(before, op.event.tenant, op.event.key);
        SubscribersDistinct(before);
        var b := Run(before).bus;
        var p := PublicationOf(op.event);
        DeliveredConcat(b.delivered, Fanout(b.subscribers, p), callback);
        FanoutReachesOnce(b.subscribers, p, callback);
      }
    }
  }
}
