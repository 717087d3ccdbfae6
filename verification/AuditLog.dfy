/** The append-only audit log: one list of rows plus three secondary indexes
    that every read goes through. */
module AuditLogs {
  import opened Common
  import opened Contracts

  /** `e` as the next row of `log`: ids count up from one. */
  function Stamp(log: seq<AuditEntry>, e: AuditEntry): seq<AuditEntry> {
    log + [e.(id := Some(|log| + 1))]
  }

  function ForTenant(log: seq<AuditEntry>, t: string): seq<AuditEntry> {
    if log == [] then []
    else
      var front := ForTenant(log[..|log| - 1], t);
      var last := log[|log| - 1];
      if last.tenant == t then front + [last] else front
  }

  function ForAction(log: seq<AuditEntry>, a: string): seq<AuditEntry> {
    if log == [] then []
    else
      var front := ForAction(log[..|log| - 1], a);
      var last := log[|log| - 1];
      if last.action == Some(a) then front + [last] else front
  }

  function ForEvent(log: seq<AuditEntry>, ev: string): seq<AuditEntry> {
    if log == [] then []
    else
      var front := ForEvent(log[..|log| - 1], ev);
      var last := log[|log| - 1];
      if last.event == Some(ev) then front + [last] else front
  }

  lemma FiltersOnAppend(log: seq<AuditEntry>, e: AuditEntry)
    ensures forall t :: ForTenant(log + [e], t) == ForTenant(log, t) + if e.tenant == t then [e] else []
    ensures forall a :: ForAction(log + [e], a) == ForAction(log, a) + if e.action == Some(a) then [e] else []
    ensures forall ev :: ForEvent(log + [e], ev) == ForEvent(log, ev) + if e.event == Some(ev) then [e] else []
  {
    assert (log + [e])[..|log + [e]| - 1] == log;
  }

  /** A filtered view holds exactly the matching rows, in log order. */
  lemma {:induction false} ForTenantExact(log: seq<AuditEntry>, t: string)
    ensures forall e :: e in ForTenant(log, t) <==> e in log && e.tenant == t
  {
    if log != [] {
      ForTenantExact(log[..|log| - 1], t);
      assert log == log[..|log| - 1] + [log[|log| - 1]];
    }
  }

  lemma {:induction false} ForActionExact(log: seq<AuditEntry>, a: string)
    ensures forall e :: e in ForAction(log, a) <==> e in log && e.action == Some(a)
  {
    if log != [] {
      ForActionExact(log[..|log| - 1], a);
      assert log == log[..|log| - 1] + [log[|log| - 1]];
    }
  }

  lemma {:induction false} ForEventExact(log: seq<AuditEntry>, ev: string)
    ensures forall e :: e in ForEvent(log, ev) <==> e in log && e.event == Some(ev)
  {
    if log != [] {
      ForEventExact(log[..|log| - 1], ev);
      assert log == log[..|log| - 1] + [log[|log| - 1]];
    }
  }

  /** The defence-in-depth tenant filter over an already filtered list. */
  function OfTenant(rows: seq<AuditEntry>, t: Option<string>): seq<AuditEntry> {
    match t
    case None => rows
    case Some(tenant) => ForTenant(rows, tenant)
  }

  ghost predicate TenantIndex(index: map<string, seq<AuditEntry>>, log: seq<AuditEntry>) {
    forall t :: Bucket(index, t) == ForTenant(log, t)
  }

  ghost predicate ActionIndex(index: map<string, seq<AuditEntry>>, log: seq<AuditEntry>) {
    forall a :: Bucket(index, a) == ForAction(log, a)
  }

  ghost predicate EventIndex(index: map<string, seq<AuditEntry>>, log: seq<AuditEntry>) {
    forall ev :: Bucket(index, ev) == ForEvent(log, ev)
  }

  lemma TenantIndexAppend(index: map<string, seq<AuditEntry>>, log: seq<AuditEntry>, e: AuditEntry)
    requires TenantIndex(index, log)
    ensures TenantIndex(Push(index, e.tenant, e), log + [e])
  {
    FiltersOnAppend(log, e);
  }

  lemma ActionIndexAppend(index: map<string, seq<AuditEntry>>, log: seq<AuditEntry>, e: AuditEntry)
    requires ActionIndex(index, log)
    ensures ActionIndex(if e.action.Some? then Push(index, e.action.value, e) else index, log + [e])
  {
    FiltersOnAppend(log, e);
  }

  lemma EventIndexAppend(index: map<string, seq<AuditEntry>>, log: seq<AuditEntry>, e: AuditEntry)
    requires EventIndex(index, log)
    ensures EventIndex(if e.event.Some? then Push(index, e.event.value, e) else index, log + [e])
  {
    FiltersOnAppend(log, e);
  }

  class AuditLog {
    var entries: seq<AuditEntry>
    var byTenant: map<string, seq<AuditEntry>>
    var byAction: map<string, seq<AuditEntry>>
    var byEvent: map<string, seq<AuditEntry>>
    var nextId: nat

    /** Each index bucket is the filtered log, and the counter is in step. */
    ghost predicate Valid()
      reads this
    {
      && nextId == |entries| + 1
      && TenantIndex(byTenant, entries)
      && ActionIndex(byAction, entries)
      && EventIndex(byEvent, entries)
    }

    constructor ()
      ensures Valid() && entries == []
    {
      entries, byTenant, byAction, byEvent, nextId := [], map[], map[], map[], 1;
    }

    method Write(entry: AuditEntry) returns (row: AuditEntry)
      requires Valid()
      modifies this
      ensures Valid()
      ensures entries == Stamp(old(entries), entry)
      ensures row == entries[|entries| - 1]
    {
      row := entry.(id := Some(nextId));
      TenantIndexAppend(byTenant, entries, row);
      ActionIndexAppend(byAction, entries, row);
      EventIndexAppend(byEvent, entries, row);
      nextId := nextId + 1;
      entries := entries + [row];
      byTenant := Push(byTenant, row.tenant, row);
      if row.action.Some? {
        byAction := Push(byAction, row.action.value, row);
      }
      if row.event.Some? {
        byEvent := Push(byEvent, row.event.value, row);
      }
    }

    method EntriesForTenant(tenant: string) returns (rows: seq<AuditEntry>)
      requires Valid()
      ensures rows == ForTenant(entries, tenant)
    {
      rows := Bucket(byTenant, tenant);
    }

    method EntriesForAction(action: string, tenant: Option<string>) returns (rows: seq<AuditEntry>)
      requires Valid()
      ensures rows == OfTenant(ForAction(entries, action), tenant)
      ensures tenant.None? ==> rows == ForAction(entries, action)
      ensures forall e :: e in rows <==> e in entries && e.action == Some(action) && (tenant.Some? ==> e.tenant == tenant.value)
    {
      ForActionExact(entries, action);
      rows := Bucket(byAction, action);
      if tenant.Some? {
        ForTenantExact(rows, tenant.value);
        rows := KeepTenant(rows, tenant.value);
      }
    }

    method EntriesForEvent(event: string, tenant: Option<string>) returns (rows: seq<AuditEntry>)
      requires Valid()
      ensures rows == OfTenant(ForEvent(entries, event), tenant)
      ensures tenant.None? ==> rows == ForEvent(entries, event)
      ensures forall e :: e in rows <==> e in entries && e.event == Some(event) && (tenant.Some? ==> e.tenant == tenant.value)
    {
      ForEventExact(entries, event);
      rows := Bucket(byEvent, event);
      if tenant.Some? {
        ForTenantExact(rows, tenant.value);
        rows := KeepTenant(rows, tenant.value);
      }
    }
  }

  method KeepTenant(rows: seq<AuditEntry>, tenant: string) returns (kept: seq<AuditEntry>)
    ensures kept == ForTenant(rows, tenant)
  {
    kept := [];
    for i := 0 to |rows|
      invariant kept == ForTenant(rows[..i], tenant)
    {
      assert rows[..i + 1] == rows[..i] + [rows[i]];
      FiltersOnAppend(rows[..i], rows[i]);
      if rows[i].tenant == tenant {
        kept := kept + [rows[i]];
      }
    }
    assert rows[..|rows|] == rows;
  }
}
