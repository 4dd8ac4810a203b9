/**
 * The TTL store under the inbound gate (src/idempotency/memory-idempotency.store.ts) and the records
 * that are kept in it. A storage key is the pair (scope, key). Time is the caller's clock.
 */
module InboundStore {
  import opened Common
  import opened CodeUnits

  datatype Id = Id(scope: Text, key: Text)

  /** Values as a record holds them; `Undefined` is what a missing property reads as. */
  datatype Json =
    | Undefined
    | Null
    | Bool(b: bool)
    | Num(n: int)
    | Str(s: Text)
    | Obj(fields: map<Field, Json>)

  datatype Field = CachedResult | AcceptedMark | MessageId | StoredFailure | Version | Data | Named(name: Text)

  type Record = map<Field, Json>

  function Get(record: Record, field: Field): Json
  {
    if field in record then record[field] else Undefined
  }

  datatype Status = InFlight | Completed | Failed

  datatype Entry = Entry(status: Status, expiresAt: int, result: Option<Record>, error: Option<int>)

  // ---- One key.

  predicate Live(e: Option<Entry>, now: int) { e.Some? && e.value.expiresAt > now }

  /** `begin`: the clock is read twice, `now` for the check and `later` for the new entry. */
  function Begun(e: Option<Entry>, now: int, later: int, ttl: int): Option<Entry>
  {
    if Live(e, now) then e else Some(Entry(InFlight, later + ttl, None, None))
  }

  function CompletedWith(e: Option<Entry>, record: Record): Option<Entry>
  {
    if e.None? then None else Some(e.value.(status := Completed, result := Some(record)))
  }

  function FailedWith(e: Option<Entry>, error: int): Option<Entry>
  {
    if e.None? then None else Some(e.value.(status := Failed, error := Some(error)))
  }

  /** Reading and purging drop what has expired. */
  function Kept(e: Option<Entry>, now: int): Option<Entry>
  {
    if Live(e, now) then e else None
  }

  class MemoryIdempotencyStore {
    var entries: map<Id, Entry>

    constructor ()
      ensures entries == map[]
    {
      entries := map[];
    }

    function At(id: Id): Option<Entry>
      reads this
    {
      if id in entries then Some(entries[id]) else None
    }

    /** Nothing but `id` changed, and it is now `e`. */
    twostate predicate Becomes(id: Id, e: Option<Entry>)
      reads this
    {
      At(id) == e && forall other :: other != id ==> At(other) == old(At(other))
    }

    method Begin(id: Id, now: int, later: int, ttl: int) returns (acquired: bool)
      modifies this
      ensures acquired <==> !Live(old(At(id)), now)
      ensures acquired <==> !(id in old(entries) && old(entries)[id].expiresAt > now)
      ensures Becomes(id, Begun(old(At(id)), now, later, ttl))
    {
      if id in entries && entries[id].expiresAt > now { return false; }
      entries := entries[id := Entry(InFlight, later + ttl, None, None)];
      acquired := true;
    }

    method Complete(id: Id, record: Record)
      modifies this
      ensures Becomes(id, CompletedWith(old(At(id)), record))
    {
      if id !in entries { return; }
      entries := entries[id := entries[id].(status := Completed, result := Some(record))];
    }

    method Fail(id: Id, error: int)
      modifies this
      ensures Becomes(id, FailedWith(old(At(id)), error))
    {
      if id !in entries { return; }
      entries := entries[id := entries[id].(status := Failed, error := Some(error))];
    }

    method Read(id: Id, now: int) returns (e: Option<Entry>)
      modifies this
      ensures e == Kept(old(At(id)), now) && Becomes(id, e)
      ensures e == if id in old(entries) && old(entries)[id].expiresAt > now then Some(old(entries)[id]) else None
    {
      if id !in entries { return None; }
      if entries[id].expiresAt <= now {
        entries := entries - {id};
        return None;
      }
      e := Some(entries[id]);
    }

    method Release(id: Id)
      modifies this
      ensures Becomes(id, None)
    {
      entries := entries - {id};
    }

    /** Drops every expired entry and no other, and counts them. */
    method PurgeExpired(now: int) returns (purged: nat)
      modifies this
      ensures forall id :: At(id) == Kept(old(At(id)), now)
      ensures purged + |entries| == |old(entries)|
    {
      purged := 0;
      var todo := entries.Keys;
      while todo != {}
        invariant todo <= old(entries).Keys && entries.Keys <= old(entries).Keys && todo <= entries.Keys
        invariant forall id :: id in entries ==> entries[id] == old(entries)[id]
        invariant forall id :: id in todo ==> At(id) == old(At(id))
        invariant forall id :: id !in todo ==> At(id) == Kept(old(At(id)), now)
        invariant purged + |entries| == |old(entries)|
        decreases todo
      {
        var id :| id in todo;
        if entries[id].expiresAt <= now {
          assert entries.Keys == (entries - {id}).Keys + {id};
          entries := entries - {id};
          purged := purged + 1;
        }
        todo := todo - {id};
      }
    }
  }
}
