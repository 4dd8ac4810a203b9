/**
 * The in-process lock port (src/testing/memory-lock-port.ts): a FIFO readers-writer lock per
 * (namespace, key). Every method is proved against the table of `LockTable`.
 */
module MemoryLockPort {
  import opened LockPort
  import opened LockTable

  /** The program keeps the modes of the holders only; a queued waiter is a mode and a promise. */
  datatype LockEntry = LockEntry(holders: seq<LockMode>, queue: seq<Grant>)

  function Modes(grants: seq<Grant>): (ms: seq<LockMode>)
    ensures |ms| == |grants|
    ensures forall i :: 0 <= i < |grants| ==> ms[i] == grants[i].mode
  {
    seq(|grants|, i requires 0 <= i < |grants| => grants[i].mode)
  }

  predicate CompatibleModes(holders: seq<LockMode>, mode: LockMode)
  {
    match mode
    case Exclusive => |holders| == 0
    case Shared => Exclusive !in holders
  }

  lemma CompatibleByMode(holders: seq<Grant>, mode: LockMode)
    ensures CompatibleModes(Modes(holders), mode) <==> Compatible(holders, mode)
  {
    if Exclusive in Modes(holders) {
      var i :| 0 <= i < |holders| && Modes(holders)[i] == Exclusive;
      assert holders[i] in holders && holders[i].mode == Exclusive;
    }
    forall h | h in holders && h.mode == Exclusive ensures Exclusive in Modes(holders) {
      var i :| 0 <= i < |holders| && holders[i] == h;
      assert Modes(holders)[i] == Exclusive;
    }
  }

  /** `splice(indexOf(mode), 1)`. */
  function SpliceMode(holders: seq<LockMode>, mode: LockMode): seq<LockMode>
  {
    if holders == [] then []
    else if holders[0] == mode then holders[1..]
    else [holders[0]] + SpliceMode(holders[1..], mode)
  }

  lemma {:induction false} SpliceUniform(holders: seq<LockMode>, mode: LockMode, i: nat)
    requires i < |holders| && forall j :: 0 <= j < |holders| ==> holders[j] == mode
    ensures SpliceMode(holders, mode) == holders[..i] + holders[i + 1..]
  {
  }

  /**
   * A releaser removes the first holder of its mode, not its own; since holders are all readers or
   * one writer, the modes left are those its own removal would leave.
   */
  lemma SpliceIsOwnRelease(holders: seq<Grant>, ticket: nat, mode: LockMode)
    requires HoldersOk(holders) && HasTicket(holders, ticket) && Grant(ticket, mode) in holders
    requires Distinct(Tickets(holders))
    ensures SpliceMode(Modes(holders), mode) == Modes(Drop(holders, ticket))
  {
    var i := DropSplits(holders, ticket);
    var k :| 0 <= k < |holders| && holders[k] == Grant(ticket, mode);
    assert Tickets(holders)[i] == Tickets(holders)[k];
    SpliceUniform(Modes(holders), mode, i);
  }

  /** The requests of an entry drew their tickets for it and have not released it. */
  ghost predicate Owned<K>(e: Entry, id: K, drawn: map<nat, K>, released: set<nat>)
  {
    forall g :: g in e.holders || g in e.queue ==>
      g.ticket in drawn && drawn[g.ticket] == id && g.ticket !in released
  }

  /** The map of entries is the table, without the names of the holders. */
  ghost predicate Tied<K(!new)>(entries: map<K, LockEntry>, table: Table<K>, drawn: map<nat, K>, released: set<nat>)
  {
    && TableOk(table)
    && entries.Keys == table.Keys
    && forall id :: id in table ==>
         entries[id] == LockEntry(Modes(table[id].holders), table[id].queue) && Owned(table[id], id, drawn, released)
  }

  /** Nobody waits, and nobody holds the lock or, for a reader, no writer does. */
  ghost predicate GetsIn(e: Entry, mode: LockMode)
  {
    e.queue == [] && if mode == Exclusive then e.holders == [] else forall h :: h in e.holders ==> h.mode != Exclusive
  }

  /** Keeps an entry in use, deletes an unused one. */
  function Store<K>(entries: map<K, LockEntry>, id: K, entry: LockEntry): map<K, LockEntry>
  {
    if |entry.holders| == 0 && |entry.queue| == 0 then entries - {id} else entries[id := entry]
  }

  lemma StoreTies<K(!new)>(
      entries: map<K, LockEntry>, table: Table<K>, drawn: map<nat, K>, released: set<nat>,
      id: K, e: Entry, drawn': map<nat, K>, released': set<nat>)
    requires Tied(entries, table, drawn, released)
    requires forall other :: other in table && other != id ==> Owned(table[other], other, drawn', released')
    requires EntryOk(e) && Owned(e, id, drawn', released')
    ensures Tied(Store(entries, id, LockEntry(Modes(e.holders), e.queue)), Put(table, id, e), drawn', released')
  {
    PutOk(table, id, e);
    var entry := LockEntry(Modes(e.holders), e.queue);
    assert e == UNUSED <==> |entry.holders| == 0 && |entry.queue| == 0;
  }

  class MemoryLockPort<K(==, !new)> {
    var entries: map<K, LockEntry>
    /** Releasers that ran already: the `released` flag each of them closes over. */
    var released: set<nat>
    var nextTicket: nat
    /** Who holds and who waits. */
    ghost var table: Table<K>
    /** The lock each ticket was drawn for. */
    ghost var drawn: map<nat, K>

    ghost predicate Valid()
      reads this
    {
      && Tied(entries, table, drawn, released)
      && (forall t: nat :: t in drawn <==> t < nextTicket)
      && released <= drawn.Keys
    }

    constructor ()
      ensures Valid() && table == map[] && released == {} && nextTicket == 0
    {
      entries, released, nextTicket, table, drawn := map[], {}, 0, map[], map[];
    }

    /** The promise of the ticket is settled at once when `granted`, and later otherwise. */
    method LockOne(id: K, mode: LockMode) returns (ticket: nat, granted: bool)
      requires Valid()
      modifies this
      ensures Valid()
      ensures ticket == old(nextTicket) && nextTicket == ticket + 1 && released == old(released)
      ensures table == Put(old(table), id, Request(At(old(table), id), Grant(ticket, mode)))
      ensures granted <==> Grant(ticket, mode) in At(table, id).holders
      ensures granted <==> GetsIn(old(At(table, id)), mode)
      ensures var e, g := old(At(table, id)), Grant(ticket, mode);
        At(table, id) == if granted then Entry(e.holders + [g], []) else Entry(e.holders, e.queue + [g])
    {
      ticket := nextTicket;
      var g := Grant(ticket, mode);
      ghost var e := At(table, id);
      RequestStores(entries, table, drawn, released, id, g);
      var entry := if id in entries then entries[id] else LockEntry([], []);
      granted := |entry.queue| == 0 && CompatibleModes(entry.holders, mode);
      entry :=
        if granted then LockEntry(entry.holders + [mode], entry.queue) else LockEntry(entry.holders, entry.queue + [g]);
      entries := Store(entries, id, entry);
      nextTicket, table, drawn := nextTicket + 1, Put(table, id, Request(e, g)), drawn[ticket := id];
    }

    /** Grants waiters from the head of the queue; the grants are the tickets it settles. */
    method Pump(entry: LockEntry, ghost e: Entry) returns (pumped: LockEntry)
      requires entry == LockEntry(Modes(e.holders), e.queue)
      ensures var r := LockTable.Pump(e); pumped == LockEntry(Modes(r.holders), r.queue)
    {
      pumped := entry;
      ghost var now := e;
      while |pumped.queue| > 0 && CompatibleModes(pumped.holders, pumped.queue[0].mode)
        invariant pumped == LockEntry(Modes(now.holders), now.queue)
        invariant LockTable.Pump(now) == LockTable.Pump(e)
        decreases |pumped.queue|
      {
        var head := pumped.queue[0];
        CompatibleByMode(now.holders, head.mode);
        PumpUnrolls(now);
        pumped := LockEntry(pumped.holders + [head.mode], pumped.queue[1..]);
        now := Entry(now.holders + [head], now.queue[1..]);
        assert Modes(now.holders) == pumped.holders;
      }
      if |now.queue| > 0 { CompatibleByMode(now.holders, now.queue[0].mode); }
      assert LockTable.Pump(now) == now;
    }

    /** Runs the releaser of a granted ticket; running it again does nothing. */
    method Release(id: K, ticket: nat, mode: LockMode)
      requires Valid()
      requires ticket !in released ==> Grant(ticket, mode) in At(table, id).holders
      modifies this
      ensures Valid() && nextTicket == old(nextTicket)
      ensures released == old(released) + {ticket}
      ensures ticket in old(released) ==> table == old(table)
      ensures ticket !in old(released) ==>
        table == Put(old(table), id, LockTable.Release(At(old(table), id), ticket))
    {
      if ticket in released { return; }
      ghost var e := At(table, id);
      ReleaseStores(entries, table, drawn, released, id, ticket, mode);
      released := released + {ticket};
      var entry := LockEntry(SpliceMode(entries[id].holders, mode), entries[id].queue);
      entry := Pump(entry, Entry(Drop(e.holders, ticket), e.queue));
      entries := Store(entries, id, entry);
      table := Put(table, id, LockTable.Release(e, ticket));
    }

    /** The timer of a waiter fires: it leaves the queue, and whoever it blocked may be granted. */
    method TimeOut(id: K, ticket: nat)
      requires Valid() && HasTicket(At(table, id).queue, ticket)
      modifies this
      ensures Valid() && nextTicket == old(nextTicket) && released == old(released)
      ensures table == Put(old(table), id, LockTable.TimeOut(At(old(table), id), ticket))
    {
      ghost var e := At(table, id);
      TimeOutStores(entries, table, drawn, released, id, ticket);
      var entry := LockEntry(entries[id].holders, Drop(entries[id].queue, ticket));
      entry := Pump(entry, Entry(e.holders, Drop(e.queue, ticket)));
      entries := Store(entries, id, entry);
      table := Put(table, id, LockTable.TimeOut(e, ticket));
    }
  }

  lemma RequestTies<K>(e: Entry, g: Grant, id: K, drawn: map<nat, K>, released: set<nat>)
    requires EntryOk(e) && Owned(e, id, drawn, released)
    requires g.ticket !in drawn && g.ticket !in released
    ensures EntryOk(Request(e, g)) && Owned(Request(e, g), id, drawn[g.ticket := id], released)
    ensures var granted := |e.queue| == 0 && CompatibleModes(Modes(e.holders), g.mode);
      && (granted <==> g in Request(e, g).holders)
      && LockEntry(Modes(Request(e, g).holders), Request(e, g).queue) ==
         if granted then LockEntry(Modes(e.holders) + [g.mode], e.queue) else LockEntry(Modes(e.holders), e.queue + [g])
  {
    assert forall h :: h in e.holders + e.queue ==> h in e.holders || h in e.queue;
    assert !HasTicket(e.holders + e.queue, g.ticket);
    RequestOk(e, g);
    CompatibleByMode(e.holders, g.mode);
    assert Modes(e.holders + [g]) == Modes(e.holders) + [g.mode];
  }

  lemma RequestStores<K(!new)>(
      entries: map<K, LockEntry>, table: Table<K>, drawn: map<nat, K>, released: set<nat>, id: K, g: Grant)
    requires Tied(entries, table, drawn, released) && g.ticket !in drawn && g.ticket !in released
    ensures
      var e, entry := At(table, id), if id in entries then entries[id] else LockEntry([], []);
      var granted := |entry.queue| == 0 && CompatibleModes(entry.holders, g.mode);
      var entry' :=
        if granted then LockEntry(entry.holders + [g.mode], entry.queue)
        else LockEntry(entry.holders, entry.queue + [g]);
      var table' := Put(table, id, Request(e, g));
      && Tied(Store(entries, id, entry'), table', drawn[g.ticket := id], released)
      && (granted <==> g in At(table', id).holders)
      && (granted <==> GetsIn(e, g.mode))
      && At(table', id) == if granted then Entry(e.holders + [g], []) else Entry(e.holders, e.queue + [g])
  {
    var e := At(table, id);
    RequestExactly(e, g);
    RequestTies(e, g, id, drawn, released);
    PutOk(table, id, Request(e, g));
    StoreTies(entries, table, drawn, released, id, Request(e, g), drawn[g.ticket := id], released);
  }

  lemma ReleaseStores<K(!new)>(
      entries: map<K, LockEntry>, table: Table<K>, drawn: map<nat, K>, released: set<nat>, id: K, ticket: nat,
      mode: LockMode)
    requires Tied(entries, table, drawn, released) && Grant(ticket, mode) in At(table, id).holders
    ensures id in entries && ticket in drawn
    ensures
      var e, r := At(table, id), Release(At(table, id), ticket);
      && LockEntry(SpliceMode(entries[id].holders, mode), entries[id].queue)
         == LockEntry(Modes(Drop(e.holders, ticket)), e.queue)
      && Tied(Store(entries, id, LockEntry(Modes(r.holders), r.queue)), Put(table, id, r), drawn, released + {ticket})
  {
    var e := At(table, id);
    ReleaseTies(e, ticket, mode, id, drawn, released);
    assert drawn[ticket] == id;
    StoreTies(entries, table, drawn, released, id, Release(e, ticket), drawn, released + {ticket});
  }

  lemma TimeOutStores<K(!new)>(
      entries: map<K, LockEntry>, table: Table<K>, drawn: map<nat, K>, released: set<nat>, id: K, ticket: nat)
    requires Tied(entries, table, drawn, released) && HasTicket(At(table, id).queue, ticket)
    ensures id in entries
    ensures
      var e, r := At(table, id), TimeOut(At(table, id), ticket);
      && entries[id] == LockEntry(Modes(e.holders), e.queue)
      && Tied(Store(entries, id, LockEntry(Modes(r.holders), r.queue)), Put(table, id, r), drawn, released)
  {
    var e := At(table, id);
    TimeOutOk(e, ticket);
    TimeOutMembers(e, ticket);
    StoreTies(entries, table, drawn, released, id, TimeOut(e, ticket), drawn, released);
  }

  lemma PumpUnrolls(e: Entry)
    requires e.queue != [] && Compatible(e.holders, e.queue[0].mode)
    ensures Pump(e) == Pump(Entry(e.holders + [e.queue[0]], e.queue[1..]))
  {
    var next := Entry(e.holders + [e.queue[0]], e.queue[1..]);
    var n := GrantCount(next.holders, next.queue);
    assert next.holders + next.queue[..n] == e.holders + e.queue[..n + 1];
  }

  lemma ReleaseTies<K>(e: Entry, ticket: nat, mode: LockMode, id: K, drawn: map<nat, K>, released: set<nat>)
    requires EntryOk(e) && Owned(e, id, drawn, released) && Grant(ticket, mode) in e.holders
    ensures HasTicket(e.holders, ticket)
    ensures EntryOk(Release(e, ticket)) && Owned(Release(e, ticket), id, drawn, released + {ticket})
    ensures SpliceMode(Modes(e.holders), mode) == Modes(Drop(e.holders, ticket))
  {
    HolderHasTicket(e.holders, Grant(ticket, mode));
    ReleaseMembers(e, ticket);
    ReleaseSplices(e, ticket, mode);
    ReleaseOk(e, ticket);
  }

  lemma HolderHasTicket(holders: seq<Grant>, g: Grant)
    requires g in holders
    ensures HasTicket(holders, g.ticket)
  {
  }

  lemma ReleaseSplices(e: Entry, ticket: nat, mode: LockMode)
    requires EntryOk(e) && Grant(ticket, mode) in e.holders && HasTicket(e.holders, ticket)
    ensures SpliceMode(Modes(e.holders), mode) == Modes(Drop(e.holders, ticket))
  {
    DistinctHolders(e);
    SpliceIsOwnRelease(e.holders, ticket, mode);
  }

  lemma DistinctHolders(e: Entry)
    requires Distinct(Tickets(e.holders + e.queue))
    ensures Distinct(Tickets(e.holders))
  {
    var all := Tickets(e.holders + e.queue);
    assert forall i :: 0 <= i < |e.holders| ==> Tickets(e.holders)[i] == all[i];
  }

  lemma ReleaseMembers(e: Entry, ticket: nat)
    requires EntryOk(e) && HasTicket(e.holders, ticket)
    ensures var r := Release(e, ticket);
      forall g :: g in r.holders || g in r.queue ==> (g in e.holders || g in e.queue) && g.ticket != ticket
  {
    var i := DropSplits(e.holders, ticket);
    var all, r := e.holders + e.queue, Release(e, ticket);
    PumpSplits(Entry(Drop(e.holders, ticket), e.queue));
    assert Drop(e.holders, ticket) + e.queue == all[..i] + all[i + 1..];
    forall g | g in r.holders || g in r.queue ensures (g in e.holders || g in e.queue) && g.ticket != ticket {
      assert g in r.holders + r.queue;
      OtherMember(all, i, g);
    }
  }

  lemma OtherMember(all: seq<Grant>, i: nat, g: Grant)
    requires Distinct(Tickets(all)) && i < |all| && g in all[..i] + all[i + 1..]
    ensures g in all && g.ticket != all[i].ticket
  {
    var k :| 0 <= k < |all| && k != i && all[k] == g;
    assert Tickets(all)[k] != Tickets(all)[i];
  }

  lemma PumpSplits(e: Entry)
    ensures Pump(e).holders + Pump(e).queue == e.holders + e.queue
  {
  }

  lemma TimeOutMembers(e: Entry, ticket: nat)
    requires EntryOk(e) && HasTicket(e.queue, ticket)
    ensures var r := TimeOut(e, ticket);
      forall g :: g in r.holders || g in r.queue ==> g in e.holders || g in e.queue
  {
    var i := DropSplits(e.queue, ticket);
    var r := TimeOut(e, ticket);
    PumpSplits(Entry(e.holders, Drop(e.queue, ticket)));
    forall g | g in r.holders || g in r.queue ensures g in e.holders || g in e.queue {
      assert g in e.holders + Drop(e.queue, ticket);
    }
  }
}
