/**
 * What `MemoryLockPort` keeps per lock (src/testing/memory-lock-port.ts), as values: the holders and
 * the FIFO queue of one readers-writer lock, and the table of all locks that have either.
 */
module LockTable {
  import opened LockPort

  /** One request at a lock. The ticket stands for the promise the request waits on. */
  datatype Grant = Grant(ticket: nat, mode: LockMode)

  datatype Entry = Entry(holders: seq<Grant>, queue: seq<Grant>)

  const UNUSED := Entry([], [])

  predicate Compatible(holders: seq<Grant>, mode: LockMode)
  {
    match mode
    case Exclusive => holders == []
    case Shared => forall h :: h in holders ==> h.mode == Shared
  }

  /** Readers together or one writer alone. */
  ghost predicate HoldersOk(holders: seq<Grant>)
  {
    |holders| == 1 || forall h :: h in holders ==> h.mode == Shared
  }

  ghost predicate HeadBlocked(e: Entry)
  {
    e.queue != [] ==> !Compatible(e.holders, e.queue[0].mode)
  }

  ghost predicate Distinct<T>(xs: seq<T>)
  {
    forall i, j :: 0 <= i < j < |xs| ==> xs[i] != xs[j]
  }

  function Tickets(grants: seq<Grant>): (ts: seq<nat>)
    ensures |ts| == |grants|
    ensures forall i :: 0 <= i < |grants| ==> ts[i] == grants[i].ticket
  {
    seq(|grants|, i requires 0 <= i < |grants| => grants[i].ticket)
  }

  /** Invariant of an entry between two events. */
  ghost predicate EntryOk(e: Entry)
  {
    HoldersOk(e.holders) && HeadBlocked(e) && Distinct(Tickets(e.holders + e.queue))
  }

  predicate HasTicket(grants: seq<Grant>, ticket: nat)
  {
    exists i :: 0 <= i < |grants| && grants[i].ticket == ticket
  }

  /** `grants` without the first request of `ticket`. */
  function Drop(grants: seq<Grant>, ticket: nat): seq<Grant>
  {
    if grants == [] then []
    else if grants[0].ticket == ticket then grants[1..]
    else [grants[0]] + Drop(grants[1..], ticket)
  }

  /** How many waiters a pump grants: from the head, while each is compatible with those before it. */
  function GrantCount(holders: seq<Grant>, queue: seq<Grant>): (n: nat)
    ensures n <= |queue|
    decreases |queue|
  {
    if queue != [] && Compatible(holders, queue[0].mode) then 1 + GrantCount(holders + [queue[0]], queue[1..])
    else 0
  }

  function Pump(e: Entry): Entry
  {
    var n := GrantCount(e.holders, e.queue);
    Entry(e.holders + e.queue[..n], e.queue[n..])
  }

  function Request(e: Entry, g: Grant): Entry
  {
    if e.queue == [] && Compatible(e.holders, g.mode) then Entry(e.holders + [g], [])
    else Entry(e.holders, e.queue + [g])
  }

  function Release(e: Entry, ticket: nat): Entry
  {
    Pump(Entry(Drop(e.holders, ticket), e.queue))
  }

  function TimeOut(e: Entry, ticket: nat): Entry
  {
    Pump(Entry(e.holders, Drop(e.queue, ticket)))
  }

  lemma {:induction false} DropSplits(grants: seq<Grant>, ticket: nat) returns (i: nat)
    requires HasTicket(grants, ticket)
    ensures i < |grants| && grants[i].ticket == ticket
    ensures Drop(grants, ticket) == grants[..i] + grants[i + 1..]
  {
    if grants[0].ticket == ticket {
      i := 0;
    } else {
      i := DropSplits(grants[1..], ticket);
      i := i + 1;
    }
  }

  lemma {:induction false} DropMissing(grants: seq<Grant>, ticket: nat)
    requires !HasTicket(grants, ticket)
    ensures Drop(grants, ticket) == grants
  {
    if grants != [] {
      var rest := grants[1..];
      forall i | 0 <= i < |rest| ensures rest[i].ticket != ticket { assert rest[i] == grants[i + 1]; }
      DropMissing(rest, ticket);
      assert grants == [grants[0]] + rest;
    }
  }

  lemma RequestOk(e: Entry, g: Grant)
    requires EntryOk(e) && !HasTicket(e.holders + e.queue, g.ticket)
    ensures EntryOk(Request(e, g))
  {
    assert e.holders + e.queue + [g] == e.holders + (e.queue + [g]);
    DistinctAppend(Tickets(e.holders + e.queue), g.ticket);
    assert Tickets(e.holders + e.queue + [g]) == Tickets(e.holders + e.queue) + [g.ticket];
    if e.queue == [] { assert e.holders + e.queue + [g] == e.holders + [g] + []; }
  }

  lemma DistinctAppend<T>(xs: seq<T>, x: T)
    requires Distinct(xs) && x !in xs
    ensures Distinct(xs + [x])
  {
  }

  lemma {:induction false} GrantCountOk(holders: seq<Grant>, queue: seq<Grant>)
    ensures var n := GrantCount(holders, queue);
      && (n < |queue| ==> !Compatible(holders + queue[..n], queue[n].mode))
      && (HoldersOk(holders) ==> HoldersOk(holders + queue[..n]))
    decreases |queue|
  {
    var n := GrantCount(holders, queue);
    if n > 0 {
      var more, rest := holders + [queue[0]], queue[1..];
      GrantCountOk(more, rest);
      assert more + rest[..n - 1] == holders + queue[..n];
    } else {
      assert holders + queue[..n] == holders;
    }
  }

  /** An entry whose head may be waiting for a pump. */
  ghost predicate EntryLoose(e: Entry)
  {
    HoldersOk(e.holders) && Distinct(Tickets(e.holders + e.queue))
  }

  /** A pump stops at a waiter that must wait, keeps readers and writers apart and moves nobody. */
  lemma PumpOk(e: Entry)
    requires EntryLoose(e)
    ensures EntryOk(Pump(e))
    ensures Pump(e).holders + Pump(e).queue == e.holders + e.queue
  {
    GrantCountOk(e.holders, e.queue);
    assert Pump(e).holders + Pump(e).queue == e.holders + e.queue;
  }

  lemma DropHolderLoose(e: Entry, ticket: nat)
    requires EntryLoose(e) && HasTicket(e.holders, ticket)
    ensures EntryLoose(Entry(Drop(e.holders, ticket), e.queue))
  {
    var i := DropSplits(e.holders, ticket);
    var all := e.holders + e.queue;
    assert Drop(e.holders, ticket) + e.queue == all[..i] + all[i + 1..];
    DistinctTickets(all, i);
  }

  lemma DistinctTickets(all: seq<Grant>, i: nat)
    requires Distinct(Tickets(all)) && i < |all|
    ensures Distinct(Tickets(all[..i] + all[i + 1..]))
  {
    DistinctWithout(Tickets(all), i);
    assert Tickets(all[..i] + all[i + 1..]) == Tickets(all)[..i] + Tickets(all)[i + 1..];
  }

  lemma DropWaiterLoose(e: Entry, ticket: nat)
    requires EntryLoose(e) && HasTicket(e.queue, ticket)
    ensures EntryLoose(Entry(e.holders, Drop(e.queue, ticket)))
  {
    var i := DropSplits(e.queue, ticket);
    var all, at := e.holders + e.queue, |e.holders| + i;
    assert e.holders + Drop(e.queue, ticket) == all[..at] + all[at + 1..];
    DistinctTickets(all, at);
  }

  lemma ReleaseOk(e: Entry, ticket: nat)
    requires EntryOk(e) && HasTicket(e.holders, ticket)
    ensures EntryOk(Release(e, ticket))
  {
    DropHolderLoose(e, ticket);
    PumpOk(Entry(Drop(e.holders, ticket), e.queue));
  }

  lemma TimeOutOk(e: Entry, ticket: nat)
    requires EntryOk(e) && HasTicket(e.queue, ticket)
    ensures EntryOk(TimeOut(e, ticket))
  {
    DropWaiterLoose(e, ticket);
    PumpOk(Entry(e.holders, Drop(e.queue, ticket)));
  }

  lemma DistinctWithout<T>(xs: seq<T>, i: nat)
    requires Distinct(xs) && i < |xs|
    ensures Distinct(xs[..i] + xs[i + 1..])
  {
  }

  // ---- Who gets in, by holders and queue alone.

  predicate AnyExclusive(holders: seq<Grant>) { exists h :: h in holders && h.mode == Exclusive }

  /** The head of the queue is a writer behind some holder, or a reader behind a writer. */
  ghost predicate HeadMustWait(e: Entry)
  {
    e.queue != [] ==> if e.queue[0].mode == Exclusive then e.holders != [] else AnyExclusive(e.holders)
  }

  lemma HeadMustWaitExactly(e: Entry)
    ensures HeadBlocked(e) <==> HeadMustWait(e)
  {
  }

  /**
   * A request is granted at once if and only if nobody waits and, for a writer, nobody holds the lock, or,
   * for a reader, no writer does. Otherwise it waits behind all others.
   */
  lemma RequestExactly(e: Entry, g: Grant)
    ensures Request(e, g) ==
      if e.queue == [] && (if g.mode == Exclusive then e.holders == [] else !AnyExclusive(e.holders))
      then Entry(e.holders + [g], []) else Entry(e.holders, e.queue + [g])
  {
  }

  /** The first `n` waiters are readers. */
  predicate Readers(queue: seq<Grant>, n: nat) { n <= |queue| && forall i :: 0 <= i < n ==> queue[i].mode == Shared }

  /** The waiters that a pump lets in, by holders and queue alone. */
  ghost predicate LetsIn(e: Entry, n: nat)
  {
    n <= |e.queue| &&
    if n == 0 then HeadMustWait(e)
    else if e.queue[0].mode == Exclusive then n == 1 && e.holders == []
    else !AnyExclusive(e.holders) && Readers(e.queue, n) && (n < |e.queue| ==> e.queue[n].mode == Exclusive)
  }

  /**
   * A pump lets in nobody if the head must wait, else the writer at the head alone, or all the readers up
   * to the first writer together.
   */
  lemma {:induction false} PumpExactly(e: Entry) returns (n: nat)
    ensures n == GrantCount(e.holders, e.queue) && LetsIn(e, n)
    ensures Pump(e) == Entry(e.holders + e.queue[..n], e.queue[n..])
    decreases |e.queue|
  {
    n := GrantCount(e.holders, e.queue);
    if n > 0 {
      var head := e.queue[0];
      var next := Entry(e.holders + [head], e.queue[1..]);
      var m := PumpExactly(next);
      assert AnyExclusive(next.holders) <==> AnyExclusive(e.holders) || head.mode == Exclusive by {
        assert head in next.holders && forall h :: h in e.holders ==> h in next.holders;
      }
      ReadersShift(e.queue, m);
    }
  }

  lemma ReadersShift(queue: seq<Grant>, m: nat)
    requires |queue| > 0 && Readers(queue[1..], m)
    ensures queue[0].mode == Shared ==> Readers(queue, m + 1)
  {
    forall i | 0 < i < m + 1 ensures queue[i].mode == Shared { assert queue[1..][i - 1] == queue[i]; }
  }

  /** The waiters at the head that can get in did, all readers up to the first writer together; the rest wait. */
  ghost predicate LetIn(before: Entry, after: Entry)
  {
    exists n: nat :: LetsIn(before, n) && after == Entry(before.holders + before.queue[..n], before.queue[n..])
  }

  /** A release lets in whoever can get in once the holder has gone, and a timeout once the waiter has. */
  lemma LeavingLetsIn(e: Entry, ticket: nat)
    ensures LetIn(Entry(Drop(e.holders, ticket), e.queue), Release(e, ticket))
    ensures LetIn(Entry(e.holders, Drop(e.queue, ticket)), TimeOut(e, ticket))
  {
    var n := PumpExactly(Entry(Drop(e.holders, ticket), e.queue));
    var m := PumpExactly(Entry(e.holders, Drop(e.queue, ticket)));
  }

  /** Exactly the entries with a holder or a waiter are kept. */
  type Table<K> = map<K, Entry>

  function At<K>(table: Table<K>, id: K): Entry
  {
    if id in table then table[id] else UNUSED
  }

  function Put<K>(table: Table<K>, id: K, e: Entry): Table<K>
  {
    if e == UNUSED then table - {id} else table[id := e]
  }

  ghost predicate TableOk<K(!new)>(table: Table<K>)
  {
    forall id :: id in table ==> EntryOk(table[id]) && table[id] != UNUSED
  }

  lemma PutOk<K(!new)>(table: Table<K>, id: K, e: Entry)
    requires TableOk(table) && EntryOk(e)
    ensures TableOk(Put(table, id, e))
    ensures At(Put(table, id, e), id) == e
    ensures forall other :: other != id ==> At(Put(table, id, e), other) == At(table, other)
  {
  }
}
