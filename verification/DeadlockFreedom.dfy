/**
 * Any number of units of work against one lock manager: each asks for its locks one at a time in the
 * order of its list, keeps them until it settles, then gives them back last acquired first
 * (src/saga/unit-of-work.ts, src/testing/memory-lock-port.ts). With lists that ascend along one total
 * order no state is a deadlock, and every schedule ends.
 *
 * The type of lock identities is a parameter: (namespace, key) pairs in process, int8 keys in Postgres.
 */
module DeadlockFreedom {
  import opened Common
  import opened Orders
  import opened LockPort
  import opened LockTable

  datatype Want<K> = Want(id: K, mode: LockMode)

  /** Settling: the transaction ended, well or not, and the releases run. */
  datatype Phase = Running | Waiting | Settling | Done

  /** A unit holds the first `taken` locks of its list; `tries` counts the retries it has left. */
  datatype Unit<K> = Unit(locks: seq<Want<K>>, taken: nat, phase: Phase, tries: nat)

  /** The ticket of a unit at a lock is its index. */
  datatype State<K> = State(table: Table<K>, units: seq<Unit<K>>)

  datatype Step =
    | Acquire(u: nat)
    | TimeOut(u: nat)
    | Settle(u: nat)
    | ReleaseLast(u: nat)
    | Finish(u: nat, again: bool)

  function WantId<K>(w: Want<K>): K { w.id }

  function Held<K(!new)>(unit: Unit<K>): set<K>
    requires unit.taken <= |unit.locks|
  {
    set i | 0 <= i < unit.taken :: unit.locks[i].id
  }

  ghost predicate UnitOk<K(!new)>(unit: Unit<K>, less: (K, K) -> bool)
  {
    && Ascending(unit.locks, WantId, less)
    && unit.taken <= |unit.locks|
    && (unit.phase == Waiting ==> unit.taken < |unit.locks|)
    && (unit.phase == Done ==> unit.taken == 0)
  }

  predicate Awaits<K(==)>(unit: Unit<K>, w: Want<K>)
  {
    unit.phase == Waiting && unit.taken < |unit.locks| && unit.locks[unit.taken] == w
  }

  /** Unit `u` is well formed, and the locks know of it what it says of itself. */
  ghost predicate UnitTied<K(!new)>(s: State<K>, u: nat, less: (K, K) -> bool)
    requires u < |s.units|
  {
    var unit := s.units[u];
    && UnitOk(unit, less)
    && (forall i :: 0 <= i < unit.taken ==> Grant(u, unit.locks[i].mode) in At(s.table, unit.locks[i].id).holders)
    && (unit.phase == Waiting ==>
          Grant(u, unit.locks[unit.taken].mode) in At(s.table, unit.locks[unit.taken].id).queue)
  }

  ghost predicate HolderTied<K(!new)>(s: State<K>, id: K, g: Grant)
  {
    g.ticket < |s.units| && s.units[g.ticket].taken <= |s.units[g.ticket].locks| && id in Held(s.units[g.ticket])
  }

  ghost predicate WaiterTied<K(!new)>(s: State<K>, id: K, g: Grant)
  {
    g.ticket < |s.units| && Awaits(s.units[g.ticket], Want(id, g.mode))
  }

  /** The holders and waiters of lock `id` are units that say so. */
  ghost predicate LockTied<K(!new)>(s: State<K>, id: K)
  {
    var e := At(s.table, id);
    && EntryLoose(e)
    && (forall g :: g in e.holders ==> HolderTied(s, id, g))
    && (forall g :: g in e.queue ==> WaiterTied(s, id, g))
  }

  /** The invariant, except that the head of a queue may be waiting for a pump. */
  ghost predicate Loose<K(!new)>(s: State<K>, less: (K, K) -> bool)
  {
    && (forall u :: 0 <= u < |s.units| ==> UnitTied(s, u, less))
    && (forall id :: LockTied(s, id))
  }

  ghost predicate Pumped<K(!new)>(s: State<K>, id: K)
  {
    HeadBlocked(At(s.table, id))
  }

  ghost predicate Inv<K(!new)>(s: State<K>, less: (K, K) -> bool)
  {
    Loose(s, less) && forall id :: Pumped(s, id)
  }

  /** The lock has become `e`, and each unit that holds it now goes on. */
  function Woken<K(==)>(s: State<K>, id: K, e: Entry): State<K>
  {
    State(Put(s.table, id, e), seq(|s.units|, u requires 0 <= u < |s.units| => Wake(s.units[u], u, id, e)))
  }

  /** Runs the pump of a lock; each unit it grants goes on. */
  function PumpAt<K(==)>(s: State<K>, id: K): State<K>
  {
    Woken(s, id, Pump(At(s.table, id)))
  }

  function Wake<K(==)>(unit: Unit<K>, u: nat, id: K, e: Entry): Unit<K>
  {
    if unit.phase == Waiting && unit.taken < |unit.locks| && unit.locks[unit.taken].id == id && HasTicket(e.holders, u)
    then unit.(phase := Running, taken := unit.taken + 1)
    else unit
  }

  predicate Enabled<K>(s: State<K>, step: Step)
  {
    step.u < |s.units| &&
    var unit := s.units[step.u];
    unit.taken <= |unit.locks| &&
    match step
    case Acquire(_) => unit.phase == Running && unit.taken < |unit.locks|
    case TimeOut(_) => unit.phase == Waiting && unit.taken < |unit.locks|
    case Settle(_) => unit.phase == Running
    case ReleaseLast(_) => unit.phase == Settling && unit.taken > 0
    case Finish(_, again) => unit.phase == Settling && unit.taken == 0 && (again ==> unit.tries > 0)
  }

  function SetUnit<K(==)>(s: State<K>, u: nat, unit: Unit<K>, id: K, e: Entry): State<K>
    requires u < |s.units|
  {
    State(Put(s.table, id, e), s.units[u := unit])
  }

  /** The edit of one lock and one unit that precedes the pump. */
  function Edit<K(==)>(s: State<K>, step: Step): State<K>
    requires Enabled(s, step)
  {
    var u, unit := step.u, s.units[step.u];
    match step
    case Acquire(_) =>
      var w := unit.locks[unit.taken];
      var e := At(s.table, w.id);
      SetUnit(s, u, unit.(phase := Waiting), w.id, Entry(e.holders, e.queue + [Grant(u, w.mode)]))
    case TimeOut(_) =>
      var id := unit.locks[unit.taken].id;
      var e := At(s.table, id);
      SetUnit(s, u, unit.(phase := Settling), id, Entry(e.holders, Drop(e.queue, u)))
    case ReleaseLast(_) =>
      var id := unit.locks[unit.taken - 1].id;
      var e := At(s.table, id);
      SetUnit(s, u, unit.(taken := unit.taken - 1), id, Entry(Drop(e.holders, u), e.queue))
    case Settle(_) => s.(units := s.units[u := unit.(phase := Settling)])
    case Finish(_, again) =>
      var next := if again then unit.(phase := Running, tries := unit.tries - 1) else unit.(phase := Done);
      s.(units := s.units[u := next])
  }

  function Apply<K(==)>(s: State<K>, step: Step): State<K>
    requires Enabled(s, step)
  {
    var unit := s.units[step.u];
    match step
    case Acquire(_) => PumpAt(Edit(s, step), unit.locks[unit.taken].id)
    case TimeOut(_) => PumpAt(Edit(s, step), unit.locks[unit.taken].id)
    case ReleaseLast(_) => PumpAt(Edit(s, step), unit.locks[unit.taken - 1].id)
    case _ => Edit(s, step)
  }

  /** Acquiring is the request of the lock manager: enqueue, then pump. */
  lemma AcquireIsRequest(e: Entry, g: Grant)
    requires EntryOk(e)
    ensures Pump(Entry(e.holders, e.queue + [g])) == Request(e, g)
  {
    var queue := e.queue + [g];
    if e.queue == [] && Compatible(e.holders, g.mode) {
      assert queue == [g] && queue[1..] == [] && GrantCount(e.holders + [g], queue[1..]) == 0;
      assert GrantCount(e.holders, queue) == 1 && queue[..1] == [g];
    } else {
      assert queue[0] == if e.queue == [] then g else e.queue[0];
      assert GrantCount(e.holders, queue) == 0 && queue[..0] == [] && queue[0..] == queue;
    }
  }

  /** What a pump does to one request: a holder stays, a waiter waits on or holds, nobody else comes. */
  ghost predicate Moves(e: Entry, e': Entry, g: Grant)
  {
    && (g in e.holders ==> g in e'.holders)
    && (g in e.queue ==> g in e'.queue || g in e'.holders)
    && (g in e'.queue ==> g in e.queue)
    && (g in e'.holders ==> g in e.holders || g in e.queue)
  }

  ghost predicate Follows(e: Entry, e': Entry)
  {
    EntryOk(e') && forall g {:trigger Moves(e, e', g)} :: Moves(e, e', g)
  }

  lemma PumpKeepsMembers(e: Entry)
    requires EntryLoose(e)
    ensures Follows(e, Pump(e))
  {
    PumpOk(e);
    var n := GrantCount(e.holders, e.queue);
    assert e.queue == e.queue[..n] + e.queue[n..];
  }

  /** Within one entry a ticket names one request. */
  lemma OneRequest(e: Entry, g: Grant, h: Grant)
    requires Distinct(Tickets(e.holders + e.queue))
    requires g in e.holders + e.queue && h in e.holders + e.queue && g.ticket == h.ticket
    ensures g == h
    ensures g in e.holders ==> h !in e.queue
  {
    var all := e.holders + e.queue;
    var i :| 0 <= i < |all| && all[i] == g;
    var j :| 0 <= j < |all| && all[j] == h;
    assert Tickets(all)[i] == Tickets(all)[j];
    forall k | 0 <= k < |e.queue| && g in e.holders ensures e.queue[k] != h {
      var m :| 0 <= m < |e.holders| && e.holders[m] == g;
      assert all[|e.holders| + k] == e.queue[k] && all[m] == g;
      assert Tickets(all)[m] != Tickets(all)[|e.holders| + k];
    }
  }

  /** What a pump of lock `id` does to one request at lock `other`. */
  lemma PumpMoves<K(!new)>(table: Table<K>, id: K, e: Entry, other: K, g: Grant)
    requires Follows(At(table, id), e)
    ensures var f, f' := At(table, other), At(Put(table, id, e), other);
      Moves(f, f', g) && (g in f'.holders ==> g in f.holders || other == id)
  {
    assert Moves(At(table, id), e, g);
  }

  lemma PumpKeepsUnit<K(!new)>(s: State<K>, id: K, e: Entry, u: nat, less: (K, K) -> bool)
    requires u < |s.units| && UnitTied(s, u, less) && EntryLoose(At(s.table, id)) && Follows(At(s.table, id), e)
    ensures UnitTied(Woken(s, id, e), u, less)
  {
    var s', unit := Woken(s, id, e), s.units[u];
    forall i | 0 <= i < unit.taken
      ensures Grant(u, unit.locks[i].mode) in At(s'.table, unit.locks[i].id).holders
    {
      PumpMoves(s.table, id, e, unit.locks[i].id, Grant(u, unit.locks[i].mode));
    }
    if unit.phase == Waiting {
      var w := unit.locks[unit.taken];
      var g := Grant(u, w.mode);
      PumpMoves(s.table, id, e, w.id, g);
      HasTicketIfHolder(e.holders, g);
      if w.id == id && HasTicket(e.holders, u) { WokenByOwnGrant(At(s.table, id), e, g); }
      assert At(s'.table, id) == e;
    }
  }

  lemma HasTicketIfHolder(grants: seq<Grant>, g: Grant)
    ensures g in grants ==> HasTicket(grants, g.ticket)
  {
  }

  lemma WokenByOwnGrant(e: Entry, e': Entry, g: Grant)
    requires EntryLoose(e) && Follows(e, e') && g in e.queue && HasTicket(e'.holders, g.ticket)
    ensures g in e'.holders
  {
    var i :| 0 <= i < |e'.holders| && e'.holders[i].ticket == g.ticket;
    var h := e'.holders[i];
    assert Moves(e, e', h);
    OneRequest(e, h, g);
  }

  lemma HeldGrows<K(!new)>(unit: Unit<K>)
    requires unit.taken < |unit.locks|
    ensures Held(unit.(taken := unit.taken + 1)) == Held(unit) + {unit.locks[unit.taken].id}
  {
  }

  /** A holder stays one through a pump, and a waiter becomes one or goes on waiting. */
  lemma PumpKeepsHolder<K(!new)>(s: State<K>, id: K, e: Entry, other: K, g: Grant)
    requires HolderTied(s, other, g)
    ensures HolderTied(Woken(s, id, e), other, g)
  {
    var unit := s.units[g.ticket];
    if unit.taken < |unit.locks| { HeldGrows(unit); }
  }

  lemma PumpGrants<K(!new)>(s: State<K>, id: K, e: Entry, g: Grant)
    requires WaiterTied(s, id, g) && g in e.holders
    ensures HolderTied(Woken(s, id, e), id, g)
  {
    HasTicketIfHolder(e.holders, g);
    HeldGrows(s.units[g.ticket]);
  }

  lemma PumpKeepsWaiter<K(!new)>(s: State<K>, id: K, e: Entry, other: K, g: Grant)
    requires WaiterTied(s, other, g)
    requires other == id ==> !HasTicket(e.holders, g.ticket)
    ensures WaiterTied(Woken(s, id, e), other, g)
  {
  }

  lemma NotHolderAndWaiter(e: Entry, g: Grant)
    requires EntryLoose(e) && g in e.queue
    ensures !HasTicket(e.holders, g.ticket)
  {
    forall i | 0 <= i < |e.holders| ensures e.holders[i].ticket != g.ticket {
      if e.holders[i].ticket == g.ticket { OneRequest(e, e.holders[i], g); }
    }
  }

  lemma PumpKeepsLock<K(!new)>(s: State<K>, id: K, e: Entry, other: K)
    requires LockTied(s, id) && LockTied(s, other) && Follows(At(s.table, id), e)
    ensures LockTied(Woken(s, id, e), other)
  {
    var s' := Woken(s, id, e);
    var f, f' := At(s.table, other), At(s'.table, other);
    assert EntryLoose(f');
    forall g | g in f'.holders ensures HolderTied(s', other, g) {
      PumpMoves(s.table, id, e, other, g);
      if g in f.holders { PumpKeepsHolder(s, id, e, other, g); } else { PumpGrants(s, id, e, g); }
    }
    forall g | g in f'.queue ensures WaiterTied(s', other, g) {
      PumpMoves(s.table, id, e, other, g);
      if other == id { NotHolderAndWaiter(f', g); }
      PumpKeepsWaiter(s, id, e, other, g);
    }
  }

  /** A pump keeps the invariant and leaves no waiter it could have granted. */
  lemma PumpKeepsInv<K(!new)>(s: State<K>, id: K, less: (K, K) -> bool)
    requires Loose(s, less)
    requires forall other :: other != id ==> Pumped(s, other)
    ensures Inv(PumpAt(s, id), less)
  {
    var e := Pump(At(s.table, id));
    assert LockTied(s, id);
    PumpKeepsMembers(At(s.table, id));
    WokenKeepsInv(s, id, e, less);
  }

  lemma WokenKeepsInv<K(!new)>(s: State<K>, id: K, e: Entry, less: (K, K) -> bool)
    requires Loose(s, less) && Follows(At(s.table, id), e)
    requires forall other :: other != id ==> Pumped(s, other)
    ensures Inv(Woken(s, id, e), less)
  {
    var s' := Woken(s, id, e);
    assert LockTied(s, id);
    forall u | 0 <= u < |s'.units| ensures UnitTied(s', u, less) {
      assert UnitTied(s, u, less);
      PumpKeepsUnit(s, id, e, u, less);
    }
    forall other ensures LockTied(s', other) {
      assert LockTied(s, other);
      PumpKeepsLock(s, id, e, other);
    }
    forall other ensures Pumped(s', other) {
      assert other != id ==> Pumped(s, other);
    }
  }

  lemma DropMembers(grants: seq<Grant>, ticket: nat, g: Grant)
    requires Distinct(Tickets(grants)) && HasTicket(grants, ticket)
    ensures g in Drop(grants, ticket) <==> g in grants && g.ticket != ticket
  {
    var i := DropSplits(grants, ticket);
    if g in grants && g.ticket != ticket {
      var k :| 0 <= k < |grants| && grants[k] == g;
      assert k < i || grants[i + 1..][k - i - 1] == g;
    }
    if g in Drop(grants, ticket) {
      var k :| 0 <= k < |grants| && k != i && grants[k] == g;
      assert Tickets(grants)[k] != Tickets(grants)[i];
    }
  }

  lemma LooseParts(e: Entry)
    requires EntryLoose(e)
    ensures Distinct(Tickets(e.holders)) && Distinct(Tickets(e.queue))
  {
    var all := Tickets(e.holders + e.queue);
    assert forall i :: 0 <= i < |e.holders| ==> Tickets(e.holders)[i] == all[i];
    assert forall i :: 0 <= i < |e.queue| ==> Tickets(e.queue)[i] == all[|e.holders| + i];
  }

  lemma AscendingDistinct<K(!new)>(locks: seq<Want<K>>, less: (K, K) -> bool)
    requires StrictTotalOrder(less) && Ascending(locks, WantId, less)
    ensures forall i, j :: 0 <= i < j < |locks| ==> locks[i].id != locks[j].id
  {
    assert forall i, j :: 0 <= i < j < |locks| ==> less(WantId(locks[i]), WantId(locks[j]));
  }

  /** In an ascending list the next lock is not held yet, and the last one taken is held once. */
  lemma AscendingHeld<K(!new)>(unit: Unit<K>, less: (K, K) -> bool)
    requires StrictTotalOrder(less) && UnitOk(unit, less)
    ensures unit.taken < |unit.locks| ==> unit.locks[unit.taken].id !in Held(unit)
    ensures unit.taken > 0 ==>
      Held(unit.(taken := unit.taken - 1)) == Held(unit) - {unit.locks[unit.taken - 1].id}
  {
    AscendingDistinct(unit.locks, less);
  }

  lemma AcquireKeepsUnit<K(!new)>(s: State<K>, u: nat, v: nat, less: (K, K) -> bool)
    requires Enabled(s, Acquire(u)) && v < |s.units| && UnitTied(s, v, less)
    ensures UnitTied(Edit(s, Acquire(u)), v, less)
  {
  }

  lemma NoTicket<K(!new)>(s: State<K>, id: K, u: nat)
    requires LockTied(s, id) && u < |s.units| && s.units[u].taken <= |s.units[u].locks|
    requires id !in Held(s.units[u]) && s.units[u].phase != Waiting
    ensures !HasTicket(At(s.table, id).holders + At(s.table, id).queue, u)
  {
    var e := At(s.table, id);
    forall i | 0 <= i < |e.holders + e.queue| ensures (e.holders + e.queue)[i].ticket != u {
      var g := (e.holders + e.queue)[i];
      assert g in e.holders ==> HolderTied(s, id, g);
      assert g in e.queue ==> WaiterTied(s, id, g);
    }
  }

  lemma EditKeepsHolder<K(!new)>(s: State<K>, step: Step, id: K, g: Grant)
    requires Enabled(s, step) && HolderTied(s, id, g) && !step.ReleaseLast?
    ensures HolderTied(Edit(s, step), id, g)
  {
    assert Held(Edit(s, step).units[g.ticket]) == Held(s.units[g.ticket]);
  }

  lemma EditKeepsWaiter<K(!new)>(s: State<K>, step: Step, id: K, g: Grant)
    requires Enabled(s, step) && WaiterTied(s, id, g)
    requires step.TimeOut? ==> g.ticket != step.u
    ensures WaiterTied(Edit(s, step), id, g)
  {
  }

  lemma AcquireKeepsLock<K(!new)>(s: State<K>, u: nat, other: K, less: (K, K) -> bool)
    requires StrictTotalOrder(less) && Enabled(s, Acquire(u)) && UnitTied(s, u, less) && LockTied(s, other)
    ensures LockTied(Edit(s, Acquire(u)), other)
  {
    var s', w := Edit(s, Acquire(u)), s.units[u].locks[s.units[u].taken];
    var f, f', g0 := At(s.table, other), At(s'.table, other), Grant(u, w.mode);
    if other == w.id {
      AscendingHeld(s.units[u], less);
      NoTicket(s, other, u);
      DistinctAppend(Tickets(f.holders + f.queue), u);
      assert f.holders + (f.queue + [g0]) == f.holders + f.queue + [g0];
      assert Tickets(f.holders + f.queue + [g0]) == Tickets(f.holders + f.queue) + [u];
    }
    forall g | g in f'.holders ensures HolderTied(s', other, g) { EditKeepsHolder(s, Acquire(u), other, g); }
    forall g | g in f'.queue ensures WaiterTied(s', other, g) {
      if g in f.queue { EditKeepsWaiter(s, Acquire(u), other, g); }
    }
  }

  lemma TimeOutKeepsUnit<K(!new)>(s: State<K>, u: nat, v: nat, less: (K, K) -> bool)
    requires Enabled(s, TimeOut(u)) && v < |s.units| && UnitTied(s, v, less) && UnitTied(s, u, less)
    requires LockTied(s, s.units[u].locks[s.units[u].taken].id)
    ensures UnitTied(Edit(s, TimeOut(u)), v, less)
  {
    var w, unit := s.units[u].locks[s.units[u].taken], s.units[v];
    var e := At(s.table, w.id);
    LooseParts(e);
    HasTicketIfHolder(e.queue, Grant(u, w.mode));
    if v != u && unit.phase == Waiting {
      DropMembers(e.queue, u, Grant(v, unit.locks[unit.taken].mode));
    }
  }

  lemma TimeOutKeepsLock<K(!new)>(s: State<K>, u: nat, other: K, less: (K, K) -> bool)
    requires Enabled(s, TimeOut(u)) && UnitTied(s, u, less) && LockTied(s, other)
    ensures LockTied(Edit(s, TimeOut(u)), other)
  {
    var s', w := Edit(s, TimeOut(u)), s.units[u].locks[s.units[u].taken];
    var f, f' := At(s.table, other), At(s'.table, other);
    if other == w.id {
      HasTicketIfHolder(f.queue, Grant(u, w.mode));
      DropWaiterLoose(f, u);
      LooseParts(f);
    }
    forall g | g in f'.holders ensures HolderTied(s', other, g) { EditKeepsHolder(s, TimeOut(u), other, g); }
    forall g | g in f'.queue ensures WaiterTied(s', other, g) {
      if other == w.id { DropMembers(f.queue, u, g); }
      assert WaiterTied(s, other, g);
      EditKeepsWaiter(s, TimeOut(u), other, g);
    }
  }

  lemma ReleaseKeepsUnit<K(!new)>(s: State<K>, u: nat, v: nat, less: (K, K) -> bool)
    requires StrictTotalOrder(less)
    requires Enabled(s, ReleaseLast(u)) && v < |s.units| && UnitTied(s, v, less) && UnitTied(s, u, less)
    requires LockTied(s, s.units[u].locks[s.units[u].taken - 1].id)
    ensures UnitTied(Edit(s, ReleaseLast(u)), v, less)
  {
    var w, unit, s' := s.units[u].locks[s.units[u].taken - 1], s.units[v], Edit(s, ReleaseLast(u));
    var e := At(s.table, w.id);
    LooseParts(e);
    HasTicketIfHolder(e.holders, Grant(u, w.mode));
    AscendingDistinct(s.units[u].locks, less);
    forall i | 0 <= i < s'.units[v].taken
      ensures Grant(v, unit.locks[i].mode) in At(s'.table, unit.locks[i].id).holders
    {
      if unit.locks[i].id == w.id {
        DropMembers(e.holders, u, Grant(v, unit.locks[i].mode));
      }
    }
  }

  lemma ReleaseKeepsLoose<K(!new)>(s: State<K>, u: nat, other: K, less: (K, K) -> bool)
    requires StrictTotalOrder(less) && Enabled(s, ReleaseLast(u)) && UnitTied(s, u, less) && LockTied(s, other)
    ensures EntryLoose(At(Edit(s, ReleaseLast(u)).table, other))
  {
    var w, f := s.units[u].locks[s.units[u].taken - 1], At(s.table, other);
    AscendingHeld(s.units[u], less);
    if other == w.id {
      HasTicketIfHolder(f.holders, Grant(u, w.mode));
      DropHolderLoose(f, u);
    }
  }

  lemma ReleaseKeepsHolder<K(!new)>(s: State<K>, u: nat, other: K, less: (K, K) -> bool, g: Grant)
    requires StrictTotalOrder(less) && Enabled(s, ReleaseLast(u)) && UnitTied(s, u, less) && LockTied(s, other)
    requires g in At(Edit(s, ReleaseLast(u)).table, other).holders
    ensures HolderTied(Edit(s, ReleaseLast(u)), other, g)
  {
    var w, f := s.units[u].locks[s.units[u].taken - 1], At(s.table, other);
    AscendingHeld(s.units[u], less);
    if other == w.id {
      HasTicketIfHolder(f.holders, Grant(u, w.mode));
      DropHolderLoose(f, u);
      LooseParts(f);
      DropMembers(f.holders, u, g);
    }
    assert HolderTied(s, other, g);
  }

  lemma ReleaseKeepsLock<K(!new)>(s: State<K>, u: nat, other: K, less: (K, K) -> bool)
    requires StrictTotalOrder(less) && Enabled(s, ReleaseLast(u)) && UnitTied(s, u, less) && LockTied(s, other)
    ensures LockTied(Edit(s, ReleaseLast(u)), other)
  {
    var s' := Edit(s, ReleaseLast(u));
    var f' := At(s'.table, other);
    ReleaseKeepsLoose(s, u, other, less);
    forall g | g in f'.holders ensures HolderTied(s', other, g) { ReleaseKeepsHolder(s, u, other, less, g); }
    forall g | g in f'.queue ensures WaiterTied(s', other, g) {
      EditKeepsWaiter(s, ReleaseLast(u), other, g);
    }
  }

  /** The lock a step edits, if any. */
  function Touched<K>(s: State<K>, step: Step): Option<K>
    requires Enabled(s, step)
  {
    var unit := s.units[step.u];
    match step
    case Acquire(_) => Some(unit.locks[unit.taken].id)
    case TimeOut(_) => Some(unit.locks[unit.taken].id)
    case ReleaseLast(_) => Some(unit.locks[unit.taken - 1].id)
    case _ => None
  }

  lemma EditKeepsLoose<K(!new)>(s: State<K>, step: Step, less: (K, K) -> bool)
    requires StrictTotalOrder(less) && Loose(s, less) && Enabled(s, step)
    ensures Loose(Edit(s, step), less)
  {
    var u, s' := step.u, Edit(s, step);
    assert UnitTied(s, u, less);
    forall v | 0 <= v < |s'.units| ensures UnitTied(s', v, less) {
      assert UnitTied(s, v, less);
      assert Touched(s, step).Some? ==> LockTied(s, Touched(s, step).value);
      match step
      case Acquire(_) => AcquireKeepsUnit(s, u, v, less);
      case TimeOut(_) => TimeOutKeepsUnit(s, u, v, less);
      case ReleaseLast(_) => ReleaseKeepsUnit(s, u, v, less);
      case _ =>
    }
    forall other ensures LockTied(s', other) {
      assert LockTied(s, other);
      match step
      case Acquire(_) => AcquireKeepsLock(s, u, other, less);
      case TimeOut(_) => TimeOutKeepsLock(s, u, other, less);
      case ReleaseLast(_) => ReleaseKeepsLock(s, u, other, less);
      case _ => PhaseKeepsLock(s, step, other);
    }
  }

  lemma PhaseKeepsLock<K(!new)>(s: State<K>, step: Step, other: K)
    requires Enabled(s, step) && Touched(s, step) == None && LockTied(s, other)
    ensures LockTied(Edit(s, step), other)
  {
    var f, s' := At(s.table, other), Edit(s, step);
    forall g | g in f.holders ensures HolderTied(s', other, g) { EditKeepsHolder(s, step, other, g); }
    forall g | g in f.queue ensures WaiterTied(s', other, g) { EditKeepsWaiter(s, step, other, g); }
  }

  lemma StepKeepsInv<K(!new)>(s: State<K>, step: Step, less: (K, K) -> bool)
    requires StrictTotalOrder(less) && Inv(s, less) && Enabled(s, step)
    ensures Inv(Apply(s, step), less)
  {
    var s' := Edit(s, step);
    EditKeepsLoose(s, step, less);
    forall other | Touched(s, step) != Some(other) ensures Pumped(s', other) {
      assert Pumped(s, other);
    }
    if Touched(s, step).Some? { PumpKeepsInv(s', Touched(s, step).value, less); }
  }

  /** Waiting on nobody: the next step of the unit needs no other unit to move first. */
  predicate CanStep<K>(unit: Unit<K>)
  {
    unit.phase == Running || unit.phase == Settling
  }

  /** The step such a unit takes next: its locks in order, then the releases, then the end. */
  function NextStep<K>(s: State<K>, u: nat): Step
    requires u < |s.units| && CanStep(s.units[u])
  {
    var unit := s.units[u];
    if unit.phase == Running then if unit.taken < |unit.locks| then Acquire(u) else Settle(u)
    else if unit.taken > 0 then ReleaseLast(u)
    else Finish(u, false)
  }

  /** Among the first `n` units, one that waits for the largest lock any of them waits for. */
  lemma {:induction false} LargestAwaited<K(!new)>(s: State<K>, n: nat, less: (K, K) -> bool) returns (m: nat)
    requires StrictTotalOrder(less) && Loose(s, less) && n <= |s.units|
    requires exists u :: 0 <= u < n && s.units[u].phase == Waiting
    ensures m < n && s.units[m].phase == Waiting
    ensures forall u :: 0 <= u < n && s.units[u].phase == Waiting ==>
      UnitTied(s, u, less) && UnitTied(s, m, less) && !less(AwaitedId(s.units[m]), AwaitedId(s.units[u]))
  {
    assert forall u :: 0 <= u < |s.units| ==> UnitTied(s, u, less);
    if exists u :: 0 <= u < n - 1 && s.units[u].phase == Waiting {
      m := LargestAwaited(s, n - 1, less);
      assert UnitTied(s, m, less) && UnitTied(s, n - 1, less);
      if s.units[n - 1].phase == Waiting && less(AwaitedId(s.units[m]), AwaitedId(s.units[n - 1])) {
        m := n - 1;
      }
    } else {
      m := n - 1;
    }
  }

  function AwaitedId<K>(unit: Unit<K>): K
    requires unit.taken < |unit.locks|
  {
    unit.locks[unit.taken].id
  }

  /** A waiter is blocked by a unit that holds the lock it waits for. */
  lemma BlockedByHolder<K(!new)>(s: State<K>, u: nat, less: (K, K) -> bool) returns (v: nat)
    requires Inv(s, less) && u < |s.units| && s.units[u].phase == Waiting
    ensures UnitTied(s, u, less)
    ensures v < |s.units| && s.units[v].taken <= |s.units[v].locks| && AwaitedId(s.units[u]) in Held(s.units[v])
  {
    assert UnitTied(s, u, less);
    var id := AwaitedId(s.units[u]);
    assert LockTied(s, id) && Pumped(s, id);
    var e := At(s.table, id);
    assert e.queue != [];
    assert e.holders != [];
    assert HolderTied(s, id, e.holders[0]);
    v := e.holders[0].ticket;
  }

  /**
   * Deadlock freedom: while a unit is unfinished, some unit can take its next step. The unit that
   * blocks the largest awaited lock cannot wait itself, for it could only wait for a larger one.
   */
  lemma NoDeadlock<K(!new)>(s: State<K>, less: (K, K) -> bool)
    requires StrictTotalOrder(less) && Inv(s, less)
    requires exists u :: 0 <= u < |s.units| && s.units[u].phase != Done
    ensures exists u :: 0 <= u < |s.units| && CanStep(s.units[u]) && Enabled(s, NextStep(s, u))
  {
    var u :| 0 <= u < |s.units| && s.units[u].phase != Done;
    if s.units[u].phase == Waiting {
      var m := LargestAwaited(s, |s.units|, less);
      var v := BlockedByHolder(s, m, less);
      assert UnitTied(s, v, less);
      HolderAwaitsMore(s.units[v], AwaitedId(s.units[m]), less);
      u := v;
    }
    assert UnitTied(s, u, less);
    assert CanStep(s.units[u]) && Enabled(s, NextStep(s, u));
  }

  lemma HolderAwaitsMore<K(!new)>(unit: Unit<K>, id: K, less: (K, K) -> bool)
    requires UnitOk(unit, less) && id in Held(unit)
    ensures unit.phase != Done
    ensures unit.phase == Waiting ==> less(id, AwaitedId(unit))
  {
    var i :| 0 <= i < unit.taken && unit.locks[i].id == id;
    if unit.phase == Waiting { assert less(WantId(unit.locks[i]), WantId(unit.locks[unit.taken])); }
  }

  /** Steps the unit can still take, whatever happens to it. */
  function Remaining<K>(unit: Unit<K>): nat
  {
    var n := |unit.locks|;
    var ahead := if unit.taken <= n then n - unit.taken else 0;
    unit.tries * (3 * n + 4) +
    match unit.phase
    case Running => 2 * ahead + n + 3
    case Waiting => 2 * ahead + n + 2
    case Settling => unit.taken + 1
    case Done => 0
  }

  function TotalRemaining<K>(units: seq<Unit<K>>): nat
  {
    if units == [] then 0 else TotalRemaining(units[..|units| - 1]) + Remaining(units[|units| - 1])
  }

  lemma {:induction false} TotalDecreases<K>(units: seq<Unit<K>>, units': seq<Unit<K>>, u: nat)
    requires |units| == |units'| && u < |units|
    requires forall v :: 0 <= v < |units| ==> Remaining(units'[v]) <= Remaining(units[v])
    requires Remaining(units'[u]) < Remaining(units[u])
    ensures TotalRemaining(units') < TotalRemaining(units)
  {
    var last := |units| - 1;
    if u < last {
      TotalDecreases(units[..last], units'[..last], u);
    } else {
      TotalNotIncreases(units[..last], units'[..last]);
    }
  }

  lemma {:induction false} TotalNotIncreases<K>(units: seq<Unit<K>>, units': seq<Unit<K>>)
    requires |units| == |units'|
    requires forall v :: 0 <= v < |units| ==> Remaining(units'[v]) <= Remaining(units[v])
    ensures TotalRemaining(units') <= TotalRemaining(units)
  {
    if units != [] { TotalNotIncreases(units[..|units| - 1], units'[..|units| - 1]); }
  }

  lemma WakeNotIncreases<K>(unit: Unit<K>, u: nat, id: K, e: Entry)
    ensures Remaining(Wake(unit, u, id, e)) <= Remaining(unit)
  {
  }

  lemma EditDecreases<K>(s: State<K>, step: Step)
    requires Enabled(s, step)
    ensures Remaining(Edit(s, step).units[step.u]) < Remaining(s.units[step.u])
  {
    var unit := s.units[step.u];
    var n := |unit.locks|;
    if step.Finish? && step.again {
      assert unit.tries * (3 * n + 4) == (unit.tries - 1) * (3 * n + 4) + (3 * n + 4);
    }
  }

  /** Every step, of whichever unit, brings the end nearer. */
  lemma StepDecreases<K>(s: State<K>, step: Step)
    requires Enabled(s, step)
    ensures |Apply(s, step).units| == |s.units|
    ensures TotalRemaining(Apply(s, step).units) < TotalRemaining(s.units)
  {
    forall v | 0 <= v < |s.units| ensures Remaining(Apply(s, step).units[v]) <= Remaining(s.units[v]) {
      UnitDecreases(s, step, v);
    }
    UnitDecreases(s, step, step.u);
    TotalDecreases(s.units, Apply(s, step).units, step.u);
  }

  lemma UnitDecreases<K>(s: State<K>, step: Step, v: nat)
    requires Enabled(s, step) && v < |s.units|
    ensures |Apply(s, step).units| == |s.units|
    ensures var left := Remaining(Apply(s, step).units[v]);
      left <= Remaining(s.units[v]) && (v == step.u ==> left < Remaining(s.units[v]))
  {
    PumpWakes(s, step, v);
    EditDecreases(s, step);
    assert v != step.u ==> Edit(s, step).units[v] == s.units[v];
  }

  lemma PumpWakes<K>(s: State<K>, step: Step, v: nat)
    requires Enabled(s, step) && v < |s.units|
    ensures |Apply(s, step).units| == |s.units|
    ensures Remaining(Apply(s, step).units[v]) <= Remaining(Edit(s, step).units[v])
  {
    var s' := Edit(s, step);
    if Touched(s, step).Some? {
      var id := Touched(s, step).value;
      assert Apply(s, step).units[v] == Wake(s'.units[v], v, id, Pump(At(s'.table, id)));
      WakeNotIncreases(s'.units[v], v, id, Pump(At(s'.table, id)));
    }
  }

  /** Each step is enabled when it is taken. */
  ghost predicate Schedule<K>(s: State<K>, steps: seq<Step>)
    decreases |steps|
  {
    steps != [] ==> Enabled(s, steps[0]) && Schedule(Apply(s, steps[0]), steps[1..])
  }

  function End<K(==)>(s: State<K>, steps: seq<Step>): State<K>
    requires Schedule(s, steps)
    decreases |steps|
  {
    if steps == [] then s else End(Apply(s, steps[0]), steps[1..])
  }

  /**
   * Every schedule, timeouts and retries included, keeps the invariant and has no more steps than
   * the units had left; so no unit waits for ever.
   */
  lemma {:induction false} SchedulesEnd<K(!new)>(s: State<K>, steps: seq<Step>, less: (K, K) -> bool)
    requires StrictTotalOrder(less) && Inv(s, less) && Schedule(s, steps)
    ensures |steps| <= TotalRemaining(s.units)
    ensures Inv(End(s, steps), less)
    decreases |steps|
  {
    if steps != [] {
      StepKeepsInv(s, steps[0], less);
      StepDecreases(s, steps[0]);
      SchedulesEnd(Apply(s, steps[0]), steps[1..], less);
    }
  }

  /** From every state that satisfies the invariant all units can run to the end without a timeout. */
  lemma {:induction false} AllCanFinish<K(!new)>(s: State<K>, less: (K, K) -> bool) returns (steps: seq<Step>)
    requires StrictTotalOrder(less) && Inv(s, less)
    ensures Schedule(s, steps) && forall i :: 0 <= i < |steps| ==> !steps[i].TimeOut?
    ensures forall u :: 0 <= u < |End(s, steps).units| ==> End(s, steps).units[u].phase == Done
    decreases TotalRemaining(s.units)
  {
    steps := [];
    if u :| 0 <= u < |s.units| && s.units[u].phase != Done {
      NoDeadlock(s, less);
      var v :| 0 <= v < |s.units| && CanStep(s.units[v]) && Enabled(s, NextStep(s, v));
      var step := NextStep(s, v);
      StepKeepsInv(s, step, less);
      StepDecreases(s, step);
      var rest := AllCanFinish(Apply(s, step), less);
      steps := [step] + rest;
      assert steps[1..] == rest;
    }
  }

  /** Units that have not asked for anything yet. */
  ghost predicate Start<K(!new)>(s: State<K>, less: (K, K) -> bool)
  {
    && s.table == map[]
    && forall u :: 0 <= u < |s.units| ==> Fresh(s.units[u], less)
  }

  ghost predicate Fresh<K(!new)>(unit: Unit<K>, less: (K, K) -> bool)
  {
    Ascending(unit.locks, WantId, less) && unit.taken == 0 && unit.phase == Running
  }

  lemma StartInv<K(!new)>(s: State<K>, less: (K, K) -> bool)
    requires Start(s, less)
    ensures Inv(s, less)
  {
    forall u | 0 <= u < |s.units| ensures UnitTied(s, u, less) { assert Fresh(s.units[u], less); }
    forall id ensures LockTied(s, id) && Pumped(s, id) { assert At(s.table, id) == UNUSED; }
  }

  /** While one unit holds a lock exclusively no other holds it at all. */
  lemma MutualExclusion<K(!new)>(s: State<K>, less: (K, K) -> bool, u: nat, i: nat, v: nat, j: nat)
    requires Inv(s, less) && u < |s.units| && v < |s.units|
    requires i < s.units[u].taken && j < s.units[v].taken
    requires i < |s.units[u].locks| && j < |s.units[v].locks|
    requires s.units[u].locks[i].id == s.units[v].locks[j].id && s.units[u].locks[i].mode == Exclusive
    ensures u == v
  {
    assert UnitTied(s, u, less) && UnitTied(s, v, less);
    var id := s.units[u].locks[i].id;
    assert LockTied(s, id);
  }

  function Wants(locks: seq<LockRequest>): (wants: seq<Want<LockId>>)
    ensures |wants| == |locks|
  {
    seq(|locks|, i requires 0 <= i < |locks| => Want(locks[i].id, locks[i].mode))
  }

  /**
   * Units that take their locks along one total order never deadlock: from the start, after any
   * schedule, either every unit is done or one can step without waiting.
   */
  lemma {:induction false} AscendingListsNeverDeadlock<K(!new)>(s: State<K>, less: (K, K) -> bool, steps: seq<Step>)
    requires StrictTotalOrder(less) && Start(s, less) && Schedule(s, steps)
    ensures |steps| <= TotalRemaining(s.units)
    ensures Live(End(s, steps))
  {
    StartInv(s, less);
    SchedulesEnd(s, steps, less);
    var t := End(s, steps);
    if exists u :: 0 <= u < |t.units| && t.units[u].phase != Done { NoDeadlock(t, less); }
  }

  /** Every unit is done, or some unit can step without waiting. */
  ghost predicate Live<K(!new)>(s: State<K>)
  {
    || (forall u :: 0 <= u < |s.units| ==> s.units[u].phase == Done)
    || exists u :: 0 <= u < |s.units| && CanStep(s.units[u]) && Enabled(s, NextStep(s, u))
  }

  /** The lists of the lock port are such lists. */
  lemma {:induction false} CanonicalListsNeverDeadlock(
      s: State<LockId>, requests: seq<seq<LockRequest>>, locks: seq<seq<LockRequest>>, steps: seq<Step>)
    requires s.table == map[] && |requests| == |locks| == |s.units|
    requires forall u :: 0 <= u < |s.units| ==> Canonical(requests[u], locks[u])
    requires forall u :: 0 <= u < |s.units| ==>
      s.units[u].locks == Wants(locks[u]) && s.units[u].taken == 0 && s.units[u].phase == Running
    requires Schedule(s, steps)
    ensures |steps| <= TotalRemaining(s.units)
    ensures Live(End(s, steps))
  {
    IdLessIsTotalOrder();
    forall u | 0 <= u < |s.units| ensures Fresh(s.units[u], IdLess) {
      assert Canonical(requests[u], locks[u]);
      assert forall i, j :: 0 <= i < j < |locks[u]| ==> IdLess(IdOf(locks[u][i]), IdOf(locks[u][j]));
    }
    AscendingListsNeverDeadlock(s, IdLess, steps);
  }

  /** A unit that asks for a lock nobody waits for gets it if it is free, and waits if it is not. */
  lemma AcquireAlone<K(!new)>(s: State<K>, u: nat)
    requires Enabled(s, Acquire(u))
    requires forall v :: 0 <= v < |s.units| && s.units[v].taken < |s.units[v].locks| ==>
      s.units[v].phase != Waiting || s.units[v].locks[s.units[v].taken].id != s.units[u].locks[s.units[u].taken].id
    requires EntryOk(At(s.table, s.units[u].locks[s.units[u].taken].id))
    ensures var unit, w := s.units[u], s.units[u].locks[s.units[u].taken];
      var e, s' := At(s.table, w.id), Apply(s, Acquire(u));
      && s'.table == Put(s.table, w.id, Request(e, Grant(u, w.mode)))
      && s'.units == s.units[u :=
           if HasTicket(Request(e, Grant(u, w.mode)).holders, u) then unit.(taken := unit.taken + 1)
           else unit.(phase := Waiting)]
  {
    var w := s.units[u].locks[s.units[u].taken];
    AcquireIsRequest(At(s.table, w.id), Grant(u, w.mode));
    var e := Edit(s, Acquire(u));
    assert At(e.table, w.id) == Entry(At(s.table, w.id).holders, At(s.table, w.id).queue + [Grant(u, w.mode)]);
  }

  const AHEAD := [Want(0, Exclusive), Want(1, Exclusive)]
  const BACK := [Want(1, Exclusive), Want(0, Exclusive)]

  lemma FirstTakes(s: State<int>)
    requires s == State(map[], [Unit(AHEAD, 0, Running, 0), Unit(BACK, 0, Running, 0)])
    ensures Enabled(s, Acquire(0)) && Apply(s, Acquire(0)) == State(
      map[0 := Entry([Grant(0, Exclusive)], [])], [Unit(AHEAD, 1, Running, 0), Unit(BACK, 0, Running, 0)])
  {
    assert [Grant(0, Exclusive)][0].ticket == 0;
    AcquireAlone(s, 0);
    assert Request(UNUSED, Grant(0, Exclusive)) == Entry([Grant(0, Exclusive)], []);
    assert Apply(s, Acquire(0)).table == map[0 := Entry([Grant(0, Exclusive)], [])];
  }

  lemma SecondTakes(s: State<int>)
    requires s == State(
      map[0 := Entry([Grant(0, Exclusive)], [])], [Unit(AHEAD, 1, Running, 0), Unit(BACK, 0, Running, 0)])
    ensures Enabled(s, Acquire(1)) && Apply(s, Acquire(1)) == State(
      map[0 := Entry([Grant(0, Exclusive)], []), 1 := Entry([Grant(1, Exclusive)], [])],
      [Unit(AHEAD, 1, Running, 0), Unit(BACK, 1, Running, 0)])
  {
    assert [Grant(1, Exclusive)][0].ticket == 1;
    AcquireAlone(s, 1);
    assert Request(UNUSED, Grant(1, Exclusive)) == Entry([Grant(1, Exclusive)], []);
  }

  lemma FirstWaits(s: State<int>)
    requires s == State(
      map[0 := Entry([Grant(0, Exclusive)], []), 1 := Entry([Grant(1, Exclusive)], [])],
      [Unit(AHEAD, 1, Running, 0), Unit(BACK, 1, Running, 0)])
    ensures Enabled(s, Acquire(0)) && Apply(s, Acquire(0)) == State(
      map[0 := Entry([Grant(0, Exclusive)], []), 1 := Entry([Grant(1, Exclusive)], [Grant(0, Exclusive)])],
      [Unit(AHEAD, 1, Waiting, 0), Unit(BACK, 1, Running, 0)])
  {
    AcquireAlone(s, 0);
    var s' := Apply(s, Acquire(0));
    assert s'.table == s.table[1 := Entry([Grant(1, Exclusive)], [Grant(0, Exclusive)])];
  }

  lemma SecondWaits(s: State<int>)
    requires s == State(
      map[0 := Entry([Grant(0, Exclusive)], []), 1 := Entry([Grant(1, Exclusive)], [Grant(0, Exclusive)])],
      [Unit(AHEAD, 1, Waiting, 0), Unit(BACK, 1, Running, 0)])
    ensures Enabled(s, Acquire(1))
    ensures Apply(s, Acquire(1)).units == [Unit(AHEAD, 1, Waiting, 0), Unit(BACK, 1, Waiting, 0)]
  {
    AcquireAlone(s, 1);
  }

  /** The order is what it takes: with lists in opposite orders two units block each other. */
  lemma OppositeOrdersDeadlock(s: State<int>, steps: seq<Step>)
    requires s == State(map[], [Unit(AHEAD, 0, Running, 0), Unit(BACK, 0, Running, 0)])
    requires steps == [Acquire(0), Acquire(1), Acquire(0), Acquire(1)]
    ensures Schedule(s, steps)
    ensures End(s, steps).units == [Unit(AHEAD, 1, Waiting, 0), Unit(BACK, 1, Waiting, 0)]
  {
    FirstTakes(s);
    var s1 := Apply(s, Acquire(0));
    SecondTakes(s1);
    var s2 := Apply(s1, Acquire(1));
    FirstWaits(s2);
    var s3 := Apply(s2, Acquire(0));
    SecondWaits(s3);
    OneFirst(s3, Acquire(1), []);
    OneFirst(s2, Acquire(0), [Acquire(1)]);
    OneFirst(s1, Acquire(1), [Acquire(0), Acquire(1)]);
    OneFirst(s, Acquire(0), [Acquire(1), Acquire(0), Acquire(1)]);
  }

  lemma OneFirst<K>(s: State<K>, step: Step, rest: seq<Step>)
    requires Enabled(s, step) && Schedule(Apply(s, step), rest)
    ensures Schedule(s, [step] + rest) && End(s, [step] + rest) == End(Apply(s, step), rest)
  {
    assert ([step] + rest)[1..] == rest;
  }
}
