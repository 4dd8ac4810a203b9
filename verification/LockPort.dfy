/**
 * The contract of a lock port and the canonical order of lock requests
 * (src/saga/lock-port.ts): requests for one (namespace, key) are merged, then sorted by UTF-16
 * code units, so every unit of work takes its locks along the same global order.
 */
module LockPort {
  import opened Common
  import opened CodeUnits
  import opened Orders

  datatype LockMode = Shared | Exclusive

  /** What `JSON.stringify([namespace, key])` identifies. */
  datatype LockId = LockId(namespace: Text, key: Text)

  datatype LockRequest = LockRequest(id: LockId, mode: LockMode, timeoutMs: Option<nat>)

  function IdOf(request: LockRequest): LockId { request.id }

  const MAX_LOCK_TIMEOUT_MS := 2_147_483_647

  predicate IsLockTimeoutMs(ms: nat) { 1 <= ms <= MAX_LOCK_TIMEOUT_MS }

  /** The comparator of the sort: namespace first, then key. */
  predicate IdLess(a: LockId, b: LockId)
  {
    var c := CompareCodeUnits(a.namespace, b.namespace);
    if c != 0 then c < 0 else CompareCodeUnits(a.key, b.key) < 0
  }

  /** By namespace, then by key, each compared unit by unit. */
  lemma IdLessExactly(a: LockId, b: LockId)
    ensures IdLess(a, b) <==>
      || (exists k :: LessAt(a.namespace, b.namespace, k))
      || (a.namespace == b.namespace && exists k :: LessAt(a.key, b.key, k))
  {
    LessExactly(a.namespace, b.namespace);
    LessExactly(a.key, b.key);
    CompareZeroIffEqual(a.namespace, b.namespace);
  }

  lemma IdLessIsTotalOrder()
    ensures StrictTotalOrder(IdLess)
  {
    forall a ensures !IdLess(a, a) {
      LessIrreflexive(a.namespace);
      LessIrreflexive(a.key);
    }
    forall a, b, c | IdLess(a, b) && IdLess(b, c) ensures IdLess(a, c) {
      IdLessTransitive(a, b, c);
    }
    forall a: LockId, b: LockId ensures IdLess(a, b) || a == b || IdLess(b, a) {
      CompareZeroIffEqual(a.namespace, b.namespace);
      CompareZeroIffEqual(a.key, b.key);
    }
  }

  lemma IdLessTransitive(a: LockId, b: LockId, c: LockId)
    requires IdLess(a, b) && IdLess(b, c)
    ensures IdLess(a, c)
  {
    CompareZeroIffEqual(a.namespace, b.namespace);
    CompareZeroIffEqual(b.namespace, c.namespace);
    if Less(a.namespace, b.namespace) && Less(b.namespace, c.namespace) {
      LessTransitive(a.namespace, b.namespace, c.namespace);
    }
    CompareZeroIffEqual(a.key, b.key);
    CompareZeroIffEqual(b.key, c.key);
    if Less(a.key, b.key) && Less(b.key, c.key) { LessTransitive(a.key, b.key, c.key); }
  }

  /** Exclusive wins, the smallest defined timeout wins. */
  function MergeLockRequests(a: LockRequest, b: LockRequest): LockRequest
  {
    LockRequest(
      a.id,
      if a.mode == Exclusive || b.mode == Exclusive then Exclusive else Shared,
      match (a.timeoutMs, b.timeoutMs)
      case (Some(s), Some(t)) => Some(if s <= t then s else t)
      case (None, t) => t
      case (s, None) => s)
  }

  /** What the requests for `id` come to when they are merged one after the other. */
  function Merged(requests: seq<LockRequest>, id: LockId): (lock: Option<LockRequest>)
    ensures lock.Some? ==> lock.value.id == id
  {
    if requests == [] then None
    else
      var before := Merged(requests[..|requests| - 1], id);
      var last := requests[|requests| - 1];
      if last.id != id then before
      else if before == None then Some(last)
      else Some(MergeLockRequests(before.value, last))
  }

  /** The canonical list of `requests`: strictly sorted, one merged lock per requested identity. */
  ghost predicate Canonical(requests: seq<LockRequest>, locks: seq<LockRequest>)
  {
    && Ascending(locks, IdOf, IdLess)
    && forall l :: l in locks <==> Merged(requests, l.id) == Some(l)
  }

  /** Merges by identity in a map, then sorts the values. */
  method CanonicalLocks(requests: seq<LockRequest>) returns (locks: seq<LockRequest>)
    ensures Canonical(requests, locks)
  {
    var byIdentity: map<LockId, LockRequest> := map[];
    var order: seq<LockId> := [];
    for i := 0 to |requests|
      invariant forall id :: id in order <==> id in byIdentity
      invariant forall m, n :: 0 <= m < n < |order| ==> order[m] != order[n]
      invariant forall id :: id in byIdentity <==> Merged(requests[..i], id) != None
      invariant forall id :: id in byIdentity ==> Merged(requests[..i], id) == Some(byIdentity[id])
    {
      var request := requests[i];
      assert requests[..i + 1][..i] == requests[..i];
      if request.id in byIdentity {
        byIdentity := byIdentity[request.id := MergeLockRequests(byIdentity[request.id], request)];
      } else {
        byIdentity := byIdentity[request.id := request];
        order := order + [request.id];
      }
    }
    assert requests[..|requests|] == requests;
    var values := seq(|order|, i requires 0 <= i < |order| => byIdentity[order[i]]);
    locks := Sort(values, IdOf, IdLess);
    SortedValues(requests, byIdentity, order, values);
  }

  /** The identities that are requested, each once. */
  lemma {:induction false} Identities(requests: seq<LockRequest>) returns (order: seq<LockId>)
    ensures forall id :: id in order <==> Merged(requests, id) != None
    ensures forall m, n :: 0 <= m < n < |order| ==> order[m] != order[n]
  {
    order := [];
    if requests != [] {
      var last := requests[|requests| - 1].id;
      order := Identities(requests[..|requests| - 1]);
      if last !in order { order := order + [last]; }
    }
  }

  /** There is always a canonical list. */
  lemma SomeCanonical(requests: seq<LockRequest>) returns (locks: seq<LockRequest>)
    ensures Canonical(requests, locks)
  {
    var order := Identities(requests);
    var byIdentity := map id | id in order :: Merged(requests, id).value;
    var values := seq(|order|, i requires 0 <= i < |order| => byIdentity[order[i]]);
    SortedValues(requests, byIdentity, order, values);
    locks := Sort(values, IdOf, IdLess);
  }

  lemma SortedValues(
      requests: seq<LockRequest>, byIdentity: map<LockId, LockRequest>, order: seq<LockId>, values: seq<LockRequest>)
    requires forall id :: id in order <==> id in byIdentity
    requires forall m, n :: 0 <= m < n < |order| ==> order[m] != order[n]
    requires forall id :: id in byIdentity <==> Merged(requests, id) != None
    requires forall id :: id in byIdentity ==> Merged(requests, id) == Some(byIdentity[id])
    requires |values| == |order|
    requires forall i :: 0 <= i < |order| ==> order[i] in byIdentity && values[i] == byIdentity[order[i]]
    ensures Canonical(requests, Sort(values, IdOf, IdLess))
  {
    forall i | 0 <= i < |values| ensures values[i].id == order[i] {
      assert Merged(requests, order[i]) == Some(values[i]);
    }
    DistinctSortedIsAscending(values);
    forall l ensures l in values <==> Merged(requests, l.id) == Some(l) {
      ValueOfIdentity(requests, byIdentity, order, values, l);
    }
    IdLessIsTotalOrder();
    SortSorts(values, IdOf, IdLess);
  }

  lemma ValueOfIdentity(
      requests: seq<LockRequest>, byIdentity: map<LockId, LockRequest>, order: seq<LockId>, values: seq<LockRequest>,
      l: LockRequest)
    requires l.id in order <==> l.id in byIdentity
    requires l.id in byIdentity <==> Merged(requests, l.id) != None
    requires l.id in byIdentity ==> Merged(requests, l.id) == Some(byIdentity[l.id])
    requires |values| == |order|
    requires forall i :: 0 <= i < |order| ==> order[i] in byIdentity && values[i] == byIdentity[order[i]]
    requires forall i :: 0 <= i < |order| ==> values[i].id == order[i]
    ensures l in values <==> Merged(requests, l.id) == Some(l)
  {
    if l in values {
      var i :| 0 <= i < |values| && values[i] == l;
      assert order[i] == l.id;
    }
    if l.id in order {
      var i :| 0 <= i < |order| && order[i] == l.id;
      assert values[i] in values;
    }
  }

  lemma DistinctSortedIsAscending(values: seq<LockRequest>)
    requires forall m, n :: 0 <= m < n < |values| ==> values[m].id != values[n].id
    ensures Ascending(Sort(values, IdOf, IdLess), IdOf, IdLess)
  {
    var locks := Sort(values, IdOf, IdLess);
    IdLessIsTotalOrder();
    SortSorts(values, IdOf, IdLess);
    forall i, j | 0 <= i < j < |locks| ensures IdLess(locks[i].id, locks[j].id) {
      assert !IdLess(locks[j].id, locks[i].id);
      SameIdSameIndex(values, locks[i], locks[j]);
      DistinctOnce(values, locks[i]);
      TwiceInSequence(locks, i, j);
    }
  }

  lemma SameIdSameIndex(values: seq<LockRequest>, x: LockRequest, y: LockRequest)
    requires forall m, n :: 0 <= m < n < |values| ==> values[m].id != values[n].id
    requires x in values && y in values
    ensures x.id == y.id ==> x == y
  {
  }

  lemma TwiceInSequence(xs: seq<LockRequest>, i: nat, j: nat)
    requires i < j < |xs|
    ensures xs[i] == xs[j] ==> multiset(xs)[xs[i]] >= 2
  {
    assert xs == xs[..j] + [xs[j]] + xs[j + 1..];
    assert xs[i] in xs[..j];
  }

  lemma {:induction false} DistinctOnce(xs: seq<LockRequest>, x: LockRequest)
    requires forall m, n :: 0 <= m < n < |xs| ==> xs[m].id != xs[n].id
    ensures multiset(xs)[x] <= 1
  {
    if xs != [] {
      var last := |xs| - 1;
      assert xs == xs[..last] + [xs[last]];
      DistinctOnce(xs[..last], x);
      assert x in multiset(xs[..last]) <==> x in xs[..last];
    }
  }

  /** `lock` is exclusive iff some request for `id` is, and carries the least timeout any of them defines. */
  ghost predicate Joins(lock: LockRequest, requests: seq<LockRequest>, id: LockId)
  {
    && (lock.mode == Exclusive <==> exists r :: r in requests && r.id == id && r.mode == Exclusive)
    && (forall r :: r in requests && r.id == id && r.timeoutMs.Some? ==>
          lock.timeoutMs.Some? && lock.timeoutMs.value <= r.timeoutMs.value)
    && (lock.timeoutMs.Some? ==> exists r :: r in requests && r.id == id && r.timeoutMs == lock.timeoutMs)
  }

  /** The merge of the requests for one identity is their join, whatever their order. */
  lemma {:induction false} MergedJoins(requests: seq<LockRequest>, id: LockId)
    ensures Merged(requests, id) == None <==> forall r :: r in requests ==> r.id != id
    ensures Merged(requests, id).Some? ==> Joins(Merged(requests, id).value, requests, id)
  {
    if requests != [] {
      var init, last := requests[..|requests| - 1], requests[|requests| - 1];
      MergedJoins(init, id);
      assert forall r :: r in requests <==> r in init || r == last;
    }
  }

  lemma JoinUnique(l: LockRequest, m: LockRequest, requests: seq<LockRequest>, others: seq<LockRequest>, id: LockId)
    requires forall r :: r in requests <==> r in others
    requires Joins(l, requests, id) && Joins(m, others, id) && l.id == m.id
    ensures l == m
  {
  }

  lemma MergedDependsOnlyOnSet(requests: seq<LockRequest>, others: seq<LockRequest>, id: LockId)
    requires forall r :: r in requests <==> r in others
    ensures Merged(requests, id) == Merged(others, id)
  {
    MergedJoins(requests, id);
    MergedJoins(others, id);
    if Merged(requests, id).Some? && Merged(others, id).Some? {
      JoinUnique(Merged(requests, id).value, Merged(others, id).value, requests, others, id);
    }
  }

  /**
   * The canonical list depends only on the set of requests: reordering or repeating the input
   * changes nothing.
   */
  lemma CanonicalDependsOnlyOnSet(
      requests: seq<LockRequest>, others: seq<LockRequest>, locks: seq<LockRequest>, otherLocks: seq<LockRequest>)
    requires forall r :: r in requests <==> r in others
    requires Canonical(requests, locks) && Canonical(others, otherLocks)
    ensures locks == otherLocks
  {
    IdLessIsTotalOrder();
    forall l ensures l in locks <==> l in otherLocks {
      MergedDependsOnlyOnSet(requests, others, l.id);
    }
    AscendingUnique(locks, otherLocks, IdOf, IdLess);
  }

  /**
   * The identities of the canonical list are those of the requests; each lock is exclusive iff some
   * request for it was, and carries the least timeout any of them defined.
   */
  lemma CanonicalMeaning(requests: seq<LockRequest>, locks: seq<LockRequest>)
    requires Canonical(requests, locks)
    ensures forall r :: r in requests ==> exists l :: l in locks && l.id == r.id
    ensures forall l :: l in locks ==> (exists r :: r in requests && r.id == l.id) && Joins(l, requests, l.id)
  {
    forall r | r in requests ensures exists l :: l in locks && l.id == r.id {
      MergedJoins(requests, r.id);
      assert Merged(requests, r.id).value in locks;
    }
    forall l | l in locks ensures (exists r :: r in requests && r.id == l.id) && Joins(l, requests, l.id) {
      MergedJoins(requests, l.id);
    }
  }

  /** A canonical list is its own canonical list, so canonicalizing twice is canonicalizing once. */
  lemma CanonicalIsIdempotent(requests: seq<LockRequest>, locks: seq<LockRequest>, again: seq<LockRequest>)
    requires Canonical(requests, locks) && Canonical(locks, again)
    ensures again == locks
  {
    IdLessIsTotalOrder();
    AscendingIsDistinct(locks);
    forall l ensures l in again <==> l in locks {
      MergedOfDistinct(locks, l.id);
      if l in locks {
        var i :| 0 <= i < |locks| && locks[i] == l;
        assert locks[i].id == l.id;
      }
    }
    AscendingUnique(again, locks, IdOf, IdLess);
  }

  lemma AscendingIsDistinct(locks: seq<LockRequest>)
    requires Ascending(locks, IdOf, IdLess)
    ensures forall i, j :: 0 <= i < j < |locks| ==> locks[i].id != locks[j].id
  {
    IdLessIsTotalOrder();
    assert forall i, j :: 0 <= i < j < |locks| ==> IdLess(IdOf(locks[i]), IdOf(locks[j]));
  }

  lemma {:induction false} MergedOfDistinct(locks: seq<LockRequest>, id: LockId)
    requires forall i, j :: 0 <= i < j < |locks| ==> locks[i].id != locks[j].id
    ensures forall i :: 0 <= i < |locks| && locks[i].id == id ==> Merged(locks, id) == Some(locks[i])
    ensures Merged(locks, id).Some? ==> Merged(locks, id).value in locks
  {
    if locks != [] {
      var init, last := locks[..|locks| - 1], locks[|locks| - 1];
      MergedOfDistinct(init, id);
      if last.id == id {
        MergedJoins(init, id);
      }
    }
  }
}
