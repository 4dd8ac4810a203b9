/**
 * Locks by a physical int8 key (src/saga/postgres/advisory-lock-port.ts). The database hashes each
 * identity; requests are sorted again by hash, collisions merged, and taken in that order, each with
 * the lock timeout it asks for. The hash is arbitrary; the SQL is not part of the model.
 */
module AdvisoryLocks {
  import opened Common
  import opened CodePoints
  import opened CodeUnits
  import opened Orders
  import opened Decimals
  import opened LockPort
  import DF = DeadlockFreedom

  const INT8_MIN := -0x8000_0000_0000_0000
  const INT8_MAX := 0x7fff_ffff_ffff_ffff

  /** The characters of a text of ASCII digits. */
  function Plain(t: Text): (points: seq<nat>)
    ensures |points| == |t|
  {
    seq(|t|, i requires 0 <= i < |t| => t[i] as nat)
  }

  /**
   * What the database hashes, as the characters it sees: the number of characters of the namespace, a
   * colon, the namespace, the key.
   */
  function HashInput(id: LockId): seq<nat>
  {
    Plain(Decimal(|Points(id.namespace)|)) + [COLON as nat] + (Points(id.namespace) + Points(id.key))
  }

  lemma PlainReadsBack(m: nat, n: nat)
    requires Plain(Decimal(m)) == Plain(Decimal(n))
    ensures m == n
  {
    var s, t := Decimal(m), Decimal(n);
    assert |s| == |t| by { assert |Plain(s)| == |Plain(t)|; }
    forall i | 0 <= i < |s| ensures s[i] == t[i] { assert Plain(s)[i] == Plain(t)[i]; }
    assert s == t;
    DecimalReadsBack(m);
    DecimalReadsBack(n);
  }

  lemma NoColon(n: nat)
    ensures COLON as nat !in Plain(Decimal(n))
  {
    forall i | 0 <= i < |Decimal(n)| ensures Plain(Decimal(n))[i] != COLON as nat { assert Digit(Decimal(n)[i]); }
  }

  /**
   * Two identities hash the same input if and only if the database sees the same two texts: the length
   * in front keeps namespace and key apart, because digits contain no colon.
   */
  lemma HashInputExactly(a: LockId, b: LockId)
    ensures HashInput(a) == HashInput(b) <==>
      Points(a.namespace) == Points(b.namespace) && Points(a.key) == Points(b.key)
  {
    if HashInput(a) == HashInput(b) {
      var m, n := |Points(a.namespace)|, |Points(b.namespace)|;
      var p, q := Points(a.namespace) + Points(a.key), Points(b.namespace) + Points(b.key);
      NoColon(m);
      NoColon(n);
      SplitAtFirst(Plain(Decimal(m)), Plain(Decimal(n)), COLON as nat, p, q);
      PlainReadsBack(m, n);
      assert Points(a.namespace) == p[..m] && Points(a.key) == p[m..];
      assert Points(b.namespace) == q[..n] && Points(b.key) == q[n..];
    }
  }

  /** Different identities of well-formed strings never hash the same input. */
  lemma HashInputIsInjective(a: LockId, b: LockId)
    requires WellFormed(a.namespace) && WellFormed(a.key) && WellFormed(b.namespace) && WellFormed(b.key)
    requires HashInput(a) == HashInput(b)
    ensures a == b
  {
    HashInputExactly(a, b);
    PointsAreInjective(a.namespace, b.namespace);
    PointsAreInjective(a.key, b.key);
  }

  /** What is hashed for namespace `ab` and key `c`: the text `2:abc`. */
  lemma HashInputReads()
    ensures HashInput(LockId([97, 98], [99])) == [50, 58, 97, 98, 99]
  {
    assert [97, 98][1..] == [98] && [98][1..] == [] && [99][1..] == [];
    assert Points([97, 98]) == [97, 98] && Points([99]) == [99];
    assert Decimal(2) == [50];
  }

  /** A surrogate without its other half reads as the replacement character: two identities, one lock. */
  lemma LoneSurrogatesCollide()
    ensures var a, b := LockId([], [0xD800]), LockId([], [0xFFFD]); a != b && HashInput(a) == HashInput(b)
  {
    assert Points([0xD800][1..]) == [] && Points([0xFFFD][1..]) == [];
  }

  datatype PhysicalLock = PhysicalLock(order: int, request: LockRequest)

  function OrderOf(lock: PhysicalLock): int { lock.order }

  predicate Smaller(a: int, b: int) { a < b }

  lemma SmallerIsTotalOrder()
    ensures StrictTotalOrder(Smaller)
  {
  }

  /** `m` does what all locks of the same key ask for together: no more, no less. */
  ghost predicate JoinsAt(m: PhysicalLock, locks: seq<PhysicalLock>)
  {
    && (exists l :: l in locks && l.order == m.order)
    && (m.request.mode == Exclusive <==> exists l :: l in locks && l.order == m.order && l.request.mode == Exclusive)
    && (forall l :: l in locks && l.order == m.order ==> NoLonger(m.request.timeoutMs, l.request.timeoutMs))
    && (m.request.timeoutMs.Some? ==>
          exists l :: l in locks && l.order == m.order && l.request.timeoutMs == m.request.timeoutMs)
  }

  predicate NoLonger(t: Option<nat>, asked: Option<nat>)
  {
    asked.Some? ==> t.Some? && t.value <= asked.value
  }

  /** Strictly ascending by key, one lock per key, each the join of what was asked for that key. */
  ghost predicate CanonicalPhysical(locks: seq<PhysicalLock>, merged: seq<PhysicalLock>)
  {
    && Ascending(merged, OrderOf, Smaller)
    && (forall m {:trigger JoinsAt(m, locks)} :: m in merged ==> JoinsAt(m, locks))
    && (forall l {:trigger Served(l, merged)} :: l in locks ==> Served(l, merged))
  }

  ghost predicate Served(l: PhysicalLock, merged: seq<PhysicalLock>)
  {
    exists m :: m in merged && m.order == l.order
  }

  lemma JoinOne(locks: seq<PhysicalLock>, l: PhysicalLock)
    requires forall k :: k in locks ==> k.order != l.order
    ensures JoinsAt(l, locks + [l])
  {
    assert l in locks + [l];
  }

  lemma JoinMore(locks: seq<PhysicalLock>, m: PhysicalLock, l: PhysicalLock)
    requires JoinsAt(m, locks) && l.order == m.order
    ensures JoinsAt(m.(request := MergeLockRequests(m.request, l.request)), locks + [l])
  {
    assert l in locks + [l] && forall k :: k in locks ==> k in locks + [l];
  }

  lemma JoinOther(locks: seq<PhysicalLock>, m: PhysicalLock, l: PhysicalLock)
    requires JoinsAt(m, locks) && l.order != m.order
    ensures JoinsAt(m, locks + [l])
  {
    assert forall k :: k in locks + [l] <==> k in locks || k == l;
  }

  /** What one turn of the merge loop does to a canonical prefix. */
  function MergeInto(merged: seq<PhysicalLock>, lock: PhysicalLock): seq<PhysicalLock>
  {
    var n := |merged|;
    if n > 0 && merged[n - 1].order == lock.order
    then merged[..n - 1] + [merged[n - 1].(request := MergeLockRequests(merged[n - 1].request, lock.request))]
    else merged + [lock]
  }

  /** Every key so far is at most that of `lock`. */
  ghost predicate AllUpTo(locks: seq<PhysicalLock>, lock: PhysicalLock)
  {
    forall l :: l in locks ==> l.order <= lock.order
  }

  lemma MergedUpTo(locks: seq<PhysicalLock>, merged: seq<PhysicalLock>, lock: PhysicalLock)
    requires CanonicalPhysical(locks, merged) && AllUpTo(locks, lock)
    ensures AllUpTo(merged, lock)
  {
    forall m | m in merged ensures m.order <= lock.order { assert JoinsAt(m, locks); }
  }

  lemma MergeIntoAscends(merged: seq<PhysicalLock>, lock: PhysicalLock)
    requires Ascending(merged, OrderOf, Smaller) && AllUpTo(merged, lock)
    ensures Ascending(MergeInto(merged, lock), OrderOf, Smaller)
  {
    var n := |merged|;
    forall i | 0 <= i < n - 1 ensures merged[i].order < merged[n - 1].order <= lock.order {
      assert Smaller(OrderOf(merged[i]), OrderOf(merged[n - 1])) && merged[n - 1] in merged;
    }
    if n > 0 && merged[n - 1].order != lock.order { assert merged[n - 1] in merged; }
  }

  lemma MergeIntoKeeps(locks: seq<PhysicalLock>, merged: seq<PhysicalLock>, lock: PhysicalLock)
    requires CanonicalPhysical(locks, merged) && AllUpTo(locks, lock)
    ensures CanonicalPhysical(locks + [lock], MergeInto(merged, lock))
  {
    var after := MergeInto(merged, lock);
    MergedUpTo(locks, merged, lock);
    MergeIntoAscends(merged, lock);
    forall m | m in after ensures JoinsAt(m, locks + [lock]) {
      var i :| 0 <= i < |after| && after[i] == m;
      MergedAtJoins(locks, merged, lock, i);
    }
    forall l | l in locks + [lock] ensures Served(l, after) {
      if l in locks {
        StillServed(merged, lock, l);
      } else {
        assert after[|after| - 1] in after && after[|after| - 1].order == l.order;
      }
    }
  }

  lemma MergedAtJoins(locks: seq<PhysicalLock>, merged: seq<PhysicalLock>, lock: PhysicalLock, i: nat)
    requires CanonicalPhysical(locks, merged) && AllUpTo(merged, lock) && i < |MergeInto(merged, lock)|
    ensures JoinsAt(MergeInto(merged, lock)[i], locks + [lock])
  {
    var n := |merged|;
    if i == n {
      NewJoins(locks, merged, lock);
    } else if i == n - 1 && merged[i].order == lock.order {
      assert JoinsAt(merged[i], locks);
      JoinMore(locks, merged[i], lock);
    } else {
      EarlierJoins(locks, merged, lock, i);
    }
  }

  lemma EarlierJoins(locks: seq<PhysicalLock>, merged: seq<PhysicalLock>, lock: PhysicalLock, i: nat)
    requires CanonicalPhysical(locks, merged) && AllUpTo(merged, lock) && i < |merged|
    requires i < |merged| - 1 || merged[i].order != lock.order
    ensures MergeInto(merged, lock)[i] == merged[i] && JoinsAt(merged[i], locks + [lock])
  {
    EarlierOrder(merged, lock, i);
    assert JoinsAt(merged[i], locks);
    JoinOther(locks, merged[i], lock);
  }

  lemma EarlierOrder(merged: seq<PhysicalLock>, lock: PhysicalLock, i: nat)
    requires Ascending(merged, OrderOf, Smaller) && AllUpTo(merged, lock) && i < |merged|
    requires i < |merged| - 1 || merged[i].order != lock.order
    ensures merged[i].order < lock.order
  {
    var last := merged[|merged| - 1];
    assert last in merged;
    if i < |merged| - 1 { assert Smaller(OrderOf(merged[i]), OrderOf(last)); } else { assert merged[i] in merged; }
  }

  lemma NewJoins(locks: seq<PhysicalLock>, merged: seq<PhysicalLock>, lock: PhysicalLock)
    requires CanonicalPhysical(locks, merged) && AllUpTo(merged, lock)
    requires |merged| > 0 ==> merged[|merged| - 1].order != lock.order
    ensures JoinsAt(lock, locks + [lock])
  {
    assert |merged| > 0 ==> merged[|merged| - 1] in merged;
    NotServed(merged, lock);
    forall k | k in locks ensures k.order != lock.order { assert Served(k, merged); }
    JoinOne(locks, lock);
  }

  lemma NotServed(merged: seq<PhysicalLock>, lock: PhysicalLock)
    requires Ascending(merged, OrderOf, Smaller)
    requires |merged| > 0 ==> merged[|merged| - 1].order < lock.order
    ensures forall m :: m in merged ==> m.order < lock.order
  {
    forall i | 0 <= i < |merged| ensures merged[i].order < lock.order {
      assert i < |merged| - 1 ==> Smaller(OrderOf(merged[i]), OrderOf(merged[|merged| - 1]));
    }
  }

  lemma StillServed(merged: seq<PhysicalLock>, lock: PhysicalLock, l: PhysicalLock)
    requires Served(l, merged)
    ensures Served(l, MergeInto(merged, lock))
  {
    var n, after := |merged|, MergeInto(merged, lock);
    var i :| 0 <= i < n && merged[i].order == l.order;
    assert after[i] in after && after[i].order == l.order;
  }

  lemma SortedUpTo(sorted: seq<PhysicalLock>, i: nat)
    requires NonDescending(sorted, OrderOf, Smaller) && i < |sorted|
    ensures AllUpTo(sorted[..i], sorted[i])
  {
    forall l | l in sorted[..i] ensures l.order <= sorted[i].order {
      var j :| 0 <= j < i && sorted[j] == l;
      assert !Smaller(OrderOf(sorted[i]), OrderOf(sorted[j]));
    }
  }

  lemma MergeTurn(sorted: seq<PhysicalLock>, merged: seq<PhysicalLock>, i: nat)
    requires NonDescending(sorted, OrderOf, Smaller) && i < |sorted| && CanonicalPhysical(sorted[..i], merged)
    ensures CanonicalPhysical(sorted[..i + 1], MergeInto(merged, sorted[i]))
  {
    assert sorted[..i + 1] == sorted[..i] + [sorted[i]];
    SortedUpTo(sorted, i);
    MergeIntoKeeps(sorted[..i], merged, sorted[i]);
  }

  /** The merge loop, over sorted locks. */
  method MergeSorted(sorted: seq<PhysicalLock>) returns (merged: seq<PhysicalLock>)
    requires NonDescending(sorted, OrderOf, Smaller)
    ensures CanonicalPhysical(sorted, merged)
  {
    merged := [];
    for i := 0 to |sorted|
      invariant CanonicalPhysical(sorted[..i], merged)
    {
      MergeTurn(sorted, merged, i);
      var lock, n := sorted[i], |merged|;
      if n > 0 && merged[n - 1].order == lock.order {
        merged := merged[..n - 1] + [merged[n - 1].(request := MergeLockRequests(merged[n - 1].request, lock.request))];
      } else {
        merged := merged + [lock];
      }
    }
    assert sorted[..|sorted|] == sorted;
  }

  /** Sorts by the signed int8 key and merges physical collisions. */
  method Canonicalize(locks: seq<PhysicalLock>) returns (merged: seq<PhysicalLock>)
    ensures CanonicalPhysical(locks, merged)
  {
    var sorted := Sort(locks, OrderOf, Smaller);
    SmallerIsTotalOrder();
    SortSorts(locks, OrderOf, Smaller);
    merged := MergeSorted(sorted);
    SameMembersCanonical(sorted, locks, merged);
  }

  lemma SameMembersJoin(locks: seq<PhysicalLock>, others: seq<PhysicalLock>, m: PhysicalLock)
    requires (forall l :: l in locks <==> l in others) && JoinsAt(m, locks)
    ensures JoinsAt(m, others)
  {
  }

  lemma SameMembersCanonical(locks: seq<PhysicalLock>, others: seq<PhysicalLock>, merged: seq<PhysicalLock>)
    requires (forall l :: l in locks <==> l in others) && CanonicalPhysical(locks, merged)
    ensures CanonicalPhysical(others, merged)
  {
    forall m | m in merged ensures JoinsAt(m, others) { SameMembersJoin(locks, others, m); }
  }

  // ---- The result does not depend on the order in which the database returns the rows.

  datatype Ask = Ask(order: int, mode: LockMode, timeoutMs: Option<nat>)

  function AskOf(l: PhysicalLock): Ask { Ask(l.order, l.request.mode, l.request.timeoutMs) }

  function Asks(locks: seq<PhysicalLock>): (asks: seq<Ask>)
    ensures |asks| == |locks|
  {
    seq(|locks|, i requires 0 <= i < |locks| => AskOf(locks[i]))
  }

  function AskOrder(a: Ask): int { a.order }

  lemma JoinsAgree(l: PhysicalLock, m: PhysicalLock, locks: seq<PhysicalLock>, others: seq<PhysicalLock>)
    requires (forall k :: k in locks <==> k in others) && JoinsAt(l, locks) && JoinsAt(m, others) && l.order == m.order
    ensures AskOf(l) == AskOf(m)
  {
  }

  lemma AskIn(
      locks: seq<PhysicalLock>, others: seq<PhysicalLock>, merged: seq<PhysicalLock>, otherMerged: seq<PhysicalLock>,
      a: Ask)
    requires forall l :: l in locks <==> l in others
    requires CanonicalPhysical(locks, merged) && CanonicalPhysical(others, otherMerged)
    ensures a in Asks(merged) ==> a in Asks(otherMerged)
  {
    if a in Asks(merged) {
      var i :| 0 <= i < |merged| && Asks(merged)[i] == a;
      assert JoinsAt(merged[i], locks);
      var l :| l in locks && l.order == a.order;
      assert Served(l, otherMerged);
      var m :| m in otherMerged && m.order == l.order;
      var j :| 0 <= j < |otherMerged| && otherMerged[j] == m;
      JoinsAgree(merged[i], m, locks, others);
      assert Asks(otherMerged)[j] == a;
    }
  }

  lemma AsksAscend(merged: seq<PhysicalLock>)
    requires Ascending(merged, OrderOf, Smaller)
    ensures Ascending(Asks(merged), AskOrder, Smaller)
  {
    forall i, j | 0 <= i < j < |merged| ensures Smaller(AskOrder(Asks(merged)[i]), AskOrder(Asks(merged)[j])) {
      assert Smaller(OrderOf(merged[i]), OrderOf(merged[j]));
    }
  }

  lemma PhysicalDependsOnlyOnSet(
      locks: seq<PhysicalLock>, others: seq<PhysicalLock>, merged: seq<PhysicalLock>, otherMerged: seq<PhysicalLock>)
    requires forall l :: l in locks <==> l in others
    requires CanonicalPhysical(locks, merged) && CanonicalPhysical(others, otherMerged)
    ensures Asks(merged) == Asks(otherMerged)
  {
    SmallerIsTotalOrder();
    AsksAscend(merged);
    AsksAscend(otherMerged);
    forall a ensures a in Asks(merged) <==> a in Asks(otherMerged) {
      AskIn(locks, others, merged, otherMerged, a);
      AskIn(others, locks, otherMerged, merged, a);
    }
    AscendingUnique(Asks(merged), Asks(otherMerged), AskOrder, Smaller);
  }

  // ---- From the requests of a unit to statements.

  datatype LockError = Unexpected | SnapshotIsolation | BadTimeout | StatementFailed

  /** A row of the hash query: the ordinal of a request and its key. */
  datatype Row = Row(ordinal: int, hash: int)

  predicate GoodRow(row: Row, n: nat)
  {
    1 <= row.ordinal <= n && INT8_MIN <= row.hash <= INT8_MAX
  }

  function LocksOf(requests: seq<LockRequest>, rows: seq<Row>): (locks: seq<PhysicalLock>)
    requires forall i :: 0 <= i < |rows| ==> GoodRow(rows[i], |requests|)
    ensures |locks| == |rows|
  {
    seq(|rows|, i requires 0 <= i < |rows| && GoodRow(rows[i], |requests|) =>
      PhysicalLock(rows[i].hash, requests[rows[i].ordinal - 1]))
  }

  /** The rows are answered in any order, as many as there are requests; anything else is refused. */
  method PhysicalLocks(requests: seq<LockRequest>, rows: seq<Row>, snapshot: bool, allowSnapshot: bool)
    returns (result: Result<seq<PhysicalLock>, LockError>)
    requires |requests| > 0
    ensures result.Ok? <==>
      && |rows| == |requests| && (snapshot ==> allowSnapshot)
      && forall i :: 0 <= i < |rows| ==>
           && 1 <= rows[i].ordinal <= |requests|
           && -0x8000_0000_0000_0000 <= rows[i].hash <= 0x7fff_ffff_ffff_ffff
    ensures result.Ok? ==> forall i :: 0 <= i < |rows| ==> GoodRow(rows[i], |requests|)
    ensures result.Err? ==>
      result.error == if |rows| == |requests| && snapshot && !allowSnapshot then SnapshotIsolation else Unexpected
    ensures result.Ok? ==> CanonicalPhysical(LocksOf(requests, rows), result.value)
  {
    if |rows| != |requests| { return Err(Unexpected); }
    if snapshot && !allowSnapshot { return Err(SnapshotIsolation); }
    var locks: seq<PhysicalLock> := [];
    for i := 0 to |rows|
      invariant forall j :: 0 <= j < i ==> GoodRow(rows[j], |requests|)
      invariant locks == LocksOf(requests, rows[..i])
    {
      if !GoodRow(rows[i], |requests|) { return Err(Unexpected); }
      locks := locks + [PhysicalLock(rows[i].hash, requests[rows[i].ordinal - 1])];
    }
    assert rows[..|rows|] == rows;
    var merged := Canonicalize(locks);
    result := Ok(merged);
  }

  /** Row `i` answers some request with the hash of its identity, and every request is answered. */
  ghost predicate Answers(rows: seq<Row>, requests: seq<LockRequest>, hash: seq<nat> -> int)
  {
    && |rows| == |requests|
    && (forall i :: 0 <= i < |rows| ==>
          GoodRow(rows[i], |requests|) && rows[i].hash == hash(HashInput(requests[rows[i].ordinal - 1].id)))
    && (forall k :: 0 <= k < |requests| ==> AnsweredAt(rows, k))
  }

  ghost predicate AnsweredAt(rows: seq<Row>, k: int)
  {
    exists i :: 0 <= i < |rows| && rows[i].ordinal == k + 1
  }

  /** `m` is at least as strong as `r` asks, and waits no longer. */
  predicate Covers(m: PhysicalLock, r: LockRequest, hash: seq<nat> -> int)
  {
    && m.order == hash(HashInput(r.id)) && (r.mode == Exclusive ==> m.request.mode == Exclusive)
    && NoLonger(m.request.timeoutMs, r.timeoutMs)
  }

  /** Every request is covered by a lock taken, whatever the hash function and the order of the rows. */
  lemma EveryRequestIsCovered(
      requests: seq<LockRequest>, rows: seq<Row>, hash: seq<nat> -> int, merged: seq<PhysicalLock>, k: nat)
    requires Answers(rows, requests, hash) && k < |requests| && CanonicalPhysical(LocksOf(requests, rows), merged)
    ensures exists m :: m in merged && Covers(m, requests[k], hash)
  {
    var l := AnswerOf(requests, rows, hash, k);
    var m := ServedAsStrong(LocksOf(requests, rows), merged, l);
    assert Covers(m, requests[k], hash);
  }

  lemma AnswerOf(requests: seq<LockRequest>, rows: seq<Row>, hash: seq<nat> -> int, k: nat) returns (l: PhysicalLock)
    requires Answers(rows, requests, hash) && k < |requests|
    ensures l in LocksOf(requests, rows) && l == PhysicalLock(hash(HashInput(requests[k].id)), requests[k])
  {
    assert AnsweredAt(rows, k);
    var i :| 0 <= i < |rows| && rows[i].ordinal == k + 1;
    assert GoodRow(rows[i], |requests|);
    l := LocksOf(requests, rows)[i];
  }

  lemma ServedAsStrong(locks: seq<PhysicalLock>, merged: seq<PhysicalLock>, l: PhysicalLock) returns (m: PhysicalLock)
    requires CanonicalPhysical(locks, merged) && l in locks
    ensures m in merged && m.order == l.order && NoLonger(m.request.timeoutMs, l.request.timeoutMs)
    ensures l.request.mode == Exclusive ==> m.request.mode == Exclusive
  {
    assert Served(l, merged);
    m :| m in merged && m.order == l.order;
    assert JoinsAt(m, locks);
  }

  function PhysicalWants(locks: seq<PhysicalLock>): (wants: seq<DF.Want<int>>)
    ensures |wants| == |locks|
  {
    seq(|locks|, i requires 0 <= i < |locks| => DF.Want(locks[i].order, locks[i].request.mode))
  }

  /** Units that take physical lists never deadlock either, however the identities collide. */
  lemma {:induction false} PhysicalListsNeverDeadlock(
      s: DF.State<int>, locks: seq<seq<PhysicalLock>>, merged: seq<seq<PhysicalLock>>, steps: seq<DF.Step>)
    requires s.table == map[] && |locks| == |merged| == |s.units|
    requires forall u :: 0 <= u < |s.units| ==> CanonicalPhysical(locks[u], merged[u])
    requires forall u :: 0 <= u < |s.units| ==>
      s.units[u].locks == PhysicalWants(merged[u]) && s.units[u].taken == 0 && s.units[u].phase == DF.Running
    requires DF.Schedule(s, steps)
    ensures |steps| <= DF.TotalRemaining(s.units)
    ensures DF.Live(DF.End(s, steps))
  {
    SmallerIsTotalOrder();
    forall u | 0 <= u < |s.units| ensures DF.Fresh(s.units[u], Smaller) {
      assert CanonicalPhysical(locks[u], merged[u]);
      assert forall i, j :: 0 <= i < j < |merged[u]| ==> Smaller(OrderOf(merged[u][i]), OrderOf(merged[u][j]));
    }
    DF.AscendingListsNeverDeadlock(s, Smaller, steps);
  }

  function TimeoutSetting(ms: nat): Text { Decimal(ms) + [109, 115] }

  /** The setting a lock is to be taken under: its own, or the session's. */
  function Wanted(request: LockRequest, original: Text): Text
  {
    if request.timeoutMs.None? then original else TimeoutSetting(request.timeoutMs.value)
  }

  /** A lock statement, and the session setting it ran under. */
  datatype Taken = Taken(order: int, mode: LockMode, timeout: Text)

  /** The setting for a lock: the session's if it asks for none, else its own in milliseconds. */
  lemma EachUnderItsTimeout(locks: seq<PhysicalLock>, original: Text, i: nat)
    requires i < |locks|
    ensures var taken, asked := Disciplined(locks, original)[i], locks[i].request;
      && taken.order == locks[i].order && taken.mode == asked.mode
      && (asked.timeoutMs == None ==> taken.timeout == original)
      && (asked.timeoutMs.Some? ==>
            && |taken.timeout| > 2 && taken.timeout[|taken.timeout| - 2..] == [109, 115]
            && ValueOf(taken.timeout[..|taken.timeout| - 2]) == asked.timeoutMs.value)
  {
    if locks[i].request.timeoutMs.Some? {
      var ms := locks[i].request.timeoutMs.value;
      DecimalReadsBack(ms);
      assert (Decimal(ms) + [109, 115])[..|Decimal(ms)|] == Decimal(ms);
    }
  }

  function Disciplined(locks: seq<PhysicalLock>, original: Text): (taken: seq<Taken>)
    ensures |taken| == |locks|
  {
    seq(|locks|, i requires 0 <= i < |locks| =>
      Taken(locks[i].order, locks[i].request.mode, Wanted(locks[i].request, original)))
  }

  function WithDefaultTimeout(r: LockRequest, defaultMs: Option<nat>): LockRequest
  {
    if r.timeoutMs.Some? then r else r.(timeoutMs := defaultMs)
  }

  function WithDefaults(requests: seq<LockRequest>, defaultMs: Option<nat>): (r: seq<LockRequest>)
    ensures |r| == |requests|
  {
    seq(|requests|, i requires 0 <= i < |requests| => WithDefaultTimeout(requests[i], defaultMs))
  }

  /** A request keeps its own timeout and gets the default if it has none; nothing else of it changes. */
  lemma DefaultsFillIn(requests: seq<LockRequest>, defaultMs: Option<nat>, i: nat)
    requires i < |requests|
    ensures var asked, r := requests[i], WithDefaults(requests, defaultMs)[i];
      && r.id == asked.id && r.mode == asked.mode
      && (asked.timeoutMs.Some? ==> r.timeoutMs == asked.timeoutMs)
      && (asked.timeoutMs == None ==> r.timeoutMs == defaultMs)
  {
  }

  predicate TimeoutOk(r: LockRequest) { r.timeoutMs.Some? ==> IsLockTimeoutMs(r.timeoutMs.value) }

  /** The timeout the request asks for, or else the default, is none that a timer can hold. */
  predicate BadlyTimed(r: LockRequest, defaultMs: Option<nat>)
  {
    if r.timeoutMs.Some? then !(1 <= r.timeoutMs.value <= 2_147_483_647)
    else defaultMs.Some? && !(1 <= defaultMs.value <= 2_147_483_647)
  }

  /** A database session inside a transaction; any statement may fail. */
  class Session {
    const works: nat -> bool
    var timeout: Text
    var taken: seq<Taken>
    var statements: nat

    constructor (works: nat -> bool, timeout: Text)
      ensures this.works == works && this.timeout == timeout && taken == []
    {
      this.works, this.timeout, taken, statements := works, timeout, [], 0;
    }

    method ReadTimeout() returns (ok: bool, value: Text)
      modifies this`statements
      ensures value == timeout
    {
      ok, value, statements := works(statements), timeout, statements + 1;
    }

    method SetTimeout(value: Text) returns (ok: bool)
      modifies this`timeout, this`statements
      ensures timeout == if ok then value else old(timeout)
    {
      ok, statements := works(statements), statements + 1;
      if ok { timeout := value; }
    }

    method Lock(order: int, mode: LockMode) returns (ok: bool)
      modifies this`taken, this`statements
      ensures taken == old(taken) + if ok then [Taken(order, mode, timeout)] else []
    {
      ok, statements := works(statements), statements + 1;
      if ok { taken := taken + [Taken(order, mode, timeout)]; }
    }

    /**
     * Takes the locks in the order of the list, each under the setting it asks for. When all are taken
     * the setting is the one found; when a statement fails, a prefix was taken.
     */
    method LockAll(locks: seq<PhysicalLock>) returns (ok: bool, ghost n: nat)
      modifies this`timeout, this`taken, this`statements
      ensures n <= |locks| && taken == old(taken) + Disciplined(locks, old(timeout))[..n]
      ensures ok ==> n == |locks| && timeout == old(timeout)
    {
      var needsTimeout := exists i :: 0 <= i < |locks| && locks[i].request.timeoutMs.Some?;
      var previous, current;
      n := 0;
      if needsTimeout {
        ok, previous := ReadTimeout();
        if !ok { return; }
        current := previous;
      } else {
        previous, current := timeout, timeout;
      }
      for i := 0 to |locks|
        invariant n == i && previous == old(timeout) && current == timeout
        invariant taken == old(taken) + Disciplined(locks, old(timeout))[..i]
        invariant !needsTimeout ==> timeout == old(timeout)
      {
        var request := locks[i].request;
        if needsTimeout {
          var wanted := Wanted(request, previous);
          if wanted != current {
            ok := SetTimeout(wanted);
            if !ok { return; }
            current := wanted;
          }
        }
        ok := Lock(locks[i].order, request.mode);
        if !ok { return; }
        n := n + 1;
      }
      ok := true;
      if current != previous { ok := SetTimeout(previous); }
    }

    /** One call of the port for one unit of work; `rows` is what the hash query answered. */
    method Acquire(
        requests: seq<LockRequest>, defaultMs: Option<nat>, rows: seq<Row>, snapshot: bool, allowSnapshot: bool)
      returns (result: Result<seq<PhysicalLock>, LockError>)
      modifies this`timeout, this`taken, this`statements
      ensures requests == [] ==> result == Ok([]) && taken == old(taken) && timeout == old(timeout)
      ensures result.Ok? ==> timeout == old(timeout) && taken == old(taken) + Disciplined(result.value, old(timeout))
      ensures result == Err(BadTimeout) <==> exists i :: 0 <= i < |requests| && BadlyTimed(requests[i], defaultMs)
      ensures result.Ok? && requests != [] ==>
        && |rows| == |requests| && (forall i :: 0 <= i < |rows| ==> GoodRow(rows[i], |requests|))
        && (forall i :: 0 <= i < |requests| ==> TimeoutOk(WithDefaults(requests, defaultMs)[i]))
        && CanonicalPhysical(LocksOf(WithDefaults(requests, defaultMs), rows), result.value)
      ensures result.Err? && result.error != StatementFailed ==> taken == old(taken) && timeout == old(timeout)
    {
      if requests == [] { return Ok([]); }
      var wanted := WithDefaults(requests, defaultMs);
      forall i | 0 <= i < |requests| ensures TimeoutOk(wanted[i]) <==> !BadlyTimed(requests[i], defaultMs) {
        DefaultsFillIn(requests, defaultMs, i);
      }
      if exists i :: 0 <= i < |wanted| && !TimeoutOk(wanted[i]) { return Err(BadTimeout); }
      result := PhysicalLocks(wanted, rows, snapshot, allowSnapshot);
      if result.Ok? {
        var ok, _ := LockAll(result.value);
        if !ok { result := Err(StatementFailed); }
      }
    }
  }
}
