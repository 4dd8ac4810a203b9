/**
 * Grouping the steps of a saga into units of work, and the locks of a unit (src/saga/segments.ts).
 */
module Segments {
  import opened Common
  import opened CodeUnits
  import opened LockPort
  import opened Saga

  datatype LockDeclaration<!Ctx> = LockDeclaration(
    namespace: Text, keysOf: Ctx -> seq<Text>, mode: LockMode, timeoutMs: Option<nat>, optional: bool)

  datatype OutboundResult<Ctx> = OutboundResult(ctx: Ctx, failure: Option<SagaError>)

  datatype SagaStep<!Ctx> =
    | TransactionStep(run: Step<Ctx>, locks: seq<LockDeclaration<Ctx>>)
    | OutboundStep(call: (Ctx, nat) -> OutboundResult<Ctx>, compensate: Option<Step<Ctx>>, inheritLocks: bool)

  datatype Segment<!Ctx> =
    | TransactionSegment(steps: seq<Step<Ctx>>, locks: seq<LockDeclaration<Ctx>>)
    | OutboundSegment(step: SagaStep<Ctx>)

  /** The steps, cut into the groups that become segments. */
  ghost function Groups<Ctx>(steps: seq<SagaStep<Ctx>>): seq<seq<SagaStep<Ctx>>>
  {
    if |steps| == 0 then [] else AddStep(Groups(steps[..|steps| - 1]), steps[|steps| - 1])
  }

  ghost function AddStep<Ctx>(groups: seq<seq<SagaStep<Ctx>>>, step: SagaStep<Ctx>): seq<seq<SagaStep<Ctx>>>
  {
    var n := |groups|;
    if step.TransactionStep? && n > 0 && |groups[n - 1]| > 0 && groups[n - 1][0].TransactionStep?
    then groups[..n - 1] + [groups[n - 1] + [step]]
    else groups + [[step]]
  }

  ghost predicate GroupOk<Ctx>(group: seq<SagaStep<Ctx>>)
  {
    |group| > 0 && (|group| == 1 || forall i :: 0 <= i < |group| ==> group[i].TransactionStep?)
  }

  /** Outbound steps alone, transaction steps together, no two groups of transaction steps adjacent. */
  ghost predicate Maximal<Ctx>(groups: seq<seq<SagaStep<Ctx>>>)
  {
    && (forall i :: 0 <= i < |groups| ==> GroupOk(groups[i]))
    && (forall i, j :: 0 <= i && i + 1 == j < |groups| ==> groups[i][0].OutboundStep? || groups[j][0].OutboundStep?)
  }

  /** Every step is in exactly one group, in order, and the groups are as large as they can be. */
  lemma {:induction false} GroupsPartition<Ctx>(steps: seq<SagaStep<Ctx>>)
    ensures Flatten(Groups(steps)) == steps
    ensures Maximal(Groups(steps))
  {
    if |steps| > 0 {
      var init, last := steps[..|steps| - 1], steps[|steps| - 1];
      GroupsPartition(init);
      AddStepKeeps(Groups(init), last);
      assert Groups(steps) == AddStep(Groups(init), last);
      assert Flatten(Groups(steps)) == init + [last] == steps;
    }
  }

  lemma AddStepKeeps<Ctx>(groups: seq<seq<SagaStep<Ctx>>>, step: SagaStep<Ctx>)
    requires Maximal(groups)
    ensures Maximal(AddStep(groups, step))
    ensures Flatten(AddStep(groups, step)) == Flatten(groups) + [step]
  {
    var n := |groups|;
    if n > 0 && AddStep(groups, step) != groups + [[step]] {
      FlattenAppend(groups[..n - 1], groups[n - 1] + [step]);
      assert Flatten(groups) == Flatten(groups[..n - 1]) + groups[n - 1];
      assert GroupOk(groups[n - 1]);
    } else {
      FlattenAppend(groups, [step]);
    }
  }

  /** No other cut is as coarse: a maximal grouping is the grouping of its own steps. */
  lemma {:induction false} GroupsUnique<Ctx>(groups: seq<seq<SagaStep<Ctx>>>)
    requires Maximal(groups)
    ensures Groups(Flatten(groups)) == groups
    decreases |Flatten(groups)|
  {
    if |groups| > 0 {
      var init, last := groups[..|groups| - 1], groups[|groups| - 1];
      assert GroupOk(last);
      var step := last[|last| - 1];
      var fewer := if |last| == 1 then init else init + [last[..|last| - 1]];
      assert Maximal(fewer) by {
        assert forall i :: 0 <= i < |init| ==> GroupOk(init[i]);
        assert |last| > 1 ==> GroupOk(last[..|last| - 1]);
      }
      assert AddStep(fewer, step) == groups by {
        if |last| == 1 { assert last == [step]; } else { assert last == last[..|last| - 1] + [step]; }
      }
      AddStepKeeps(fewer, step);
      var steps := Flatten(groups);
      assert steps[..|steps| - 1] == Flatten(fewer);
      GroupsUnique(fewer);
    }
  }

  ghost function RunsOf<Ctx>(group: seq<SagaStep<Ctx>>): seq<Step<Ctx>>
    requires forall i :: 0 <= i < |group| ==> group[i].TransactionStep?
  {
    seq(|group|, i requires 0 <= i < |group| => group[i].run)
  }

  ghost function LocksOf<Ctx>(group: seq<SagaStep<Ctx>>): seq<LockDeclaration<Ctx>>
    requires forall i :: 0 <= i < |group| ==> group[i].TransactionStep?
  {
    if |group| == 0 then [] else LocksOf(group[..|group| - 1]) + group[|group| - 1].locks
  }

  lemma {:induction false} LocksOfAll<Ctx>(group: seq<SagaStep<Ctx>>, d: LockDeclaration<Ctx>)
    requires forall i :: 0 <= i < |group| ==> group[i].TransactionStep?
    ensures d in LocksOf(group) <==> exists i :: 0 <= i < |group| && d in group[i].locks
  {
    if |group| > 0 {
      var init := group[..|group| - 1];
      LocksOfAll(init, d);
      if i :| 0 <= i < |init| && d in init[i].locks { assert d in group[i].locks; }
      if i :| 0 <= i < |group| && d in group[i].locks && i < |init| { assert d in init[i].locks; }
    }
  }

  /** A segment runs its steps in order, and declares exactly the locks that they declare. */
  lemma SegmentExactly<Ctx>(group: seq<SagaStep<Ctx>>, d: LockDeclaration<Ctx>)
    requires GroupOk(group) && group[0].TransactionStep?
    ensures var segment := SegmentOf(group);
      && segment.TransactionSegment? && |segment.steps| == |group|
      && (forall i :: 0 <= i < |group| ==> segment.steps[i] == group[i].run)
      && (d in segment.locks <==> exists i :: 0 <= i < |group| && d in group[i].locks)
  {
    LocksOfAll(group, d);
  }

  ghost function SegmentOf<Ctx>(group: seq<SagaStep<Ctx>>): Segment<Ctx>
    requires GroupOk(group)
  {
    if group[0].OutboundStep? then OutboundSegment(group[0])
    else TransactionSegment(RunsOf(group), LocksOf(group))
  }

  ghost function Segmented<Ctx>(groups: seq<seq<SagaStep<Ctx>>>): seq<Segment<Ctx>>
    requires forall i :: 0 <= i < |groups| ==> GroupOk(groups[i])
  {
    seq(|groups|, i requires 0 <= i < |groups| => SegmentOf(groups[i]))
  }

  lemma SegmentGrows<Ctx>(group: seq<SagaStep<Ctx>>, step: SagaStep<Ctx>)
    requires GroupOk(group) && group[0].TransactionStep? && step.TransactionStep?
    ensures GroupOk(group + [step])
    ensures SegmentOf(group + [step]) ==
      TransactionSegment(SegmentOf(group).steps + [step.run], SegmentOf(group).locks + step.locks)
  {
    assert (group + [step])[..|group|] == group;
    assert RunsOf(group + [step]) == RunsOf(group) + [step.run];
  }

  /** What adding a step does to the segments: append an outbound, extend or open a transaction. */
  lemma SegmentedAdd<Ctx>(groups: seq<seq<SagaStep<Ctx>>>, step: SagaStep<Ctx>)
    requires Maximal(groups)
    ensures Maximal(AddStep(groups, step))
    ensures var before, after, n := Segmented(groups), Segmented(AddStep(groups, step)), |groups|;
      if step.OutboundStep? then after == before + [OutboundSegment(step)]
      else if n > 0 && before[n - 1].TransactionSegment? then
        after ==
          before[..n - 1] + [TransactionSegment(before[n - 1].steps + [step.run], before[n - 1].locks + step.locks)]
      else after == before + [TransactionSegment([step.run], step.locks)]
  {
    AddStepKeeps(groups, step);
    var n := |groups|;
    if step.TransactionStep? && n > 0 && groups[n - 1][0].TransactionStep? {
      SegmentGrows(groups[n - 1], step);
      SegmentedAppend(groups[..n - 1], groups[n - 1] + [step]);
    } else {
      if step.TransactionStep? { NewSegment(step); }
      SegmentedAppend(groups, [step]);
    }
  }

  lemma SegmentedAppend<Ctx>(groups: seq<seq<SagaStep<Ctx>>>, group: seq<SagaStep<Ctx>>)
    requires GroupOk(group) && forall i :: 0 <= i < |groups| ==> GroupOk(groups[i])
    ensures Segmented(groups + [group]) == Segmented(groups) + [SegmentOf(group)]
  {
  }

  lemma NewSegment<Ctx>(step: SagaStep<Ctx>)
    requires step.TransactionStep?
    ensures SegmentOf([step]) == TransactionSegment([step.run], step.locks)
  {
    assert [step][..0] == [];
    assert LocksOf([step][..0]) == [];
    assert RunsOf([step]) == [step.run];
  }

  method SegmentsOf<Ctx>(steps: seq<SagaStep<Ctx>>) returns (segments: seq<Segment<Ctx>>)
    ensures Maximal(Groups(steps)) && segments == Segmented(Groups(steps))
  {
    segments := [];
    for i := 0 to |steps|
      invariant Maximal(Groups(steps[..i])) && segments == Segmented(Groups(steps[..i]))
    {
      var step, n := steps[i], |segments|;
      assert steps[..i + 1][..i] == steps[..i];
      SegmentedAdd(Groups(steps[..i]), step);
      if step.OutboundStep? {
        segments := segments + [OutboundSegment(step)];
      } else if n > 0 && segments[n - 1].TransactionSegment? {
        var last := segments[n - 1];
        segments := segments[..n - 1] + [TransactionSegment(last.steps + [step.run], last.locks + step.locks)];
      } else {
        segments := segments + [TransactionSegment([step.run], step.locks)];
      }
    }
    assert steps[..|steps|] == steps;
  }

  /** The keys a declaration resolves to; an empty list is misuse unless optional, an empty key always. */
  function KeysOf<Ctx>(d: LockDeclaration<Ctx>, ctx: Ctx): Result<seq<Text>, SagaError>
  {
    var keys := d.keysOf(ctx);
    if |keys| == 0 && !d.optional then Err(Usage)
    else if [] in keys then Err(Usage)
    else Ok(keys)
  }

  function RequestsFor<Ctx>(d: LockDeclaration<Ctx>, keys: seq<Text>): seq<LockRequest>
  {
    seq(|keys|, i requires 0 <= i < |keys| => LockRequest(LockId(d.namespace, keys[i]), d.mode, d.timeoutMs))
  }

  /** The requests of all declarations, before they are made canonical. */
  function Requested<Ctx>(declarations: seq<LockDeclaration<Ctx>>, ctx: Ctx): Result<seq<LockRequest>, SagaError>
  {
    if |declarations| == 0 then Ok([])
    else
      var before := Requested(declarations[..|declarations| - 1], ctx);
      var last := declarations[|declarations| - 1];
      if before.Err? then before
      else
        match KeysOf(last, ctx)
        case Err(e) => Err(e)
        case Ok(keys) => Ok(before.value + RequestsFor(last, keys))
  }

  /** `locks` is what `resolveLocks` answers. */
  ghost predicate Resolves<Ctx>(
      declarations: seq<LockDeclaration<Ctx>>, ctx: Ctx, max: nat, locks: Result<seq<LockRequest>, SagaError>)
  {
    match Requested(declarations, ctx)
    case Err(e) => locks == Err(e)
    case Ok(requests) =>
      exists canonical ::
        Canonical(requests, canonical) && locks == if |canonical| > max then Err(Usage) else Ok(canonical)
  }

  lemma {:induction false} RequestedFails<Ctx>(declarations: seq<LockDeclaration<Ctx>>, ctx: Ctx, i: nat)
    requires i <= |declarations| && Requested(declarations[..i], ctx).Err?
    ensures Requested(declarations, ctx) == Requested(declarations[..i], ctx)
  {
    if i < |declarations| {
      var init := declarations[..|declarations| - 1];
      assert init[..i] == declarations[..i];
      RequestedFails(init, ctx, i);
    } else {
      assert declarations[..i] == declarations;
    }
  }

  // ---- What is locked, in terms of the declarations.

  /** No declaration is misused: one that is not optional has keys, and no key is empty. */
  ghost predicate AllResolvable<Ctx>(declared: seq<LockDeclaration<Ctx>>, ctx: Ctx)
  {
    forall n :: 0 <= n < |declared| ==>
      (declared[n].optional || declared[n].keysOf(ctx) != []) && [] !in declared[n].keysOf(ctx)
  }

  /** Declaration `n` asks for `id` by one of its keys. */
  predicate AsksFor<Ctx>(declared: seq<LockDeclaration<Ctx>>, ctx: Ctx, n: nat, id: LockId)
  {
    n < |declared| && id.namespace == declared[n].namespace && id.key in declared[n].keysOf(ctx)
  }

  /** Declaration `n` asks for just that. */
  predicate Declares<Ctx>(declared: seq<LockDeclaration<Ctx>>, ctx: Ctx, n: nat, r: LockRequest)
  {
    AsksFor(declared, ctx, n, r.id) && r.mode == declared[n].mode && r.timeoutMs == declared[n].timeoutMs
  }

  lemma {:induction false} RequestedExactly<Ctx>(declared: seq<LockDeclaration<Ctx>>, ctx: Ctx)
    ensures Requested(declared, ctx).Ok? <==> AllResolvable(declared, ctx)
    ensures Requested(declared, ctx).Err? ==> Requested(declared, ctx).error == Usage
    ensures Requested(declared, ctx).Ok? ==>
      forall r :: r in Requested(declared, ctx).value <==> exists n :: Declares(declared, ctx, n, r)
    decreases |declared|
  {
    if |declared| > 0 {
      var init, last := declared[..|declared| - 1], declared[|declared| - 1];
      RequestedExactly(init, ctx);
      assert AllResolvable(declared, ctx) ==> AllResolvable(init, ctx);
      if Requested(declared, ctx).Ok? {
        forall r ensures r in Requested(declared, ctx).value <==> exists n :: Declares(declared, ctx, n, r) {
          RequestedByLast(declared, ctx, r);
        }
      }
    }
  }

  lemma RequestedByLast<Ctx>(declared: seq<LockDeclaration<Ctx>>, ctx: Ctx, r: LockRequest)
    requires |declared| > 0 && Requested(declared, ctx).Ok?
    requires var init := declared[..|declared| - 1];
      Requested(init, ctx).Ok? && (r in Requested(init, ctx).value <==> exists n :: Declares(init, ctx, n, r))
    ensures r in Requested(declared, ctx).value <==> exists n :: Declares(declared, ctx, n, r)
  {
    var at := |declared| - 1;
    var init, last, keys := declared[..at], declared[at], declared[at].keysOf(ctx);
    if r in RequestsFor(last, keys) {
      var i :| 0 <= i < |keys| && RequestsFor(last, keys)[i] == r;
      assert Declares(declared, ctx, at, r);
    }
    if n: nat :| Declares(init, ctx, n, r) { assert Declares(declared, ctx, n, r); }
    if n: nat :| Declares(declared, ctx, n, r) {
      if n < at {
        assert Declares(init, ctx, n, r);
      } else {
        var i :| 0 <= i < |keys| && keys[i] == r.id.key;
        assert RequestsFor(last, keys)[i] == r;
      }
    }
  }

  /** The lock does for its identity what all declarations that ask for it want together: no more, no less. */
  ghost predicate LockMeans<Ctx>(declared: seq<LockDeclaration<Ctx>>, ctx: Ctx, l: LockRequest)
  {
    && (exists n :: AsksFor(declared, ctx, n, l.id))
    && (l.mode == Exclusive <==> exists n: nat :: AsksFor(declared, ctx, n, l.id) && declared[n].mode == Exclusive)
    && (forall n: nat :: AsksFor(declared, ctx, n, l.id) && declared[n].timeoutMs.Some? ==>
          l.timeoutMs.Some? && l.timeoutMs.value <= declared[n].timeoutMs.value)
    && (l.timeoutMs.Some? ==>
          exists n: nat :: AsksFor(declared, ctx, n, l.id) && declared[n].timeoutMs == l.timeoutMs)
  }

  ghost predicate HasLock(locks: seq<LockRequest>, id: LockId) { exists l :: l in locks && l.id == id }

  /** Every key of every declaration is locked once, and every lock is what its declarations want. */
  ghost predicate LocksMean<Ctx>(declared: seq<LockDeclaration<Ctx>>, ctx: Ctx, locks: seq<LockRequest>)
  {
    && (forall n, k :: 0 <= n < |declared| && k in declared[n].keysOf(ctx) ==>
          HasLock(locks, LockId(declared[n].namespace, k)))
    && (forall l :: l in locks ==> LockMeans(declared, ctx, l))
    && (forall i, j :: 0 <= i < j < |locks| ==> locks[i].id != locks[j].id)
  }

  /**
   * What `resolveLocks` answers, by the declarations alone: misuse if some declaration is misused, else one
   * lock for each key of each declaration, in the mode and with the timeout that were declared for it,
   * unless there are more of them than a unit may take.
   */
  lemma ResolvedExactly<Ctx>(
      declared: seq<LockDeclaration<Ctx>>, ctx: Ctx, max: nat, locks: Result<seq<LockRequest>, SagaError>)
    requires Resolves(declared, ctx, max, locks)
    ensures locks.Err? ==> locks.error == Usage
    ensures locks.Ok? ==> AllResolvable(declared, ctx) && |locks.value| <= max && LocksMean(declared, ctx, locks.value)
    ensures locks.Err? && AllResolvable(declared, ctx) ==>
      exists all :: |all| > max && LocksMean(declared, ctx, all)
  {
    RequestedExactly(declared, ctx);
    if Requested(declared, ctx).Ok? {
      var requests := Requested(declared, ctx).value;
      var canonical :|
        Canonical(requests, canonical) && locks == if |canonical| > max then Err(Usage) else Ok(canonical);
      CanonicalLocksMean(declared, ctx, requests, canonical);
    }
  }

  lemma CanonicalLocksMean<Ctx>(
      declared: seq<LockDeclaration<Ctx>>, ctx: Ctx, requests: seq<LockRequest>, locks: seq<LockRequest>)
    requires Requested(declared, ctx) == Ok(requests) && Canonical(requests, locks)
    ensures LocksMean(declared, ctx, locks)
  {
    RequestedExactly(declared, ctx);
    CanonicalMeaning(requests, locks);
    AscendingIsDistinct(locks);
    forall n, k | 0 <= n < |declared| && k in declared[n].keysOf(ctx)
      ensures HasLock(locks, LockId(declared[n].namespace, k))
    {
      var d := declared[n];
      assert Declares(declared, ctx, n, LockRequest(LockId(d.namespace, k), d.mode, d.timeoutMs));
    }
    forall l | l in locks ensures LockMeans(declared, ctx, l) { JoinedLockMeans(declared, ctx, requests, l); }
  }

  lemma JoinedLockMeans<Ctx>(
      declared: seq<LockDeclaration<Ctx>>, ctx: Ctx, requests: seq<LockRequest>, l: LockRequest)
    requires forall r :: r in requests <==> exists n :: Declares(declared, ctx, n, r)
    requires (exists r :: r in requests && r.id == l.id) && Joins(l, requests, l.id)
    ensures LockMeans(declared, ctx, l)
  {
    forall n: nat | AsksFor(declared, ctx, n, l.id)
      ensures LockRequest(l.id, declared[n].mode, declared[n].timeoutMs) in requests
    {
      assert Declares(declared, ctx, n, LockRequest(l.id, declared[n].mode, declared[n].timeoutMs));
    }
  }

  method ResolveLocks<Ctx>(declarations: seq<LockDeclaration<Ctx>>, ctx: Ctx, max: nat)
    returns (locks: Result<seq<LockRequest>, SagaError>)
    ensures Resolves(declarations, ctx, max, locks)
    ensures locks.Ok? ==> LocksMean(declarations, ctx, locks.value)
  {
    var requests: seq<LockRequest> := [];
    for i := 0 to |declarations|
      invariant Requested(declarations[..i], ctx) == Ok(requests)
    {
      assert declarations[..i + 1][..i] == declarations[..i];
      var keys := KeysOf(declarations[i], ctx);
      if keys.Err? {
        RequestedFails(declarations, ctx, i + 1);
        return Err(keys.error);
      }
      requests := requests + RequestsFor(declarations[i], keys.value);
    }
    assert declarations[..|declarations|] == declarations;
    var canonical := CanonicalLocks(requests);
    locks := if |canonical| > max then Err(Usage) else Ok(canonical);
    CanonicalLocksMean(declarations, ctx, requests, canonical);
  }
}
