/**
 * What one unit of work does, as a history (src/saga/unit-of-work.ts): attempts, each a run of the
 * transaction port that may call the body several times. Every call is the body run alone from where
 * the calls before it left things; the lemmas say what the whole amounts to.
 */
module UnitHistory {
  import opened Common
  import opened RetryPolicy
  import opened Saga

  /** What a unit may change for good. */
  datatype Snapshot<Ctx, R> =
    Snapshot(ctx: Ctx, claimed: bool, replay: Option<R>, entry: LedgerEntry<R>, commits: seq<Commit<R>>)

  /** A call of a body: where it started, what it did, and its number. */
  datatype CallRun<Ctx, R> = CallRun(from: Call<Ctx, R>, call: Call<Ctx, R>, tick: nat)

  /** A `transactions.run`: refused at once, or calls of which all but the last were rolled back. */
  datatype Attempt<Ctx, R> =
    | Refused(error: SagaError)
    | Called(rolledBack: seq<CallRun<Ctx, R>>, last: CallRun<Ctx, R>, rejects: Option<SagaError>)

  // ---- One attempt.

  predicate IsFate<Ctx>(env: Environment<Ctx>, tick: nat, fate: LockFate) { env.lockFate(tick) == fate }

  /** The call is the body run alone, whatever the lock port has in store for it. */
  ghost predicate RunsAlone<Ctx, R>(env: Environment<Ctx>, plan: UnitPlan, body: Body<Ctx, R>, run: CallRun<Ctx, R>)
  {
    forall fate :: IsFate(env, run.tick, fate) ==>
      run.call == CallBody(env.mode, |plan.locks|, fate, body, run.from, run.tick)
  }

  lemma CallAlone<Ctx, R>(env: Environment<Ctx>, plan: UnitPlan, body: Body<Ctx, R>, run: CallRun<Ctx, R>)
    ensures RunsAlone(env, plan, body, run) <==>
      run.call == CallBody(env.mode, |plan.locks|, env.lockFate(run.tick), body, run.from, run.tick)
  {
    assert IsFate(env, run.tick, env.lockFate(run.tick));
  }

  /** A restore, if there is a checkpoint. */
  function Rewound<Ctx>(env: Environment<Ctx>, saved: Option<Ctx>, ctx: Ctx): Ctx
  {
    if saved.Some? then env.restored(saved.value, ctx) else ctx
  }

  /** Where the next call of an attempt starts, after the rolled-back calls of it. */
  function StartOf<Ctx, R>(
      env: Environment<Ctx>, saved: Option<Ctx>, before: Snapshot<Ctx, R>, calls: seq<CallRun<Ctx, R>>): Call<Ctx, R>
  {
    if |calls| == 0 then Opened(before.ctx, before.claimed, before.replay, before.entry)
    else
      var call := calls[|calls| - 1].call;
      Opened(Rewound(env, saved, call.ctx), before.claimed, before.replay, Undone(env.mode, before.claimed, call))
  }

  /** Calls of one attempt, each from where the one before was undone. */
  ghost predicate Chain<Ctx, R>(
      env: Environment<Ctx>, plan: UnitPlan, body: Body<Ctx, R>, before: Snapshot<Ctx, R>, saved: Option<Ctx>,
      calls: seq<CallRun<Ctx, R>>)
  {
    |calls| > 0 ==>
      var init, last := calls[..|calls| - 1], calls[|calls| - 1];
      && Chain(env, plan, body, before, saved, init)
      && last.from == StartOf(env, saved, before, init) && RunsAlone(env, plan, body, last)
  }

  ghost predicate AttemptRuns<Ctx, R>(
      env: Environment<Ctx>, plan: UnitPlan, body: Body<Ctx, R>, before: Snapshot<Ctx, R>, saved: Option<Ctx>,
      a: Attempt<Ctx, R>)
  {
    a.Called? ==>
      && Chain(env, plan, body, before, saved, a.rolledBack)
      && a.last.from == StartOf(env, saved, before, a.rolledBack) && RunsAlone(env, plan, body, a.last)
  }

  /** The attempt is what the port does in this run of it. */
  predicate Matches<Ctx, R>(port: PortRun, a: Attempt<Ctx, R>)
  {
    match a
    case Refused(error) => port.refused == Some(error)
    case Called(rolledBack, _, rejects) => port.refused == None && |rolledBack| == port.again && rejects == port.rejects
  }

  function EndOf<Ctx, R>(a: Attempt<Ctx, R>): Result<Option<R>, SagaError>
  {
    match a
    case Refused(error) => Err(error)
    case Called(_, last, rejects) =>
      if rejects.Some? then Err(rejects.value)
      else if last.call.flow.Threw? then Err(last.call.flow.error)
      else Ok(last.call.value)
  }

  /** What a committed call makes of the run and the database. */
  function Committing<Ctx, R>(
      mode: LedgerMode, name: Label, before: Snapshot<Ctx, R>, run: CallRun<Ctx, R>): Snapshot<Ctx, R>
  {
    var call := run.call;
    Snapshot(
      call.ctx, call.claimed, call.replay,
      if mode == InDatabase then ApplyOps(call.entry, call.ops) else call.entry,
      before.commits + [Commit(name, run.tick, call.writes, call.ops, call.callbacks)])
  }

  /** What a rolled-back call leaves: ctx as it was then, and the entry its undoing leaves. */
  function RollingBack<Ctx, R>(mode: LedgerMode, before: Snapshot<Ctx, R>, call: Call<Ctx, R>): Snapshot<Ctx, R>
  {
    before.(ctx := call.ctx, entry := Undone(mode, before.claimed, call))
  }

  function AfterAttempt<Ctx, R>(
      mode: LedgerMode, name: Label, before: Snapshot<Ctx, R>, a: Attempt<Ctx, R>): Snapshot<Ctx, R>
  {
    if a.Refused? then before
    else if EndOf(a).Ok? then Committing(mode, name, before, a.last)
    else RollingBack(mode, before, a.last.call)
  }

  // ---- A whole unit.

  predicate Restorable<Ctx>(env: Environment<Ctx>, plan: UnitPlan, ctx: Ctx)
  {
    plan.retry.Some? && env.cloneable(ctx)
  }

  function SavedCtx<Ctx>(env: Environment<Ctx>, plan: UnitPlan, ctx: Ctx): Option<Ctx>
  {
    if Restorable(env, plan, ctx) then Some(ctx) else None
  }

  /** The first unit of a run does not start when ctx cannot be checkpointed; a later one runs once. */
  predicate Refuses<Ctx>(env: Environment<Ctx>, plan: UnitPlan, ctx: Ctx)
  {
    plan.retry.Some? && !env.cloneable(ctx) && plan.strictCheckpoint
  }

  /** Attempts a unit has: those of its policy when ctx can be restored between them, else one. */
  function MaxRuns<Ctx>(env: Environment<Ctx>, plan: UnitPlan, ctx: Ctx): int
  {
    if Restorable(env, plan, ctx) then plan.retry.value.attempts else 1
  }

  /** The policy retries an error of this kind. */
  predicate Retries<Ctx>(env: Environment<Ctx>, plan: UnitPlan, error: SagaError)
    requires plan.retry.Some?
  {
    var kind := Classify(env.classifier, error);
    kind.Some? && kind.value in plan.retry.value.on
  }

  /** The attempt failed with an error the policy retries, and ctx can be restored. */
  predicate GoesOn<Ctx, R>(env: Environment<Ctx>, plan: UnitPlan, saved: Option<Ctx>, a: Attempt<Ctx, R>)
  {
    saved.Some? && plan.retry.Some? && EndOf(a).Err? && Retries(env, plan, EndOf(a).error)
  }

  /** The state in which the next attempt begins, ctx restored after each. */
  function StateAfter<Ctx, R>(
      env: Environment<Ctx>, plan: UnitPlan, before: Snapshot<Ctx, R>, saved: Option<Ctx>,
      attempts: seq<Attempt<Ctx, R>>)
    : Snapshot<Ctx, R>
  {
    if |attempts| == 0 then before
    else
      var init, last := attempts[..|attempts| - 1], attempts[|attempts| - 1];
      var left := AfterAttempt(env.mode, plan.name, StateAfter(env, plan, before, saved, init), last);
      left.(ctx := Rewound(env, saved, left.ctx))
  }

  /** Attempts one after the other, each from where the ones before left things, and each but the last retried. */
  ghost predicate UnitRuns<Ctx, R>(
      env: Environment<Ctx>, plan: UnitPlan, body: Body<Ctx, R>, before: Snapshot<Ctx, R>, saved: Option<Ctx>,
      first: nat, attempts: seq<Attempt<Ctx, R>>)
  {
    |attempts| > 0 ==>
      var init, last := attempts[..|attempts| - 1], attempts[|attempts| - 1];
      && UnitRuns(env, plan, body, before, saved, first, init)
      && (|init| > 0 ==> GoesOn(env, plan, saved, init[|init| - 1]))
      && AttemptRuns(env, plan, body, StateAfter(env, plan, before, saved, init), saved, last)
      && Matches(env.port(first + |init|), last)
  }

  /** The error of the last attempt is classified. */
  function Wrapped<Ctx, R>(env: Environment<Ctx>, end: Result<Option<R>, SagaError>): Result<Option<R>, SagaError>
  {
    if end.Ok? then end else Err(FinalError(end.error, Classify(env.classifier, end.error)))
  }

  /** All that a unit does: it refuses, or it makes attempts until one is not retried. */
  ghost predicate UnitDone<Ctx, R>(
      env: Environment<Ctx>, plan: UnitPlan, body: Body<Ctx, R>, before: Snapshot<Ctx, R>,
      first: nat, attempts: seq<Attempt<Ctx, R>>, after: Snapshot<Ctx, R>, outcome: Result<Option<R>, SagaError>)
  {
    var n, saved := |attempts|, SavedCtx(env, plan, before.ctx);
    if Refuses(env, plan, before.ctx) then n == 0 && after == before && outcome == Err(Usage)
    else
      && 0 < n <= MaxRuns(env, plan, before.ctx) && UnitRuns(env, plan, body, before, saved, first, attempts)
      && (GoesOn(env, plan, saved, attempts[n - 1]) ==> n == MaxRuns(env, plan, before.ctx))
      && after ==
         AfterAttempt(env.mode, plan.name, StateAfter(env, plan, before, saved, attempts[..n - 1]), attempts[n - 1])
      && outcome == Wrapped(env, EndOf(attempts[n - 1]))
  }

  // ---- What it amounts to.

  /** The unit committed nothing and left the claim as it found it. */
  ghost predicate LeavesNothing<Ctx, R>(mode: LedgerMode, before: Snapshot<Ctx, R>, after: Snapshot<Ctx, R>)
  {
    && after.claimed == before.claimed && after.replay == before.replay && after.commits == before.commits
    && (mode != InProcess ==> after.entry == before.entry)
  }

  /** A restore brings back what was saved, whatever happened to ctx. */
  ghost predicate Faithful<Ctx(!new)>(env: Environment<Ctx>, ctx: Ctx)
  {
    forall now :: env.restored(ctx, now) == ctx
  }

  ghost predicate OneCall<Ctx>(env: Environment<Ctx>) { forall k: nat :: env.port(k).again == 0 }

  /** Every call of the unit starts from the ctx the unit found. */
  ghost predicate Direct<Ctx(!new)>(env: Environment<Ctx>, plan: UnitPlan, ctx: Ctx)
  {
    if Restorable(env, plan, ctx) then Faithful(env, ctx) else OneCall(env)
  }

  /**
   * The unit committed exactly one call and nothing else: its ctx, its claim, its writes, its ledger
   * rows. The call started from the run's claim state, from the entry the unit found when a rollback
   * can reach it, and from the ctx the unit found when it is restored faithfully or calls are not repeated.
   */
  ghost predicate UnitCommits<Ctx(!new), R>(
      env: Environment<Ctx>, plan: UnitPlan, body: Body<Ctx, R>, run: CallRun<Ctx, R>,
      before: Snapshot<Ctx, R>, after: Snapshot<Ctx, R>, value: Option<R>)
  {
    && RunsAlone(env, plan, body, run)
    && run.from == Opened(run.from.ctx, before.claimed, before.replay, run.from.entry)
    && (env.mode != InProcess ==> run.from.entry == before.entry)
    && (Direct(env, plan, before.ctx) ==> run.from.ctx == before.ctx)
    && !run.call.flow.Threw? && value == run.call.value
    && after == Committing(env.mode, plan.name, before, run)
  }

  lemma {:induction false} StepsKeepClaim<Ctx, R>(call: Call<Ctx, R>, steps: seq<Step<Ctx>>, tick: nat)
    ensures var r := RunSteps(call, steps, tick);
      && r.claimed == call.claimed && r.replay == call.replay && r.entry == call.entry && r.ops == call.ops
      && r.locks == call.locks && r.value == call.value
      && (r.flow.Returned? || r.flow == Going ==> r.flow == call.flow)
  {
    if |steps| > 0 { StepsKeepClaim(call, steps[..|steps| - 1], tick); }
  }

  /** A thrown error, or a replay, ends the steps. */
  lemma {:induction false} StepsStop<Ctx, R>(call: Call<Ctx, R>, steps: seq<Step<Ctx>>, tick: nat, i: nat)
    requires i <= |steps| && RunSteps(call, steps[..i], tick).flow != Going
    ensures RunSteps(call, steps, tick) == RunSteps(call, steps[..i], tick)
    decreases |steps|
  {
    if i < |steps| {
      assert steps[..|steps| - 1][..i] == steps[..i];
      StepsStop(call, steps[..|steps| - 1], tick, i);
    } else {
      assert steps[..i] == steps;
    }
  }

  lemma NoSteps<Ctx, R>(call: Call<Ctx, R>, steps: seq<Step<Ctx>>, tick: nat)
    requires call.flow != Going
    ensures RunSteps(call, steps, tick) == call
  {
    StepsStop(call, steps, tick, 0);
  }

  /** A database ledger is not touched before the commit. */
  lemma CallKeepsEntry<Ctx, R>(
      mode: LedgerMode, wanted: nat, fate: LockFate, body: Body<Ctx, R>, from: Call<Ctx, R>, tick: nat)
    requires mode != InProcess
    ensures CallBody(mode, wanted, fate, body, from, tick).entry == from.entry
  {
    if body.Transaction? {
      StepsKeepClaim(AcquireLocks(ClaimOnce(mode, from), wanted, fate), body.steps, tick);
    }
  }

  lemma RunKeepsEntry<Ctx, R>(env: Environment<Ctx>, plan: UnitPlan, body: Body<Ctx, R>, run: CallRun<Ctx, R>)
    requires env.mode != InProcess && RunsAlone(env, plan, body, run)
    ensures run.call.entry == run.from.entry
  {
    CallAlone(env, plan, body, run);
    CallKeepsEntry(env.mode, |plan.locks|, env.lockFate(run.tick), body, run.from, run.tick);
  }

  lemma {:induction false} ChainKeepsStart<Ctx(!new), R>(
      env: Environment<Ctx>, plan: UnitPlan, body: Body<Ctx, R>, before: Snapshot<Ctx, R>, saved: Option<Ctx>,
      calls: seq<CallRun<Ctx, R>>)
    requires Chain(env, plan, body, before, saved, calls)
    ensures var start := StartOf(env, saved, before, calls);
      && start == Opened(start.ctx, before.claimed, before.replay, start.entry)
      && (env.mode != InProcess ==> start.entry == before.entry)
      && ((saved.Some? && saved.value == before.ctx && Faithful(env, before.ctx)) || calls == [] ==>
            start.ctx == before.ctx)
  {
    if |calls| > 0 {
      var init, last := calls[..|calls| - 1], calls[|calls| - 1];
      ChainKeepsStart(env, plan, body, before, saved, init);
      if env.mode != InProcess { RunKeepsEntry(env, plan, body, last); }
    }
  }

  lemma ChainGrows<Ctx, R>(
      env: Environment<Ctx>, plan: UnitPlan, body: Body<Ctx, R>, before: Snapshot<Ctx, R>, saved: Option<Ctx>,
      calls: seq<CallRun<Ctx, R>>, last: CallRun<Ctx, R>)
    requires Chain(env, plan, body, before, saved, calls)
    requires last.from == StartOf(env, saved, before, calls) && RunsAlone(env, plan, body, last)
    ensures Chain(env, plan, body, before, saved, calls + [last])
  {
    assert (calls + [last])[..|calls|] == calls && (calls + [last])[|calls|] == last;
  }

  lemma StartAfter<Ctx, R>(
      env: Environment<Ctx>, saved: Option<Ctx>, before: Snapshot<Ctx, R>, calls: seq<CallRun<Ctx, R>>,
      last: CallRun<Ctx, R>)
    ensures StartOf(env, saved, before, calls + [last]) ==
      Opened(
        Rewound(env, saved, last.call.ctx), before.claimed, before.replay, Undone(env.mode, before.claimed, last.call))
  {
  }

  /** A failed attempt leaves nothing. */
  lemma FailedAttempt<Ctx(!new), R>(
      env: Environment<Ctx>, plan: UnitPlan, body: Body<Ctx, R>, before: Snapshot<Ctx, R>, saved: Option<Ctx>,
      a: Attempt<Ctx, R>)
    requires AttemptRuns(env, plan, body, before, saved, a) && EndOf(a).Err?
    ensures LeavesNothing(env.mode, before, AfterAttempt(env.mode, plan.name, before, a))
  {
    if a.Called? && env.mode != InProcess {
      ChainKeepsStart(env, plan, body, before, saved, a.rolledBack);
      RunKeepsEntry(env, plan, body, a.last);
    }
  }

  lemma {:induction false} RetriedAttempts<Ctx(!new), R>(
      env: Environment<Ctx>, plan: UnitPlan, body: Body<Ctx, R>, before: Snapshot<Ctx, R>, saved: Option<Ctx>,
      first: nat, attempts: seq<Attempt<Ctx, R>>)
    requires UnitRuns(env, plan, body, before, saved, first, attempts)
    requires |attempts| > 0 ==> EndOf(attempts[|attempts| - 1]).Err?
    ensures var state := StateAfter(env, plan, before, saved, attempts);
      && LeavesNothing(env.mode, before, state)
      && ((saved == Some(before.ctx) && Faithful(env, before.ctx)) || attempts == [] ==> state.ctx == before.ctx)
  {
    if |attempts| > 0 {
      var init, last := attempts[..|attempts| - 1], attempts[|attempts| - 1];
      RetriedAttempts(env, plan, body, before, saved, first, init);
      FailedAttempt(env, plan, body, StateAfter(env, plan, before, saved, init), saved, last);
    }
  }

  lemma UnitState<Ctx(!new), R>(
      env: Environment<Ctx>, plan: UnitPlan, body: Body<Ctx, R>, before: Snapshot<Ctx, R>,
      first: nat, attempts: seq<Attempt<Ctx, R>>, after: Snapshot<Ctx, R>, outcome: Result<Option<R>, SagaError>)
    returns (state: Snapshot<Ctx, R>)
    requires UnitDone(env, plan, body, before, first, attempts, after, outcome) && |attempts| > 0
    ensures var saved, last := SavedCtx(env, plan, before.ctx), attempts[|attempts| - 1];
      && state == StateAfter(env, plan, before, saved, attempts[..|attempts| - 1])
      && LeavesNothing(env.mode, before, state) && AttemptRuns(env, plan, body, state, saved, last)
      && after == AfterAttempt(env.mode, plan.name, state, last)
      && (|attempts| == 1 || (saved.Some? && Faithful(env, before.ctx)) ==> state.ctx == before.ctx)
      && Matches(env.port(first + |attempts| - 1), last)
      && outcome == Wrapped(env, EndOf(last))
  {
    var init := attempts[..|attempts| - 1];
    var saved := SavedCtx(env, plan, before.ctx);
    RetriedAttempts(env, plan, body, before, saved, first, init);
    state := StateAfter(env, plan, before, saved, init);
  }

  /** A unit that fails leaves nothing. */
  lemma UnitFails<Ctx(!new), R>(
      env: Environment<Ctx>, plan: UnitPlan, body: Body<Ctx, R>, before: Snapshot<Ctx, R>,
      first: nat, attempts: seq<Attempt<Ctx, R>>, after: Snapshot<Ctx, R>, outcome: Result<Option<R>, SagaError>)
    requires UnitDone(env, plan, body, before, first, attempts, after, outcome) && outcome.Err?
    ensures LeavesNothing(env.mode, before, after)
  {
    if |attempts| > 0 {
      var state := UnitState(env, plan, body, before, first, attempts, after, outcome);
      FailedAttempt(env, plan, body, state, SavedCtx(env, plan, before.ctx), attempts[|attempts| - 1]);
    }
  }

  /**
   * Retry is transparent: however many attempts failed and calls were repeated, a unit that succeeds
   * ends as its last call alone.
   */
  lemma RetryIsTransparent<Ctx(!new), R>(
      env: Environment<Ctx>, plan: UnitPlan, body: Body<Ctx, R>, before: Snapshot<Ctx, R>,
      first: nat, attempts: seq<Attempt<Ctx, R>>, after: Snapshot<Ctx, R>, outcome: Result<Option<R>, SagaError>)
    requires UnitDone(env, plan, body, before, first, attempts, after, outcome) && outcome.Ok?
    ensures |attempts| > 0 && attempts[|attempts| - 1].Called?
    ensures UnitCommits(env, plan, body, attempts[|attempts| - 1].last, before, after, outcome.value)
  {
    var state := UnitState(env, plan, body, before, first, attempts, after, outcome);
    var last, saved := attempts[|attempts| - 1], SavedCtx(env, plan, before.ctx);
    ChainKeepsStart(env, plan, body, state, saved, last.rolledBack);
    if Direct(env, plan, before.ctx) && saved.None? { assert |attempts| == 1 && last.rolledBack == []; }
  }

  // ---- The errors and the time it takes.

  /** Wrapping a classified error keeps its kind. */
  lemma FinalErrorKeepsKind(classifier: int -> Option<ErrorKind>, error: SagaError)
    ensures var kind := Classify(classifier, error); Classify(classifier, FinalError(error, kind)) == kind
  {
  }

  /** Since `start` the unit slept before `n` retries, each time as long as its policy says. */
  predicate SleptFor(start: int, slept: int, n: nat, plan: UnitPlan)
  {
    if plan.retry.None? then slept == start
    else start + Shortest(plan.retry.value, n) <= slept <= start + Longest(plan.retry.value, n)
  }

  // ---- Which failures are retried.

  lemma {:induction false} EachGoesOn<Ctx, R>(
      env: Environment<Ctx>, plan: UnitPlan, body: Body<Ctx, R>, before: Snapshot<Ctx, R>, saved: Option<Ctx>,
      first: nat, attempts: seq<Attempt<Ctx, R>>, k: nat)
    requires UnitRuns(env, plan, body, before, saved, first, attempts) && k + 1 < |attempts|
    ensures GoesOn(env, plan, saved, attempts[k])
    decreases |attempts|
  {
    if k + 2 < |attempts| { EachGoesOn(env, plan, body, before, saved, first, attempts[..|attempts| - 1], k); }
  }

  /** A conflict of a kind in `on`: the engine's own error, or a database error that the classifier knows. */
  predicate Listed(on: seq<ErrorKind>, classifier: int -> Option<ErrorKind>, error: SagaError)
  {
    || (error.Concurrency? && error.kind in on)
    || (error.Other? && classifier(error.code).Some? && classifier(error.code).value != StaleState
        && classifier(error.code).value in on)
  }

  /**
   * Retries of a finished unit: every attempt but the last failed with a conflict of a kind that the policy
   * lists, and never with a claim in progress, an illegal transition, an unknown outcome or misuse. If ctx
   * can be checkpointed, a unit that fails has used up its attempts, or its last error is no such conflict.
   */
  lemma RetriesExactly<Ctx(!new), R>(
      env: Environment<Ctx>, plan: UnitPlan, body: Body<Ctx, R>, before: Snapshot<Ctx, R>, first: nat,
      attempts: seq<Attempt<Ctx, R>>, after: Snapshot<Ctx, R>, outcome: Result<Option<R>, SagaError>)
    requires UnitDone(env, plan, body, before, first, attempts, after, outcome)
    ensures |attempts| > 1 ==>
      plan.retry.Some? && env.cloneable(before.ctx) && |attempts| <= plan.retry.value.attempts
    ensures forall k :: 0 <= k && k + 1 < |attempts| ==>
      && EndOf(attempts[k]).Err? && Listed(plan.retry.value.on, env.classifier, EndOf(attempts[k]).error)
      && EndOf(attempts[k]).error !in {InProgress, IllegalTransition, OutcomeUnknown, Usage}
    ensures plan.retry.Some? && env.cloneable(before.ctx) && EndOf(attempts[|attempts| - 1]).Err? ==>
      || |attempts| == plan.retry.value.attempts
      || !Listed(plan.retry.value.on, env.classifier, EndOf(attempts[|attempts| - 1]).error)
    ensures plan.retry.None? ==> |attempts| == 1
  {
    if |attempts| > 0 {
      forall k | 0 <= k && k + 1 < |attempts| ensures GoesOn(env, plan, SavedCtx(env, plan, before.ctx), attempts[k]) {
        EachGoesOn(env, plan, body, before, SavedCtx(env, plan, before.ctx), first, attempts, k);
      }
    }
  }

  /** The error a unit fails with: a conflict the classifier knows is named, anything else is as it was. */
  function Named(classifier: int -> Option<ErrorKind>, error: SagaError): SagaError
  {
    match error
    case Other(code) =>
      if classifier(code).None? || classifier(code) == Some(StaleState) then error
      else Concurrency(classifier(code).value)
    case _ => error
  }

  lemma FailureIsNamed<Ctx(!new), R>(
      env: Environment<Ctx>, plan: UnitPlan, body: Body<Ctx, R>, before: Snapshot<Ctx, R>, first: nat,
      attempts: seq<Attempt<Ctx, R>>, after: Snapshot<Ctx, R>, outcome: Result<Option<R>, SagaError>)
    requires UnitDone(env, plan, body, before, first, attempts, after, outcome) && outcome.Err?
    ensures attempts == [] ==> outcome.error == Usage && after == before
    ensures attempts != [] ==>
      EndOf(attempts[|attempts| - 1]).Err?
      && outcome.error == Named(env.classifier, EndOf(attempts[|attempts| - 1]).error)
  {
  }

  // ---- Locks that are not granted.

  /** A call whose locks the port refuses runs no step, writes nothing and touches no row but its own claim. */
  lemma RefusedLocksRunNothing<Ctx, R>(
      mode: LedgerMode, wanted: nat, fate: LockFate, body: Body<Ctx, R>, from: Call<Ctx, R>, tick: nat)
    requires from == Opened(from.ctx, from.claimed, from.replay, from.entry)
    requires (body.Transaction? || body.Compensation?) && wanted > 0 && fate.failure.Some?
    ensures var last := CallBody(mode, wanted, fate, body, from, tick);
      && last.flow != Going && last.ctx == from.ctx && last.writes == [] && last.callbacks == [] && last.value == None
      && (body.Compensation? || mode == Unkeyed || from.claimed || from.entry == Free ==>
            last.flow == Threw(fate.failure.value))
      && forall op :: op in last.ops ==> op == Claim
  {
    if body.Transaction? {
      NoSteps(AcquireLocks(ClaimOnce(mode, from), wanted, fate), body.steps, tick);
    }
  }
}
