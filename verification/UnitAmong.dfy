/**
 * A unit of work among other runs (src/saga/unit-of-work.ts): between two attempts, and between two calls
 * of one attempt, nothing of it is open, so other runs may change the row of its key there. With a ledger
 * in the database each call finds the row as it is when the call begins.
 */
module UnitAmong {
  import opened Common
  import opened Saga
  import opened UnitHistory

  /** The call begins where the ones before it left things, and on whatever row it finds. */
  ghost predicate BeginsAmong<Ctx, R>(
      env: Environment<Ctx>, saved: Option<Ctx>, before: Snapshot<Ctx, R>, calls: seq<CallRun<Ctx, R>>,
      run: CallRun<Ctx, R>)
  {
    run.from == StartOf(env, saved, before, calls).(entry := run.from.entry)
  }

  ghost predicate ChainAmong<Ctx, R>(
      env: Environment<Ctx>, plan: UnitPlan, body: Body<Ctx, R>, before: Snapshot<Ctx, R>, saved: Option<Ctx>,
      calls: seq<CallRun<Ctx, R>>)
  {
    |calls| > 0 ==>
      var init, last := calls[..|calls| - 1], calls[|calls| - 1];
      && ChainAmong(env, plan, body, before, saved, init)
      && BeginsAmong(env, saved, before, init, last) && RunsAlone(env, plan, body, last)
  }

  ghost predicate AttemptAmong<Ctx, R>(
      env: Environment<Ctx>, plan: UnitPlan, body: Body<Ctx, R>, before: Snapshot<Ctx, R>, saved: Option<Ctx>,
      a: Attempt<Ctx, R>)
  {
    a.Called? ==>
      && ChainAmong(env, plan, body, before, saved, a.rolledBack)
      && BeginsAmong(env, saved, before, a.rolledBack, a.last) && RunsAlone(env, plan, body, a.last)
  }

  /** Where the next attempt begins; of the row it holds only what `before` does, as others may change it. */
  function StateAmong<Ctx, R>(
      env: Environment<Ctx>, plan: UnitPlan, before: Snapshot<Ctx, R>, saved: Option<Ctx>,
      attempts: seq<Attempt<Ctx, R>>): Snapshot<Ctx, R>
  {
    if |attempts| == 0 then before
    else
      var init, last := attempts[..|attempts| - 1], attempts[|attempts| - 1];
      var left := AfterAttempt(env.mode, plan.name, StateAmong(env, plan, before, saved, init), last);
      left.(ctx := Rewound(env, saved, left.ctx), entry := before.entry)
  }

  /** Attempts one after the other, each but the last retried. */
  ghost predicate RunsAmong<Ctx, R>(
      env: Environment<Ctx>, plan: UnitPlan, body: Body<Ctx, R>, before: Snapshot<Ctx, R>, saved: Option<Ctx>,
      first: nat, attempts: seq<Attempt<Ctx, R>>)
  {
    |attempts| > 0 ==>
      var init, last := attempts[..|attempts| - 1], attempts[|attempts| - 1];
      && RunsAmong(env, plan, body, before, saved, first, init)
      && (|init| > 0 ==> GoesOn(env, plan, saved, init[|init| - 1]))
      && AttemptAmong(env, plan, body, StateAmong(env, plan, before, saved, init), saved, last)
      && Matches(env.port(first + |init|), last)
  }

  /** All that a unit does among other runs; `before` holds the row that its last call finds. */
  ghost predicate DoneAmong<Ctx, R>(
      env: Environment<Ctx>, plan: UnitPlan, body: Body<Ctx, R>, before: Snapshot<Ctx, R>, first: nat,
      attempts: seq<Attempt<Ctx, R>>, after: Snapshot<Ctx, R>, outcome: Result<Option<R>, SagaError>)
  {
    var n, saved := |attempts|, SavedCtx(env, plan, before.ctx);
    if Refuses(env, plan, before.ctx) then n == 0 && after == before && outcome == Err(Usage)
    else
      && 0 < n <= MaxRuns(env, plan, before.ctx) && RunsAmong(env, plan, body, before, saved, first, attempts)
      && (attempts[n - 1].Called? ==> attempts[n - 1].last.from.entry == before.entry)
      && (GoesOn(env, plan, saved, attempts[n - 1]) ==> n == MaxRuns(env, plan, before.ctx))
      && after ==
         AfterAttempt(env.mode, plan.name, StateAmong(env, plan, before, saved, attempts[..n - 1]), attempts[n - 1])
      && outcome == Wrapped(env, EndOf(attempts[n - 1]))
  }

  lemma {:induction false} StartAmong<Ctx(!new), R(!new)>(
      env: Environment<Ctx>, plan: UnitPlan, body: Body<Ctx, R>, before: Snapshot<Ctx, R>, saved: Option<Ctx>,
      calls: seq<CallRun<Ctx, R>>)
    requires ChainAmong(env, plan, body, before, saved, calls)
    ensures var start := StartOf(env, saved, before, calls);
      && start == Opened(start.ctx, before.claimed, before.replay, start.entry)
      && ((saved.Some? && saved.value == before.ctx && Faithful(env, before.ctx)) || calls == [] ==>
            start.ctx == before.ctx)
  {
    if |calls| > 0 { StartAmong(env, plan, body, before, saved, calls[..|calls| - 1]); }
  }

  /** Failed attempts leave nothing, whatever row their calls found. */
  lemma {:induction false} RetriedAmong<Ctx(!new), R(!new)>(
      env: Environment<Ctx>, plan: UnitPlan, body: Body<Ctx, R>, before: Snapshot<Ctx, R>, saved: Option<Ctx>,
      first: nat, attempts: seq<Attempt<Ctx, R>>)
    requires RunsAmong(env, plan, body, before, saved, first, attempts)
    requires |attempts| > 0 ==> EndOf(attempts[|attempts| - 1]).Err?
    ensures var state := StateAmong(env, plan, before, saved, attempts);
      && state == before.(ctx := state.ctx)
      && ((saved == Some(before.ctx) && Faithful(env, before.ctx)) || attempts == [] ==> state.ctx == before.ctx)
  {
    if |attempts| > 0 { RetriedAmong(env, plan, body, before, saved, first, attempts[..|attempts| - 1]); }
  }

  /** Where the last attempt begins, and what it comes to. */
  lemma LastAmong<Ctx(!new), R(!new)>(
      env: Environment<Ctx>, plan: UnitPlan, body: Body<Ctx, R>, before: Snapshot<Ctx, R>, first: nat,
      attempts: seq<Attempt<Ctx, R>>, after: Snapshot<Ctx, R>, outcome: Result<Option<R>, SagaError>)
    returns (state: Snapshot<Ctx, R>)
    requires DoneAmong(env, plan, body, before, first, attempts, after, outcome) && |attempts| > 0
    ensures var saved, last := SavedCtx(env, plan, before.ctx), attempts[|attempts| - 1];
      && state == before.(ctx := state.ctx) && AttemptAmong(env, plan, body, state, saved, last)
      && (|attempts| == 1 || (saved.Some? && Faithful(env, before.ctx)) ==> state.ctx == before.ctx)
      && after == AfterAttempt(env.mode, plan.name, state, last) && outcome == Wrapped(env, EndOf(last))
      && Matches(env.port(first + |attempts| - 1), last)
  {
    var saved := SavedCtx(env, plan, before.ctx);
    RetriedAmong(env, plan, body, before, saved, first, attempts[..|attempts| - 1]);
    state := StateAmong(env, plan, before, saved, attempts[..|attempts| - 1]);
  }

  /** A unit that fails leaves nothing, whatever others did between its calls. */
  lemma AmongFails<Ctx(!new), R(!new)>(
      env: Environment<Ctx>, plan: UnitPlan, body: Body<Ctx, R>, before: Snapshot<Ctx, R>, first: nat,
      attempts: seq<Attempt<Ctx, R>>, after: Snapshot<Ctx, R>, outcome: Result<Option<R>, SagaError>)
    requires DoneAmong(env, plan, body, before, first, attempts, after, outcome) && outcome.Err?
    ensures LeavesNothing(env.mode, before, after)
  {
    if |attempts| > 0 {
      var state := LastAmong(env, plan, body, before, first, attempts, after, outcome);
      var last := attempts[|attempts| - 1];
      if last.Called? && env.mode != InProcess { RunKeepsEntry(env, plan, body, last.last); }
    }
  }

  /** A unit that succeeds ends as its last call alone, made on the row which that call found. */
  lemma AmongCommits<Ctx(!new), R(!new)>(
      env: Environment<Ctx>, plan: UnitPlan, body: Body<Ctx, R>, before: Snapshot<Ctx, R>, first: nat,
      attempts: seq<Attempt<Ctx, R>>, after: Snapshot<Ctx, R>, outcome: Result<Option<R>, SagaError>)
    requires DoneAmong(env, plan, body, before, first, attempts, after, outcome) && outcome.Ok?
    ensures |attempts| > 0 && attempts[|attempts| - 1].Called?
    ensures UnitCommits(env, plan, body, attempts[|attempts| - 1].last, before, after, outcome.value)
  {
    var state := LastAmong(env, plan, body, before, first, attempts, after, outcome);
    var last, saved := attempts[|attempts| - 1], SavedCtx(env, plan, before.ctx);
    StartAmong(env, plan, body, state, saved, last.rolledBack);
    if Direct(env, plan, before.ctx) && saved.None? { assert |attempts| == 1 && last.rolledBack == []; }
  }

  // ---- A unit that nobody comes between is one among others that do nothing.

  lemma {:induction false} AloneChain<Ctx, R>(
      env: Environment<Ctx>, plan: UnitPlan, body: Body<Ctx, R>, before: Snapshot<Ctx, R>, saved: Option<Ctx>,
      calls: seq<CallRun<Ctx, R>>)
    requires Chain(env, plan, body, before, saved, calls)
    ensures ChainAmong(env, plan, body, before, saved, calls)
  {
    if |calls| > 0 { AloneChain(env, plan, body, before, saved, calls[..|calls| - 1]); }
  }

  lemma AloneAttempt<Ctx, R>(
      env: Environment<Ctx>, plan: UnitPlan, body: Body<Ctx, R>, before: Snapshot<Ctx, R>, saved: Option<Ctx>,
      a: Attempt<Ctx, R>)
    requires AttemptRuns(env, plan, body, before, saved, a)
    ensures AttemptAmong(env, plan, body, before, saved, a)
  {
    if a.Called? { AloneChain(env, plan, body, before, saved, a.rolledBack); }
  }

  lemma {:induction false} AloneRuns<Ctx(!new), R(!new)>(
      env: Environment<Ctx>, plan: UnitPlan, body: Body<Ctx, R>, before: Snapshot<Ctx, R>, saved: Option<Ctx>,
      first: nat, attempts: seq<Attempt<Ctx, R>>)
    requires env.mode != InProcess && UnitRuns(env, plan, body, before, saved, first, attempts)
    ensures RunsAmong(env, plan, body, before, saved, first, attempts)
    ensures (|attempts| > 0 ==> EndOf(attempts[|attempts| - 1]).Err?) ==>
      StateAmong(env, plan, before, saved, attempts) == StateAfter(env, plan, before, saved, attempts)
  {
    if |attempts| > 0 {
      var init, last := attempts[..|attempts| - 1], attempts[|attempts| - 1];
      AloneRuns(env, plan, body, before, saved, first, init);
      AloneAttempt(env, plan, body, StateAfter(env, plan, before, saved, init), saved, last);
      if EndOf(last).Err? { RetriedAttempts(env, plan, body, before, saved, first, attempts); }
    }
  }

  lemma AloneIsAmong<Ctx(!new), R(!new)>(
      env: Environment<Ctx>, plan: UnitPlan, body: Body<Ctx, R>, before: Snapshot<Ctx, R>, first: nat,
      attempts: seq<Attempt<Ctx, R>>, after: Snapshot<Ctx, R>, outcome: Result<Option<R>, SagaError>)
    requires env.mode != InProcess && UnitDone(env, plan, body, before, first, attempts, after, outcome)
    ensures DoneAmong(env, plan, body, before, first, attempts, after, outcome)
  {
    if |attempts| > 0 {
      var n, saved := |attempts|, SavedCtx(env, plan, before.ctx);
      AloneRuns(env, plan, body, before, saved, first, attempts);
      AloneRuns(env, plan, body, before, saved, first, attempts[..n - 1]);
      var state := UnitState(env, plan, body, before, first, attempts, after, outcome);
      if attempts[n - 1].Called? { ChainKeepsStart(env, plan, body, state, saved, attempts[n - 1].rolledBack); }
    }
  }
}
