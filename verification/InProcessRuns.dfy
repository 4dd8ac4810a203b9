/**
 * A run alone on its key with a ledger in process, which a rollback does not reach
 * (src/saga/idempotency-ledger.ts): what the entry is after the run failed depends on every call that was
 * rolled back, not only on the last (src/saga/unit-of-work.ts).
 */
module InProcessRuns {
  import opened Common
  import opened Saga
  import opened UnitHistory
  import opened SagaRun
  import opened UnitEffects
  import opened SagaSafety
  import opened SoloRun

  /** The call got to its end. */
  predicate Finished<Ctx, R>(run: CallRun<Ctx, R>) { run.call.flow == Going }

  ghost predicate SomeFinished<Ctx, R>(calls: seq<CallRun<Ctx, R>>)
  {
    exists k :: 0 <= k < |calls| && Finished(calls[k])
  }

  function CallsOf<Ctx, R>(attempts: seq<Attempt<Ctx, R>>): seq<CallRun<Ctx, R>>
  {
    if |attempts| == 0 then []
    else CallsOf(attempts[..|attempts| - 1]) + CallsIn(attempts[|attempts| - 1])
  }

  function CallsIn<Ctx, R>(a: Attempt<Ctx, R>): seq<CallRun<Ctx, R>>
  {
    if a.Refused? then [] else a.rolledBack + [a.last]
  }

  // ---- One call.

  /** The body does something to the entry of a claimed key when a call of it gets to its end. */
  predicate Settles<Ctx, R>(body: Body<Ctx, R>)
  {
    match body
    case Transaction(_, reply) => reply.Some?
    case ClaimOnly => false
    case Compensation(_) => true
    case RecordReply(_) => true
  }

  /** What it makes of it: freed by a compensation, else the reply. */
  predicate SettledAs<Ctx, R>(body: Body<Ctx, R>, entry: LedgerEntry<R>)
  {
    if body.Compensation? then entry == Free else entry.Applied?
  }

  lemma ClaimedCall<Ctx(!new), R(!new)>(env: Environment<Ctx>, plan: UnitPlan, body: Body<Ctx, R>, run: CallRun<Ctx, R>)
    requires env.mode == InProcess && RunsAlone(env, plan, body, run)
    requires run.from == Opened(run.from.ctx, true, None, run.from.entry)
    ensures run.call.claimed && run.call.replay == None && (run.call.flow.Threw? || Finished(run))
    ensures body.RecordReply? ==> run.call.entry == Applied(body.value)
    ensures if Settles(body) && Finished(run) then SettledAs(body, run.call.entry) else run.call.entry == run.from.entry
  {
    CallAlone(env, plan, body, run);
    if body.Transaction? {
      var claimed := ClaimOnce(env.mode, run.from);
      StepsKeepClaim(AcquireLocks(claimed, |plan.locks|, env.lockFate(run.tick)), body.steps, run.tick);
    }
  }

  /** A call that finds the key free claims it, whatever comes after. */
  lemma FirstCall<Ctx(!new), R(!new)>(env: Environment<Ctx>, plan: UnitPlan, body: Body<Ctx, R>, run: CallRun<Ctx, R>)
    requires env.mode == InProcess && RunsAlone(env, plan, body, run) && (body.Transaction? || body.ClaimOnly?)
    requires run.from == Opened(run.from.ctx, false, None, Free)
    ensures run.call.claimed && run.call.replay == None && (run.call.flow.Threw? || Finished(run))
    ensures Finished(run) && !Settles(body) ==> run.call.entry == Pending
    ensures Finished(run) && Settles(body) ==> run.call.value.Some? && run.call.entry == Applied(run.call.value.value)
  {
    CallAlone(env, plan, body, run);
    if body.Transaction? {
      var claimed := ClaimOnce(env.mode, run.from);
      StepsKeepClaim(AcquireLocks(claimed, |plan.locks|, env.lockFate(run.tick)), body.steps, run.tick);
    }
  }

  /** The reply a finished call of a claimed run recorded. */
  lemma ClaimedReply<Ctx(!new), R(!new)>(
      env: Environment<Ctx>, plan: UnitPlan, body: Body<Ctx, R>, run: CallRun<Ctx, R>)
    requires env.mode == InProcess && RunsAlone(env, plan, body, run) && body.Transaction? && body.reply.Some?
    requires run.from == Opened(run.from.ctx, true, None, run.from.entry) && Finished(run)
    ensures run.call.value.Some? && run.call.entry == Applied(run.call.value.value)
  {
    CallAlone(env, plan, body, run);
    var claimed := ClaimOnce(env.mode, run.from);
    StepsKeepClaim(AcquireLocks(claimed, |plan.locks|, env.lockFate(run.tick)), body.steps, run.tick);
  }

  // ---- The calls of a unit.

  lemma SomeFinishedSnoc<Ctx, R>(calls: seq<CallRun<Ctx, R>>, last: CallRun<Ctx, R>)
    ensures SomeFinished(calls + [last]) <==> SomeFinished(calls) || Finished(last)
  {
    assert (calls + [last])[|calls|] == last;
    if SomeFinished(calls) {
      var k :| 0 <= k < |calls| && Finished(calls[k]);
      assert (calls + [last])[k] == calls[k];
    }
  }

  /** The entry a claimed run's calls leave: settled once any of them got to its end, rolled back or not. */
  ghost predicate EntryAfterCalls<Ctx, R>(
      body: Body<Ctx, R>, entry: LedgerEntry<R>, calls: seq<CallRun<Ctx, R>>, left: LedgerEntry<R>)
  {
    if Settles(body) && SomeFinished(calls) then SettledAs(body, left) else left == entry
  }

  lemma {:induction false} ClaimedCalls<Ctx(!new), R(!new)>(
      env: Environment<Ctx>, plan: UnitPlan, body: Body<Ctx, R>, before: Snapshot<Ctx, R>, saved: Option<Ctx>,
      calls: seq<CallRun<Ctx, R>>)
    requires env.mode == InProcess && before.claimed && before.replay == None
    requires Chain(env, plan, body, before, saved, calls)
    ensures EntryAfterCalls(body, before.entry, calls, StartOf(env, saved, before, calls).entry)
  {
    if |calls| > 0 {
      var init, last := calls[..|calls| - 1], calls[|calls| - 1];
      ClaimedCalls(env, plan, body, before, saved, init);
      ChainKeepsStart(env, plan, body, before, saved, init);
      ClaimedCall(env, plan, body, last);
      SomeFinishedSnoc(init, last);
      assert calls == init + [last];
    }
  }

  lemma {:induction false} FirstCalls<Ctx(!new), R(!new)>(
      env: Environment<Ctx>, plan: UnitPlan, body: Body<Ctx, R>, before: Snapshot<Ctx, R>, saved: Option<Ctx>,
      calls: seq<CallRun<Ctx, R>>)
    requires env.mode == InProcess && !before.claimed && before.replay == None && before.entry == Free
    requires (body.Transaction? || body.ClaimOnly?) && Chain(env, plan, body, before, saved, calls)
    ensures StartOf(env, saved, before, calls).entry == Free
  {
    if |calls| > 0 {
      var init, last := calls[..|calls| - 1], calls[|calls| - 1];
      FirstCalls(env, plan, body, before, saved, init);
      ChainKeepsStart(env, plan, body, before, saved, init);
      FirstCall(env, plan, body, last);
    }
  }

  /** A unit without a retry policy is one attempt. */
  lemma OneAttempt<Ctx(!new), R(!new)>(
      env: Environment<Ctx>, plan: UnitPlan, body: Body<Ctx, R>, before: Snapshot<Ctx, R>, first: nat,
      attempts: seq<Attempt<Ctx, R>>, after: Snapshot<Ctx, R>, result: Result<Option<R>, SagaError>)
    requires UnitDone(env, plan, body, before, first, attempts, after, result) && plan.retry == None
    ensures |attempts| == 1 && CallsOf(attempts) == CallsIn(attempts[0])
    ensures AttemptRuns(env, plan, body, before, None, attempts[0])
    ensures after == AfterAttempt(env.mode, plan.name, before, attempts[0])
    ensures result == Wrapped(env, EndOf(attempts[0]))
  {
    assert SavedCtx(env, plan, before.ctx) == None && MaxRuns(env, plan, before.ctx) == 1;
    var state := UnitState(env, plan, body, before, first, attempts, after, result);
    OneIsAll(env, plan, before, attempts);
  }

  lemma OneIsAll<Ctx(!new), R(!new)>(
      env: Environment<Ctx>, plan: UnitPlan, before: Snapshot<Ctx, R>, attempts: seq<Attempt<Ctx, R>>)
    requires |attempts| == 1
    ensures CallsOf(attempts) == CallsIn(attempts[0])
    ensures StateAfter(env, plan, before, None, attempts[..|attempts| - 1]) == before
  {
    assert attempts[..0] == [];
    assert CallsOf(attempts[..0]) == [] && [] + CallsIn(attempts[0]) == CallsIn(attempts[0]);
  }

  lemma AllCalls<Ctx(!new), R(!new)>(
      env: Environment<Ctx>, plan: UnitPlan, body: Body<Ctx, R>, before: Snapshot<Ctx, R>, saved: Option<Ctx>,
      a: Attempt<Ctx, R>)
    requires AttemptRuns(env, plan, body, before, saved, a)
    ensures Chain(env, plan, body, before, saved, CallsIn(a))
    ensures EndOf(a).Err? ==>
      AfterAttempt(env.mode, plan.name, before, a).entry == StartOf(env, saved, before, CallsIn(a)).entry
  {
    if a.Called? {
      ChainGrows(env, plan, body, before, saved, a.rolledBack, a.last);
      StartAfter(env, saved, before, a.rolledBack, a.last);
    }
  }

  /** A failed unit of a run that holds its key. */
  lemma ClaimedUnitFails<Ctx(!new), R(!new)>(
      env: Environment<Ctx>, plan: UnitPlan, body: Body<Ctx, R>, before: Snapshot<Ctx, R>, first: nat,
      attempts: seq<Attempt<Ctx, R>>, after: Snapshot<Ctx, R>, result: Result<Option<R>, SagaError>)
    requires env.mode == InProcess && plan.retry == None && before.claimed && before.replay == None
    requires UnitDone(env, plan, body, before, first, attempts, after, result) && result.Err?
    ensures EntryAfterCalls(body, before.entry, CallsOf(attempts), after.entry)
  {
    OneAttempt(env, plan, body, before, first, attempts, after, result);
    AllCalls(env, plan, body, before, None, attempts[0]);
    ClaimedCalls(env, plan, body, before, None, CallsIn(attempts[0]));
  }

  /** A failed unit that was to claim the key leaves it free. */
  lemma FirstUnitFails<Ctx(!new), R(!new)>(
      env: Environment<Ctx>, plan: UnitPlan, body: Body<Ctx, R>, before: Snapshot<Ctx, R>, first: nat,
      attempts: seq<Attempt<Ctx, R>>, after: Snapshot<Ctx, R>, result: Result<Option<R>, SagaError>)
    requires env.mode == InProcess && plan.retry == None && !before.claimed && before.replay == None
    requires before.entry == Free
    requires body.Transaction? || body.ClaimOnly?
    requires UnitDone(env, plan, body, before, first, attempts, after, result) && result.Err?
    ensures after.entry == Free
  {
    OneAttempt(env, plan, body, before, first, attempts, after, result);
    AllCalls(env, plan, body, before, None, attempts[0]);
    FirstCalls(env, plan, body, before, None, CallsIn(attempts[0]));
  }

  /** A unit that committed: its last call got to its end, and the entry is what that call made of it. */
  lemma ClaimedUnitCommits<Ctx(!new), R(!new)>(
      env: Environment<Ctx>, plan: UnitPlan, body: Body<Ctx, R>, before: Snapshot<Ctx, R>, first: nat,
      attempts: seq<Attempt<Ctx, R>>, after: Snapshot<Ctx, R>, result: Result<Option<R>, SagaError>)
    requires env.mode == InProcess && plan.retry == None && before.claimed && before.replay == None
    requires UnitDone(env, plan, body, before, first, attempts, after, result) && result.Ok?
    ensures SomeFinished(CallsOf(attempts)) && after.claimed && after.replay == None
    ensures if Settles(body) then SettledAs(body, after.entry) else after.entry == before.entry
    ensures body.Transaction? && Settles(body) ==> result.value.Some? && after.entry == Applied(result.value.value)
    ensures body.RecordReply? ==> after.entry == Applied(body.value)
  {
    OneAttempt(env, plan, body, before, first, attempts, after, result);
    var a := attempts[0];
    ChainKeepsStart(env, plan, body, before, None, a.rolledBack);
    ClaimedCalls(env, plan, body, before, None, a.rolledBack);
    ClaimedCall(env, plan, body, a.last);
    SomeFinishedSnoc(a.rolledBack, a.last);
    if body.Transaction? && body.reply.Some? { ClaimedReply(env, plan, body, a.last); }
  }

  lemma FirstUnitCommits<Ctx(!new), R(!new)>(
      env: Environment<Ctx>, plan: UnitPlan, body: Body<Ctx, R>, before: Snapshot<Ctx, R>, first: nat,
      attempts: seq<Attempt<Ctx, R>>, after: Snapshot<Ctx, R>, result: Result<Option<R>, SagaError>)
    requires env.mode == InProcess && plan.retry == None && !before.claimed && before.replay == None
    requires before.entry == Free
    requires body.Transaction? || body.ClaimOnly?
    requires UnitDone(env, plan, body, before, first, attempts, after, result) && result.Ok?
    ensures after.claimed && after.replay == None
    ensures !Settles(body) ==> after.entry == Pending
    ensures Settles(body) ==> result.value.Some? && after.entry == Applied(result.value.value)
  {
    OneAttempt(env, plan, body, before, first, attempts, after, result);
    var a := attempts[0];
    ChainKeepsStart(env, plan, body, before, None, a.rolledBack);
    FirstCalls(env, plan, body, before, None, a.rolledBack);
    FirstCall(env, plan, body, a.last);
  }

  // ---- The run.

  /** The entry of a run that has not failed. */
  ghost predicate Expected<Ctx(!new), R(!new)>(sys: System<Ctx, R>, m: Machine<Ctx, R>)
  {
    Stage(sys, m) &&
    match m.phase
    case At(i, reply) =>
      m.now.entry == if i == 0 then Free else if reply.Some? then Applied(reply.value) else Pending
    case Calling(_) => m.now.entry == Pending
    case Compensating(_, _) => m.now.entry == Pending
    case Recording(_) => m.now.entry == Pending
    case Over(outcome) =>
      && !outcome.Replayed?
      && (outcome.Replied? ==> m.now.entry == if |sys.segments| == 0 then Free else Applied(outcome.value))
  }

  /** The unit that `m` comes to records the reply, and the run has claimed its key before. */
  predicate Records<Ctx, R>(sys: System<Ctx, R>, m: Machine<Ctx, R>)
  {
    && m.now.claimed
    && (m.phase.Recording? || (m.phase.At? && m.phase.index + 1 == |sys.segments| && EndsInTransaction(sys)))
  }

  /** The entry after the last step of a run that failed. */
  ghost predicate FailedEntry<Ctx, R>(
      sys: System<Ctx, R>, m: Machine<Ctx, R>, m': Machine<Ctx, R>, calls: seq<CallRun<Ctx, R>>)
  {
    && (m'.now.entry.Applied? <==> Records(sys, m) && SomeFinished(calls))
    && (m'.now.entry == Free <==> m'.now.commits == [] || (m.phase.Compensating? && SomeFinished(calls)))
  }

  ghost predicate Failing<Ctx, R>(m: Machine<Ctx, R>) { m.phase.Over? && m.phase.outcome.Failed? }

  /** What a step of a run alone comes to. */
  ghost predicate StepComesTo<Ctx(!new), R(!new)>(
      sys: System<Ctx, R>, m: Machine<Ctx, R>, m': Machine<Ctx, R>, attempts: seq<Attempt<Ctx, R>>)
  {
    if Failing(m') then FailedEntry(sys, m, m', CallsOf(attempts)) else Expected(sys, m')
  }

  /** The unit of a step, with its result. */
  lemma UnitOf<Ctx(!new), R(!new)>(
      sys: System<Ctx, R>, m: Machine<Ctx, R>, m': Machine<Ctx, R>, attempts: seq<Attempt<Ctx, R>>)
    returns (plan: UnitPlan, body: Body<Ctx, R>, first: nat, result: Result<Option<R>, SagaError>)
    requires SoloStep(sys, m, m', attempts) && attempts != []
    ensures UnitAt(sys, m, m') == Some((plan, body)) && plan.retry == sys.retry
    ensures UnitDone(sys.env, plan, body, m.now, first, attempts, m'.now, result)
    ensures m'.phase == PhaseAfter(sys, m.phase, m'.now.replay, result)
  {
    var unit := UnitAt(sys, m, m');
    plan, body := unit.value.0, unit.value.1;
    var f: nat, r :|
      && UnitDone(sys.env, plan, body, m.now, f, attempts, m'.now, r)
      && m'.phase == PhaseAfter(sys, m.phase, m'.now.replay, r);
    first, result := f, r;
  }

  /** The entry of a run that stood at `m` and fails where it stands. */
  lemma FailsIdle<Ctx(!new), R(!new)>(sys: System<Ctx, R>, m: Machine<Ctx, R>, m': Machine<Ctx, R>)
    requires sys.env.mode == InProcess && Expected(sys, m) && !m.phase.Over? && !(m.phase.At? && m.phase.reply.Some?)
    requires Failing(m') && Stage(sys, m') && m'.now.entry == m.now.entry && m'.now.commits == m.now.commits
    ensures FailedEntry<Ctx, R>(sys, m, m', [])
  {
    assert !SomeFinished<Ctx, R>([]);
    assert m.now.entry == Free || m.now.entry == Pending;
    IdleCommits(sys, m);
  }

  lemma IdleCommits<Ctx(!new), R(!new)>(sys: System<Ctx, R>, m: Machine<Ctx, R>)
    requires sys.env.mode == InProcess && Expected(sys, m) && !m.phase.Over? && !(m.phase.At? && m.phase.reply.Some?)
    ensures m.now.entry == Free <==> m.now.commits == []
    ensures !m.now.claimed ==> m.now.commits == [] && m.phase.At?
    ensures m.now.claimed ==> m.now.entry == Pending
  {
    match m.phase
    case At(i, _) => PrefixStarted(sys, m.now.commits, i);
    case Calling(i) => PrefixStarted(sys, m.now.commits, i + 1);
    case Compensating(i, _) => PrefixStarted(sys, m.now.commits, i + 1);
    case Recording(_) => PrefixStarted(sys, m.now.commits, |sys.segments|);
  }

  lemma IdleMoves<Ctx(!new), R(!new)>(sys: System<Ctx, R>, m: Machine<Ctx, R>, m': Machine<Ctx, R>)
    requires sys.env.mode == InProcess && OnlyOutbound(sys) && Expected(sys, m) && Next(sys, m, m') && Stage(sys, m')
    requires !Failing(m') && m'.now.entry == m.now.entry && m'.now.commits == m.now.commits
    ensures Expected(sys, m')
  {
    match m.phase
    case At(i, reply) =>
      if i >= |sys.segments| { IdleFinish(sys, reply, m, m'); } else { IdleAt(sys, i, m, m'); }
    case _ =>
  }

  /** The only step from a segment that commits nothing and does not fail goes on to an outbound call. */
  lemma IdleAt<Ctx(!new), R(!new)>(sys: System<Ctx, R>, i: nat, m: Machine<Ctx, R>, m': Machine<Ctx, R>)
    requires sys.env.mode == InProcess && Expected(sys, m) && m.phase.At? && m.phase.index == i < |sys.segments|
    requires Next(sys, m, m') && !Failing(m') && m'.now.commits == m.now.commits
    ensures m'.phase == Calling(i) && m.now.claimed && m'.now == m.now
  {
    if sys.segments[i].TransactionSegment? {
      var end, value := TransactionMoves(sys, i, m, m');
    } else if !m.now.claimed {
      FirstClaimMoves(sys, i, m, m');
    }
  }

  /** A claim fails the run or commits a unit. */
  lemma FirstClaimMoves<Ctx(!new), R(!new)>(sys: System<Ctx, R>, i: nat, m: Machine<Ctx, R>, m': Machine<Ctx, R>)
    requires Keyed(sys) && !m.now.claimed && m.now.replay == None && ClaimMove(sys, i, m, m')
    ensures Failing(m') || |m'.now.commits| == |m.now.commits| + 1
  {
    var result :| ClaimEnds(sys, i, m, m', result);
    if result.Ok? {
      var c := ClaimEffect(sys, Plan(sys, ClaimUnit(i), [], i == 0), m.now, m'.now, result.value);
    }
  }

  lemma IdleFinish<Ctx(!new), R(!new)>(sys: System<Ctx, R>, reply: Option<R>, m: Machine<Ctx, R>, m': Machine<Ctx, R>)
    requires sys.env.mode == InProcess && Expected(sys, m) && m.phase == At(|sys.segments|, reply)
    requires FinishMove(sys, reply, m, m') && Stage(sys, m') && !Failing(m')
    ensures Expected(sys, m')
  {
  }

  /** A step without a unit leaves the entry, or the run fails where it stands. */
  lemma IdleStep<Ctx(!new), R(!new)>(sys: System<Ctx, R>, m: Machine<Ctx, R>, m': Machine<Ctx, R>)
    requires sys.env.mode == InProcess && OnlyOutbound(sys) && Expected(sys, m) && SoloStep(sys, m, m', [])
    requires Stage(sys, m')
    ensures StepComesTo(sys, m, m', [])
  {
    NoAttempt(sys, m, m');
    if Failing(m') { FailsIdle(sys, m, m'); } else { IdleMoves(sys, m, m'); }
  }

  /** What the calls of a failed unit left, as the entry of a failed run. */
  lemma ClaimedRunFails<Ctx(!new), R(!new)>(
      sys: System<Ctx, R>, m: Machine<Ctx, R>, m': Machine<Ctx, R>, plan: UnitPlan, body: Body<Ctx, R>,
      calls: seq<CallRun<Ctx, R>>)
    requires sys.env.mode == InProcess && Expected(sys, m) && m.now.claimed
    requires UnitAt(sys, m, m') == Some((plan, body)) && m'.now.commits == m.now.commits
    requires EntryAfterCalls(body, m.now.entry, calls, m'.now.entry)
    ensures FailedEntry(sys, m, m', calls)
  {
    IdleCommits(sys, m);
    assert Settles(body) <==> Records(sys, m) || m.phase.Compensating?;
  }

  lemma FailedUnitComesTo<Ctx(!new), R(!new)>(
      sys: System<Ctx, R>, m: Machine<Ctx, R>, m': Machine<Ctx, R>, attempts: seq<Attempt<Ctx, R>>,
      plan: UnitPlan, body: Body<Ctx, R>, first: nat, result: Result<Option<R>, SagaError>)
    requires sys.env.mode == InProcess && sys.retry == None && Expected(sys, m) && Stage(sys, m')
    requires UnitAt(sys, m, m') == Some((plan, body)) && plan.retry == None && result.Err? && Failing(m')
    requires UnitDone(sys.env, plan, body, m.now, first, attempts, m'.now, result)
    ensures FailedEntry(sys, m, m', CallsOf(attempts))
  {
    UnitFails(sys.env, plan, body, m.now, first, attempts, m'.now, result);
    IdleCommits(sys, m);
    if m.now.claimed {
      ClaimedUnitFails(sys.env, plan, body, m.now, first, attempts, m'.now, result);
      ClaimedRunFails(sys, m, m', plan, body, CallsOf(attempts));
    } else {
      FirstUnitFails(sys.env, plan, body, m.now, first, attempts, m'.now, result);
    }
  }

  /** Where a committed unit of a run that held its key takes it. */
  lemma ClaimedRunGoesOn<Ctx(!new), R(!new)>(
      sys: System<Ctx, R>, m: Machine<Ctx, R>, m': Machine<Ctx, R>, plan: UnitPlan, body: Body<Ctx, R>,
      value: Option<R>, calls: seq<CallRun<Ctx, R>>)
    requires sys.env.mode == InProcess && Expected(sys, m) && m.now.claimed && Stage(sys, m')
    requires UnitAt(sys, m, m') == Some((plan, body)) && m'.now.claimed && m'.now.replay == None
    requires m'.phase == PhaseAfter(sys, m.phase, None, Ok(value)) && SomeFinished(calls)
    requires if Settles(body) then SettledAs(body, m'.now.entry) else m'.now.entry == m.now.entry
    requires body.Transaction? && Settles(body) ==> value.Some? && m'.now.entry == Applied(value.value)
    requires body.Transaction? && !Settles(body) ==> value == None
    requires body.RecordReply? ==> m'.now.entry == Applied(body.value)
    ensures if Failing(m') then FailedEntry(sys, m, m', calls) else Expected(sys, m')
  {
    IdleCommits(sys, m);
  }

  lemma CommittedUnitComesTo<Ctx(!new), R(!new)>(
      sys: System<Ctx, R>, m: Machine<Ctx, R>, m': Machine<Ctx, R>, attempts: seq<Attempt<Ctx, R>>,
      plan: UnitPlan, body: Body<Ctx, R>, first: nat, result: Result<Option<R>, SagaError>)
    requires sys.env.mode == InProcess && sys.retry == None && Expected(sys, m) && Stage(sys, m')
    requires UnitAt(sys, m, m') == Some((plan, body)) && plan.retry == None && result.Ok?
    requires UnitDone(sys.env, plan, body, m.now, first, attempts, m'.now, result)
    requires m'.phase == PhaseAfter(sys, m.phase, m'.now.replay, result)
    ensures StepComesTo(sys, m, m', attempts)
  {
    IdleCommits(sys, m);
    if m.phase.At? { NoReplyNoValue(sys, m, m', plan, body, result); }
    if m.now.claimed {
      ClaimedUnitCommits(sys.env, plan, body, m.now, first, attempts, m'.now, result);
      ClaimedRunGoesOn(sys, m, m', plan, body, result.value, CallsOf(attempts));
    } else {
      FirstUnitCommits(sys.env, plan, body, m.now, first, attempts, m'.now, result);
      FirstRunGoesOn(sys, m, m', plan, body, result.value);
    }
  }

  /** A segment without a reply makes none. */
  lemma NoReplyNoValue<Ctx(!new), R(!new)>(
      sys: System<Ctx, R>, m: Machine<Ctx, R>, m': Machine<Ctx, R>, plan: UnitPlan, body: Body<Ctx, R>,
      result: Result<Option<R>, SagaError>)
    requires sys.env.mode == InProcess && Expected(sys, m) && m.phase.At? && Stage(sys, m')
    requires m'.phase == PhaseAfter(sys, m.phase, m'.now.replay, result)
    requires UnitAt(sys, m, m') == Some((plan, body)) && result.Ok?
    ensures body.Transaction? && !Settles(body) && m'.now.replay == None ==> result.value == None
  {
  }

  /** Where the committed unit that claims the key takes the run. */
  lemma FirstRunGoesOn<Ctx(!new), R(!new)>(
      sys: System<Ctx, R>, m: Machine<Ctx, R>, m': Machine<Ctx, R>, plan: UnitPlan, body: Body<Ctx, R>,
      value: Option<R>)
    requires sys.env.mode == InProcess && Expected(sys, m) && !m.now.claimed && m.phase.At? && Stage(sys, m')
    requires UnitAt(sys, m, m') == Some((plan, body)) && m'.now.claimed && m'.now.replay == None
    requires m'.phase == PhaseAfter(sys, m.phase, None, Ok(value))
    requires !Settles(body) ==> m'.now.entry == Pending
    requires Settles(body) ==> value.Some? && m'.now.entry == Applied(value.value)
    requires body.Transaction? && !Settles(body) ==> value == None
    ensures !Failing(m') && Expected(sys, m')
  {
  }

  lemma SoloStepComesTo<Ctx(!new), R(!new)>(
      sys: System<Ctx, R>, m: Machine<Ctx, R>, m': Machine<Ctx, R>, attempts: seq<Attempt<Ctx, R>>)
    requires sys.env.mode == InProcess && sys.retry == None && OnlyOutbound(sys)
    requires Expected(sys, m) && SoloStep(sys, m, m', attempts)
    ensures StepComesTo(sys, m, m', attempts)
  {
    assert WithEntry(m, m.now.entry) == m;
    assert NextAmong(sys, m, m');
    StepKeepsStage(sys, m, m');
    if attempts == [] {
      IdleStep(sys, m, m');
    } else {
      var plan, body, first, result := UnitOf(sys, m, m', attempts);
      if result.Err? {
        FailedUnitComesTo(sys, m, m', attempts, plan, body, first, result);
      } else {
        CommittedUnitComesTo(sys, m, m', attempts, plan, body, first, result);
      }
    }
  }

  lemma {:induction false} SoloPathIsExpected<Ctx(!new), R(!new)>(
      sys: System<Ctx, R>, path: seq<Machine<Ctx, R>>, history: seq<seq<Attempt<Ctx, R>>>)
    requires sys.env.mode == InProcess && sys.retry == None && OnlyOutbound(sys)
    requires SoloPath(sys, path, history) && path[0].now.entry == Free && !Failing(path[|history|])
    ensures Expected(sys, path[|history|])
    decreases |history|
  {
    if |history| > 0 {
      var before, m, m' := path[..|history|], path[|history| - 1], path[|history|];
      assert before[|history| - 1] == m && before[0] == path[0];
      assert !Failing(m);
      SoloPathIsExpected(sys, before, history[..|history| - 1]);
      SoloStepComesTo(sys, m, m', history[|history| - 1]);
    }
  }

  /**
   * The entry after a run alone on its key failed, with the ledger in process. A reply stays, for writes
   * that were rolled back, exactly when the run had claimed its key in an earlier unit and some call of the
   * unit that records the reply got to its end, be it the last one or not. The key is free exactly when
   * nothing was committed or some call of the compensation got to its end, even one rolled back. In every
   * other case the key stays pending.
   */
  lemma {:induction false} FailedInProcess<Ctx(!new), R(!new)>(
      sys: System<Ctx, R>, path: seq<Machine<Ctx, R>>, history: seq<seq<Attempt<Ctx, R>>>)
    requires sys.env.mode == InProcess && sys.retry == None && OnlyOutbound(sys)
    requires SoloPath(sys, path, history) && path[0].now.entry == Free && Failing(path[|history|])
    ensures |history| > 0
    ensures var n := |history|; FailedEntry(sys, path[n - 1], path[n], CallsOf(history[n - 1]))
  {
    var n := |history|;
    var before := path[..n];
    assert before[n - 1] == path[n - 1] && before[0] == path[0];
    assert !Failing(path[n - 1]);
    SoloPathIsExpected(sys, before, history[..n - 1]);
    SoloStepComesTo(sys, path[n - 1], path[n], history[n - 1]);
  }
}
