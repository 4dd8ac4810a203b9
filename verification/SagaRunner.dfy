/**
 * The saga runner (src/saga/saga-runner.ts): it checks a definition for misuse, walks the segments,
 * and runs each unit through the executor. Its states are a path of the machine of `SagaRun`, so what
 * `SagaSafety` and `AtMostOnce` say of paths holds of it.
 */
module SagaRunner {
  import opened Common
  import opened LockPort
  import opened RetryPolicy
  import opened Saga
  import opened Segments
  import opened UnitHistory
  import opened UnitOfWork
  import opened SagaRun
  import opened UnitEffects
  import opened SagaSafety
  import opened SoloRun
  import opened InProcessRuns

  /** What the runner is configured with, and the unit of work it is called from, if any. */
  datatype Setup = Setup(
    hasLockPort: bool, hasClassifier: bool, hasKey: bool, ledgerInProcess: bool, outer: Option<Scope>)

  datatype Scope = Scope(holdsLocks: bool, retries: bool)

  predicate DeclaresLocks<Ctx>(steps: seq<SagaStep<Ctx>>)
  {
    exists i :: 0 <= i < |steps| && steps[i].TransactionStep? && steps[i].locks != []
  }

  const MAX_NAMESPACE_LENGTH := 200

  /** `retry.on.some((kind) => DATABASE_KINDS.includes(kind))` */
  predicate AnyDatabaseKind(on: seq<ErrorKind>)
  {
    LockTimeout in on || Deadlock in on || Serialization in on
  }

  /** The checks before any transaction starts, in their order. */
  predicate Runnable<Ctx>(setup: Setup, steps: seq<SagaStep<Ctx>>, retry: Option<Policy>)
  {
    && (retry.Some? ==> ValidPolicy(retry.value))
    && DeclarationsOk(steps) && (DeclaresLocks(steps) ==> setup.hasLockPort)
    && (setup.outer.Some? ==>
          !setup.outer.value.holdsLocks && !setup.outer.value.retries && !DeclaresLocks(steps) && retry.None?)
    && (retry.Some? ==> setup.hasClassifier || forall k :: k in retry.value.on ==> k == StaleState)
    && (retry.Some? ==> !(setup.hasKey && setup.ledgerInProcess))
  }

  /** What a lock declaration must be before any key is resolved. */
  predicate DeclarationOk<Ctx>(d: LockDeclaration<Ctx>)
  {
    1 <= |d.namespace| <= MAX_NAMESPACE_LENGTH && (d.timeoutMs.Some? ==> IsLockTimeoutMs(d.timeoutMs.value))
  }

  predicate DeclarationsOk<Ctx>(steps: seq<SagaStep<Ctx>>)
  {
    forall i, j :: 0 <= i < |steps| && steps[i].TransactionStep? && 0 <= j < |steps[i].locks| ==>
      DeclarationOk(steps[i].locks[j])
  }

  /** Some step declares a lock, one that is declared wrongly if `wrongly`. */
  ghost predicate SomeLock<Ctx>(steps: seq<SagaStep<Ctx>>, wrongly: bool)
  {
    exists i: nat, j: nat :: LockIn(steps, i, j, wrongly)
  }

  predicate LockIn<Ctx>(steps: seq<SagaStep<Ctx>>, i: nat, j: nat, wrongly: bool)
  {
    && i < |steps| && steps[i].TransactionStep? && j < |steps[i].locks|
    && (wrongly ==> var d := steps[i].locks[j];
          d.namespace == [] || |d.namespace| > 200
          || (d.timeoutMs.Some? && !(1 <= d.timeoutMs.value <= 2_147_483_647)))
  }

  /**
   * What is refused: a bad policy; a lock without a lock port, or declared wrongly; locks or retries in a
   * unit of work that holds locks or is retried itself, or the other way round; and a policy that wants to
   * know database errors without a classifier, or that a ledger in process could not follow.
   */
  lemma RefusedExactly<Ctx>(setup: Setup, steps: seq<SagaStep<Ctx>>, retry: Option<Policy>)
    ensures !Runnable(setup, steps, retry) <==>
      || (retry.Some? && !ValidPolicy(retry.value))
      || (SomeLock(steps, false) && !setup.hasLockPort)
      || SomeLock(steps, true)
      || (setup.outer.Some?
          && (setup.outer.value.holdsLocks || setup.outer.value.retries || retry.Some? || SomeLock(steps, false)))
      || (retry.Some? && !setup.hasClassifier && exists k :: k in retry.value.on && k != StaleState)
      || (retry.Some? && setup.hasKey && setup.ledgerInProcess)
  {
    if DeclaresLocks(steps) {
      var i :| 0 <= i < |steps| && steps[i].TransactionStep? && steps[i].locks != [];
      assert LockIn(steps, i, 0, false);
    }
    if !DeclarationsOk(steps) {
      var i, j :| 0 <= i < |steps| && steps[i].TransactionStep? && 0 <= j < |steps[i].locks|
        && !DeclarationOk(steps[i].locks[j]);
      assert LockIn(steps, i, j, true);
    }
  }

  /** The outbound segments among the first `i`. */
  function OutboundsBefore<Ctx, R>(sys: System<Ctx, R>, i: nat): seq<nat>
    requires i <= |sys.segments|
  {
    if i == 0 then [] else OutboundsBefore(sys, i - 1) + if sys.segments[i - 1].OutboundSegment? then [i - 1] else []
  }

  lemma OutboundsGrow<Ctx, R>(sys: System<Ctx, R>, i: nat, reached: nat, called: bool)
    requires i < |sys.segments| && (called ==> sys.segments[i].OutboundSegment?)
    requires reached == if called || !sys.segments[i].OutboundSegment? then i + 1 else i
    ensures OutboundsBefore(sys, reached) == if called then OutboundsBefore(sys, i) + [i] else OutboundsBefore(sys, i)
  {
  }

  /** The units an observer saw committed, with their callbacks. */
  function Settled<R>(commits: seq<Commit<R>>): (settled: seq<(Label, seq<Callback>)>)
    ensures |settled| == |commits|
  {
    seq(|commits|, i requires 0 <= i < |commits| => (commits[i].name, commits[i].callbacks))
  }

  /** Nothing open, held or due; callbacks ran for the committed units, and for them alone; these calls went out. */
  ghost predicate Shows<R>(watch: Watch, commits: seq<Commit<R>>, out: seq<nat>)
  {
    Idle(watch) && watch.settled == Settled(commits) && watch.out == out
  }

  lemma UnitShows<Ctx(!new), R(!new)>(
      env: Environment<Ctx>, plan: UnitPlan, body: Body<Ctx, R>, before: Snapshot<Ctx, R>, first: nat,
      attempts: seq<Attempt<Ctx, R>>, after: Snapshot<Ctx, R>, result: Result<Option<R>, SagaError>,
      seen: Watch, out: seq<nat>)
    requires UnitDone(env, plan, body, before, first, attempts, after, result) && Shows(seen, before.commits, out)
    ensures Shows(Watched(seen, plan.name, attempts), after.commits, out)
  {
    if result.Ok? {
      RetryIsTransparent(env, plan, body, before, first, attempts, after, result);
    } else {
      UnitFails(env, plan, body, before, first, attempts, after, result);
    }
  }

  lemma OutboundsFromSegmentsOf<Ctx(!new), R(!new)>(sys: System<Ctx, R>, steps: seq<SagaStep<Ctx>>)
    requires Maximal(Groups(steps)) && sys.segments == Segmented(Groups(steps))
    ensures OnlyOutbound(sys)
  {
  }

  lemma ExecutedIsSolo<Ctx(!new), R(!new)>(
      sys: System<Ctx, R>, plan: UnitPlan, body: Body<Ctx, R>, here: Machine<Ctx, R>, next: Machine<Ctx, R>, first: nat,
      attempts: seq<Attempt<Ctx, R>>, result: Result<Option<R>, SagaError>)
    requires UnitAt(sys, here, next) == Some((plan, body)) && Next(sys, here, next)
    requires UnitDone(sys.env, plan, body, here.now, first, attempts, next.now, result)
    requires next.phase == PhaseAfter(sys, here.phase, next.now.replay, result)
    ensures SoloStep(sys, here, next, attempts)
  {
    assert Executed(sys, plan, body, here, next, attempts);
  }

  /** The machine has come to `here`, alone if nobody else touched the key. */
  ghost predicate On<Ctx(!new), R(!new)>(
      sys: System<Ctx, R>, path: seq<Machine<Ctx, R>>, history: seq<seq<Attempt<Ctx, R>>>, alone: bool,
      origin: Snapshot<Ctx, R>, here: Machine<Ctx, R>)
  {
    && Path(sys, path) && path[0].now == origin && path[|path| - 1] == here
    && (alone ==> SoloPath(sys, path, history))
  }

  predicate IsRun<R>(n: nat, history: seq<R>) { n == |history| }

  /** The same, as a name: it is unfolded by `TracedIsOn` alone. */
  ghost predicate Traced<Ctx(!new), R(!new)>(
      sys: System<Ctx, R>, path: seq<Machine<Ctx, R>>, history: seq<seq<Attempt<Ctx, R>>>, alone: bool,
      origin: Snapshot<Ctx, R>, here: Machine<Ctx, R>)
  {
    forall n: nat :: IsRun(n, history) ==> On(sys, path, history, alone, origin, here)
  }

  lemma TracedIsOn<Ctx(!new), R(!new)>(
      sys: System<Ctx, R>, path: seq<Machine<Ctx, R>>, history: seq<seq<Attempt<Ctx, R>>>, alone: bool,
      origin: Snapshot<Ctx, R>, here: Machine<Ctx, R>)
    ensures Traced(sys, path, history, alone, origin, here) <==> On(sys, path, history, alone, origin, here)
  {
    assert IsRun(|history|, history);
  }

  lemma {:induction false} OnNext<Ctx(!new), R(!new)>(
      sys: System<Ctx, R>, path: seq<Machine<Ctx, R>>, history: seq<seq<Attempt<Ctx, R>>>, alone: bool,
      origin: Snapshot<Ctx, R>, last: Machine<Ctx, R>, here: Machine<Ctx, R>, next: Machine<Ctx, R>,
      attempts: seq<Attempt<Ctx, R>>)
    requires Traced(sys, path, history, alone, origin, last) && here == WithEntry(last, here.now.entry)
    requires Next(sys, here, next)
    requires alone ==> here == last && SoloStep(sys, here, next, attempts)
    ensures Traced(sys, path + [next], history + [attempts], alone, origin, next)
  {
    TracedIsOn(sys, path, history, alone, origin, last);
    assert NextAmong(sys, last, next);
    assert (path + [next])[..|path|] == path;
    if alone { SoloGrows(sys, path, history, next, attempts); }
    TracedIsOn(sys, path + [next], history + [attempts], alone, origin, next);
  }

  /** A unit that was executed takes the run one step on. */
  lemma {:induction false} OnAfterUnit<Ctx(!new), R(!new)>(
      sys: System<Ctx, R>, path: seq<Machine<Ctx, R>>, history: seq<seq<Attempt<Ctx, R>>>, alone: bool,
      origin: Snapshot<Ctx, R>, last: Machine<Ctx, R>, here: Machine<Ctx, R>, next: Machine<Ctx, R>,
      plan: UnitPlan, body: Body<Ctx, R>, first: nat, attempts: seq<Attempt<Ctx, R>>,
      result: Result<Option<R>, SagaError>)
    requires Traced(sys, path, history, alone, origin, last) && here == WithEntry(last, here.now.entry)
    requires alone ==> here == last
    requires UnitAt(sys, here, next) == Some((plan, body)) && LocksFit(sys, here, next.locks)
    requires UnitDone(sys.env, plan, body, here.now, first, attempts, next.now, result)
    requires next.phase == PhaseAfter(sys, here.phase, next.now.replay, result)
    ensures Traced(sys, path + [next], history + [attempts], alone, origin, next)
  {
    DoneIsStep(sys.env, plan, body, here.now, first, attempts, next.now, result);
    UnitIsNext(sys, plan, body, here, next, result);
    ExecutedIsSolo(sys, plan, body, here, next, first, attempts, result);
    OnNext(sys, path, history, alone, origin, last, here, next, attempts);
  }

  lemma NothingIsAtomic<Ctx(!new), R(!new)>(sys: System<Ctx, R>, e: SagaError)
    ensures Atomic(sys, Over(Failed(e)), [])
  {
    assert PrefixCommitted(sys, [], 0);
  }

  /** What the end of a run says about it. */
  lemma {:induction false} RunEnds<Ctx(!new), R(!new)>(
      sys: System<Ctx, R>, path: seq<Machine<Ctx, R>>, history: seq<seq<Attempt<Ctx, R>>>, alone: bool,
      origin: Snapshot<Ctx, R>, end: Machine<Ctx, R>)
    requires OnlyOutbound(sys) && On(sys, path, history, alone, origin, end) && end.phase.Over?
    requires sys.env.mode == InProcess ==> sys.retry == None
    ensures Atomic(sys, end.phase, end.now.commits)
    ensures alone && sys.env.mode == InProcess && origin.entry == Free && end.phase.outcome.Failed? ==>
      |history| > 0 && FailedEntry(sys, path[|history| - 1], path[|history|], CallsOf(history[|history| - 1]))
  {
    RunIsAtomic(sys, path);
    if alone && sys.env.mode == InProcess && origin.entry == Free && end.phase.outcome.Failed? {
      FailedInProcess(sys, path, history);
    }
  }

  class SagaRunner<Ctx(!new), R(!new)> {
    const units: UnitOfWorkExecutor<Ctx, R>
    const maxLocks: nat
    const setup: Setup
    /** What other runs made of the ledger entry by the time of a step. */
    const others: (nat, LedgerEntry<R>) -> LedgerEntry<R>
    var lastLocks: seq<LockRequest>
    var moves: nat
    ghost var path: seq<Machine<Ctx, R>>
    ghost var history: seq<seq<Attempt<Ctx, R>>>
    ghost var origin: Snapshot<Ctx, R>

    constructor (
        units: UnitOfWorkExecutor<Ctx, R>, maxLocks: nat, setup: Setup, others: (nat, LedgerEntry<R>) -> LedgerEntry<R>)
      ensures this.units == units && this.maxLocks == maxLocks && this.setup == setup && this.others == others
    {
      this.units, this.maxLocks, this.setup, this.others := units, maxLocks, setup, others;
      lastLocks, moves, path, history, origin := [], 0, [], [], units.Now();
    }

    /** Nobody else touches the key. */
    ghost predicate Alone()
    {
      forall k, entry :: others(k, entry) == entry
    }

    /** The run is at `phase`, at the end of a path of the machine, and has made the calls `out`. */
    ghost predicate Reached(sys: System<Ctx, R>, phase: Phase<R>, out: seq<nat>)
      reads this, units
    {
      && Sound(sys) && Traced(sys, path, history, Alone(), origin, Machine(phase, lastLocks, units.Now()))
      && Shows(units.watch, units.commits, out)
    }

    ghost predicate Sound(sys: System<Ctx, R>)
    {
      sys.env == units.env && FairRandom(sys.env) && (sys.retry.Some? ==> ValidPolicy(sys.retry.value))
    }

    /** The state from which the next step starts: other runs may have changed the entry since. */
    ghost predicate Starting(sys: System<Ctx, R>, last: Machine<Ctx, R>, here: Machine<Ctx, R>, out: seq<nat>)
      reads this, units
    {
      && Sound(sys) && Traced(sys, path, history, Alone(), origin, last) && here == WithEntry(last, here.now.entry)
      && here == Machine(last.phase, lastLocks, units.Now()) && (Alone() ==> here == last)
      && Shows(units.watch, units.commits, out)
    }

    /** Other runs take their steps. */
    method Meanwhile(ghost sys: System<Ctx, R>, ghost phase: Phase<R>, ghost out: seq<nat>)
      returns (ghost last: Machine<Ctx, R>, ghost here: Machine<Ctx, R>)
      requires Reached(sys, phase, out)
      modifies this`moves, units`entry
      ensures Starting(sys, last, here, out) && here.phase == phase
    {
      last := Machine(phase, lastLocks, units.Now());
      units.entry := others(moves, units.entry);
      moves := moves + 1;
      here := Machine(phase, lastLocks, units.Now());
    }

    /** The machine takes the step that the run just took. */
    ghost method Move(
        sys: System<Ctx, R>, last: Machine<Ctx, R>, here: Machine<Ctx, R>, next: Machine<Ctx, R>,
        attempts: seq<Attempt<Ctx, R>>)
      requires Traced(sys, path, history, Alone(), origin, last) && here == WithEntry(last, here.now.entry)
      requires Next(sys, here, next)
      requires Alone() ==> here == last && SoloStep(sys, here, next, attempts)
      modifies this`path, this`history
      ensures Traced(sys, path, history, Alone(), origin, next)
    {
      OnNext(sys, path, history, Alone(), origin, last, here, next, attempts);
      path, history := path + [next], history + [attempts];
    }

    method RunUnit(plan: UnitPlan, body: Body<Ctx, R>, ghost out: seq<nat>)
      returns (result: Result<Option<R>, SagaError>, ghost first: nat, ghost attempts: seq<Attempt<Ctx, R>>)
      requires FairRandom(units.env) && (plan.retry.Some? ==> ValidPolicy(plan.retry.value))
      requires Shows(units.watch, units.commits, out)
      modifies units
      ensures UnitDone(units.env, plan, body, old(units.Now()), first, attempts, units.Now(), result)
      ensures Shows(units.watch, units.commits, out)
    {
      ghost var before, seen := units.Now(), units.watch;
      first := units.runs;
      result, attempts := units.Execute(plan, body);
      UnitShows(units.env, plan, body, before, first, attempts, units.Now(), result, seen, out);
    }

    ghost method MoveUnit(
        sys: System<Ctx, R>, plan: UnitPlan, body: Body<Ctx, R>, last: Machine<Ctx, R>, here: Machine<Ctx, R>,
        next: Machine<Ctx, R>, first: nat, attempts: seq<Attempt<Ctx, R>>, result: Result<Option<R>, SagaError>)
      requires Traced(sys, path, history, Alone(), origin, last) && here == WithEntry(last, here.now.entry)
      requires Alone() ==> here == last
      requires UnitAt(sys, here, next) == Some((plan, body)) && LocksFit(sys, here, next.locks)
      requires UnitDone(sys.env, plan, body, here.now, first, attempts, next.now, result)
      requires next.phase == PhaseAfter(sys, here.phase, next.now.replay, result)
      modifies this`path, this`history
      ensures Traced(sys, path, history, Alone(), origin, next)
    {
      OnAfterUnit(sys, path, history, Alone(), origin, last, here, next, plan, body, first, attempts, result);
      path, history := path + [next], history + [attempts];
    }

    /** Executes the unit of the step that starts from `here`, and takes the machine there. */
    method ExecuteUnit(
        sys: System<Ctx, R>, at: Phase<R>, plan: UnitPlan, body: Body<Ctx, R>, ghost last: Machine<Ctx, R>,
        ghost here: Machine<Ctx, R>, ghost out: seq<nat>)
      returns (phase: Phase<R>, ghost result: Result<Option<R>, SagaError>)
      requires Sound(sys) && Traced(sys, path, history, Alone(), origin, last)
      requires here == WithEntry(last, here.now.entry)
      requires here.now == units.Now() && (Alone() ==> here == last) && Shows(units.watch, units.commits, out)
      requires at == here.phase && plan.retry == sys.retry && LocksFit(sys, here, lastLocks)
      requires UnitAt(sys, here, here.(locks := lastLocks)) == Some((plan, body))
      modifies this`path, this`history, units
      ensures phase == PhaseAfter(sys, at, units.replay, result) && Reached(sys, phase, out)
    {
      ghost var first, attempts;
      var r;
      r, first, attempts := RunUnit(plan, body, out);
      result := r;
      phase := PhaseAfter(sys, at, units.replay, r);
      ghost var next := Machine(phase, lastLocks, units.Now());
      MoveUnit(sys, plan, body, last, here, next, first, attempts, r);
    }

    /** One transaction segment: its locks, its steps, and the reply if it is the last. */
    method RunTransaction(sys: System<Ctx, R>, i: nat, reply: Option<R>, ghost out: seq<nat>) returns (phase: Phase<R>)
      requires Reached(sys, At(i, reply), out) && i < |sys.segments| && sys.segments[i].TransactionSegment?
      modifies this`path, this`history, this`lastLocks, this`moves, units
      ensures Reached(sys, phase, out)
      ensures if phase.Over? then !phase.outcome.Replied? else phase.At? && phase.index == i + 1
    {
      ghost var last, here := Meanwhile(sys, At(i, reply), out);
      var locks := ResolveLocks(sys.segments[i].locks, units.ctx, sys.maxLocks);
      if locks.Err? {
        phase := Over(Failed(locks.error));
        UnresolvedIsNext(sys, i, here, locks.error);
        Move(sys, last, here, here.(phase := phase), []);
      } else {
        phase := RunLocked(sys, i, reply, locks.value, last, here, out);
      }
    }

    method RunLocked(
        sys: System<Ctx, R>, i: nat, reply: Option<R>, locks: seq<LockRequest>, ghost last: Machine<Ctx, R>,
        ghost here: Machine<Ctx, R>, ghost out: seq<nat>)
      returns (phase: Phase<R>)
      requires Starting(sys, last, here, out) && here.phase == At(i, reply)
      requires i < |sys.segments| && sys.segments[i].TransactionSegment?
      requires Resolves(sys.segments[i].locks, units.ctx, sys.maxLocks, Ok(locks))
      modifies this`path, this`history, this`lastLocks, this`moves, units
      ensures Reached(sys, phase, out)
      ensures if phase.Over? then !phase.outcome.Replied? else phase.At? && phase.index == i + 1
    {
      lastLocks := locks;
      ghost var result;
      phase, result := ExecuteUnit(
        sys, At(i, reply), Plan(sys, TxUnit(i), locks, i == 0), BodyOf(sys, i), last, here, out);
    }

    /** The claim before an outbound step of a run that has not claimed its key yet. */
    method ClaimFirst(sys: System<Ctx, R>, i: nat, reply: Option<R>, ghost out: seq<nat>) returns (phase: Phase<R>)
      requires Reached(sys, At(i, reply), out) && i < |sys.segments| && sys.segments[i].OutboundSegment?
      modifies this`path, this`history, this`lastLocks, this`moves, units
      ensures Reached(sys, phase, out)
      ensures if phase.Over? then !phase.outcome.Replied? else phase == Calling(i)
    {
      ghost var last, here := Meanwhile(sys, At(i, reply), out);
      phase := Calling(i);
      if sys.env.mode == Unkeyed || units.claimed {
        Move(sys, last, here, here.(phase := phase), []);
      } else {
        phase := RunClaim(sys, i, reply, last, here, out);
      }
    }

    method RunClaim(
        sys: System<Ctx, R>, i: nat, reply: Option<R>, ghost last: Machine<Ctx, R>, ghost here: Machine<Ctx, R>,
        ghost out: seq<nat>)
      returns (phase: Phase<R>)
      requires Starting(sys, last, here, out) && here.phase == At(i, reply)
      requires i < |sys.segments| && sys.segments[i].OutboundSegment? && sys.env.mode != Unkeyed && !units.claimed
      modifies this`path, this`history, this`lastLocks, this`moves, units
      ensures Reached(sys, phase, out)
      ensures if phase.Over? then !phase.outcome.Replied? else phase == Calling(i)
    {
      ghost var result;
      phase, result := ExecuteUnit(sys, At(i, reply), Plan(sys, ClaimUnit(i), [], i == 0), ClaimOnly, last, here, out);
    }

    /** The call is seen while nothing is open, held or due. */
    ghost method Announce(i: nat, out: seq<nat>)
      requires Shows(units.watch, units.commits, out)
      modifies units`watch
      ensures Shows(units.watch, units.commits, out + [i])
    {
      units.Note(CalledOut(i));
    }

    /** The outbound call itself, with nothing open, held or due. */
    method CallOut(sys: System<Ctx, R>, i: nat, ghost out: seq<nat>) returns (phase: Phase<R>)
      requires Reached(sys, Calling(i), out) && OutboundAt(sys, i)
      modifies this`path, this`history, this`lastLocks, this`moves, units
      ensures Reached(sys, phase, out + [i])
      ensures
        || phase == At(i + 1, None) || (phase.Over? && !phase.outcome.Replied?)
        || (phase.Compensating? && phase.index == i)
    {
      ghost var last, here := Meanwhile(sys, Calling(i), out);
      ghost var tick := units.tick;
      var step := sys.segments[i].step;
      var r := step.call(units.ctx, units.tick);
      Announce(i, out);
      units.tick := units.tick + 1;
      units.ctx := r.ctx;
      phase := AfterCall(step, i, r.failure, units.claimed);
      ghost var next := Machine(phase, lastLocks, units.Now());
      CallIsNext(sys, i, here, next, tick);
      Move(sys, last, here, next, []);
    }

    /** The unit that compensates a failed call and frees the key; the call's error is what the run ends with. */
    method Compensate(sys: System<Ctx, R>, i: nat, error: SagaError, ghost out: seq<nat>) returns (outcome: Outcome<R>)
      requires Reached(sys, Compensating(i, error), out) && OutboundAt(sys, i)
      modifies this`path, this`history, this`lastLocks, this`moves, units
      ensures Reached(sys, Over(outcome), out) && outcome.Failed?
    {
      ghost var last, here := Meanwhile(sys, Compensating(i, error), out);
      var step := sys.segments[i].step;
      var locks := if step.compensate.None? || !step.inheritLocks then [] else lastLocks;
      var plan := Plan(sys, CompensateUnit(i), locks, false);
      var phase;
      ghost var result;
      phase, result := ExecuteUnit(sys, Compensating(i, error), plan, Compensation(step.compensate), last, here, out);
      outcome := phase.outcome;
    }

    /** One outbound segment, with its claim and its compensation; `called` tells whether it was called. */
    method RunOutbound(sys: System<Ctx, R>, i: nat, reply: Option<R>, ghost out: seq<nat>)
      returns (phase: Phase<R>, ghost called: bool)
      requires OutboundAt(sys, i) && Reached(sys, At(i, reply), out)
      modifies this`path, this`history, this`lastLocks, this`moves, units
      ensures if phase.Over? then !phase.outcome.Replied? else phase == At(i + 1, None) && called
      ensures Reached(sys, phase, if called then out + [i] else out)
    {
      called := false;
      phase := ClaimFirst(sys, i, reply, out);
      if phase == Calling(i) {
        phase := CallOut(sys, i, out);
        called := true;
        if phase.Compensating? {
          var outcome := Compensate(sys, i, phase.error, out + [i]);
          phase := Over(outcome);
        }
      }
    }

    /** The end of a run whose last unit did not make the reply. */
    method FinishAfterOutbound(sys: System<Ctx, R>, ghost out: seq<nat>) returns (outcome: Outcome<R>)
      requires Reached(sys, At(|sys.segments|, None), out)
      modifies this`path, this`history, this`lastLocks, this`moves, units
      ensures Reached(sys, Over(outcome), out) && !outcome.Replayed?
    {
      ghost var last, here := Meanwhile(sys, At(|sys.segments|, None), out);
      var made := sys.reply(units.ctx, units.tick);
      var phase := AfterReply(made, units.claimed);
      assert FinishMove(sys, None, here, here.(phase := phase));
      Move(sys, last, here, here.(phase := phase), []);
      if phase.Recording? { outcome := RecordLate(sys, phase.value, out); } else { outcome := phase.outcome; }
    }

    method RecordLate(sys: System<Ctx, R>, value: R, ghost out: seq<nat>) returns (outcome: Outcome<R>)
      requires Reached(sys, Recording(value), out)
      modifies this`path, this`history, this`lastLocks, this`moves, units
      ensures Reached(sys, Over(outcome), out) && !outcome.Replayed?
    {
      ghost var last, here := Meanwhile(sys, Recording(value), out);
      var phase;
      ghost var result;
      phase, result := ExecuteUnit(
        sys, Recording(value), Plan(sys, RecordUnit, [], false), RecordReply(value), last, here, out);
      outcome := phase.outcome;
    }

    /** The last unit made the reply; the run ends with it. */
    ghost method EndWith(sys: System<Ctx, R>, reply: R, out: seq<nat>)
      requires Reached(sys, At(|sys.segments|, Some(reply)), out)
      modifies this`path, this`history
      ensures Reached(sys, Over(Replied(reply)), out)
    {
      var here := Machine(At(|sys.segments|, Some(reply)), lastLocks, units.Now());
      assert WithEntry(here, here.now.entry) == here;
      Move(sys, here, here, here.(phase := Over(Replied(reply))), []);
    }

    /** One segment of the walk; `called` tells whether an outbound call was made. */
    method RunSegment(sys: System<Ctx, R>, i: nat, reply: Option<R>, ghost out: seq<nat>)
      returns (phase: Phase<R>, ghost called: bool)
      requires OnlyOutbound(sys) && i < |sys.segments| && Reached(sys, At(i, reply), out)
      modifies this`path, this`history, this`lastLocks, this`moves, units
      ensures Reached(sys, phase, if called then out + [i] else out)
      ensures called ==> sys.segments[i].OutboundSegment?
      ensures
        if phase.Over? then !phase.outcome.Replied?
        else phase.At? && phase.index == i + 1 && (called <==> sys.segments[i].OutboundSegment?)
    {
      if sys.segments[i].OutboundSegment? {
        phase, called := RunOutbound(sys, i, reply, out);
      } else {
        called := false;
        phase := RunTransaction(sys, i, reply, out);
      }
    }

    /** The same; `reached` counts the segments whose calls were made. */
    method NextSegment(sys: System<Ctx, R>, i: nat, reply: Option<R>) returns (phase: Phase<R>, ghost reached: nat)
      requires OnlyOutbound(sys) && i < |sys.segments| && Reached(sys, At(i, reply), OutboundsBefore(sys, i))
      modifies this`path, this`history, this`lastLocks, this`moves, units
      ensures reached <= |sys.segments| && Reached(sys, phase, OutboundsBefore(sys, reached))
      ensures if phase.Over? then !phase.outcome.Replied? else phase.At? && phase.index == i + 1 == reached
    {
      ghost var called;
      phase, called := RunSegment(sys, i, reply, OutboundsBefore(sys, i));
      reached := if called || !sys.segments[i].OutboundSegment? then i + 1 else i;
      OutboundsGrow(sys, i, reached, called);
    }

    /** Walks the segments in order, until one ends the run. */
    method WalkSegments(sys: System<Ctx, R>) returns (phase: Phase<R>, ghost reached: nat)
      requires OnlyOutbound(sys) && Reached(sys, At(0, None), [])
      modifies this`path, this`history, this`lastLocks, this`moves, units
      ensures reached <= |sys.segments| && Reached(sys, phase, OutboundsBefore(sys, reached))
      ensures if phase.Over? then !phase.outcome.Replied? else phase.At? && phase.index == |sys.segments| == reached
    {
      phase, reached := At(0, None), 0;
      for i := 0 to |sys.segments|
        invariant phase.At? && phase.index == i == reached && Reached(sys, phase, OutboundsBefore(sys, reached))
      {
        phase, reached := NextSegment(sys, i, phase.reply);
        if phase.Over? { return; }
      }
    }

    /** The walk, and its end. The calls made are those of a prefix of the outbound segments, each once. */
    method Walk(sys: System<Ctx, R>) returns (outcome: Outcome<R>, ghost reached: nat)
      requires OnlyOutbound(sys) && Reached(sys, At(0, None), [])
      modifies this`path, this`history, this`lastLocks, this`moves, units
      ensures reached <= |sys.segments| && Reached(sys, Over(outcome), OutboundsBefore(sys, reached))
      ensures outcome.Replied? ==> reached == |sys.segments|
    {
      var phase;
      phase, reached := WalkSegments(sys);
      if phase.Over? {
        outcome := phase.outcome;
      } else if phase.reply.Some? {
        outcome := Replied(phase.reply.value);
        EndWith(sys, phase.reply.value, OutboundsBefore(sys, reached));
      } else {
        outcome := FinishAfterOutbound(sys, OutboundsBefore(sys, reached));
      }
    }

    /** A run that may start: from nothing, with no locks. */
    method Begin(sys: System<Ctx, R>) returns (outcome: Outcome<R>, ghost reached: nat)
      requires OnlyOutbound(sys) && Sound(sys) && Shows(units.watch, units.commits, [])
      requires units.commits == [] && !units.claimed && units.replay == None
      modifies this, units
      ensures origin == old(units.Now()) && reached <= |sys.segments|
      ensures Reached(sys, Over(outcome), OutboundsBefore(sys, reached))
      ensures outcome.Replied? ==> reached == |sys.segments|
    {
      lastLocks := [];
      origin := units.Now();
      path, history := [Machine(At(0, None), lastLocks, origin)], [];
      TracedIsOn(sys, path, history, Alone(), origin, path[0]);
      outcome, reached := Walk(sys);
    }

    /** Every declaration is well formed; `hasLocks` tells whether there is one. */
    method AssertLocks(steps: seq<SagaStep<Ctx>>) returns (ok: bool, hasLocks: bool)
      ensures ok <==> DeclarationsOk(steps) && (DeclaresLocks(steps) ==> setup.hasLockPort)
      ensures ok ==> (hasLocks <==> DeclaresLocks(steps))
    {
      hasLocks := false;
      for i := 0 to |steps|
        invariant hasLocks <==> DeclaresLocks(steps[..i])
        invariant DeclarationsOk(steps[..i])
      {
        if steps[i].TransactionStep? {
          var locks := steps[i].locks;
          for j := 0 to |locks|
            invariant forall k :: 0 <= k < j ==> DeclarationOk(locks[k])
          {
            if !DeclarationOk(locks[j]) { return false, hasLocks; }
            assert locks != [];
          }
          hasLocks := hasLocks || |locks| > 0;
        }
      }
      assert steps[..|steps|] == steps;
      ok := !hasLocks || setup.hasLockPort;
    }

    /** The checks before any transaction starts, in their order. */
    method AssertRunnable(steps: seq<SagaStep<Ctx>>, retry: Option<Policy>) returns (ok: bool)
      ensures ok <==> Runnable(setup, steps, retry)
      ensures ok && retry.Some? ==> ValidPolicy(retry.value) && !(setup.hasKey && setup.ledgerInProcess)
    {
      if retry.Some? {
        ok := ValidateRetryPolicy(retry.value);
        if !ok { return; }
      }
      var hasLocks;
      ok, hasLocks := AssertLocks(steps);
      if !ok { return; }
      if setup.outer.Some? && (setup.outer.value.holdsLocks || setup.outer.value.retries || hasLocks || retry.Some?) {
        return false;
      }
      ok := retry.None? || (AnyDatabaseKind(retry.value.on) ==> setup.hasClassifier);
      if retry.Some? && setup.hasKey && setup.ledgerInProcess { ok := false; }
    }

    /**
     * Runs a saga from nothing. Misuse ends it before anything happens; otherwise its states are a path of
     * the machine, whatever other runs do to the ledger entry meanwhile; its commits are a prefix of its
     * transaction segments, the callbacks that ran are those of the committed units, and the outbound calls
     * are those of a prefix of its segments, each once and none while a unit is open.
     */
    method Run(steps: seq<SagaStep<Ctx>>, reply: Reply<Ctx, R>, retry: Option<Policy>)
      returns (outcome: Outcome<R>, ghost sys: System<Ctx, R>, ghost reached: nat)
      requires Shows(units.watch, units.commits, []) && FairRandom(units.env)
      requires units.commits == [] && !units.claimed && units.replay == None
      requires units.env.mode == InProcess ==> setup.hasKey && setup.ledgerInProcess
      modifies this, units
      ensures Maximal(Groups(steps)) && sys == System(units.env, Segmented(Groups(steps)), reply, retry, maxLocks)
      ensures !Runnable(setup, steps, retry) ==>
        outcome == Failed(Usage) && units.Now() == old(units.Now()) && units.watch == old(units.watch)
      ensures Runnable(setup, steps, retry) ==>
        && origin == old(units.Now())
        && On(sys, path, history, Alone(), origin, Machine(Over(outcome), lastLocks, units.Now()))
      ensures
        && Runnable(setup, steps, retry) && Alone() && sys.env.mode == InProcess
        && old(units.entry) == Free && outcome.Failed? ==>
        |history| > 0 && FailedEntry(sys, path[|history| - 1], path[|history|], CallsOf(history[|history| - 1]))
      ensures reached <= |sys.segments| && Shows(units.watch, units.commits, OutboundsBefore(sys, reached))
      ensures outcome.Replied? ==> reached == |sys.segments|
      ensures Atomic(sys, Over(outcome), units.commits)
    {
      GroupsPartition(steps);
      var segments := SegmentsOf(steps);
      var s := System(units.env, segments, reply, retry, maxLocks);
      sys, reached := s, 0;
      OutboundsFromSegmentsOf(sys, steps);
      var runnable := AssertRunnable(steps, retry);
      if !runnable {
        outcome := Failed(Usage);
        NothingIsAtomic(sys, Usage);
      } else {
        outcome, reached := Begin(s);
        TracedIsOn(sys, path, history, Alone(), origin, Machine(Over(outcome), lastLocks, units.Now()));
        RunEnds(sys, path, history, Alone(), origin, Machine(Over(outcome), lastLocks, units.Now()));
      }
    }
  }
}
