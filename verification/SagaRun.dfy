/**
 * One saga run as a state machine (src/saga/saga-runner.ts): a step is one unit of work, one outbound
 * call, or the reply. Between steps other runs may change the ledger entry. The lemmas show what the
 * commits of a run amount to after any number of steps.
 */
module SagaRun {
  import opened Common
  import opened LockPort
  import opened RetryPolicy
  import opened Saga
  import opened Segments
  import opened UnitHistory
  import opened UnitAmong

  datatype System<!Ctx, !R> = System(
    env: Environment<Ctx>, segments: seq<Segment<Ctx>>, reply: Reply<Ctx, R>, retry: Option<Policy>, maxLocks: nat)

  datatype Outcome<R> = Replied(value: R) | Replayed(value: R) | Failed(error: SagaError)

  datatype Phase<R> =
    | At(index: nat, reply: Option<R>)
    | Calling(index: nat)
    | Compensating(index: nat, error: SagaError)
    | Recording(value: R)
    | Over(outcome: Outcome<R>)

  /** `locks` are those of the last transaction segment; `now.commits` are the commits of this run. */
  datatype Machine<Ctx, R> = Machine(phase: Phase<R>, locks: seq<LockRequest>, now: Snapshot<Ctx, R>)

  function BodyOf<Ctx, R>(sys: System<Ctx, R>, i: nat): Body<Ctx, R>
    requires i < |sys.segments| && sys.segments[i].TransactionSegment?
  {
    Transaction(sys.segments[i].steps, if i == |sys.segments| - 1 then Some(sys.reply) else None)
  }

  /**
   * A unit, as `UnitOfWorkExecutor.Execute` does it, with other runs between its calls; the step stands
   * where the last call does. A ledger in process can be changed by other runs even while a call runs,
   * so there only what does not depend on its entry is kept.
   */
  ghost predicate UnitStep<Ctx(!new), R(!new)>(
      env: Environment<Ctx>, plan: UnitPlan, body: Body<Ctx, R>, before: Snapshot<Ctx, R>, after: Snapshot<Ctx, R>,
      result: Result<Option<R>, SagaError>)
  {
    if env.mode == InProcess then LooseUnit(env, plan, body, before, after, result)
    else exists first, attempts :: DoneAmong(env, plan, body, before, first, attempts, after, result)
  }

  ghost predicate LooseUnit<Ctx(!new), R(!new)>(
      env: Environment<Ctx>, plan: UnitPlan, body: Body<Ctx, R>, before: Snapshot<Ctx, R>, after: Snapshot<Ctx, R>,
      result: Result<Option<R>, SagaError>)
  {
    match result
    case Ok(value) => exists run :: UnitCommits(env, plan, body, run, before, after, value)
    case Err(_) => LeavesNothing(env.mode, before, after)
  }

  lemma DoneIsLoose<Ctx(!new), R(!new)>(
      env: Environment<Ctx>, plan: UnitPlan, body: Body<Ctx, R>, before: Snapshot<Ctx, R>, first: nat,
      attempts: seq<Attempt<Ctx, R>>, after: Snapshot<Ctx, R>, result: Result<Option<R>, SagaError>)
    requires UnitDone(env, plan, body, before, first, attempts, after, result)
    ensures LooseUnit(env, plan, body, before, after, result)
  {
    if result.Ok? {
      RetryIsTransparent(env, plan, body, before, first, attempts, after, result);
    } else {
      UnitFails(env, plan, body, before, first, attempts, after, result);
    }
  }

  lemma AmongIsLoose<Ctx(!new), R(!new)>(
      env: Environment<Ctx>, plan: UnitPlan, body: Body<Ctx, R>, before: Snapshot<Ctx, R>, first: nat,
      attempts: seq<Attempt<Ctx, R>>, after: Snapshot<Ctx, R>, result: Result<Option<R>, SagaError>)
    requires DoneAmong(env, plan, body, before, first, attempts, after, result)
    ensures LooseUnit(env, plan, body, before, after, result)
  {
    if result.Ok? {
      AmongCommits(env, plan, body, before, first, attempts, after, result);
    } else {
      AmongFails(env, plan, body, before, first, attempts, after, result);
    }
  }

  lemma StepIsLoose<Ctx(!new), R(!new)>(
      env: Environment<Ctx>, plan: UnitPlan, body: Body<Ctx, R>, before: Snapshot<Ctx, R>, after: Snapshot<Ctx, R>,
      result: Result<Option<R>, SagaError>)
    requires UnitStep(env, plan, body, before, after, result)
    ensures LooseUnit(env, plan, body, before, after, result)
  {
    if env.mode != InProcess {
      var first: nat, attempts :| DoneAmong(env, plan, body, before, first, attempts, after, result);
      AmongIsLoose(env, plan, body, before, first, attempts, after, result);
    }
  }

  /** A unit that nobody comes between is a step. */
  lemma DoneIsStep<Ctx(!new), R(!new)>(
      env: Environment<Ctx>, plan: UnitPlan, body: Body<Ctx, R>, before: Snapshot<Ctx, R>, first: nat,
      attempts: seq<Attempt<Ctx, R>>, after: Snapshot<Ctx, R>, result: Result<Option<R>, SagaError>)
    requires UnitDone(env, plan, body, before, first, attempts, after, result)
    ensures UnitStep(env, plan, body, before, after, result)
  {
    if env.mode == InProcess {
      DoneIsLoose(env, plan, body, before, first, attempts, after, result);
    } else {
      AloneIsAmong(env, plan, body, before, first, attempts, after, result);
    }
  }

  function Plan<Ctx, R>(sys: System<Ctx, R>, name: Label, locks: seq<LockRequest>, first: bool): UnitPlan
  {
    UnitPlan(name, locks, sys.retry, first)
  }

  /** After the unit of segment `i`: stop on a failure or a replay, go on otherwise. */
  function AfterTransaction<R>(i: nat, result: Result<Option<R>, SagaError>, replay: Option<R>): Phase<R>
  {
    match result
    case Err(e) => Over(Failed(e))
    case Ok(value) => if replay.Some? then Over(Replayed(replay.value)) else At(i + 1, value)
  }

  ghost predicate TransactionEnds<Ctx(!new), R(!new)>(
      sys: System<Ctx, R>, i: nat, m: Machine<Ctx, R>, m': Machine<Ctx, R>, result: Result<Option<R>, SagaError>)
    requires i < |sys.segments| && sys.segments[i].TransactionSegment?
  {
    && UnitStep(sys.env, Plan(sys, TxUnit(i), m'.locks, i == 0), BodyOf(sys, i), m.now, m'.now, result)
    && m'.phase == AfterTransaction(i, result, m'.now.replay)
  }

  /** The locks are resolved first; a declaration that cannot be resolved ends the run. */
  ghost predicate TransactionMove<Ctx(!new), R(!new)>(
      sys: System<Ctx, R>, i: nat, m: Machine<Ctx, R>, m': Machine<Ctx, R>)
    requires i < |sys.segments| && sys.segments[i].TransactionSegment?
  {
    var declared := sys.segments[i].locks;
    || (exists e :: Resolves(declared, m.now.ctx, sys.maxLocks, Err(e)) && m' == m.(phase := Over(Failed(e))))
    || (&& Resolves(declared, m.now.ctx, sys.maxLocks, Ok(m'.locks))
        && exists result :: TransactionEnds(sys, i, m, m', result))
  }

  ghost predicate ClaimEnds<Ctx(!new), R(!new)>(
      sys: System<Ctx, R>, i: nat, m: Machine<Ctx, R>, m': Machine<Ctx, R>, result: Result<Option<R>, SagaError>)
  {
    && UnitStep(sys.env, Plan(sys, ClaimUnit(i), [], i == 0), ClaimOnly, m.now, m'.now, result)
    && m'.locks == m.locks
    && m'.phase == match result
                   case Err(e) => Over(Failed(e))
                   case Ok(_) => if m'.now.replay.Some? then Over(Replayed(m'.now.replay.value)) else Calling(i)
  }

  /** A saga that opens with an outbound step claims its key in a unit of its own. */
  ghost predicate ClaimMove<Ctx(!new), R(!new)>(sys: System<Ctx, R>, i: nat, m: Machine<Ctx, R>, m': Machine<Ctx, R>)
  {
    if sys.env.mode == Unkeyed || m.now.claimed then m' == m.(phase := Calling(i))
    else exists result :: ClaimEnds(sys, i, m, m', result)
  }

  /** The outbound call: no unit is open, and a failure leads to its compensation. */
  ghost predicate OutboundMove<Ctx(!new), R(!new)>(step: SagaStep<Ctx>, i: nat, m: Machine<Ctx, R>, m': Machine<Ctx, R>)
    requires step.OutboundStep?
  {
    m'.locks == m.locks && exists tick: nat :: OutboundEnds(step, i, m, m', step.call(m.now.ctx, tick))
  }

  ghost predicate OutboundEnds<Ctx(!new), R(!new)>(
      step: SagaStep<Ctx>, i: nat, m: Machine<Ctx, R>, m': Machine<Ctx, R>, r: OutboundResult<Ctx>)
    requires step.OutboundStep?
  {
    && m'.now == m.now.(ctx := r.ctx)
    && m'.phase ==
       match r.failure
       case None => At(i + 1, None)
       case Some(e) => if step.compensate.None? && !m.now.claimed then Over(Failed(e)) else Compensating(i, e)
  }

  ghost predicate CompensationEnds<Ctx(!new), R(!new)>(
      sys: System<Ctx, R>, step: SagaStep<Ctx>, i: nat, e: SagaError, m: Machine<Ctx, R>, m': Machine<Ctx, R>,
      result: Result<Option<R>, SagaError>)
    requires step.OutboundStep?
  {
    var locks := if step.compensate.None? || !step.inheritLocks then [] else m.locks;
    && UnitStep(
         sys.env, Plan(sys, CompensateUnit(i), locks, false), Compensation(step.compensate), m.now, m'.now, result)
    && m'.locks == m.locks
    && m'.phase == Over(Failed(match result case Err(e') => e' case Ok(_) => e))
  }

  /** The compensation of the failing step, with the locks it inherits; it also frees the key. */
  ghost predicate CompensateMove<Ctx(!new), R(!new)>(
      sys: System<Ctx, R>, step: SagaStep<Ctx>, i: nat, e: SagaError, m: Machine<Ctx, R>, m': Machine<Ctx, R>)
    requires step.OutboundStep?
  {
    exists result :: CompensationEnds(sys, step, i, e, m, m', result)
  }

  /** The end of the walk: the reply is the one the last unit recorded, or it is made and recorded now. */
  ghost predicate FinishMove<Ctx(!new), R(!new)>(
      sys: System<Ctx, R>, reply: Option<R>, m: Machine<Ctx, R>, m': Machine<Ctx, R>)
  {
    m'.now == m.now && m'.locks == m.locks &&
    match reply
    case Some(v) => m'.phase == Over(Replied(v))
    case None => exists tick: nat :: m'.phase == AfterReply(sys.reply(m.now.ctx, tick), m.now.claimed)
  }

  function AfterReply<R>(made: Result<R, SagaError>, claimed: bool): Phase<R>
  {
    match made
    case Err(e) => Over(Failed(e))
    case Ok(v) => if claimed then Recording(v) else Over(Replied(v))
  }

  ghost predicate RecordEnds<Ctx(!new), R(!new)>(
      sys: System<Ctx, R>, value: R, m: Machine<Ctx, R>, m': Machine<Ctx, R>, result: Result<Option<R>, SagaError>)
  {
    && UnitStep(sys.env, Plan(sys, RecordUnit, [], false), RecordReply(value), m.now, m'.now, result)
    && m'.locks == m.locks
    && m'.phase == Over(match result case Err(e) => Failed(e) case Ok(_) => Replied(value))
  }

  ghost predicate RecordMove<Ctx(!new), R(!new)>(sys: System<Ctx, R>, value: R, m: Machine<Ctx, R>, m': Machine<Ctx, R>)
  {
    exists result :: RecordEnds(sys, value, m, m', result)
  }

  ghost predicate Next<Ctx(!new), R(!new)>(sys: System<Ctx, R>, m: Machine<Ctx, R>, m': Machine<Ctx, R>)
  {
    var n := |sys.segments|;
    match m.phase
    case At(i, reply) =>
      if i < n then
        if sys.segments[i].TransactionSegment? then TransactionMove(sys, i, m, m') else ClaimMove(sys, i, m, m')
      else FinishMove(sys, reply, m, m')
    case Calling(i) =>
      i < n && sys.segments[i].OutboundSegment? && sys.segments[i].step.OutboundStep?
      && OutboundMove(sys.segments[i].step, i, m, m')
    case Compensating(i, e) =>
      i < n && sys.segments[i].OutboundSegment? && sys.segments[i].step.OutboundStep?
      && CompensateMove(sys, sys.segments[i].step, i, e, m, m')
    case Recording(v) => RecordMove(sys, v, m, m')
    case Over(_) => false
  }
}
