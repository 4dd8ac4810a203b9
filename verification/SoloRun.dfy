/**
 * Runs nobody interferes with: the ledger entry changes only through the run itself, so each of its
 * steps is determined by what its unit did (src/saga/saga-runner.ts).
 */
module SoloRun {
  import opened Common
  import opened Saga
  import opened LockPort
  import opened Segments
  import opened UnitHistory
  import opened SagaRun
  import opened UnitEffects
  import opened SagaSafety

  /** The unit that a step from `m` to `m'` executes, if it executes one. */
  function UnitAt<Ctx, R>(
      sys: System<Ctx, R>, m: Machine<Ctx, R>, m': Machine<Ctx, R>): Option<(UnitPlan, Body<Ctx, R>)>
  {
    match m.phase
    case At(i, _) =>
      if i >= |sys.segments| then None
      else if sys.segments[i].TransactionSegment? then Some((Plan(sys, TxUnit(i), m'.locks, i == 0), BodyOf(sys, i)))
      else if sys.env.mode == Unkeyed || m.now.claimed then None
      else Some((Plan(sys, ClaimUnit(i), [], i == 0), ClaimOnly))
    case Compensating(i, _) => if OutboundAt(sys, i) then Some(CompensationAt(sys, i, m)) else None
    case Recording(v) => Some((Plan(sys, RecordUnit, [], false), RecordReply(v)))
    case _ => None
  }

  function CompensationAt<Ctx, R>(sys: System<Ctx, R>, i: nat, m: Machine<Ctx, R>): (UnitPlan, Body<Ctx, R>)
    requires OutboundAt(sys, i)
  {
    var step := sys.segments[i].step;
    var locks := if step.compensate.None? || !step.inheritLocks then [] else m.locks;
    (Plan(sys, CompensateUnit(i), locks, false), Compensation(step.compensate))
  }

  /** Where a unit that ended with `result` takes the run. */
  function PhaseAfter<Ctx, R>(
      sys: System<Ctx, R>, phase: Phase<R>, replay: Option<R>, result: Result<Option<R>, SagaError>): Phase<R>
  {
    match phase
    case At(i, _) =>
      if result.Err? then Over(Failed(result.error))
      else if replay.Some? then Over(Replayed(replay.value))
      else if i < |sys.segments| && sys.segments[i].TransactionSegment? then At(i + 1, result.value)
      else Calling(i)
    case Compensating(_, e) => Over(Failed(if result.Err? then result.error else e))
    case Recording(v) => Over(if result.Err? then Failed(result.error) else Replied(v))
    case _ => phase
  }

  /** The step executed this unit, with these attempts, and went where its result takes it. */
  ghost predicate Executed<Ctx(!new), R(!new)>(
      sys: System<Ctx, R>, plan: UnitPlan, body: Body<Ctx, R>, m: Machine<Ctx, R>, m': Machine<Ctx, R>,
      attempts: seq<Attempt<Ctx, R>>)
  {
    exists first, result ::
      && UnitDone(sys.env, plan, body, m.now, first, attempts, m'.now, result)
      && m'.phase == PhaseAfter(sys, m.phase, m'.now.replay, result)
  }

  ghost predicate ExecutedAt<Ctx(!new), R(!new)>(
      sys: System<Ctx, R>, unit: Option<(UnitPlan, Body<Ctx, R>)>, m: Machine<Ctx, R>, m': Machine<Ctx, R>,
      attempts: seq<Attempt<Ctx, R>>)
  {
    unit.Some? && Executed(sys, unit.value.0, unit.value.1, m, m', attempts)
  }

  /** The step executes no unit: none is due, or the locks of a segment are misused, which ends the run. */
  ghost predicate Unitless<Ctx(!new), R(!new)>(sys: System<Ctx, R>, m: Machine<Ctx, R>, m': Machine<Ctx, R>)
  {
    || UnitAt(sys, m, m').None?
    || (&& m.phase.At? && m.phase.index < |sys.segments| && sys.segments[m.phase.index].TransactionSegment?
        && m'.phase.Over? && m'.phase.outcome.Failed? && m' == m.(phase := m'.phase)
        && Resolves(sys.segments[m.phase.index].locks, m.now.ctx, sys.maxLocks, Err(m'.phase.outcome.error)))
  }

  ghost predicate SoloStep<Ctx(!new), R(!new)>(
      sys: System<Ctx, R>, m: Machine<Ctx, R>, m': Machine<Ctx, R>, attempts: seq<Attempt<Ctx, R>>)
  {
    && Next(sys, m, m')
    && ((attempts == [] && Unitless(sys, m, m')) || ExecutedAt(sys, UnitAt(sys, m, m'), m, m', attempts))
  }

  /** Without an attempt the entry and the commits stay. */
  lemma NoAttempt<Ctx(!new), R(!new)>(sys: System<Ctx, R>, m: Machine<Ctx, R>, m': Machine<Ctx, R>)
    requires SoloStep(sys, m, m', [])
    ensures m'.now.entry == m.now.entry && m'.now.commits == m.now.commits
  {
  }

  /** A run from a free key, with the attempts of each step. */
  ghost predicate SoloPath<Ctx(!new), R(!new)>(
      sys: System<Ctx, R>, path: seq<Machine<Ctx, R>>, history: seq<seq<Attempt<Ctx, R>>>)
  {
    |path| == |history| + 1 &&
    if |history| == 0 then Fresh(path[0])
    else
      && SoloPath(sys, path[..|history|], history[..|history| - 1])
      && SoloStep(sys, path[|history| - 1], path[|history|], history[|history| - 1])
  }

  lemma {:induction false} SoloIsPath<Ctx(!new), R(!new)>(
      sys: System<Ctx, R>, path: seq<Machine<Ctx, R>>, history: seq<seq<Attempt<Ctx, R>>>)
    requires SoloPath(sys, path, history)
    ensures Path(sys, path)
    decreases |history|
  {
    if |history| > 0 {
      var m, m' := path[|history| - 1], path[|history|];
      SoloIsPath(sys, path[..|history|], history[..|history| - 1]);
      assert WithEntry(m, m.now.entry) == m;
      assert NextAmong(sys, m, m');
    }
  }

  lemma {:induction false} SoloGrows<Ctx(!new), R(!new)>(
      sys: System<Ctx, R>, path: seq<Machine<Ctx, R>>, history: seq<seq<Attempt<Ctx, R>>>, m: Machine<Ctx, R>,
      attempts: seq<Attempt<Ctx, R>>)
    requires SoloPath(sys, path, history) && SoloStep(sys, path[|path| - 1], m, attempts)
    ensures SoloPath(sys, path + [m], history + [attempts])
  {
    var longer, more := path + [m], history + [attempts];
    assert longer[..|more|] == path && more[..|more| - 1] == history;
    assert longer[|more| - 1] == path[|path| - 1] && longer[|more|] == m && more[|more| - 1] == attempts;
  }

  // ---- What each kind of step amounts to, as a step of the machine.

  lemma UnresolvedIsNext<Ctx(!new), R(!new)>(sys: System<Ctx, R>, i: nat, here: Machine<Ctx, R>, e: SagaError)
    requires here.phase.At? && here.phase.index == i < |sys.segments| && sys.segments[i].TransactionSegment?
    requires Resolves(sys.segments[i].locks, here.now.ctx, sys.maxLocks, Err(e))
    ensures Next(sys, here, here.(phase := Over(Failed(e))))
  {
    assert TransactionMove(sys, i, here, here.(phase := Over(Failed(e))));
  }

  lemma TransactionIsNext<Ctx(!new), R(!new)>(
      sys: System<Ctx, R>, i: nat, here: Machine<Ctx, R>, next: Machine<Ctx, R>, result: Result<Option<R>, SagaError>)
    requires here.phase.At? && here.phase.index == i < |sys.segments| && sys.segments[i].TransactionSegment?
    requires Resolves(sys.segments[i].locks, here.now.ctx, sys.maxLocks, Ok(next.locks))
    requires TransactionEnds(sys, i, here, next, result)
    ensures Next(sys, here, next)
  {
    assert TransactionMove(sys, i, here, next);
  }

  lemma ClaimIsNext<Ctx(!new), R(!new)>(
      sys: System<Ctx, R>, i: nat, here: Machine<Ctx, R>, next: Machine<Ctx, R>, result: Result<Option<R>, SagaError>)
    requires here.phase.At? && here.phase.index == i < |sys.segments| && sys.segments[i].OutboundSegment?
    requires sys.env.mode != Unkeyed && !here.now.claimed && ClaimEnds(sys, i, here, next, result)
    ensures Next(sys, here, next)
  {
    assert ClaimMove(sys, i, here, next);
  }

  /** Where an outbound call takes the run. */
  function AfterCall<Ctx, R>(step: SagaStep<Ctx>, i: nat, failure: Option<SagaError>, claimed: bool): Phase<R>
    requires step.OutboundStep?
  {
    match failure
    case None => At(i + 1, None)
    case Some(e) => if step.compensate.None? && !claimed then Over(Failed(e)) else Compensating(i, e)
  }

  lemma CallIsNext<Ctx(!new), R(!new)>(
      sys: System<Ctx, R>, i: nat, here: Machine<Ctx, R>, next: Machine<Ctx, R>, tick: nat)
    requires here.phase == Calling(i) && OutboundAt(sys, i)
    requires var r := sys.segments[i].step.call(here.now.ctx, tick);
      && next.now == here.now.(ctx := r.ctx) && next.locks == here.locks
      && next.phase == AfterCall(sys.segments[i].step, i, r.failure, here.now.claimed)
    ensures Next(sys, here, next)
  {
    var step := sys.segments[i].step;
    assert OutboundEnds(step, i, here, next, step.call(here.now.ctx, tick));
    assert OutboundMove(step, i, here, next);
  }

  lemma CompensationIsNext<Ctx(!new), R(!new)>(
      sys: System<Ctx, R>, i: nat, e: SagaError, here: Machine<Ctx, R>, next: Machine<Ctx, R>,
      result: Result<Option<R>, SagaError>)
    requires here.phase == Compensating(i, e) && OutboundAt(sys, i) && next.locks == here.locks
    requires var unit := CompensationAt(sys, i, here);
      UnitStep(sys.env, unit.0, unit.1, here.now, next.now, result)
    requires next.phase == Over(Failed(if result.Err? then result.error else e))
    ensures Next(sys, here, next)
  {
    assert CompensationEnds(sys, sys.segments[i].step, i, e, here, next, result);
  }

  /** The locks that the unit of this step takes. */
  ghost predicate LocksFit<Ctx(!new), R(!new)>(sys: System<Ctx, R>, here: Machine<Ctx, R>, locks: seq<LockRequest>)
  {
    if here.phase.At? && here.phase.index < |sys.segments| && sys.segments[here.phase.index].TransactionSegment?
    then Resolves(sys.segments[here.phase.index].locks, here.now.ctx, sys.maxLocks, Ok(locks))
    else locks == here.locks
  }

  /** A unit that was executed is a step of the machine. */
  lemma UnitIsNext<Ctx(!new), R(!new)>(
      sys: System<Ctx, R>, plan: UnitPlan, body: Body<Ctx, R>, here: Machine<Ctx, R>, next: Machine<Ctx, R>,
      result: Result<Option<R>, SagaError>)
    requires UnitAt(sys, here, next) == Some((plan, body)) && LocksFit(sys, here, next.locks)
    requires UnitStep(sys.env, plan, body, here.now, next.now, result)
    requires next.phase == PhaseAfter(sys, here.phase, next.now.replay, result)
    ensures Next(sys, here, next)
  {
    match here.phase
    case At(i, _) =>
      if sys.segments[i].TransactionSegment? {
        TransactionIsNext(sys, i, here, next, result);
      } else {
        ClaimIsNext(sys, i, here, next, result);
      }
    case Compensating(i, e) => CompensationIsNext(sys, i, e, here, next, result);
    case Recording(v) => assert RecordEnds(sys, v, here, next, result);
    case _ =>
  }

  /** The other way round: a step without a unit, or one. */
  lemma NextIsUnit<Ctx(!new), R(!new)>(sys: System<Ctx, R>, m: Machine<Ctx, R>, m': Machine<Ctx, R>)
    returns (result: Result<Option<R>, SagaError>)
    requires Next(sys, m, m') && !Unitless(sys, m, m')
    ensures UnitAt(sys, m, m').Some?
    ensures var (plan, body) := UnitAt(sys, m, m').value; UnitStep(sys.env, plan, body, m.now, m'.now, result)
    ensures m'.phase == PhaseAfter(sys, m.phase, m'.now.replay, result)
  {
    match m.phase
    case At(i, _) =>
      if sys.segments[i].TransactionSegment? {
        result :| TransactionEnds(sys, i, m, m', result);
      } else {
        result :| ClaimEnds(sys, i, m, m', result);
      }
    case Compensating(i, e) => result :| CompensationEnds(sys, sys.segments[i].step, i, e, m, m', result);
    case Recording(v) => result :| RecordEnds(sys, v, m, m', result);
    case _ =>
  }

  /** A unit without a retry policy that makes this attempt. */
  lemma OneAttemptDone<Ctx(!new), R(!new)>(
      env: Environment<Ctx>, plan: UnitPlan, body: Body<Ctx, R>, before: Snapshot<Ctx, R>, first: nat,
      a: Attempt<Ctx, R>)
    requires plan.retry == None && AttemptRuns(env, plan, body, before, None, a) && Matches(env.port(first), a)
    ensures UnitDone(
      env, plan, body, before, first, [a], AfterAttempt(env.mode, plan.name, before, a), Wrapped(env, EndOf(a)))
  {
    assert [a][..0] == [];
    assert UnitRuns(env, plan, body, before, None, first, [a][..0]);
  }

  /** A unit that makes this one attempt is a step. */
  lemma ExecutedStep<Ctx(!new), R(!new)>(
      sys: System<Ctx, R>, plan: UnitPlan, body: Body<Ctx, R>, m: Machine<Ctx, R>, m': Machine<Ctx, R>,
      first: nat, a: Attempt<Ctx, R>)
    requires UnitAt(sys, m, m') == Some((plan, body)) && plan.retry == None && Matches(sys.env.port(first), a)
    requires AttemptRuns(sys.env, plan, body, m.now, None, a)
    requires m'.now == AfterAttempt(sys.env.mode, plan.name, m.now, a)
    requires m'.phase == PhaseAfter(sys, m.phase, m'.now.replay, Wrapped(sys.env, EndOf(a)))
    requires LocksFit(sys, m, m'.locks)
    ensures SoloStep(sys, m, m', [a])
  {
    OneAttemptDone(sys.env, plan, body, m.now, first, a);
    DoneIsStep(sys.env, plan, body, m.now, first, [a], m'.now, Wrapped(sys.env, EndOf(a)));
    UnitIsNext(sys, plan, body, m, m', Wrapped(sys.env, EndOf(a)));
    assert Executed(sys, plan, body, m, m', [a]);
  }
}
