/**
 * What follows an outbound call that fails (src/saga/saga-runner.ts): the run ends at once only if there is
 * neither a compensation nor a key; otherwise one unit compensates the call and frees the key, and the run
 * ends with the error of the call, or with that of this unit if it fails.
 */
module FailedCalls {
  import opened Common
  import opened Saga
  import opened Segments
  import opened UnitHistory
  import opened UnitAmong
  import opened SagaRun
  import opened UnitEffects
  import opened SagaSafety
  import opened SoloRun
  import opened CheckpointRule

  /** The call of outbound `i`, with this tick, took the run from `m` to `m'`. */
  ghost predicate CallWent<Ctx(!new), R(!new)>(
      sys: System<Ctx, R>, i: nat, m: Machine<Ctx, R>, m': Machine<Ctx, R>, tick: nat)
    requires OutboundAt(sys, i)
  {
    var step := sys.segments[i].step;
    var r := step.call(m.now.ctx, tick);
    && m'.now.ctx == r.ctx && m'.now.commits == m.now.commits
    && (r.failure == None ==> m'.phase == At(i + 1, None))
    && (r.failure.Some? ==>
          if step.compensate == None && sys.env.mode == Unkeyed then m'.phase == Over(Failed(r.failure.value))
          else m'.phase == Compensating(i, r.failure.value))
  }

  /** A call that fails in a run with a key, or with a compensation, is always followed by its unit. */
  lemma {:induction false} CallsAreCompensated<Ctx(!new), R(!new)>(
      sys: System<Ctx, R>, path: seq<Machine<Ctx, R>>, k: nat, i: nat) returns (tick: nat)
    requires OnlyOutbound(sys) && Path(sys, path) && k + 1 < |path| && path[k].phase == Calling(i)
    ensures OutboundAt(sys, i) && CallWent(sys, i, path[k], path[k + 1], tick)
  {
    PathIsStepwise(sys, path);
    assert StepAt(sys, path, k);
    StageAt(sys, path, k);
    var entry :| Next(sys, WithEntry(path[k], entry), path[k + 1]);
    var step := sys.segments[i].step;
    tick :| OutboundEnds(step, i, WithEntry(path[k], entry), path[k + 1], step.call(path[k].now.ctx, tick));
  }

  lemma {:induction false} StageAt<Ctx(!new), R(!new)>(sys: System<Ctx, R>, path: seq<Machine<Ctx, R>>, k: nat)
    requires OnlyOutbound(sys) && Path(sys, path) && k < |path|
    ensures Stage(sys, path[k])
    decreases |path|
  {
    if k + 1 < |path| { StageAt(sys, path[..|path| - 1], k); } else { PathKeepsStage(sys, path); }
  }

  /** The compensation of outbound `i` is committed, with all its writes, and the key freed with it. */
  ghost predicate Compensated<Ctx(!new), R(!new)>(
      sys: System<Ctx, R>, i: nat, before: seq<Commit<R>>, after: seq<Commit<R>>)
    requires OutboundAt(sys, i)
  {
    && |after| == |before| + 1 && after[..|before|] == before
    && var c := after[|before|];
       && c.name == CompensateUnit(i) && c.ops == (if sys.env.mode == InDatabase then [Release] else [])
       && exists ctx ::
            RanWhole(CompensationSteps(sys.segments[i].step.compensate), ctx, c.tick, c.writes, c.callbacks)
  }

  /**
   * The unit that follows a failed call is always made, and the run ends with it: with the call's error if
   * it commits, else with its own, and with nothing more committed.
   */
  lemma {:induction false} CompensationEndsRun<Ctx(!new), R(!new)>(
      sys: System<Ctx, R>, path: seq<Machine<Ctx, R>>, k: nat, i: nat, e: SagaError, first: nat,
      attempts: seq<Attempt<Ctx, R>>)
    requires OnlyOutbound(sys) && Path(sys, path) && k + 1 < |path| && path[k].phase == Compensating(i, e)
    requires Made(sys, path[k], path[k + 1], first, attempts)
    ensures OutboundAt(sys, i) && |attempts| > 0
    ensures var end := EndOf(attempts[|attempts| - 1]);
      if end.Ok? then
        path[k + 1].phase == Over(Failed(e)) && Compensated(sys, i, path[k].now.commits, path[k + 1].now.commits)
      else
        && path[k + 1].phase == Over(Failed(Named(sys.env.classifier, end.error)))
        && path[k + 1].now.commits == path[k].now.commits
  {
    StageAt(sys, path, k);
    var entry, result :| MadeOn(sys, path[k], path[k + 1], entry, first, attempts, result);
    CompensationMade(sys, i, e, path[k], path[k + 1], entry, first, attempts, result);
  }

  lemma CompensationMade<Ctx(!new), R(!new)>(
      sys: System<Ctx, R>, i: nat, e: SagaError, m: Machine<Ctx, R>, m': Machine<Ctx, R>, entry: LedgerEntry<R>,
      first: nat, attempts: seq<Attempt<Ctx, R>>, result: Result<Option<R>, SagaError>)
    requires Stage(sys, m) && m.phase == Compensating(i, e)
    requires MadeOn(sys, m, m', entry, first, attempts, result)
    ensures |attempts| > 0 && (result.Ok? <==> EndOf(attempts[|attempts| - 1]).Ok?)
    ensures result.Ok? ==> m'.phase == Over(Failed(e)) && Compensated(sys, i, m.now.commits, m'.now.commits)
    ensures result.Err? ==> m'.phase == Over(Failed(Named(sys.env.classifier, EndOf(attempts[|attempts| - 1]).error)))
    ensures result.Err? ==> m'.now.commits == m.now.commits
  {
    var here := WithEntry(m, entry);
    var (plan, body) := UnitAt(sys, here, m').value;
    var step := sys.segments[i].step;
    MadeIsLoose(sys, m, m', entry, first, attempts, result);
    if result.Ok? {
      var run :| UnitCommits(sys.env, plan, body, run, here.now, m'.now, result.value);
      CallAlone(sys.env, plan, body, run);
      CompensationCall(
        sys.env.mode, |plan.locks|, sys.env.lockFate(run.tick), step.compensate, run.from, run.tick);
      var c := m'.now.commits[|m.now.commits|];
      assert RanWhole(CompensationSteps(step.compensate), run.from.ctx, c.tick, c.writes, c.callbacks);
    }
  }

  lemma MadeIsLoose<Ctx(!new), R(!new)>(
      sys: System<Ctx, R>, m: Machine<Ctx, R>, m': Machine<Ctx, R>, entry: LedgerEntry<R>, first: nat,
      attempts: seq<Attempt<Ctx, R>>, result: Result<Option<R>, SagaError>)
    requires MadeOn(sys, m, m', entry, first, attempts, result)
    ensures var (plan, body) := UnitAt(sys, WithEntry(m, entry), m').value;
      LooseUnit(sys.env, plan, body, WithEntry(m, entry).now, m'.now, result)
  {
    var here := WithEntry(m, entry);
    var (plan, body) := UnitAt(sys, here, m').value;
    if UnitDone(sys.env, plan, body, here.now, first, attempts, m'.now, result) {
      DoneIsLoose(sys.env, plan, body, here.now, first, attempts, m'.now, result);
    } else {
      AmongIsLoose(sys.env, plan, body, here.now, first, attempts, m'.now, result);
    }
  }
}
