/**
 * What a ctx that cannot be checkpointed means for a run with a retry policy (src/saga/saga-runner.ts,
 * src/saga/unit-of-work.ts): before anything happened the run ends, and nothing is begun; afterwards each
 * unit, a compensation or the record of the reply too, is still made, once.
 */
module CheckpointRule {
  import opened Common
  import opened Saga
  import opened UnitHistory
  import opened UnitAmong
  import opened SagaRun
  import opened SagaSafety
  import opened SoloRun

  /** The step executed its unit with these runs of the port, from run `first` on, on the row `entry`. */
  ghost predicate MadeOn<Ctx(!new), R(!new)>(
      sys: System<Ctx, R>, m: Machine<Ctx, R>, m': Machine<Ctx, R>, entry: LedgerEntry<R>, first: nat,
      attempts: seq<Attempt<Ctx, R>>, result: Result<Option<R>, SagaError>)
  {
    var here := WithEntry(m, entry);
    UnitAt(sys, here, m').Some? &&
    var (plan, body) := UnitAt(sys, here, m').value;
    && (|| UnitDone(sys.env, plan, body, here.now, first, attempts, m'.now, result)
        || DoneAmong(sys.env, plan, body, here.now, first, attempts, m'.now, result))
    && m'.phase == PhaseAfter(sys, m.phase, m'.now.replay, result)
  }

  ghost predicate Made<Ctx(!new), R(!new)>(
      sys: System<Ctx, R>, m: Machine<Ctx, R>, m': Machine<Ctx, R>, first: nat, attempts: seq<Attempt<Ctx, R>>)
  {
    exists entry, result :: MadeOn(sys, m, m', entry, first, attempts, result)
  }

  predicate AtStart<R>(phase: Phase<R>) { phase.At? && phase.index == 0 }

  /** No step leads back to the start. */
  lemma NeverBack<Ctx(!new), R(!new)>(sys: System<Ctx, R>, m: Machine<Ctx, R>, m': Machine<Ctx, R>)
    requires NextAmong(sys, m, m')
    ensures !AtStart(m'.phase)
  {
    var entry :| Next(sys, WithEntry(m, entry), m');
    NotToStart(sys, WithEntry(m, entry), m');
  }

  lemma NotToStart<Ctx(!new), R(!new)>(sys: System<Ctx, R>, m: Machine<Ctx, R>, m': Machine<Ctx, R>)
    requires Next(sys, m, m')
    ensures !AtStart(m'.phase)
  {
  }

  ghost predicate StepAt<Ctx(!new), R(!new)>(sys: System<Ctx, R>, path: seq<Machine<Ctx, R>>, k: nat)
  {
    k + 1 < |path| ==> NextAmong(sys, path[k], path[k + 1])
  }

  /** A run, told by its steps: each state follows from the one before, on some row. */
  ghost predicate Stepwise<Ctx(!new), R(!new)>(sys: System<Ctx, R>, path: seq<Machine<Ctx, R>>)
  {
    |path| > 0 && Fresh(path[0]) && forall k: nat :: StepAt(sys, path, k)
  }

  lemma {:induction false} PathIsStepwise<Ctx(!new), R(!new)>(sys: System<Ctx, R>, path: seq<Machine<Ctx, R>>)
    requires Path(sys, path)
    ensures Stepwise(sys, path)
    decreases |path|
  {
    if |path| > 1 {
      var init := path[..|path| - 1];
      PathIsStepwise(sys, init);
      forall k: nat ensures StepAt(sys, path, k) { StepOrLast(sys, path, k); }
    }
  }

  lemma StepOrLast<Ctx(!new), R(!new)>(sys: System<Ctx, R>, path: seq<Machine<Ctx, R>>, k: nat)
    requires |path| > 1 && Stepwise(sys, path[..|path| - 1])
    requires NextAmong(sys, path[|path| - 2], path[|path| - 1])
    ensures StepAt(sys, path, k)
  {
    assert StepAt(sys, path[..|path| - 1], k);
  }

  /** Before step `k` of the run something was committed, or an outbound call was made. */
  ghost predicate Begun<Ctx, R>(path: seq<Machine<Ctx, R>>, k: nat)
    requires k < |path|
  {
    path[k].now.commits != [] || exists j :: 0 <= j < k && path[j].phase.Calling?
  }

  /**
   * Once something was committed or called, a unit that begins on a ctx that cannot be checkpointed is one
   * run of the port, no more and no less, and it commits if the port neither refuses nor rejects it and its
   * last call does not throw.
   */
  lemma {:induction false} LaterUnitsRunOnce<Ctx(!new), R(!new)>(
      sys: System<Ctx, R>, path: seq<Machine<Ctx, R>>, k: nat, first: nat, attempts: seq<Attempt<Ctx, R>>)
    requires Path(sys, path) && k + 1 < |path| && Made(sys, path[k], path[k + 1], first, attempts)
    requires Begun(path, k) && sys.retry.Some? && !sys.env.cloneable(path[k].now.ctx)
    ensures |attempts| == 1 && Matches(sys.env.port(first), attempts[0])
    ensures sys.env.port(first).refused == None ==> attempts[0].Called?
    ensures attempts[0].Called? && sys.env.port(first).rejects == None && !attempts[0].last.call.flow.Threw? ==>
      Commits(path[k].now, path[k + 1].now, attempts[0].last)
  {
    PathIsStepwise(sys, path);
    if k > 0 { SoonBegun(sys, path, k); }
    var entry, result :| MadeOn(sys, path[k], path[k + 1], entry, first, attempts, result);
    MadeOnce(sys, path[k], path[k + 1], entry, first, attempts, result);
  }

  /** The unit committed what this call did, and nothing else. */
  ghost predicate Commits<Ctx, R>(before: Snapshot<Ctx, R>, after: Snapshot<Ctx, R>, run: CallRun<Ctx, R>)
  {
    && |after.commits| == |before.commits| + 1 && after.commits[..|before.commits|] == before.commits
    && after.ctx == run.call.ctx
    && var c := after.commits[|before.commits|];
       c.writes == run.call.writes && c.ops == run.call.ops && c.callbacks == run.call.callbacks
  }

  lemma MadeOnce<Ctx(!new), R(!new)>(
      sys: System<Ctx, R>, m: Machine<Ctx, R>, m': Machine<Ctx, R>, entry: LedgerEntry<R>, first: nat,
      attempts: seq<Attempt<Ctx, R>>, result: Result<Option<R>, SagaError>)
    requires MadeOn(sys, m, m', entry, first, attempts, result) && !AtStart(m.phase)
    requires sys.retry.Some? && !sys.env.cloneable(m.now.ctx)
    ensures |attempts| == 1 && Matches(sys.env.port(first), attempts[0])
    ensures EndOf(attempts[0]).Ok? ==> Commits(m.now, m'.now, attempts[0].last)
  {
    var here := WithEntry(m, entry);
    var (plan, body) := UnitAt(sys, here, m').value;
    assert !Refuses(sys.env, plan, here.now.ctx) && MaxRuns(sys.env, plan, here.now.ctx) == 1;
    if UnitDone(sys.env, plan, body, here.now, first, attempts, m'.now, result) {
      var state := UnitState(sys.env, plan, body, here.now, first, attempts, m'.now, result);
      if result.Ok? { RetryIsTransparent(sys.env, plan, body, here.now, first, attempts, m'.now, result); }
    } else {
      var state := LastAmong(sys.env, plan, body, here.now, first, attempts, m'.now, result);
      if result.Ok? { AmongCommits(sys.env, plan, body, here.now, first, attempts, m'.now, result); }
    }
  }

  /**
   * Before anything was committed or called, the unit of the first segment, or the first claim, on such a ctx
   * is no run of the port at all: nothing happens, and the run ends as misuse.
   */
  lemma {:induction false} FirstUnitIsRefused<Ctx(!new), R(!new)>(
      sys: System<Ctx, R>, path: seq<Machine<Ctx, R>>, k: nat, first: nat, attempts: seq<Attempt<Ctx, R>>)
    requires Path(sys, path) && k + 1 < |path|
    requires Made(sys, path[k], path[k + 1], first, attempts)
    requires !Begun(path, k) && sys.retry.Some? && !sys.env.cloneable(path[k].now.ctx)
    ensures attempts == [] && path[k + 1].phase == Over(Failed(Usage))
    ensures path[k + 1].now == path[k].now.(entry := path[k + 1].now.entry)
  {
    PathIsStepwise(sys, path);
    if k > 0 { SoonBegun(sys, path, k); }
    var entry, result :| MadeOn(sys, path[k], path[k + 1], entry, first, attempts, result);
    NotMade(sys, path[k], path[k + 1], entry, first, attempts, result);
  }

  lemma NotMade<Ctx(!new), R(!new)>(
      sys: System<Ctx, R>, m: Machine<Ctx, R>, m': Machine<Ctx, R>, entry: LedgerEntry<R>, first: nat,
      attempts: seq<Attempt<Ctx, R>>, result: Result<Option<R>, SagaError>)
    requires MadeOn(sys, m, m', entry, first, attempts, result)
    requires AtStart(m.phase) || m.phase.Calling? || m.phase.Over?
    requires sys.retry.Some? && !sys.env.cloneable(m.now.ctx)
    ensures attempts == [] && m'.phase == Over(Failed(Usage)) && m'.now == m.now.(entry := m'.now.entry)
  {
  }

  /** Commits are never taken back. */
  lemma CommitsStay<Ctx(!new), R(!new)>(
      env: Environment<Ctx>, plan: UnitPlan, body: Body<Ctx, R>, before: Snapshot<Ctx, R>, after: Snapshot<Ctx, R>,
      result: Result<Option<R>, SagaError>)
    requires UnitStep(env, plan, body, before, after, result)
    ensures |after.commits| == |before.commits| + if result.Ok? then 1 else 0
  {
    StepIsLoose(env, plan, body, before, after, result);
  }

  lemma StepKeepsCommits<Ctx(!new), R(!new)>(sys: System<Ctx, R>, m: Machine<Ctx, R>, m': Machine<Ctx, R>)
    requires NextAmong(sys, m, m')
    ensures |m'.now.commits| >= |m.now.commits| && !m.phase.Over?
    ensures AtStart(m.phase) && !m.now.claimed ==> m'.phase.Over? || m'.phase.Calling? || m'.now.commits != []
  {
    var entry :| Next(sys, WithEntry(m, entry), m');
    var here := WithEntry(m, entry);
    if !Unitless(sys, here, m') {
      var result := NextIsUnit(sys, here, m');
      var (plan, body) := UnitAt(sys, here, m').value;
      CommitsStay(sys.env, plan, body, here.now, m'.now, result);
    }
  }

  /** After its first step a run has begun, or it is over, or about to make its first call. */
  lemma {:induction false} SoonBegun<Ctx(!new), R(!new)>(sys: System<Ctx, R>, path: seq<Machine<Ctx, R>>, k: nat)
    requires Stepwise(sys, path) && 0 < k < |path|
    ensures !AtStart(path[k].phase)
    ensures Begun(path, k) || path[k].phase.Calling? || path[k].phase.Over?
  {
    assert StepAt(sys, path, k - 1);
    NeverBack(sys, path[k - 1], path[k]);
    StepKeepsCommits(sys, path[k - 1], path[k]);
    if k > 1 { SoonBegun(sys, path, k - 1); }
  }
}
