/**
 * What a committed unit of each kind did: the steps it ran, the ctx it ran them on, and the rows it
 * wrote to the ledger (src/saga/saga-runner.ts).
 */
module UnitEffects {
  import opened Common
  import opened Saga
  import opened UnitHistory
  import opened SagaRun

  /** Every step of a unit run in order, each on the ctx the one before left: ctx, writes, callbacks. */
  function EveryStep<Ctx>(steps: seq<Step<Ctx>>, ctx: Ctx, tick: nat): Option<(Ctx, seq<Write>, seq<Callback>)>
  {
    if |steps| == 0 then Some((ctx, [], []))
    else
      var r := steps[0](ctx, tick);
      if r.failure.Some? then None
      else
        match EveryStep(steps[1..], r.ctx, tick)
        case None => None
        case Some(rest) => Some((rest.0, r.writes + rest.1, r.callbacks + rest.2))
  }

  lemma {:induction false} EveryStepAppend<Ctx>(steps: seq<Step<Ctx>>, step: Step<Ctx>, ctx: Ctx, tick: nat)
    requires EveryStep(steps, ctx, tick).Some?
    requires step(EveryStep(steps, ctx, tick).value.0, tick).failure == None
    ensures var before, r := EveryStep(steps, ctx, tick).value, step(EveryStep(steps, ctx, tick).value.0, tick);
      EveryStep(steps + [step], ctx, tick) == Some((r.ctx, before.1 + r.writes, before.2 + r.callbacks))
    decreases |steps|
  {
    if |steps| > 0 {
      var first := steps[0](ctx, tick);
      EveryStepAppend(steps[1..], step, first.ctx, tick);
      assert (steps + [step])[0] == steps[0] && (steps + [step])[1..] == steps[1..] + [step];
      var rest, r := EveryStep(steps[1..], first.ctx, tick).value, step(EveryStep(steps, ctx, tick).value.0, tick);
      assert first.writes + (rest.1 + r.writes) == first.writes + rest.1 + r.writes;
      assert first.callbacks + (rest.2 + r.callbacks) == first.callbacks + rest.2 + r.callbacks;
    } else {
      var r := step(ctx, tick);
      assert steps + [step] == [step] && [step][1..] == [];
      assert EveryStep([step][1..], r.ctx, tick) == Some((r.ctx, [], []));
      assert r.writes + [] == [] + r.writes && r.callbacks + [] == [] + r.callbacks;
    }
  }

  /** A call that got through its steps ran every one of them, in order, and staged exactly their writes. */
  lemma {:induction false} StepsAreWhole<Ctx, R>(call: Call<Ctx, R>, steps: seq<Step<Ctx>>, tick: nat)
    requires call.flow == Going && RunSteps(call, steps, tick).flow == Going
    ensures var r, all := RunSteps(call, steps, tick), EveryStep(steps, call.ctx, tick);
      && all.Some? && r.ctx == all.value.0
      && r.writes == call.writes + all.value.1 && r.callbacks == call.callbacks + all.value.2
    decreases |steps|
  {
    if |steps| > 0 {
      var init, last := steps[..|steps| - 1], steps[|steps| - 1];
      StepsAreWhole(call, init, tick);
      EveryStepAppend(init, last, call.ctx, tick);
      assert steps == init + [last];
    }
  }

  predicate Keyed<Ctx, R>(sys: System<Ctx, R>) { sys.env.mode != Unkeyed }

  /** The ledger's rows commit with the unit that writes them. */
  predicate Transactional<Ctx, R>(sys: System<Ctx, R>) { sys.env.mode == InDatabase }

  predicate OutboundAt<Ctx, R>(sys: System<Ctx, R>, i: nat)
  {
    i < |sys.segments| && sys.segments[i].OutboundSegment? && sys.segments[i].step.OutboundStep?
  }

  predicate LedgerOnly<R>(c: Commit<R>) { c.writes == [] && c.callbacks == [] }

  ghost predicate RanWhole<Ctx>(
      steps: seq<Step<Ctx>>, ctx: Ctx, tick: nat, writes: seq<Write>, callbacks: seq<Callback>)
  {
    var all := EveryStep(steps, ctx, tick);
    all.Some? && all.value.1 == writes && all.value.2 == callbacks
  }

  /** Every unit of the run starts its committed call from the ctx it found. */
  ghost predicate DirectAt<Ctx(!new), R>(sys: System<Ctx, R>, ctx: Ctx)
  {
    if sys.retry.Some? && sys.env.cloneable(ctx) then Faithful(sys.env, ctx) else OneCall(sys.env)
  }

  /** The unit ran these steps, all of them, and left the ctx they left; on the ctx it found, if it is direct. */
  ghost predicate RanFrom<Ctx(!new), R(!new)>(
      sys: System<Ctx, R>, steps: seq<Step<Ctx>>, before: Snapshot<Ctx, R>, after: Snapshot<Ctx, R>, c: Commit<R>)
  {
    exists from :: RanOn(sys, steps, from, before, after, c)
  }

  ghost predicate RanOn<Ctx(!new), R(!new)>(
      sys: System<Ctx, R>, steps: seq<Step<Ctx>>, from: Ctx, before: Snapshot<Ctx, R>, after: Snapshot<Ctx, R>,
      c: Commit<R>)
  {
    && EveryStep(steps, from, c.tick) == Some((after.ctx, c.writes, c.callbacks))
    && (DirectAt(sys, before.ctx) ==> from == before.ctx)
  }

  // ---- What one committed call of a segment's body does.

  /** The ledger rows a unit of a segment writes: a claim if it is the first, the reply if it is the last. */
  lemma TransactionRows<Ctx(!new), R(!new)>(
      mode: LedgerMode, wanted: nat, fate: LockFate, body: Body<Ctx, R>, from: Call<Ctx, R>, tick: nat)
    requires body.Transaction? && (mode == Unkeyed ==> !from.claimed)
    requires from == Opened(from.ctx, from.claimed, None, from.entry)
    requires !CallBody(mode, wanted, fate, body, from, tick).flow.Threw?
    ensures var last := CallBody(mode, wanted, fate, body, from, tick);
      if last.flow == Going then
        && last.replay == None && last.claimed == (mode != Unkeyed)
        && (mode != Unkeyed && !from.claimed ==> from.entry == Free)
        && (last.value.Some? <==> body.reply.Some?)
        && last.ops == (if mode != InDatabase then [] else
             (if from.claimed then [] else [Claim]) + if body.reply.Some? then [Record(last.value.value)] else [])
      else
        && mode != Unkeyed && !from.claimed && last == from.(replay := last.replay, flow := Returned)
        && last.replay.Some? && from.entry == Applied(last.replay.value)
  {
    var claimed := ClaimOnce(mode, from);
    var locked := AcquireLocks(claimed, wanted, fate);
    var stepped := RunSteps(locked, body.steps, tick);
    StepsKeepClaim(locked, body.steps, tick);
    if locked.flow != Going { NoSteps(locked, body.steps, tick); }
    assert stepped.ops == claimed.ops && stepped.replay == claimed.replay && stepped.claimed == claimed.claimed;
    assert CallBody(mode, wanted, fate, body, from, tick) == MakeReply(mode, stepped, body.reply, tick);
  }

  /** What precedes the steps of a call that gets past them: nothing is written or registered yet. */
  lemma BeforeSteps<Ctx(!new), R(!new)>(
      mode: LedgerMode, wanted: nat, fate: LockFate, from: Call<Ctx, R>, steps: seq<Step<Ctx>>, tick: nat)
    requires from == Opened(from.ctx, from.claimed, from.replay, from.entry)
    requires RunSteps(AcquireLocks(ClaimOnce(mode, from), wanted, fate), steps, tick).flow == Going
    ensures var locked := AcquireLocks(ClaimOnce(mode, from), wanted, fate);
      locked.flow == Going && locked.ctx == from.ctx && locked.writes == [] && locked.callbacks == []
  {
    StepsKeepClaim(AcquireLocks(ClaimOnce(mode, from), wanted, fate), steps, tick);
  }

  /** The call of a segment's body that got to its end ran every step from where it started. */
  lemma WholeCall<Ctx(!new), R(!new)>(
      mode: LedgerMode, wanted: nat, fate: LockFate, body: Body<Ctx, R>, from: Call<Ctx, R>, tick: nat)
    requires body.Transaction? && from == Opened(from.ctx, from.claimed, from.replay, from.entry)
    requires CallBody(mode, wanted, fate, body, from, tick).flow == Going
    ensures var last := CallBody(mode, wanted, fate, body, from, tick);
      EveryStep(body.steps, from.ctx, tick) == Some((last.ctx, last.writes, last.callbacks))
  {
    var locked := AcquireLocks(ClaimOnce(mode, from), wanted, fate);
    var stepped := RunSteps(locked, body.steps, tick);
    var last := MakeReply(mode, stepped, body.reply, tick);
    assert last == CallBody(mode, wanted, fate, body, from, tick);
    assert stepped.flow == Going && last.ctx == stepped.ctx && last.writes == stepped.writes;
    BeforeSteps(mode, wanted, fate, from, body.steps, tick);
    StepsAreWhole(locked, body.steps, tick);
    var all := EveryStep(body.steps, from.ctx, tick).value;
    assert [] + all.1 == all.1 && [] + all.2 == all.2;
  }

  lemma OneStepWhole<Ctx>(step: Step<Ctx>, ctx: Ctx, tick: nat)
    requires step(ctx, tick).failure == None
    ensures var r := step(ctx, tick); EveryStep([step], ctx, tick) == Some((r.ctx, r.writes, r.callbacks))
  {
    var r := step(ctx, tick);
    assert [step][1..] == [];
    assert EveryStep([step][1..], r.ctx, tick) == Some((r.ctx, [], []));
    assert r.writes + [] == r.writes && r.callbacks + [] == r.callbacks;
  }

  function CompensationSteps<Ctx>(compensate: Option<Step<Ctx>>): seq<Step<Ctx>>
  {
    if compensate.Some? then [compensate.value] else []
  }

  /** The call of a compensation that got to its end. */
  lemma CompensationCall<Ctx(!new), R(!new)>(
      mode: LedgerMode, wanted: nat, fate: LockFate, compensate: Option<Step<Ctx>>, from: Call<Ctx, R>, tick: nat)
    requires from == Opened(from.ctx, from.claimed, from.replay, from.entry)
    requires !CallBody(mode, wanted, fate, Compensation(compensate), from, tick).flow.Threw?
    ensures var last := CallBody(mode, wanted, fate, Compensation(compensate), from, tick);
      && EveryStep(CompensationSteps(compensate), from.ctx, tick) == Some((last.ctx, last.writes, last.callbacks))
      && last.claimed == from.claimed && last.replay == from.replay
      && last.ops == if from.claimed && mode == InDatabase then [Release] else []
  {
    var locked := AcquireLocks(from, wanted, fate);
    assert locked.flow == Going && locked.writes == [] && locked.callbacks == [];
    if compensate.Some? {
      assert RunStep(locked, compensate.value, tick).flow == Going;
      OneStepWhole(compensate.value, from.ctx, tick);
      var r := compensate.value(from.ctx, tick);
      assert [] + r.writes == r.writes && [] + r.callbacks == r.callbacks;
    }
  }

  /** The unit of a segment either ran whole or found the reply of an earlier run and did nothing. */
  datatype UnitEnd<R> = Ran(c: Commit<R>) | Repeated(c: Commit<R>, response: R)

  ghost predicate TransactionEnd<Ctx(!new), R(!new)>(
      sys: System<Ctx, R>, i: nat, before: Snapshot<Ctx, R>, after: Snapshot<Ctx, R>, value: Option<R>, end: UnitEnd<R>)
    requires i < |sys.segments| && sys.segments[i].TransactionSegment?
  {
    && after.commits == before.commits + [end.c] && end.c.name == TxUnit(i)
    && (sys.env.mode != InProcess ==> after.entry == ApplyOps(before.entry, end.c.ops))
    && match end
       case Ran(c) =>
         && RanFrom(sys, sys.segments[i].steps, before, after, c) && after.replay == None && after.claimed == Keyed(sys)
         && (Transactional(sys) && !before.claimed ==> before.entry == Free)
         && (value.Some? <==> i == |sys.segments| - 1)
         && (value.Some? ==> sys.reply(after.ctx, c.tick) == Ok(value.value))
         && c.ops == (if !Transactional(sys) then [] else
              (if before.claimed then [] else [Claim]) + if value.Some? then [Record(value.value)] else [])
       case Repeated(c, response) =>
         && LedgerOnly(c) && c.ops == [] && !before.claimed && !after.claimed && Keyed(sys)
         && (Transactional(sys) ==> before.entry == Applied(response)) && after.replay == Some(response)
  }

  /** The reply of the last unit is made of the ctx its steps left. */
  lemma ReplyOf<Ctx(!new), R(!new)>(
      mode: LedgerMode, wanted: nat, fate: LockFate, body: Body<Ctx, R>, from: Call<Ctx, R>, tick: nat)
    requires body.Transaction? && from == Opened(from.ctx, from.claimed, from.replay, from.entry)
    requires var last := CallBody(mode, wanted, fate, body, from, tick); last.flow == Going && last.value.Some?
    ensures var last := CallBody(mode, wanted, fate, body, from, tick);
      body.reply.Some? && body.reply.value(last.ctx, tick) == Ok(last.value.value)
  {
    var locked := AcquireLocks(ClaimOnce(mode, from), wanted, fate);
    StepsKeepClaim(locked, body.steps, tick);
  }

  /** What the call of a segment's body did, when it did not throw. */
  ghost predicate TransactionCall<Ctx(!new), R(!new)>(mode: LedgerMode, body: Body<Ctx, R>, run: CallRun<Ctx, R>)
    requires body.Transaction?
  {
    var from, last := run.from, run.call;
    && (mode != InProcess ==> last.entry == from.entry)
    && if last.flow == Going then
         && last.replay == None && last.claimed == (mode != Unkeyed)
         && (mode != Unkeyed && !from.claimed ==> from.entry == Free)
         && (last.value.Some? <==> body.reply.Some?)
         && (last.value.Some? ==> body.reply.value(last.ctx, run.tick) == Ok(last.value.value))
         && last.ops == (if mode != InDatabase then [] else
              (if from.claimed then [] else [Claim]) + if last.value.Some? then [Record(last.value.value)] else [])
         && EveryStep(body.steps, from.ctx, run.tick) == Some((last.ctx, last.writes, last.callbacks))
       else
         && mode != Unkeyed && !from.claimed && last == from.(replay := last.replay, flow := Returned)
         && last.replay.Some? && from.entry == Applied(last.replay.value)
  }

  lemma TransactionCallOf<Ctx(!new), R(!new)>(
      env: Environment<Ctx>, plan: UnitPlan, body: Body<Ctx, R>, run: CallRun<Ctx, R>)
    requires body.Transaction? && (env.mode == Unkeyed ==> !run.from.claimed)
    requires run.from == Opened(run.from.ctx, run.from.claimed, None, run.from.entry)
    requires RunsAlone(env, plan, body, run) && !run.call.flow.Threw?
    ensures TransactionCall(env.mode, body, run)
  {
    var mode, wanted, fate := env.mode, |plan.locks|, env.lockFate(run.tick);
    CallAlone(env, plan, body, run);
    TransactionRows(mode, wanted, fate, body, run.from, run.tick);
    if mode != InProcess { CallKeepsEntry(mode, wanted, fate, body, run.from, run.tick); }
    if run.call.flow == Going {
      WholeCall(mode, wanted, fate, body, run.from, run.tick);
      if run.call.value.Some? { ReplyOf(mode, wanted, fate, body, run.from, run.tick); }
    }
  }

  lemma TransactionEffect<Ctx(!new), R(!new)>(
      sys: System<Ctx, R>, i: nat, plan: UnitPlan, before: Snapshot<Ctx, R>, after: Snapshot<Ctx, R>, value: Option<R>)
    returns (end: UnitEnd<R>)
    requires i < |sys.segments| && sys.segments[i].TransactionSegment? && plan.retry == sys.retry
    requires plan.name == TxUnit(i) && before.replay == None && (before.claimed ==> Keyed(sys))
    requires UnitStep(sys.env, plan, BodyOf(sys, i), before, after, Ok(value))
    ensures TransactionEnd(sys, i, before, after, value, end)
  {
    var body := BodyOf(sys, i);
    StepIsLoose(sys.env, plan, body, before, after, Ok(value));
    var run :| UnitCommits(sys.env, plan, body, run, before, after, value);
    TransactionCallOf(sys.env, plan, body, run);
    end := CommittedTransaction(sys, i, plan, run, before, after, value);
  }

  lemma CommittedTransaction<Ctx(!new), R(!new)>(
      sys: System<Ctx, R>, i: nat, plan: UnitPlan, run: CallRun<Ctx, R>, before: Snapshot<Ctx, R>,
      after: Snapshot<Ctx, R>,
      value: Option<R>)
    returns (end: UnitEnd<R>)
    requires i < |sys.segments| && sys.segments[i].TransactionSegment? && plan.retry == sys.retry
    requires plan.name == TxUnit(i) && before.replay == None && (before.claimed ==> Keyed(sys))
    requires UnitCommits(sys.env, plan, BodyOf(sys, i), run, before, after, value)
    requires TransactionCall(sys.env.mode, BodyOf(sys, i), run)
    ensures TransactionEnd(sys, i, before, after, value, end)
  {
    var c := Commit(plan.name, run.tick, run.call.writes, run.call.ops, run.call.callbacks);
    if run.call.flow == Going {
      assert RanOn(sys, sys.segments[i].steps, run.from.ctx, before, after, c);
      end := Ran(c);
    } else {
      end := Repeated(c, run.call.replay.value);
    }
  }

  /** A call of a unit of the ledger alone: it wrote nothing and left ctx alone. */
  lemma LedgerRan<Ctx(!new), R(!new)>(
      sys: System<Ctx, R>, plan: UnitPlan, run: CallRun<Ctx, R>, before: Snapshot<Ctx, R>,
      after: Snapshot<Ctx, R>, c: Commit<R>)
    requires plan.retry == sys.retry && (Direct(sys.env, plan, before.ctx) ==> run.from.ctx == before.ctx)
    requires c.writes == [] && c.callbacks == [] && after.ctx == run.from.ctx
    ensures RanFrom(sys, [], before, after, c)
  {
    assert EveryStep<Ctx>([], run.from.ctx, c.tick) == Some((run.from.ctx, [], []));
    assert RanOn(sys, [], run.from.ctx, before, after, c);
  }

  /** What the call of a claim did, when it did not throw. */
  lemma ClaimCall<Ctx(!new), R(!new)>(env: Environment<Ctx>, plan: UnitPlan, run: CallRun<Ctx, R>)
    requires env.mode != Unkeyed && RunsAlone(env, plan, ClaimOnly, run) && !run.call.flow.Threw?
    requires run.from == Opened(run.from.ctx, false, None, run.from.entry)
    ensures var last := run.call;
      && last.ctx == run.from.ctx && last.writes == [] && last.callbacks == []
      && (env.mode != InProcess ==> last.entry == run.from.entry)
      && if last.replay.Some? then last.ops == [] && !last.claimed && run.from.entry == Applied(last.replay.value)
         else last.claimed && last.ops == (if env.mode == InDatabase then [Claim] else []) && run.from.entry == Free
  {
    CallAlone(env, plan, ClaimOnly, run);
  }

  /** A committed claim took a free key, or found the reply of an earlier run. */
  lemma ClaimEffect<Ctx(!new), R(!new)>(
      sys: System<Ctx, R>, plan: UnitPlan, before: Snapshot<Ctx, R>, after: Snapshot<Ctx, R>, value: Option<R>)
    returns (c: Commit<R>)
    requires Keyed(sys) && !before.claimed && before.replay == None && plan.retry == sys.retry
    requires UnitStep(sys.env, plan, ClaimOnly, before, after, Ok(value))
    ensures after.commits == before.commits + [c] && c.name == plan.name && RanFrom(sys, [], before, after, c)
    ensures Transactional(sys) ==> after.entry == ApplyOps(before.entry, c.ops)
    ensures after.replay.Some? ==>
      c.ops == [] && !after.claimed && (Transactional(sys) ==> before.entry == Applied(after.replay.value))
    ensures after.replay.None? ==>
      && after.claimed && c.ops == (if Transactional(sys) then [Claim] else [])
      && (Transactional(sys) ==> before.entry == Free)
  {
    StepIsLoose(sys.env, plan, ClaimOnly, before, after, Ok(value));
    var run :| UnitCommits(sys.env, plan, ClaimOnly, run, before, after, value);
    ClaimCall(sys.env, plan, run);
    c := Commit(plan.name, run.tick, run.call.writes, run.call.ops, run.call.callbacks);
    LedgerRan(sys, plan, run, before, after, c);
  }

  /** A committed compensation wrote all it had to write, and frees the key if the run holds it. */
  lemma CompensationEffect<Ctx(!new), R(!new)>(
      sys: System<Ctx, R>, i: nat, plan: UnitPlan, before: Snapshot<Ctx, R>, after: Snapshot<Ctx, R>, value: Option<R>)
    returns (c: Commit<R>)
    requires OutboundAt(sys, i) && plan.name == CompensateUnit(i) && plan.retry == sys.retry
    requires before.replay == None
    requires UnitStep(sys.env, plan, Compensation(sys.segments[i].step.compensate), before, after, Ok(value))
    ensures after.commits == before.commits + [c] && c.name == plan.name
    ensures RanFrom(sys, CompensationSteps(sys.segments[i].step.compensate), before, after, c)
    ensures after.claimed == before.claimed
    ensures sys.env.mode != InProcess ==> after.entry == ApplyOps(before.entry, c.ops)
    ensures c.ops == if before.claimed && Transactional(sys) then [Release] else []
  {
    var body: Body<Ctx, R> := Compensation(sys.segments[i].step.compensate);
    StepIsLoose(sys.env, plan, body, before, after, Ok(value));
    var run :| UnitCommits(sys.env, plan, body, run, before, after, value);
    c := CommittedCompensation(sys, plan, sys.segments[i].step.compensate, run, before, after, value);
  }

  lemma CommittedCompensation<Ctx(!new), R(!new)>(
      sys: System<Ctx, R>, plan: UnitPlan, compensate: Option<Step<Ctx>>, run: CallRun<Ctx, R>,
      before: Snapshot<Ctx, R>, after: Snapshot<Ctx, R>, value: Option<R>)
    returns (c: Commit<R>)
    requires before.replay == None && plan.retry == sys.retry
    requires UnitCommits(sys.env, plan, Compensation(compensate), run, before, after, value)
    ensures after.commits == before.commits + [c] && c.name == plan.name
    ensures RanFrom(sys, CompensationSteps(compensate), before, after, c)
    ensures after.claimed == before.claimed
    ensures sys.env.mode != InProcess ==> after.entry == ApplyOps(before.entry, c.ops)
    ensures c.ops == if before.claimed && Transactional(sys) then [Release] else []
  {
    var mode, wanted, fate := sys.env.mode, |plan.locks|, sys.env.lockFate(run.tick);
    CallAlone(sys.env, plan, Compensation(compensate), run);
    CompensationCall(mode, wanted, fate, compensate, run.from, run.tick);
    if mode != InProcess { CallKeepsEntry(mode, wanted, fate, Compensation(compensate), run.from, run.tick); }
    c := Commit(plan.name, run.tick, run.call.writes, run.call.ops, run.call.callbacks);
    assert RanOn(sys, CompensationSteps(compensate), run.from.ctx, before, after, c);
  }

  /** What the call that records a reply did. */
  lemma RecordCall<Ctx(!new), R(!new)>(env: Environment<Ctx>, plan: UnitPlan, reply: R, run: CallRun<Ctx, R>)
    requires RunsAlone(env, plan, RecordReply(reply), run)
    requires run.from == Opened(run.from.ctx, true, run.from.replay, run.from.entry)
    ensures var last := run.call;
      && last.flow == Going && last.ctx == run.from.ctx && last.writes == [] && last.callbacks == [] && last.claimed
      && last.ops == (if env.mode == InDatabase then [Record(reply)] else [])
      && last.entry == if env.mode == InProcess then Applied(reply) else run.from.entry
  {
    CallAlone(env, plan, RecordReply(reply), run);
  }

  lemma RecordEffect<Ctx(!new), R(!new)>(
      sys: System<Ctx, R>, plan: UnitPlan, reply: R, before: Snapshot<Ctx, R>, after: Snapshot<Ctx, R>,
      value: Option<R>)
    returns (c: Commit<R>)
    requires Keyed(sys) && before.claimed && plan.retry == sys.retry
    requires UnitStep(sys.env, plan, RecordReply(reply), before, after, Ok(value))
    ensures after.commits == before.commits + [c] && c.name == plan.name && RanFrom(sys, [], before, after, c)
    ensures c.ops == if Transactional(sys) then [Record(reply)] else []
    ensures after.claimed && (Transactional(sys) ==> after.entry == ApplyOps(before.entry, c.ops))
  {
    StepIsLoose(sys.env, plan, RecordReply(reply), before, after, Ok(value));
    var run :| UnitCommits(sys.env, plan, RecordReply(reply), run, before, after, value);
    RecordCall(sys.env, plan, reply, run);
    c := Commit(plan.name, run.tick, run.call.writes, run.call.ops, run.call.callbacks);
    LedgerRan(sys, plan, run, before, after, c);
  }

  /** A unit that failed committed nothing and left the claim alone. */
  lemma FailedUnit<Ctx(!new), R(!new)>(
      env: Environment<Ctx>, plan: UnitPlan, body: Body<Ctx, R>, before: Snapshot<Ctx, R>, after: Snapshot<Ctx, R>,
      result: Result<Option<R>, SagaError>)
    requires UnitStep(env, plan, body, before, after, result) && result.Err?
    ensures LeavesNothing(env.mode, before, after)
  {
    StepIsLoose(env, plan, body, before, after, result);
  }

  /** Without steps a unit wrote nothing. */
  lemma NothingRan<Ctx(!new), R(!new)>(
      sys: System<Ctx, R>, before: Snapshot<Ctx, R>, after: Snapshot<Ctx, R>, c: Commit<R>)
    requires RanFrom(sys, [], before, after, c)
    ensures LedgerOnly(c) && (DirectAt(sys, before.ctx) ==> after.ctx == before.ctx)
  {
  }
}
