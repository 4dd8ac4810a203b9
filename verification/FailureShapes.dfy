/**
 * Which sagas can fail and keep their key (src/saga/saga-runner.ts): all but those that are one
 * transaction segment, with the ledger in the database and in process alike.
 */
module FailureShapes {
  import opened Common
  import opened LockPort
  import opened Saga
  import opened Segments
  import opened UnitHistory
  import opened SagaRun
  import opened UnitEffects
  import opened SagaSafety
  import opened SoloRun
  import opened InProcessRuns
  import opened AtMostOnce
  import opened FailedRuns

  /** Which segments are transactions. */
  function Shape<Ctx>(segments: seq<Segment<Ctx>>): (shape: seq<bool>)
    ensures |shape| == |segments|
  {
    seq(|segments|, i requires 0 <= i < |segments| => segments[i].TransactionSegment?)
  }

  /** No segment at all, or one transaction segment. */
  predicate OneUnit(shape: seq<bool>) { shape == [] || shape == [true] }

  /** A run alone on its key, from a free key, that fails and leaves the key taken. */
  ghost predicate KeepsKey<Ctx(!new), R(!new)>(
      sys: System<Ctx, R>, path: seq<Machine<Ctx, R>>, history: seq<seq<Attempt<Ctx, R>>>)
  {
    && SoloPath(sys, path, history) && path[0].now.entry == Free && Failing(path[|history|])
    && path[|history|].now.entry != Free
  }

  // ---- One transaction segment: whatever fails, the key is free.

  /** A failed run of one unit at most has committed nothing. */
  lemma NothingCommitted<Ctx(!new), R(!new)>(sys: System<Ctx, R>, m: Machine<Ctx, R>)
    requires OneUnit(Shape(sys.segments)) && Stage(sys, m) && Failing(m)
    ensures m.now.commits == []
  {
    var k: nat :| FailedAfter(sys, m.now.commits, k);
    assert |sys.segments| == 1 ==> Shape(sys.segments)[0];
    assert k == 0 && !OutboundAt(sys, 0);
    assert |Names(m.now.commits)| == 0;
  }

  lemma {:induction false} OneUnitFreesKey<Ctx(!new), R(!new)>(
      sys: System<Ctx, R>, path: seq<Machine<Ctx, R>>, history: seq<seq<Attempt<Ctx, R>>>)
    requires Keyed(sys) && OnlyOutbound(sys) && (sys.env.mode == InProcess ==> sys.retry == None)
    requires OneUnit(Shape(sys.segments))
    ensures !KeepsKey(sys, path, history)
  {
    if KeepsKey(sys, path, history) {
      SoloIsPath(sys, path, history);
      PathKeepsStage(sys, path);
      NothingCommitted(sys, path[|history|]);
      if sys.env.mode == InProcess {
        FailedInProcess(sys, path, history);
      } else {
        var who: seq<nat> := seq(|history|, i => 0);
        SoloIsSchedule(sys, path, history, who);
        FailedRunKey(Contests(sys, path), who, 0);
      }
    }
  }

  /** Nor does such a run hold its key once it failed, however it is interleaved with others. */
  lemma {:induction false} OneUnitHoldsNothing<Ctx(!new), R(!new)>(
      states: seq<Contest<Ctx, R>>, who: seq<nat>, k: nat)
    requires Schedule(states, who) && k < |states[|who|].runs| == |states[|who|].systems|
    requires OneUnit(Shape(states[|who|].systems[k].segments)) && Failing(states[|who|].runs[k])
    ensures !HoldsKey(states[|who|].runs[k])
  {
    ScheduleInv(states, who);
    assert RunOk(states[|who|], k);
    NothingCommitted(states[|who|].systems[k], states[|who|].runs[k]);
  }

  // ---- Every other saga: a run whose first unit commits and whose next one is refused.

  /** A call of the segment's unit gets to its end on this ctx. */
  ghost predicate GetsThrough<Ctx>(segment: Segment<Ctx>, ctx: Ctx, tick: nat)
  {
    segment.TransactionSegment? ==> Requested(segment.locks, ctx).Ok? && EveryStep(segment.steps, ctx, tick).Some?
  }

  /** The run holds its key and stands before segment `i` or at its call. */
  ghost predicate Holding<Ctx(!new), R(!new)>(sys: System<Ctx, R>, m: Machine<Ctx, R>, i: nat)
  {
    && m.now.claimed && m.now.replay == None && m.now.entry == Pending && i <= |sys.segments|
    && (m.phase == At(i, None) || (m.phase == Calling(i) && OutboundAt(sys, i)))
  }

  /** The database refuses all units but the first. */
  ghost predicate Refusing<Ctx(!new), R(!new)>(sys: System<Ctx, R>)
  {
    Keyed(sys) && OnlyOutbound(sys) && sys.env == World(sys.env.mode, REFUSES) && sys.retry == None
  }

  ghost predicate StandsAt<Ctx(!new), R(!new)>(
      sys: System<Ctx, R>, path: seq<Machine<Ctx, R>>, history: seq<seq<Attempt<Ctx, R>>>, m: Machine<Ctx, R>)
  {
    SoloPath(sys, path, history) && path[0].now.entry == Free && path[|history|] == m
  }

  lemma StandsNext<Ctx(!new), R(!new)>(
      sys: System<Ctx, R>, path: seq<Machine<Ctx, R>>, history: seq<seq<Attempt<Ctx, R>>>, m: Machine<Ctx, R>,
      m': Machine<Ctx, R>, attempts: seq<Attempt<Ctx, R>>)
    requires StandsAt(sys, path, history, m) && SoloStep(sys, m, m', attempts)
    ensures StandsAt(sys, path + [m'], history + [attempts], m')
  {
    SoloGrows(sys, path, history, m', attempts);
    assert (path + [m'])[|history + [attempts]|] == m';
  }

  /** The next unit is refused, and the run fails with its key pending. */
  lemma RefusedNow<Ctx(!new), R(!new)>(
      sys: System<Ctx, R>, path: seq<Machine<Ctx, R>>, history: seq<seq<Attempt<Ctx, R>>>, m: Machine<Ctx, R>,
      locks: seq<LockRequest>)
    returns (longer: seq<Machine<Ctx, R>>, more: seq<seq<Attempt<Ctx, R>>>)
    requires Refusing(sys) && StandsAt(sys, path, history, m) && m.now.entry == Pending && LocksFit(sys, m, locks)
    requires UnitAt(sys, m, Machine(Over(Failed(Other(7))), locks, m.now)).Some?
    ensures KeepsKey(sys, longer, more) && longer[|more|].now.entry == Pending
  {
    var m' := Machine(Over(Failed(Other(7))), locks, m.now);
    var unit := UnitAt(sys, m, m').value;
    var a := Attempt<Ctx, R>.Refused(Other(7));
    ExecutedStep(sys, unit.0, unit.1, m, m', 1, a);
    StandsNext(sys, path, history, m, m', [a]);
    longer, more := path + [m'], history + [[a]];
  }

  /** From where a run holds its key it comes to fail with the key pending. */
  lemma {:induction false} Strands<Ctx(!new), R(!new)>(
      sys: System<Ctx, R>, path: seq<Machine<Ctx, R>>, history: seq<seq<Attempt<Ctx, R>>>, m: Machine<Ctx, R>, i: nat)
    returns (longer: seq<Machine<Ctx, R>>, more: seq<seq<Attempt<Ctx, R>>>)
    requires Refusing(sys) && StandsAt(sys, path, history, m) && Holding(sys, m, i)
    ensures KeepsKey(sys, longer, more) && longer[|more|].now.entry == Pending
    decreases |sys.segments| - i, m.phase.At?
  {
    if m.phase.At? && i < |sys.segments| && sys.segments[i].TransactionSegment? {
      longer, more := StrandsAtTransaction(sys, path, history, m, i);
    } else {
      var m' := IdleNext(sys, m, i);
      StandsNext(sys, path, history, m, m', []);
      var further, empty := path + [m'], history + [[]];
      if m'.phase.Over? {
        longer, more := further, empty;
      } else if m'.phase.Compensating? || m'.phase.Recording? {
        longer, more := RefusedNow(sys, further, empty, m', m'.locks);
      } else {
        longer, more := Strands(sys, further, empty, m', if m'.phase.At? then i + 1 else i);
      }
    }
  }

  /** A step without a unit, from where a run holds its key. */
  lemma IdleNext<Ctx(!new), R(!new)>(sys: System<Ctx, R>, m: Machine<Ctx, R>, i: nat) returns (m': Machine<Ctx, R>)
    requires Refusing(sys) && Holding(sys, m, i)
    requires !(m.phase.At? && i < |sys.segments| && sys.segments[i].TransactionSegment?)
    ensures SoloStep(sys, m, m', []) && m'.now.entry == Pending
    ensures
      || Failing(m') || m'.phase.Recording? || (m'.phase.Compensating? && OutboundAt(sys, m'.phase.index))
      || (m.phase.At? && m'.phase == Calling(i) && Holding(sys, m', i))
      || (m.phase.Calling? && m'.phase == At(i + 1, None) && Holding(sys, m', i + 1))
  {
    if m.phase.Calling? {
      var r := sys.segments[i].step.call(m.now.ctx, 0);
      m' := Machine(AfterCall(sys.segments[i].step, i, r.failure, true), m.locks, m.now.(ctx := r.ctx));
      CallIsNext(sys, i, m, m', 0);
    } else if i == |sys.segments| {
      m' := m.(phase := AfterReply(sys.reply(m.now.ctx, 0), true));
    } else {
      m' := m.(phase := Calling(i));
    }
  }

  lemma StrandsAtTransaction<Ctx(!new), R(!new)>(
      sys: System<Ctx, R>, path: seq<Machine<Ctx, R>>, history: seq<seq<Attempt<Ctx, R>>>, m: Machine<Ctx, R>, i: nat)
    returns (longer: seq<Machine<Ctx, R>>, more: seq<seq<Attempt<Ctx, R>>>)
    requires Refusing(sys) && StandsAt(sys, path, history, m) && Holding(sys, m, i) && m.phase.At?
    requires i < |sys.segments| && sys.segments[i].TransactionSegment?
    ensures KeepsKey(sys, longer, more) && longer[|more|].now.entry == Pending
  {
    var locks := SomeResolution(sys.segments[i].locks, m.now.ctx, sys.maxLocks);
    if locks.Ok? {
      longer, more := RefusedNow(sys, path, history, m, locks.value);
    } else {
      var m' := m.(phase := Over(Failed(locks.error)));
      UnresolvedIsNext(sys, i, m, locks.error);
      StandsNext(sys, path, history, m, m', []);
      longer, more := path + [m'], history + [[]];
    }
  }

  /** Locks are resolved or refused. */
  lemma SomeResolution<Ctx>(declarations: seq<LockDeclaration<Ctx>>, ctx: Ctx, max: nat)
    returns (locks: Result<seq<LockRequest>, SagaError>)
    ensures Resolves(declarations, ctx, max, locks)
  {
    match Requested(declarations, ctx)
    case Err(e) => locks := Err(e);
    case Ok(requests) =>
      var canonical := SomeCanonical(requests);
      locks := if |canonical| > max then Err(Usage) else Ok(canonical);
  }

  // ---- The first unit.

  lemma {:induction false} EveryStepInit<Ctx>(steps: seq<Step<Ctx>>, step: Step<Ctx>, ctx: Ctx, tick: nat)
    requires EveryStep(steps + [step], ctx, tick).Some?
    ensures EveryStep(steps, ctx, tick).Some?
    ensures step(EveryStep(steps, ctx, tick).value.0, tick).failure == None
    decreases |steps|
  {
    var all := steps + [step];
    if |steps| > 0 {
      assert all[0] == steps[0] && all[1..] == steps[1..] + [step];
      EveryStepInit(steps[1..], step, steps[0](ctx, tick).ctx, tick);
    } else {
      assert all == [step];
    }
  }

  /** Steps that can all run do run. */
  lemma {:induction false} WholeRuns<Ctx, R>(call: Call<Ctx, R>, steps: seq<Step<Ctx>>, tick: nat)
    requires call.flow == Going && EveryStep(steps, call.ctx, tick).Some?
    ensures RunSteps(call, steps, tick).flow == Going
    decreases |steps|
  {
    if |steps| > 0 {
      var init, last := steps[..|steps| - 1], steps[|steps| - 1];
      assert steps == init + [last];
      EveryStepInit(init, last, call.ctx, tick);
      WholeRuns(call, init, tick);
      StepsAreWhole(call, init, tick);
    }
  }

  function Beginning<Ctx, R>(ctx: Ctx): Machine<Ctx, R>
  {
    Machine(At(0, None), [], Snapshot(ctx, false, None, Free, []))
  }

  /** The first call of a run whose unit makes no reply takes the key. */
  lemma FirstCallTakesKey<Ctx(!new), R(!new)>(
      sys: System<Ctx, R>, plan: UnitPlan, body: Body<Ctx, R>, ctx: Ctx, tick: nat)
    returns (run: CallRun<Ctx, R>)
    requires Refusing(sys) && (body.ClaimOnly? || (body.Transaction? && body.reply.None?))
    requires body.Transaction? ==> EveryStep(body.steps, ctx, tick).Some?
    ensures RunsAlone(sys.env, plan, body, run) && run.from == Opened(ctx, false, None, Free)
    ensures run.call.flow == Going && run.call.claimed && run.call.replay == None && run.call.value == None
    ensures Committing(sys.env.mode, plan.name, Beginning<Ctx, R>(ctx).now, run).entry == Pending
  {
    var mode, fate, from := sys.env.mode, sys.env.lockFate(tick), Opened<Ctx, R>(ctx, false, None, Free);
    run := CallRun(from, CallBody(mode, |plan.locks|, fate, body, from, tick), tick);
    CallAlone(sys.env, plan, body, run);
    var claimed := ClaimOnce(mode, from);
    ClaimTakesKey(mode, from);
    if body.Transaction? {
      var locked := AcquireLocks(claimed, |plan.locks|, fate);
      WholeRuns(locked, body.steps, tick);
      StepsKeepClaim(locked, body.steps, tick);
    }
  }

  lemma ClaimTakesKey<Ctx, R>(mode: LedgerMode, from: Call<Ctx, R>)
    requires mode != Unkeyed && from == Opened(from.ctx, false, None, Free)
    ensures var c := ClaimOnce(mode, from);
      && c.flow == Going && c.claimed && c.replay == None && c.value == None && c.ctx == from.ctx
      && (if mode == InDatabase then ApplyOps(c.entry, c.ops) else c.entry) == Pending
  {
    assert [LedgerOp<R>.Claim][..0] == [];
    assert ApplyOps<R>(Free, [Claim]) == Pending;
  }

  /** The first unit commits, and the run holds its key. */
  lemma FirstUnitTakesKey<Ctx(!new), R(!new)>(
      sys: System<Ctx, R>, ctx: Ctx, tick: nat, locks: seq<LockRequest>)
    returns (m': Machine<Ctx, R>, a: Attempt<Ctx, R>)
    requires Refusing(sys) && |sys.segments| > 0 && !OneUnit(Shape(sys.segments))
    requires GetsThrough(sys.segments[0], ctx, tick) && LocksFit(sys, Beginning<Ctx, R>(ctx), locks)
    ensures SoloStep(sys, Beginning(ctx), m', [a])
    ensures Holding(sys, m', if sys.segments[0].TransactionSegment? then 1 else 0)
  {
    var m, tx := Beginning<Ctx, R>(ctx), sys.segments[0].TransactionSegment?;
    assert Shape(sys.segments)[0] == tx;
    assert |sys.segments| == 1 ==> Shape(sys.segments) == [tx];
    var plan := if tx then Plan(sys, TxUnit(0), locks, true) else Plan(sys, ClaimUnit(0), [], true);
    var body := if tx then BodyOf(sys, 0) else ClaimOnly;
    var run := FirstCallTakesKey(sys, plan, body, ctx, tick);
    a := Called([], run, None);
    m' := Machine(if tx then At(1, None) else Calling(0), locks, Committing(sys.env.mode, plan.name, m.now, run));
    ExecutedStep(sys, plan, body, m, m', 0, a);
  }

  /**
   * Whatever its steps, its calls and its reply do: a saga that is more than one transaction segment, and
   * whose first unit can commit, has a run that fails and leaves the key pending.
   */
  lemma OthersKeepKey<Ctx(!new), R(!new)>(
      mode: LedgerMode, segments: seq<Segment<Ctx>>, reply: Reply<Ctx, R>, ctx: Ctx, tick: nat)
    returns (sys: System<Ctx, R>, path: seq<Machine<Ctx, R>>, history: seq<seq<Attempt<Ctx, R>>>)
    requires mode != Unkeyed && !OneUnit(Shape(segments)) && GetsThrough(segments[0], ctx, tick)
    requires forall i :: 0 <= i < |segments| && segments[i].OutboundSegment? ==> segments[i].step.OutboundStep?
    ensures sys.segments == segments && sys.reply == reply && sys.env.mode == mode && sys.retry == None
    ensures KeepsKey(sys, path, history) && path[|history|].now.entry == Pending
  {
    var m, locks := Beginning<Ctx, R>(ctx), [];
    if segments[0].TransactionSegment? {
      locks := SomeCanonical(Requested(segments[0].locks, ctx).value);
    }
    sys := System(World(mode, REFUSES), segments, reply, None, |locks| + 1);
    var m', a := FirstUnitTakesKey(sys, ctx, tick, locks);
    assert StandsAt(sys, [m], [], m);
    StandsNext(sys, [m], [], m, m', [a]);
    path, history := Strands(sys, [m] + [m'], [] + [[a]], m', if segments[0].TransactionSegment? then 1 else 0);
  }

  // ---- Exactly.

  predicate NoOutbound<Ctx>(steps: seq<SagaStep<Ctx>>)
  {
    forall i :: 0 <= i < |steps| ==> steps[i].TransactionStep?
  }

  /** The segments that `segmentsOf` makes. */
  ghost function SegmentsFrom<Ctx>(steps: seq<SagaStep<Ctx>>): seq<Segment<Ctx>>
  {
    GroupsPartition(steps);
    Segmented(Groups(steps))
  }

  lemma AllInOneGroup<Ctx>(steps: seq<SagaStep<Ctx>>)
    requires NoOutbound(steps) && |steps| > 0
    ensures Groups(steps) == [steps]
  {
    assert [steps][..0] == [];
    assert Flatten([steps]) == Flatten([steps][..0]) + steps == steps;
    assert Maximal([steps]) by { assert GroupOk(steps); }
    GroupsUnique([steps]);
  }

  lemma OneGroupIsAll<Ctx>(steps: seq<SagaStep<Ctx>>)
    requires |Groups(steps)| == 1
    ensures Groups(steps) == [steps] && GroupOk(steps)
  {
    var groups := Groups(steps);
    GroupsPartition(steps);
    assert groups[..0] == [] && Flatten(groups) == Flatten(groups[..0]) + groups[0] == groups[0];
    assert GroupOk(groups[0]);
  }

  lemma OneSegment<Ctx>(steps: seq<SagaStep<Ctx>>)
    requires |SegmentsFrom(steps)| == 1
    ensures SegmentsFrom(steps)[0].TransactionSegment? <==> NoOutbound(steps)
  {
    OneGroupIsAll(steps);
    assert SegmentsFrom(steps)[0] == SegmentOf(steps);
  }

  lemma NoSegment<Ctx>(steps: seq<SagaStep<Ctx>>)
    requires SegmentsFrom(steps) == []
    ensures steps == []
  {
    GroupsPartition(steps);
  }

  /** Without outbound steps all steps are one unit, and the other way round. */
  lemma OneUnitOfSteps<Ctx>(steps: seq<SagaStep<Ctx>>)
    ensures OneUnit(Shape(SegmentsFrom(steps))) <==> NoOutbound(steps)
  {
    var segments := SegmentsFrom(steps);
    if |segments| == 0 {
      NoSegment(steps);
    } else if |segments| == 1 {
      OneSegment(steps);
      assert Shape(segments) == [segments[0].TransactionSegment?];
    } else if NoOutbound(steps) && |steps| > 0 {
      AllInOneGroup(steps);
    }
  }

  /** The saga of these steps, in any world, with any policy its ledger allows. */
  ghost predicate Plays<Ctx(!new), R(!new)>(
      sys: System<Ctx, R>, steps: seq<SagaStep<Ctx>>, reply: Reply<Ctx, R>, mode: LedgerMode)
  {
    && sys.segments == SegmentsFrom(steps) && sys.reply == reply && sys.env.mode == mode
    && (mode == InProcess ==> sys.retry == None)
  }

  lemma OutboundStepsOnly<Ctx>(steps: seq<SagaStep<Ctx>>, i: nat)
    requires i < |SegmentsFrom(steps)| && SegmentsFrom(steps)[i].OutboundSegment?
    ensures SegmentsFrom(steps)[i].step.OutboundStep?
  {
    GroupsPartition(steps);
  }

  /**
   * A saga whose first unit can commit frees its key whenever it fails, whatever the database, the ports and
   * its steps do, if and only if it has no outbound step.
   */
  lemma {:induction false} FailuresFreeKeyExactly<Ctx(!new), R(!new)>(
      mode: LedgerMode, steps: seq<SagaStep<Ctx>>, reply: Reply<Ctx, R>, ctx: Ctx, tick: nat)
    requires mode != Unkeyed
    requires SegmentsFrom(steps) != [] ==> GetsThrough(SegmentsFrom(steps)[0], ctx, tick)
    ensures NoOutbound(steps) <==>
      forall sys, path, history :: Plays(sys, steps, reply, mode) ==> !KeepsKey(sys, path, history)
  {
    OneUnitOfSteps(steps);
    var segments := SegmentsFrom(steps);
    forall i: nat | i < |segments| && segments[i].OutboundSegment? ensures segments[i].step.OutboundStep? {
      OutboundStepsOnly(steps, i);
    }
    if NoOutbound(steps) {
      forall sys, path, history | Plays(sys, steps, reply, mode) ensures !KeepsKey(sys, path, history) {
        OneUnitFreesKey(sys, path, history);
      }
    } else {
      var sys, path, history := OthersKeepKey(mode, segments, reply, ctx, tick);
      assert Plays(sys, steps, reply, mode) && KeepsKey(sys, path, history);
    }
  }

  // ---- By shape.

  /** The simplest saga of a shape. */
  function Simplest<Ctx>(shape: seq<bool>): (segments: seq<Segment<Ctx>>)
    ensures Shape(segments) == shape
  {
    var step := (ctx: Ctx, tick: nat) => StepResult(ctx, [], [], None);
    var out := (ctx: Ctx, tick: nat) => OutboundResult(ctx, None);
    seq(|shape|, i requires 0 <= i < |shape| =>
      if shape[i] then TransactionSegment([step], []) else OutboundSegment(OutboundStep(out, None, true)))
  }

  /** The runner's systems of this shape: any steps, calls and reply, in any world. */
  ghost predicate OfShape<Ctx(!new), R(!new)>(sys: System<Ctx, R>, shape: seq<bool>, mode: LedgerMode)
  {
    && OnlyOutbound(sys) && Shape(sys.segments) == shape && sys.env.mode == mode
    && (mode == InProcess ==> sys.retry == None)
  }

  /** The shapes whose every saga frees its key whenever it fails: no segment, or one transaction segment. */
  lemma {:induction false} ShapeDecides<Ctx(!new), R(!new)>(mode: LedgerMode, shape: seq<bool>, ctx: Ctx, value: R)
    requires mode != Unkeyed
    ensures OneUnit(shape) <==> forall sys: System<Ctx, R>, path, history ::
      OfShape(sys, shape, mode) ==> !KeepsKey(sys, path, history)
  {
    if OneUnit(shape) {
      forall sys: System<Ctx, R>, path, history | OfShape(sys, shape, mode) ensures !KeepsKey(sys, path, history) {
        OneUnitFreesKey(sys, path, history);
      }
    } else {
      var segments := Simplest<Ctx>(shape);
      if segments[0].TransactionSegment? { OneStepWhole(segments[0].steps[0], ctx, 0); }
      var sys, path, history := OthersKeepKey(mode, segments, (ctx, tick) => Ok(value), ctx, 0);
      assert OfShape(sys, shape, mode) && KeepsKey(sys, path, history);
    }
  }
}
