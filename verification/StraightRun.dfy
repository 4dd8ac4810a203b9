/**
 * When the ctxs on which a run begins its units are restored faithfully, or calls are not repeated, the
 * run amounts to its steps and calls one after the other, each once, on the ctx the one before left
 * (src/saga/saga-runner.ts): failed attempts and repeated calls leave no trace in ctx or in what is written.
 */
module StraightRun {
  import opened Common
  import opened Saga
  import opened Segments
  import opened UnitHistory
  import opened SagaRun
  import opened UnitEffects
  import opened SagaSafety
  import opened SoloRun

  /** What a transaction segment wrote and registered. */
  datatype Part = Part(index: nat, writes: seq<Write>, callbacks: seq<Callback>)

  /** The first `|ticks|` segments run straight from `ctx`, segment `j` as the call with tick `ticks[j]`. */
  function Straight<Ctx, R>(sys: System<Ctx, R>, ctx: Ctx, ticks: seq<nat>): Option<(Ctx, seq<Part>)>
    requires |ticks| <= |sys.segments|
    decreases |ticks|
  {
    if |ticks| == 0 then Some((ctx, []))
    else
      var i := |ticks| - 1;
      match Straight(sys, ctx, ticks[..i])
      case None => None
      case Some(before) => StraightSegment(sys, i, before.0, before.1, ticks[i])
  }

  function StraightSegment<Ctx, R>(
      sys: System<Ctx, R>, i: nat, ctx: Ctx, parts: seq<Part>, tick: nat): Option<(Ctx, seq<Part>)>
    requires i < |sys.segments|
  {
    if sys.segments[i].TransactionSegment? then
      match EveryStep(sys.segments[i].steps, ctx, tick)
      case None => None
      case Some(all) => Some((all.0, parts + [Part(i, all.1, all.2)]))
    else if sys.segments[i].step.OutboundStep? then
      var r := sys.segments[i].step.call(ctx, tick);
      if r.failure.Some? then None else Some((r.ctx, parts))
    else None
  }

  /** The parts of the committed transaction segments. */
  function PartsOf<R>(commits: seq<Commit<R>>): seq<Part>
  {
    if |commits| == 0 then []
    else
      var c := commits[|commits| - 1];
      PartsOf(commits[..|commits| - 1]) + if c.name.TxUnit? then [Part(c.name.index, c.writes, c.callbacks)] else []
  }

  lemma PartsSnoc<R>(commits: seq<Commit<R>>, c: Commit<R>)
    ensures PartsOf(commits + [c]) ==
      PartsOf(commits) + if c.name.TxUnit? then [Part(c.name.index, c.writes, c.callbacks)] else []
  {
    assert (commits + [c])[..|commits|] == commits;
  }

  /** The unit of a step, if there is one, begins on a ctx that is restored faithfully, or is called once. */
  ghost predicate DirectStep<Ctx(!new), R(!new)>(sys: System<Ctx, R>, m: Machine<Ctx, R>, m': Machine<Ctx, R>)
  {
    UnitAt(sys, m, m').Some? ==> DirectAt(sys, m.now.ctx)
  }

  ghost predicate DirectOn<Ctx(!new), R(!new)>(sys: System<Ctx, R>, path: seq<Machine<Ctx, R>>)
  {
    forall j, k :: 0 <= j && j + 1 == k < |path| ==> DirectStep(sys, path[j], path[k])
  }

  /** The first `i` segments, straight from `ctx`, come to this ctx and these commits. */
  ghost predicate CameTo<Ctx(!new), R(!new)>(
      sys: System<Ctx, R>, start: Ctx, i: nat, ticks: seq<nat>, ctx: Ctx, commits: seq<Commit<R>>)
  {
    |ticks| == i <= |sys.segments| && Straight(sys, start, ticks) == Some((ctx, PartsOf(commits)))
  }

  ghost predicate CameStraight<Ctx(!new), R(!new)>(
      sys: System<Ctx, R>, start: Ctx, i: nat, ctx: Ctx, commits: seq<Commit<R>>)
  {
    exists ticks :: CameTo(sys, start, i, ticks, ctx, commits)
  }

  /** The call of outbound `i` failed with `e` on the ctx that the segments before it left. */
  ghost predicate FailedStraight<Ctx(!new), R(!new)>(
      sys: System<Ctx, R>, start: Ctx, i: nat, e: SagaError, ctx: Ctx, commits: seq<Commit<R>>)
  {
    OutboundAt(sys, i) && exists at, tick: nat :: FailedOn(sys, start, i, e, at, tick, ctx, commits)
  }

  ghost predicate FailedOn<Ctx(!new), R(!new)>(
      sys: System<Ctx, R>, start: Ctx, i: nat, e: SagaError, at: Ctx, tick: nat, ctx: Ctx, commits: seq<Commit<R>>)
    requires OutboundAt(sys, i)
  {
    CameStraight(sys, start, i, at, commits) && sys.segments[i].step.call(at, tick) == OutboundResult(ctx, Some(e))
  }

  /** The compensation of outbound `i` ran on the ctx that its failing call left. */
  ghost predicate CompensatedStraight<Ctx(!new), R(!new)>(
      sys: System<Ctx, R>, start: Ctx, i: nat, commits: seq<Commit<R>>)
  {
    && |commits| > 0 && OutboundAt(sys, i)
    && exists e, ctx :: CompensatedOn(sys, start, i, e, ctx, commits)
  }

  ghost predicate CompensatedOn<Ctx(!new), R(!new)>(
      sys: System<Ctx, R>, start: Ctx, i: nat, e: SagaError, ctx: Ctx, commits: seq<Commit<R>>)
    requires |commits| > 0 && OutboundAt(sys, i)
  {
    var c := commits[|commits| - 1];
    && c.name == CompensateUnit(i) && FailedStraight(sys, start, i, e, ctx, commits[..|commits| - 1])
    && RanWhole(CompensationSteps(sys.segments[i].step.compensate), ctx, c.tick, c.writes, c.callbacks)
  }

  /** What was committed is what a straight run writes, and then perhaps the compensation. */
  ghost predicate StraightCommits<Ctx(!new), R(!new)>(sys: System<Ctx, R>, start: Ctx, commits: seq<Commit<R>>)
  {
    || (exists i, ctx :: CameStraight(sys, start, i, ctx, commits))
    || (exists i :: CompensatedStraight(sys, start, i, commits))
  }

  /** The reply is made of the ctx that the whole straight run leaves. */
  ghost predicate RepliedStraight<Ctx(!new), R(!new)>(sys: System<Ctx, R>, start: Ctx, v: R, commits: seq<Commit<R>>)
  {
    exists ctx, tick: nat :: RepliedOn(sys, start, v, ctx, tick, commits)
  }

  ghost predicate RepliedOn<Ctx(!new), R(!new)>(
      sys: System<Ctx, R>, start: Ctx, v: R, ctx: Ctx, tick: nat, commits: seq<Commit<R>>)
  {
    CameStraight(sys, start, |sys.segments|, ctx, commits) && sys.reply(ctx, tick) == Ok(v)
  }

  ghost predicate OnCourse<Ctx(!new), R(!new)>(sys: System<Ctx, R>, start: Ctx, m: Machine<Ctx, R>)
  {
    Stage(sys, m) &&
    match m.phase
    case At(i, reply) =>
      && CameStraight(sys, start, i, m.now.ctx, m.now.commits)
      && (reply.Some? ==> RepliedStraight(sys, start, reply.value, m.now.commits))
    case Calling(i) => CameStraight(sys, start, i, m.now.ctx, m.now.commits)
    case Compensating(i, e) => FailedStraight(sys, start, i, e, m.now.ctx, m.now.commits)
    case Recording(v) =>
      && CameStraight(sys, start, |sys.segments|, m.now.ctx, m.now.commits)
      && RepliedStraight(sys, start, v, m.now.commits)
    case Over(Replied(v)) => RepliedStraight(sys, start, v, m.now.commits)
    case Over(Replayed(_)) => true
    case Over(Failed(_)) => StraightCommits(sys, start, m.now.commits)
  }

  lemma CameFurther<Ctx(!new), R(!new)>(
      sys: System<Ctx, R>, start: Ctx, i: nat, ctx: Ctx, commits: seq<Commit<R>>, tick: nat, ctx': Ctx,
      commits': seq<Commit<R>>)
    requires i < |sys.segments| && CameStraight(sys, start, i, ctx, commits)
    requires StraightSegment(sys, i, ctx, PartsOf(commits), tick) == Some((ctx', PartsOf(commits')))
    ensures CameStraight(sys, start, i + 1, ctx', commits')
  {
    var ticks :| CameTo(sys, start, i, ticks, ctx, commits);
    assert (ticks + [tick])[..i] == ticks && (ticks + [tick])[i] == tick;
    assert CameTo(sys, start, i + 1, ticks + [tick], ctx', commits');
  }

  /** A commit that wrote nothing changes no part. */
  lemma SamePartsCame<Ctx(!new), R(!new)>(
      sys: System<Ctx, R>, start: Ctx, i: nat, ctx: Ctx, commits: seq<Commit<R>>, commits': seq<Commit<R>>)
    requires CameStraight(sys, start, i, ctx, commits) && PartsOf(commits') == PartsOf(commits)
    ensures CameStraight(sys, start, i, ctx, commits')
  {
    var ticks :| CameTo(sys, start, i, ticks, ctx, commits);
    assert CameTo(sys, start, i, ticks, ctx, commits');
  }

  // ---- Every step keeps the course.

  lemma StopsStraight<Ctx(!new), R(!new)>(
      sys: System<Ctx, R>, start: Ctx, i: nat, ctx: Ctx, m: Machine<Ctx, R>, m': Machine<Ctx, R>)
    requires CameStraight(sys, start, i, ctx, m.now.commits) && Stage(sys, m')
    requires m'.phase.Over? && m'.phase.outcome.Failed? && m'.now.commits == m.now.commits
    ensures OnCourse(sys, start, m')
  {
  }

  lemma TransactionOnCourse<Ctx(!new), R(!new)>(
      sys: System<Ctx, R>, start: Ctx, i: nat, m: Machine<Ctx, R>, m': Machine<Ctx, R>)
    requires DirectAt(sys, m.now.ctx) && OnCourse(sys, start, m) && m.phase.At? && m.phase.index == i < |sys.segments|
    requires sys.segments[i].TransactionSegment? && TransactionMove(sys, i, m, m') && Stage(sys, m')
    ensures OnCourse(sys, start, m')
  {
    var end, value := TransactionMoves(sys, i, m, m');
    match end
    case None => StopsStraight(sys, start, i, m.now.ctx, m, m');
    case Some(Ran(c)) => RanOnCourse(sys, start, i, m, m', value, c);
    case Some(Repeated(_, _)) =>
  }

  lemma RanOnCourse<Ctx(!new), R(!new)>(
      sys: System<Ctx, R>, start: Ctx, i: nat, m: Machine<Ctx, R>, m': Machine<Ctx, R>, value: Option<R>, c: Commit<R>)
    requires DirectAt(sys, m.now.ctx) && CameStraight(sys, start, i, m.now.ctx, m.now.commits)
    requires i < |sys.segments| && sys.segments[i].TransactionSegment?
    requires TransactionEnd(sys, i, m.now, m'.now, value, Ran(c))
    requires m'.phase == At(i + 1, value) && Stage(sys, m')
    ensures OnCourse(sys, start, m')
  {
    PartsSnoc(m.now.commits, c);
    CameFurther(sys, start, i, m.now.ctx, m.now.commits, c.tick, m'.now.ctx, m'.now.commits);
    if value.Some? { assert RepliedOn(sys, start, value.value, m'.now.ctx, c.tick, m'.now.commits); }
  }

  lemma ClaimOnCourse<Ctx(!new), R(!new)>(
      sys: System<Ctx, R>, start: Ctx, i: nat, m: Machine<Ctx, R>, m': Machine<Ctx, R>)
    requires OnCourse(sys, start, m) && m.phase.At? && m.phase.index == i && OutboundAt(sys, i)
    requires DirectStep(sys, m, m') && ClaimMove(sys, i, m, m') && Stage(sys, m')
    ensures OnCourse(sys, start, m')
  {
    if !(sys.env.mode == Unkeyed || m.now.claimed) {
      var plan := Plan(sys, ClaimUnit(i), [], i == 0);
      var result :| ClaimEnds(sys, i, m, m', result);
      if result.Err? {
        FailedUnit(sys.env, plan, ClaimOnly, m.now, m'.now, result);
        StopsStraight(sys, start, i, m.now.ctx, m, m');
      } else {
        var c := ClaimEffect(sys, plan, m.now, m'.now, result.value);
        LedgerOnCourse(sys, start, i, m.now, m'.now, c);
      }
    }
  }

  /** A unit of the ledger alone leaves ctx and what is written. */
  lemma LedgerOnCourse<Ctx(!new), R(!new)>(
      sys: System<Ctx, R>, start: Ctx, i: nat, before: Snapshot<Ctx, R>, after: Snapshot<Ctx, R>, c: Commit<R>)
    requires DirectAt(sys, before.ctx) && CameStraight(sys, start, i, before.ctx, before.commits)
    requires RanFrom(sys, [], before, after, c) && after.commits == before.commits + [c] && !c.name.TxUnit?
    ensures CameStraight(sys, start, i, after.ctx, after.commits) && PartsOf(after.commits) == PartsOf(before.commits)
  {
    NothingRan(sys, before, after, c);
    PartsSnoc(before.commits, c);
    SamePartsCame(sys, start, i, before.ctx, before.commits, after.commits);
  }

  lemma CallOnCourse<Ctx(!new), R(!new)>(
      sys: System<Ctx, R>, start: Ctx, i: nat, m: Machine<Ctx, R>, m': Machine<Ctx, R>)
    requires OnCourse(sys, start, m) && m.phase == Calling(i) && OutboundMove(sys.segments[i].step, i, m, m')
    requires Stage(sys, m')
    ensures OnCourse(sys, start, m')
  {
    var step := sys.segments[i].step;
    var tick: nat :| OutboundEnds(step, i, m, m', step.call(m.now.ctx, tick));
    var r := step.call(m.now.ctx, tick);
    if r.failure.None? {
      CameFurther(sys, start, i, m.now.ctx, m.now.commits, tick, r.ctx, m'.now.commits);
    } else if m'.phase.Over? {
      StopsStraight(sys, start, i, m.now.ctx, m, m');
    } else {
      assert r == OutboundResult(m'.now.ctx, Some(r.failure.value));
      assert FailedOn(sys, start, i, r.failure.value, m.now.ctx, tick, m'.now.ctx, m'.now.commits);
    }
  }

  lemma CompensateOnCourse<Ctx(!new), R(!new)>(
      sys: System<Ctx, R>, start: Ctx, i: nat, e: SagaError, m: Machine<Ctx, R>, m': Machine<Ctx, R>)
    requires DirectAt(sys, m.now.ctx) && OnCourse(sys, start, m) && m.phase == Compensating(i, e)
    requires CompensateMove(sys, sys.segments[i].step, i, e, m, m') && Stage(sys, m')
    ensures OnCourse(sys, start, m')
  {
    var c := CompensationMoves(sys, i, e, m, m');
    if c.None? {
      var at, tick: nat :| FailedOn(sys, start, i, e, at, tick, m.now.ctx, m.now.commits);
      StopsStraight(sys, start, i, at, m, m');
    } else {
      CompensatedCame(sys, start, i, e, m.now, m'.now, c.value);
      assert CompensatedStraight(sys, start, i, m'.now.commits);
    }
  }

  lemma CompensatedCame<Ctx(!new), R(!new)>(
      sys: System<Ctx, R>, start: Ctx, i: nat, e: SagaError, before: Snapshot<Ctx, R>, after: Snapshot<Ctx, R>,
      c: Commit<R>)
    requires DirectAt(sys, before.ctx) && FailedStraight(sys, start, i, e, before.ctx, before.commits)
    requires RanFrom(sys, CompensationSteps(sys.segments[i].step.compensate), before, after, c)
    requires after.commits == before.commits + [c] && c.name == CompensateUnit(i)
    ensures CompensatedStraight(sys, start, i, after.commits)
  {
    assert after.commits[..|before.commits|] == before.commits;
    assert CompensatedOn(sys, start, i, e, before.ctx, after.commits);
  }

  lemma FinishOnCourse<Ctx(!new), R(!new)>(sys: System<Ctx, R>, start: Ctx, m: Machine<Ctx, R>, m': Machine<Ctx, R>)
    requires OnCourse(sys, start, m) && m.phase.At? && m.phase.index == |sys.segments|
    requires FinishMove(sys, m.phase.reply, m, m') && Stage(sys, m')
    ensures OnCourse(sys, start, m')
  {
    var n := |sys.segments|;
    if m.phase.reply.None? {
      var tick: nat :| m'.phase == AfterReply(sys.reply(m.now.ctx, tick), m.now.claimed);
      match sys.reply(m.now.ctx, tick)
      case Err(_) => StopsStraight(sys, start, n, m.now.ctx, m, m');
      case Ok(v) => assert RepliedOn(sys, start, v, m.now.ctx, tick, m.now.commits);
    }
  }

  lemma RecordOnCourse<Ctx(!new), R(!new)>(
      sys: System<Ctx, R>, start: Ctx, v: R, m: Machine<Ctx, R>, m': Machine<Ctx, R>)
    requires DirectAt(sys, m.now.ctx) && OnCourse(sys, start, m) && m.phase == Recording(v)
    requires RecordMove(sys, v, m, m') && Stage(sys, m')
    ensures OnCourse(sys, start, m')
  {
    var n, plan := |sys.segments|, Plan(sys, RecordUnit, [], false);
    var result :| RecordEnds(sys, v, m, m', result);
    if result.Err? {
      FailedUnit(sys.env, plan, RecordReply(v), m.now, m'.now, result);
      StopsStraight(sys, start, n, m.now.ctx, m, m');
    } else {
      var c := RecordEffect(sys, plan, v, m.now, m'.now, result.value);
      LedgerOnCourse(sys, start, n, m.now, m'.now, c);
      var ctx, tick: nat :| RepliedOn(sys, start, v, ctx, tick, m.now.commits);
      SamePartsCame(sys, start, n, ctx, m.now.commits, m'.now.commits);
      assert RepliedOn(sys, start, v, ctx, tick, m'.now.commits);
    }
  }

  lemma NextOnCourse<Ctx(!new), R(!new)>(sys: System<Ctx, R>, start: Ctx, m: Machine<Ctx, R>, m': Machine<Ctx, R>)
    requires OnlyOutbound(sys) && DirectStep(sys, m, m') && OnCourse(sys, start, m)
    requires Next(sys, m, m') && Stage(sys, m')
    ensures OnCourse(sys, start, m')
  {
    match m.phase
    case At(i, reply) =>
      if i == |sys.segments| { FinishOnCourse(sys, start, m, m'); }
      else if sys.segments[i].TransactionSegment? { TransactionOnCourse(sys, start, i, m, m'); }
      else { ClaimOnCourse(sys, start, i, m, m'); }
    case Calling(i) => CallOnCourse(sys, start, i, m, m');
    case Compensating(i, e) => CompensateOnCourse(sys, start, i, e, m, m');
    case Recording(v) => RecordOnCourse(sys, start, v, m, m');
    case Over(_) =>
  }

  lemma EntryOnCourse<Ctx(!new), R(!new)>(sys: System<Ctx, R>, start: Ctx, m: Machine<Ctx, R>, entry: LedgerEntry<R>)
    requires OnCourse(sys, start, m)
    ensures OnCourse(sys, start, WithEntry(m, entry))
  {
  }

  lemma StepOnCourse<Ctx(!new), R(!new)>(sys: System<Ctx, R>, start: Ctx, m: Machine<Ctx, R>, m': Machine<Ctx, R>)
    requires OnlyOutbound(sys) && DirectStep(sys, m, m') && OnCourse(sys, start, m) && NextAmong(sys, m, m')
    ensures OnCourse(sys, start, m')
  {
    StepKeepsStage(sys, m, m');
    var entry :| Next(sys, WithEntry(m, entry), m');
    EntryOnCourse(sys, start, m, entry);
    NextOnCourse(sys, start, WithEntry(m, entry), m');
  }

  /**
   * A whole run, whatever attempts failed and calls were repeated on the way, and whatever other runs
   * did: each segment ran once on the ctx that the one before it left, the first on the ctx of the start.
   * What is committed is what these wrote, then perhaps the compensation, which ran on the ctx of the
   * failed call; the reply is made of the ctx that the last segment left.
   */
  lemma {:induction false} RunIsStraight<Ctx(!new), R(!new)>(sys: System<Ctx, R>, path: seq<Machine<Ctx, R>>)
    requires OnlyOutbound(sys) && Path(sys, path) && DirectOn(sys, path)
    ensures OnCourse(sys, path[0].now.ctx, path[|path| - 1])
    decreases |path|
  {
    var start := path[0].now.ctx;
    if |path| == 1 {
      assert CameTo(sys, start, 0, [], start, path[0].now.commits);
      PathKeepsStage(sys, path);
    } else {
      RunIsStraight(sys, path[..|path| - 1]);
      StepOnCourse(sys, start, path[|path| - 2], path[|path| - 1]);
    }
  }
}
