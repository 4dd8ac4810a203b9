/**
 * Any number of runs that share one (scope, key) pair of a ledger in the database, the calls of their
 * units interleaved in any order (src/saga/saga-runner.ts, src/saga/saga-test-kit.ts).
 */
module AtMostOnce {
  import opened Common
  import opened Saga
  import opened Segments
  import opened UnitHistory
  import opened UnitAmong
  import opened SagaRun
  import opened UnitEffects
  import opened SagaSafety
  import Ledgers

  /** The committed row of the key, and the runs. */
  datatype Contest<!Ctx, !R> = Contest(entry: LedgerEntry<R>, systems: seq<System<Ctx, R>>, runs: seq<Machine<Ctx, R>>)

  /** Run `k` takes one step on the row as it is. */
  ghost predicate RunMoves<Ctx(!new), R(!new)>(s: Contest<Ctx, R>, s': Contest<Ctx, R>, k: nat)
  {
    && k < |s.runs| == |s.systems| && s'.systems == s.systems && |s'.runs| == |s.runs|
    && s'.runs == s.runs[k := s'.runs[k]]
    && Next(s.systems[k], WithEntry(s.runs[k], s.entry), s'.runs[k])
    && s'.entry == s'.runs[k].now.entry
  }

  ghost predicate SystemsOk<Ctx(!new), R(!new)>(s: Contest<Ctx, R>)
  {
    |s.runs| == |s.systems| &&
    forall k :: 0 <= k < |s.systems| ==> s.systems[k].env.mode == InDatabase && OnlyOutbound(s.systems[k])
  }

  function Own<Ctx, R>(m: Machine<Ctx, R>): LedgerEntry<R> { OwnEntry(m.now.commits) }

  ghost predicate RunOk<Ctx(!new), R(!new)>(s: Contest<Ctx, R>, k: nat)
    requires k < |s.runs| == |s.systems|
  {
    var m := s.runs[k];
    && Stage(s.systems[k], m)
    && (Own(m) != Free ==> s.entry == Own(m))
    && (m.phase.Over? && m.phase.outcome.Replayed? ==> s.entry == Applied(m.phase.outcome.value))
  }

  /** The row is what the one run that has made something of it has made; or it is free. */
  ghost predicate Inv<Ctx(!new), R(!new)>(s: Contest<Ctx, R>)
  {
    && SystemsOk(s)
    && (forall k :: 0 <= k < |s.runs| ==> RunOk(s, k))
    && (forall j, k :: 0 <= j < |s.runs| && 0 <= k < |s.runs| && j != k ==>
          Own(s.runs[j]) == Free || Own(s.runs[k]) == Free)
    && (s.entry != Free ==> exists k :: 0 <= k < |s.runs| && Own(s.runs[k]) == s.entry)
  }

  /** What one unit may do to its key: claim it, record the reply, both, or release it. */
  predicate UnitOps<R>(ops: seq<LedgerOp<R>>)
  {
    || ops == []
    || (|ops| == 1)
    || (|ops| == 2 && ops[0].Claim? && ops[1].Record?)
  }

  /** The ledger rows of the unit that a step committed, if it committed one. */
  function Staged<R>(before: seq<Commit<R>>, after: seq<Commit<R>>): seq<LedgerOp<R>>
  {
    if |after| > |before| then after[|after| - 1].ops else []
  }

  /** A step commits one unit at most. */
  ghost predicate OneCommit<R>(before: seq<Commit<R>>, after: seq<Commit<R>>)
  {
    after == before || (|after| == |before| + 1 && after[..|before|] == before)
  }

  /** What a step does to the row and to what its run has made of it. */
  ghost predicate Rows<Ctx(!new), R(!new)>(m: Machine<Ctx, R>, m': Machine<Ctx, R>, ops: seq<LedgerOp<R>>)
  {
    && ops == Staged(m.now.commits, m'.now.commits) && OneCommit(m.now.commits, m'.now.commits)
    && Own(m') == ApplyOps(Own(m), ops) && Fits(m, m', ops)
  }

  ghost predicate Fits<Ctx(!new), R(!new)>(m: Machine<Ctx, R>, m': Machine<Ctx, R>, ops: seq<LedgerOp<R>>)
  {
    && m'.now.entry == ApplyOps(m.now.entry, ops)
    && (ops != [] && Own(m) == Free ==> m.now.entry == Free)
    && (Own(m).Applied? ==> ops == [])
    && UnitOps(ops) && (ops != [] ==> (ops[0].Claim? <==> Own(m) == Free))
    && (m'.phase.Over? && m'.phase.outcome.Replayed? ==> ops == [] && m.now.entry == Applied(m'.phase.outcome.value))
  }

  lemma NoRows<Ctx(!new), R(!new)>(m: Machine<Ctx, R>, m': Machine<Ctx, R>)
    requires m'.now.entry == m.now.entry && m'.now.commits == m.now.commits
    requires !(m'.phase.Over? && m'.phase.outcome.Replayed?)
    ensures Rows(m, m', [])
  {
  }

  lemma StoppedRows<Ctx(!new), R(!new)>(sys: System<Ctx, R>, m: Machine<Ctx, R>, m': Machine<Ctx, R>)
    requires sys.env.mode == InDatabase && Stopped(sys, m, m')
    ensures Rows(m, m', [])
  {
    NoRows(m, m');
  }

  lemma CommittedRows<Ctx(!new), R(!new)>(m: Machine<Ctx, R>, m': Machine<Ctx, R>, c: Commit<R>)
    requires m'.now.commits == m.now.commits + [c] && Fits(m, m', c.ops)
    ensures Rows(m, m', c.ops)
  {
    NamesGrow(m.now.commits, c);
    assert (m.now.commits + [c])[..|m.now.commits|] == m.now.commits;
  }

  lemma TransactionRowsOf<Ctx(!new), R(!new)>(sys: System<Ctx, R>, i: nat, m: Machine<Ctx, R>, m': Machine<Ctx, R>)
    returns (ops: seq<LedgerOp<R>>)
    requires sys.env.mode == InDatabase && Stage(sys, m) && m.phase.At? && m.phase.index == i < |sys.segments|
    requires sys.segments[i].TransactionSegment? && TransactionMove(sys, i, m, m')
    ensures Rows(m, m', ops)
  {
    var end, value := TransactionMoves(sys, i, m, m');
    if end.None? {
      ops := [];
      StoppedRows(sys, m, m');
    } else {
      ops := end.value.c.ops;
      TransactionFits(sys, i, m, m', value, end.value);
      CommittedRows(m, m', end.value.c);
    }
  }

  lemma TransactionFits<Ctx(!new), R(!new)>(
      sys: System<Ctx, R>, i: nat, m: Machine<Ctx, R>, m': Machine<Ctx, R>, value: Option<R>, end: UnitEnd<R>)
    requires sys.env.mode == InDatabase && Stage(sys, m) && m.phase.At? && m.phase.index == i < |sys.segments|
    requires sys.segments[i].TransactionSegment? && TransactionEnd(sys, i, m.now, m'.now, value, end)
    requires m'.phase == if end.Repeated? then Over(Replayed(end.response)) else At(i + 1, value)
    ensures Fits(m, m', end.c.ops)
  {
  }

  lemma MoveRows<Ctx(!new), R(!new)>(
      sys: System<Ctx, R>, m: Machine<Ctx, R>, m': Machine<Ctx, R>)
    returns (ops: seq<LedgerOp<R>>)
    requires sys.env.mode == InDatabase && OnlyOutbound(sys) && Stage(sys, m) && Next(sys, m, m')
    ensures Rows(m, m', ops)
  {
    ops := [];
    match m.phase
    case At(i, reply) =>
      if i == |sys.segments| {
        NoRows(m, m');
      } else if sys.segments[i].TransactionSegment? {
        ops := TransactionRowsOf(sys, i, m, m');
      } else if m.now.claimed {
        NoRows(m, m');
      } else {
        ops := ClaimRows(sys, i, m, m');
      }
    case Calling(i) =>
      OutboundNoRows(sys.segments[i].step, i, m, m');
    case Compensating(i, e) =>
      ops := CompensationRows(sys, i, e, m, m');
    case Recording(v) =>
      ops := RecordRows(sys, v, m, m');
    case Over(_) =>
  }

  lemma OutboundNoRows<Ctx(!new), R(!new)>(step: SagaStep<Ctx>, i: nat, m: Machine<Ctx, R>, m': Machine<Ctx, R>)
    requires step.OutboundStep? && OutboundMove(step, i, m, m')
    ensures Rows(m, m', [])
  {
    var tick: nat :| OutboundEnds(step, i, m, m', step.call(m.now.ctx, tick));
    NoRows(m, m');
  }

  lemma ClaimRows<Ctx(!new), R(!new)>(sys: System<Ctx, R>, i: nat, m: Machine<Ctx, R>, m': Machine<Ctx, R>)
    returns (ops: seq<LedgerOp<R>>)
    requires sys.env.mode == InDatabase && Stage(sys, m) && m.phase.At? && m.phase.index == i && OutboundAt(sys, i)
    requires !m.now.claimed && ClaimMove(sys, i, m, m')
    ensures Rows(m, m', ops)
  {
    ops := [];
    var plan := Plan(sys, ClaimUnit(i), [], i == 0);
    var result :| ClaimEnds(sys, i, m, m', result);
    if result.Err? {
      FailedUnit(sys.env, plan, ClaimOnly, m.now, m'.now, result);
      NoRows(m, m');
    } else {
      var c := ClaimEffect(sys, plan, m.now, m'.now, result.value);
      CommittedRows(m, m', c);
      ops := c.ops;
    }
  }

  lemma CompensationRows<Ctx(!new), R(!new)>(
      sys: System<Ctx, R>, i: nat, e: SagaError, m: Machine<Ctx, R>, m': Machine<Ctx, R>)
    returns (ops: seq<LedgerOp<R>>)
    requires sys.env.mode == InDatabase && Stage(sys, m) && m.phase == Compensating(i, e)
    requires CompensateMove(sys, sys.segments[i].step, i, e, m, m')
    ensures Rows(m, m', ops)
  {
    var c := CompensationMoves(sys, i, e, m, m');
    if c.None? {
      ops := [];
      StoppedRows(sys, m, m');
    } else {
      CommittedRows(m, m', c.value);
      ops := c.value.ops;
    }
  }

  lemma RecordRows<Ctx(!new), R(!new)>(sys: System<Ctx, R>, v: R, m: Machine<Ctx, R>, m': Machine<Ctx, R>)
    returns (ops: seq<LedgerOp<R>>)
    requires sys.env.mode == InDatabase && Stage(sys, m) && m.phase == Recording(v) && RecordMove(sys, v, m, m')
    ensures Rows(m, m', ops)
  {
    ops := [];
    var plan := Plan(sys, RecordUnit, [], false);
    var result :| RecordEnds(sys, v, m, m', result);
    if result.Err? {
      FailedUnit(sys.env, plan, RecordReply(v), m.now, m'.now, result);
      NoRows(m, m');
    } else {
      var c := RecordEffect(sys, plan, v, m.now, m'.now, result.value);
      CommittedRows(m, m', c);
      ops := c.ops;
    }
  }

  lemma StepRows<Ctx(!new), R(!new)>(s: Contest<Ctx, R>, s': Contest<Ctx, R>, k: nat) returns (ops: seq<LedgerOp<R>>)
    requires Inv(s) && RunMoves(s, s', k)
    ensures Rows(WithEntry(s.runs[k], s.entry), s'.runs[k], ops)
    ensures Stage(s.systems[k], s'.runs[k])
  {
    assert RunOk(s, k);
    var w := WithEntry(s.runs[k], s.entry);
    assert Stage(s.systems[k], w);
    ops := MoveRows(s.systems[k], w, s'.runs[k]);
    assert NextAmong(s.systems[k], s.runs[k], s'.runs[k]);
    StepKeepsStage(s.systems[k], s.runs[k], s'.runs[k]);
  }

  /** The entry and what its run made of it move together. */
  lemma RowsTogether<Ctx(!new), R(!new)>(m: Machine<Ctx, R>, m': Machine<Ctx, R>, ops: seq<LedgerOp<R>>)
    requires Rows(m, m', ops) && (Own(m) != Free ==> m.now.entry == Own(m))
    ensures ops == [] ==> m'.now.entry == m.now.entry && Own(m') == Own(m)
    ensures ops != [] ==> m.now.entry == Own(m) && m'.now.entry == Own(m')
  {
  }

  /** A run changes the row only while no other run has made anything of it. */
  lemma OthersMadeNothing<Ctx(!new), R(!new)>(
      s: Contest<Ctx, R>, s': Contest<Ctx, R>, k: nat, ops: seq<LedgerOp<R>>, j: nat)
    requires Inv(s) && k < |s.runs| && j < |s.runs| && j != k && k < |s'.runs|
    requires Rows(WithEntry(s.runs[k], s.entry), s'.runs[k], ops) && ops != []
    ensures Own(s.runs[j]) == Free
  {
    assert RunOk(s, j) && RunOk(s, k);
    assert Own(WithEntry(s.runs[k], s.entry)) == Own(s.runs[k]);
  }

  /**
   * Every unit that commits does to the row exactly what it staged, which is what a ledger in the database
   * expects of one unit; a step that commits nothing leaves the row.
   */
  lemma UnitsAreOrderly<Ctx(!new), R(!new)>(s: Contest<Ctx, R>, s': Contest<Ctx, R>, k: nat)
    requires Inv(s) && RunMoves(s, s', k)
    ensures OneCommit(s.runs[k].now.commits, s'.runs[k].now.commits)
    ensures var ops := Staged(s.runs[k].now.commits, s'.runs[k].now.commits);
      s'.entry == ApplyOps(s.entry, ops) && Ledgers.Orderly(s.entry, ops) && Ledgers.OneUnit(ops)
  {
    var ops := StepRows(s, s', k);
    assert RunOk(s, k);
    assert Own(WithEntry(s.runs[k], s.entry)) == Own(s.runs[k]);
    OrderlyUnit(s.entry, ops);
  }

  lemma OrderlyUnit<R>(entry: LedgerEntry<R>, ops: seq<LedgerOp<R>>)
    requires UnitOps(ops) && (ops != [] ==> entry == if ops[0].Claim? then Free else Pending)
    ensures Ledgers.Orderly(entry, ops) && Ledgers.OneUnit(ops)
  {
    if |ops| == 2 {
      assert ops[..1] == [ops[0]] && [ops[0]][..0] == [];
    } else if |ops| == 1 {
      assert ops[..0] == [];
    }
  }

  lemma StepKeepsInv<Ctx(!new), R(!new)>(s: Contest<Ctx, R>, s': Contest<Ctx, R>, k: nat)
    requires Inv(s) && RunMoves(s, s', k)
    ensures Inv(s')
  {
    var ops := StepRows(s, s', k);
    var w := WithEntry(s.runs[k], s.entry);
    assert RunOk(s, k);
    RowsTogether(w, s'.runs[k], ops);
    assert Own(w) == Own(s.runs[k]);
    forall j | 0 <= j < |s'.runs| ensures RunOk(s', j) {
      assert RunOk(s, j);
      if ops != [] && j != k { OthersMadeNothing(s, s', k, ops, j); }
    }
    forall i, j | 0 <= i < |s'.runs| && 0 <= j < |s'.runs| && i != j
      ensures Own(s'.runs[i]) == Free || Own(s'.runs[j]) == Free
    {
      if ops != [] && i != k { OthersMadeNothing(s, s', k, ops, i); }
      if ops != [] && j != k { OthersMadeNothing(s, s', k, ops, j); }
    }
    if s'.entry != Free {
      if ops != [] {
        assert Own(s'.runs[k]) == s'.entry;
      } else {
        var j :| 0 <= j < |s.runs| && Own(s.runs[j]) == s.entry;
        assert Own(s'.runs[j]) == s'.entry;
      }
    }
  }

  /** Nobody has asked for the key yet. */
  ghost predicate Start<Ctx(!new), R(!new)>(s: Contest<Ctx, R>)
  {
    SystemsOk(s) && s.entry == Free && forall k :: 0 <= k < |s.runs| ==> Fresh(s.runs[k])
  }

  lemma StartInv<Ctx(!new), R(!new)>(s: Contest<Ctx, R>)
    requires Start(s)
    ensures Inv(s)
  {
    forall k | 0 <= k < |s.runs| ensures RunOk(s, k) { assert Fresh(s.runs[k]); }
  }

  /** A schedule of units of the runs, from the start; `states` are the states between its steps. */
  ghost predicate Schedule<Ctx(!new), R(!new)>(states: seq<Contest<Ctx, R>>, who: seq<nat>)
  {
    |states| == |who| + 1 &&
    if |who| == 0 then Start(states[0])
    else Schedule(states[..|who|], who[..|who| - 1]) && RunMoves(states[|who| - 1], states[|who|], who[|who| - 1])
  }

  lemma {:induction false} ScheduleInv<Ctx(!new), R(!new)>(states: seq<Contest<Ctx, R>>, who: seq<nat>)
    requires Schedule(states, who)
    ensures Inv(states[|who|])
    decreases |who|
  {
    if |who| == 0 {
      StartInv(states[0]);
    } else {
      ScheduleInv(states[..|who|], who[..|who| - 1]);
      StepKeepsInv(states[|who| - 1], states[|who|], who[|who| - 1]);
    }
  }

  /** What every step of a run keeps. */
  ghost predicate Kept<Ctx(!new), R(!new)>(P: Contest<Ctx, R> -> bool)
  {
    forall s, s', k :: Inv(s) && P(s) && RunMoves(s, s', k) ==> P(s')
  }

  /** What every step keeps holds from where it first held to the end of the schedule. */
  lemma {:induction false} KeptToTheEnd<Ctx(!new), R(!new)>(
      states: seq<Contest<Ctx, R>>, who: seq<nat>, i: nat, P: Contest<Ctx, R> -> bool)
    requires Schedule(states, who) && i <= |who| && P(states[i]) && Kept(P)
    ensures P(states[|who|])
    decreases |who|
  {
    if i < |who| {
      var before, prior := states[..|who|], who[..|who| - 1];
      assert before[i] == states[i] && before[|prior|] == states[|who| - 1];
      KeptToTheEnd(before, prior, i, P);
      ScheduleInv(before, prior);
      assert RunMoves(states[|who| - 1], states[|who|], who[|who| - 1]);
    }
  }

  predicate HoldsKey<Ctx, R>(m: Machine<Ctx, R>) { Own(m) == Pending }

  predicate Recorded<Ctx, R>(m: Machine<Ctx, R>) { Own(m).Applied? }

  /** At most once: of all the runs of a key, at most one holds it or has recorded its reply. */
  lemma {:induction false} OneRunAtMost<Ctx(!new), R(!new)>(states: seq<Contest<Ctx, R>>, who: seq<nat>, j: nat, k: nat)
    requires Schedule(states, who)
    requires j < |states[|who|].runs| && k < |states[|who|].runs|
    requires HoldsKey(states[|who|].runs[j]) || Recorded(states[|who|].runs[j])
    requires HoldsKey(states[|who|].runs[k]) || Recorded(states[|who|].runs[k])
    ensures j == k && states[|who|].entry == Own(states[|who|].runs[j])
  {
    ScheduleInv(states, who);
    assert RunOk(states[|who|], j);
  }

  /** Once a reply is recorded it never changes. */
  lemma RecordedStays<Ctx(!new), R(!new)>(s: Contest<Ctx, R>, s': Contest<Ctx, R>, k: nat, v: R)
    requires Inv(s) && RunMoves(s, s', k) && s.entry == Applied(v)
    ensures s'.entry == Applied(v)
  {
    var ops := StepRows(s, s', k);
    assert RunOk(s, k);
    RowsTogether(WithEntry(s.runs[k], s.entry), s'.runs[k], ops);
  }

  lemma RecordedForEver<Ctx(!new), R(!new)>(states: seq<Contest<Ctx, R>>, who: seq<nat>, i: nat, v: R)
    requires Schedule(states, who) && i <= |who| && states[i].entry == Applied(v)
    ensures states[|who|].entry == Applied(v)
  {
    var P := (s: Contest<Ctx, R>) => s.entry == Applied(v);
    forall s, s', k | Inv(s) && P(s) && RunMoves(s, s', k) ensures P(s') { RecordedStays(s, s', k, v); }
    KeptToTheEnd(states, who, i, P);
  }

  /** The answer of a keyed run: its own reply, or the one it replayed. */
  predicate Answered<Ctx, R(==)>(m: Machine<Ctx, R>, v: R)
  {
    m.phase == Over(Replayed(v)) || (m.phase == Over(Replied(v)) && m.now.claimed)
  }

  lemma AnswerIsRow<Ctx(!new), R(!new)>(s: Contest<Ctx, R>, k: nat, v: R)
    requires Inv(s) && k < |s.runs| && Answered(s.runs[k], v)
    ensures s.entry == Applied(v)
  {
    assert RunOk(s, k);
  }

  /** However the runs of a key are interleaved, all of them that answer give the same answer. */
  lemma {:induction false} AnswersAgree<Ctx(!new), R(!new)>(
      states: seq<Contest<Ctx, R>>, who: seq<nat>, j: nat, k: nat, v: R, w: R)
    requires Schedule(states, who)
    requires j < |states[|who|].runs| && k < |states[|who|].runs|
    requires Answered(states[|who|].runs[j], v) && Answered(states[|who|].runs[k], w)
    ensures v == w && states[|who|].entry == Applied(v)
  {
    ScheduleInv(states, who);
    AnswerIsRow(states[|who|], j, v);
    AnswerIsRow(states[|who|], k, w);
  }

  // ---- Runs that start once the reply is recorded.

  /** The call stopped at the claim: no lock, no step, no row. */
  ghost predicate StopsAtClaim<Ctx, R>(run: CallRun<Ctx, R>, v: R)
  {
    run.call == run.from.(replay := Some(v), flow := Returned)
  }

  /** The body of the first unit of a keyed run: it begins with the claim. */
  predicate ClaimsFirst<Ctx, R>(body: Body<Ctx, R>) { body.Transaction? || body.ClaimOnly? }

  lemma RecordedStopsCall<Ctx(!new), R(!new)>(
      env: Environment<Ctx>, plan: UnitPlan, body: Body<Ctx, R>, run: CallRun<Ctx, R>, v: R)
    requires env.mode == InDatabase && ClaimsFirst(body) && RunsAlone(env, plan, body, run)
    requires !run.from.claimed && run.from.flow == Going && run.from.entry == Applied(v)
    ensures StopsAtClaim(run, v)
  {
    CallAlone(env, plan, body, run);
    if body.Transaction? {
      var claimed := ClaimOnce(env.mode, run.from);
      var locked := AcquireLocks(claimed, |plan.locks|, env.lockFate(run.tick));
      assert claimed.flow == Returned && locked == claimed;
      NoSteps(locked, body.steps, run.tick);
    }
  }

  /** Every call the unit makes in any attempt, rolled back or not. */
  ghost predicate AllStop<Ctx, R>(attempts: seq<Attempt<Ctx, R>>, v: R)
  {
    forall k :: 0 <= k < |attempts| ==> AttemptStops(attempts[k], v)
  }

  ghost predicate AttemptStops<Ctx, R>(a: Attempt<Ctx, R>, v: R)
  {
    a.Called? ==> StopsAtClaim(a.last, v) && forall k :: 0 <= k < |a.rolledBack| ==> StopsAtClaim(a.rolledBack[k], v)
  }

  /** Every call of the attempt found the reply recorded. */
  ghost predicate AttemptFinds<Ctx, R>(a: Attempt<Ctx, R>, v: R)
  {
    a.Called? ==>
      && a.last.from.entry == Applied(v)
      && forall k :: 0 <= k < |a.rolledBack| ==> a.rolledBack[k].from.entry == Applied(v)
  }

  ghost predicate AllFind<Ctx, R>(attempts: seq<Attempt<Ctx, R>>, v: R)
  {
    forall k :: 0 <= k < |attempts| ==> AttemptFinds(attempts[k], v)
  }

  lemma {:induction false} ChainStops<Ctx(!new), R(!new)>(
      env: Environment<Ctx>, plan: UnitPlan, body: Body<Ctx, R>, before: Snapshot<Ctx, R>, saved: Option<Ctx>,
      calls: seq<CallRun<Ctx, R>>, v: R)
    requires env.mode == InDatabase && ClaimsFirst(body) && ChainAmong(env, plan, body, before, saved, calls)
    requires !before.claimed && forall k :: 0 <= k < |calls| ==> calls[k].from.entry == Applied(v)
    ensures forall k :: 0 <= k < |calls| ==> StopsAtClaim(calls[k], v)
  {
    if |calls| > 0 {
      var init, last := calls[..|calls| - 1], calls[|calls| - 1];
      ChainStops(env, plan, body, before, saved, init, v);
      StartAmong(env, plan, body, before, saved, init);
      RecordedStopsCall(env, plan, body, last, v);
    }
  }

  lemma AttemptOnRecorded<Ctx(!new), R(!new)>(
      env: Environment<Ctx>, plan: UnitPlan, body: Body<Ctx, R>, before: Snapshot<Ctx, R>, saved: Option<Ctx>,
      a: Attempt<Ctx, R>, v: R)
    requires env.mode == InDatabase && ClaimsFirst(body) && AttemptAmong(env, plan, body, before, saved, a)
    requires !before.claimed && AttemptFinds(a, v)
    ensures AttemptStops(a, v)
  {
    if a.Called? {
      ChainStops(env, plan, body, before, saved, a.rolledBack, v);
      StartAmong(env, plan, body, before, saved, a.rolledBack);
      RecordedStopsCall(env, plan, body, a.last, v);
    }
  }

  lemma {:induction false} AttemptsOnRecorded<Ctx(!new), R(!new)>(
      env: Environment<Ctx>, plan: UnitPlan, body: Body<Ctx, R>, before: Snapshot<Ctx, R>, saved: Option<Ctx>,
      first: nat, attempts: seq<Attempt<Ctx, R>>, v: R)
    requires env.mode == InDatabase && ClaimsFirst(body) && !before.claimed
    requires RunsAmong(env, plan, body, before, saved, first, attempts) && AllFind(attempts, v)
    ensures AllStop(attempts, v)
  {
    if |attempts| > 0 {
      var init := attempts[..|attempts| - 1];
      AttemptsOnRecorded(env, plan, body, before, saved, first, init, v);
      RetriedAmong(env, plan, body, before, saved, first, init);
      AttemptOnRecorded(
        env, plan, body, StateAmong(env, plan, before, saved, init), saved, attempts[|attempts| - 1], v);
    }
  }

  /** In a unit that begins with the claim of a recorded key every call, of every attempt, stops there. */
  lemma UnitStops<Ctx(!new), R(!new)>(
      env: Environment<Ctx>, plan: UnitPlan, body: Body<Ctx, R>, before: Snapshot<Ctx, R>, first: nat,
      attempts: seq<Attempt<Ctx, R>>, after: Snapshot<Ctx, R>, result: Result<Option<R>, SagaError>, v: R)
    requires env.mode == InDatabase && ClaimsFirst(body) && !before.claimed
    requires DoneAmong(env, plan, body, before, first, attempts, after, result) && AllFind(attempts, v)
    ensures AllStop(attempts, v)
  {
    if !Refuses(env, plan, before.ctx) {
      AttemptsOnRecorded(env, plan, body, before, SavedCtx(env, plan, before.ctx), first, attempts, v);
    }
  }

  /** A unit that begins with the claim of a recorded key replays exactly the recorded reply, or fails. */
  lemma UnitOnRecorded<Ctx(!new), R(!new)>(
      env: Environment<Ctx>, plan: UnitPlan, body: Body<Ctx, R>, before: Snapshot<Ctx, R>, after: Snapshot<Ctx, R>,
      result: Result<Option<R>, SagaError>, v: R)
    requires env.mode == InDatabase && ClaimsFirst(body) && UnitStep(env, plan, body, before, after, result)
    requires !before.claimed && before.entry == Applied(v)
    ensures result.Ok? ==> after.replay == Some(v) && after.entry == Applied(v)
    ensures result.Err? ==>
      after.replay == before.replay && after.entry == Applied(v) && after.commits == before.commits
  {
    StepIsLoose(env, plan, body, before, after, result);
    if result.Ok? {
      var run :| UnitCommits(env, plan, body, run, before, after, result.value);
      RecordedStopsCall(env, plan, body, run, v);
    }
  }

  function FirstPlan<Ctx, R>(sys: System<Ctx, R>, m': Machine<Ctx, R>): UnitPlan
    requires |sys.segments| > 0
  {
    if sys.segments[0].TransactionSegment? then Plan(sys, TxUnit(0), m'.locks, true)
    else Plan(sys, ClaimUnit(0), [], true)
  }

  function FirstBody<Ctx, R>(sys: System<Ctx, R>): Body<Ctx, R>
    requires |sys.segments| > 0
  {
    if sys.segments[0].TransactionSegment? then BodyOf(sys, 0) else ClaimOnly
  }

  /** The attempts of the unit that the first step of a run executes. */
  ghost predicate FirstUnit<Ctx(!new), R(!new)>(
      sys: System<Ctx, R>, m: Machine<Ctx, R>, m': Machine<Ctx, R>, attempts: seq<Attempt<Ctx, R>>)
    requires |sys.segments| > 0
  {
    exists first, result ::
      DoneAmong(sys.env, FirstPlan(sys, m'), FirstBody(sys), m.now, first, attempts, m'.now, result)
  }

  /** The run ended without a step: it replayed `v`, or it failed with nothing committed. */
  ghost predicate DidNothing<Ctx, R>(m: Machine<Ctx, R>, v: R)
  {
    m.phase == Over(Replayed(v)) || (m.phase.Over? && m.phase.outcome.Failed? && m.now.commits == [])
  }

  /**
   * A run that starts once the reply is recorded executes no step: however its first unit is executed,
   * with any number of attempts and calls, every call stops at the claim. The run replays exactly that
   * reply or fails, with no write committed.
   */
  lemma LaterRunsDoNothing<Ctx(!new), R(!new)>(sys: System<Ctx, R>, m: Machine<Ctx, R>, m': Machine<Ctx, R>, v: R)
    requires sys.env.mode == InDatabase && OnlyOutbound(sys) && |sys.segments| > 0
    requires Fresh(m) && m.now.entry == Applied(v) && Next(sys, m, m')
    ensures forall attempts :: FirstUnit(sys, m, m', attempts) && AllFind(attempts, v) ==> AllStop(attempts, v)
    ensures m'.now.entry == Applied(v) && Atomic(sys, m'.phase, m'.now.commits) && DidNothing(m', v)
  {
    assert Stage(sys, m);
    assert NextAmong(sys, m, m') by { assert WithEntry(m, m.now.entry) == m; }
    StepKeepsStage(sys, m, m');
    StageIsAtomic(sys, m');
    if sys.segments[0].TransactionSegment? { LaterTransaction(sys, m, m', v); } else { LaterClaim(sys, m, m', v); }
    forall attempts | FirstUnit(sys, m, m', attempts) && AllFind(attempts, v) ensures AllStop(attempts, v) {
      FirstUnitStops(sys, m, m', attempts, v);
    }
  }

  lemma FirstUnitStops<Ctx(!new), R(!new)>(
      sys: System<Ctx, R>, m: Machine<Ctx, R>, m': Machine<Ctx, R>, attempts: seq<Attempt<Ctx, R>>, v: R)
    requires sys.env.mode == InDatabase && |sys.segments| > 0 && Fresh(m)
    requires FirstUnit(sys, m, m', attempts) && AllFind(attempts, v)
    ensures AllStop(attempts, v)
  {
    var first: nat, result :|
      DoneAmong(sys.env, FirstPlan(sys, m'), FirstBody(sys), m.now, first, attempts, m'.now, result);
    UnitStops(sys.env, FirstPlan(sys, m'), FirstBody(sys), m.now, first, attempts, m'.now, result, v);
  }

  lemma LaterTransaction<Ctx(!new), R(!new)>(sys: System<Ctx, R>, m: Machine<Ctx, R>, m': Machine<Ctx, R>, v: R)
    requires sys.env.mode == InDatabase && |sys.segments| > 0 && sys.segments[0].TransactionSegment?
    requires Fresh(m) && m.now.entry == Applied(v) && TransactionMove(sys, 0, m, m')
    ensures m'.now.entry == Applied(v) && DidNothing(m', v)
  {
    if !(m'.now == m.now && m'.phase.Over? && m'.phase.outcome.Failed?) {
      var result :| TransactionEnds(sys, 0, m, m', result);
      UnitOnRecorded(sys.env, FirstPlan(sys, m'), FirstBody(sys), m.now, m'.now, result, v);
    }
  }

  lemma LaterClaim<Ctx(!new), R(!new)>(sys: System<Ctx, R>, m: Machine<Ctx, R>, m': Machine<Ctx, R>, v: R)
    requires sys.env.mode == InDatabase && |sys.segments| > 0 && !sys.segments[0].TransactionSegment?
    requires Fresh(m) && m.now.entry == Applied(v) && ClaimMove(sys, 0, m, m')
    ensures m'.now.entry == Applied(v) && DidNothing(m', v)
  {
    var result :| ClaimEnds(sys, 0, m, m', result);
    UnitOnRecorded(sys.env, FirstPlan(sys, m'), FirstBody(sys), m.now, m'.now, result, v);
  }

  /** The reply is recorded, and run `k` of these systems has not started or did nothing. */
  ghost predicate TooLate<Ctx(!new), R(!new)>(s: Contest<Ctx, R>, systems: seq<System<Ctx, R>>, k: nat, v: R)
  {
    && s.systems == systems && k < |s.runs| == |systems| && |systems[k].segments| > 0 && s.entry == Applied(v)
    && (Fresh(s.runs[k]) || DidNothing(s.runs[k], v))
  }

  /** Over a whole schedule: a run that has not started when the reply is recorded never executes a step. */
  lemma LateStartersDoNothing<Ctx(!new), R(!new)>(
      states: seq<Contest<Ctx, R>>, who: seq<nat>, i: nat, k: nat, v: R)
    requires Schedule(states, who) && i <= |who| && states[i].entry == Applied(v)
    requires k < |states[i].runs| == |states[i].systems| && |states[i].systems[k].segments| > 0
    requires Fresh(states[i].runs[k])
    ensures TooLate(states[|who|], states[i].systems, k, v)
  {
    var systems := states[i].systems;
    var P := (s: Contest<Ctx, R>) => TooLate(s, systems, k, v);
    forall s, s', j | Inv(s) && P(s) && RunMoves(s, s', j) ensures P(s') { LateStep(s, s', j, systems, k, v); }
    KeptToTheEnd(states, who, i, P);
  }

  lemma LateStep<Ctx(!new), R(!new)>(
      s: Contest<Ctx, R>, s': Contest<Ctx, R>, k: nat, systems: seq<System<Ctx, R>>, j: nat, v: R)
    requires Inv(s) && RunMoves(s, s', k) && TooLate(s, systems, j, v)
    ensures TooLate(s', systems, j, v)
  {
    RecordedStays(s, s', k, v);
    if j == k && Fresh(s.runs[k]) {
      LaterRunsDoNothing(s.systems[k], WithEntry(s.runs[k], s.entry), s'.runs[k], v);
    }
  }

  // ---- The key of a run that failed.

  /**
   * A run that failed has given its key back if and only if nothing of it was committed, or the last
   * thing it committed is the compensation of an outbound step. Otherwise the key is pending.
   */
  lemma {:induction false} FailedRunKey<Ctx(!new), R(!new)>(states: seq<Contest<Ctx, R>>, who: seq<nat>, k: nat)
    requires Schedule(states, who) && k < |states[|who|].runs|
    requires states[|who|].runs[k].phase.Over? && states[|who|].runs[k].phase.outcome.Failed?
    ensures var s := states[|who|]; var commits := s.runs[k].now.commits;
      && (HoldsKey(s.runs[k]) <==> commits != [] && !GaveBack(commits))
      && (HoldsKey(s.runs[k]) ==> s.entry == Pending)
      && (!HoldsKey(s.runs[k]) && |s.runs| == 1 ==> s.entry == Free)
  {
    ScheduleInv(states, who);
    FailedOwn(states[|who|], k);
  }

  lemma FailedOwn<Ctx(!new), R(!new)>(s: Contest<Ctx, R>, k: nat)
    requires Inv(s) && k < |s.runs| && s.runs[k].phase.Over? && s.runs[k].phase.outcome.Failed?
    ensures var commits := s.runs[k].now.commits;
      Own(s.runs[k]) == (if commits != [] && !GaveBack(commits) then Pending else Free)
      && (Own(s.runs[k]) != Free ==> s.entry == Own(s.runs[k]))
      && (Own(s.runs[k]) == Free && |s.runs| == 1 ==> s.entry == Free)
  {
    assert RunOk(s, k);
  }

  /** Run `j` is over as `m`, and holds its key. */
  ghost predicate Stuck<Ctx(!new), R(!new)>(s: Contest<Ctx, R>, n: nat, j: nat, m: Machine<Ctx, R>)
  {
    j < n == |s.runs| && s.runs[j] == m && m.phase.Over? && HoldsKey(m)
  }

  lemma StuckStays<Ctx(!new), R(!new)>(
      s: Contest<Ctx, R>, s': Contest<Ctx, R>, k: nat, n: nat, j: nat, m: Machine<Ctx, R>)
    requires RunMoves(s, s', k) && Stuck(s, n, j, m)
    ensures Stuck(s', n, j, m)
  {
  }

  lemma StuckEntry<Ctx(!new), R(!new)>(s: Contest<Ctx, R>, n: nat, j: nat, m: Machine<Ctx, R>)
    requires Inv(s) && Stuck(s, n, j, m)
    ensures s.entry == Pending
  {
    assert RunOk(s, j);
  }

  /** A key that a finished run still holds stays pending for the rest of every schedule. */
  lemma HeldKeyStays<Ctx(!new), R(!new)>(states: seq<Contest<Ctx, R>>, who: seq<nat>, i: nat, j: nat)
    requires Schedule(states, who) && i <= |who| && j < |states[i].runs|
    requires states[i].runs[j].phase.Over? && HoldsKey(states[i].runs[j])
    ensures |states[|who|].runs| == |states[i].runs|
    ensures states[|who|].runs[j] == states[i].runs[j] && states[|who|].entry == Pending
  {
    var n, m := |states[i].runs|, states[i].runs[j];
    var P := (s: Contest<Ctx, R>) => Stuck(s, n, j, m);
    forall s, s', k | Inv(s) && P(s) && RunMoves(s, s', k) ensures P(s') { StuckStays(s, s', k, n, j, m); }
    KeptToTheEnd(states, who, i, P);
    ScheduleInv(states, who);
    StuckEntry(states[|who|], n, j, m);
  }
}
