/**
 * What a saga run leaves behind after any number of steps, for every failure of steps, commits and
 * ports, and whatever other runs do to the ledger entry in between.
 */
module SagaSafety {
  import opened Common
  import opened Saga
  import opened UnitHistory
  import opened SagaRun
  import opened UnitEffects

  /** The ledger entry the commits of one run amount to, from a free key. */
  function OwnEntry<R>(commits: seq<Commit<R>>): LedgerEntry<R>
  {
    if commits == [] then Free else ApplyOps(OwnEntry(commits[..|commits| - 1]), commits[|commits| - 1].ops)
  }

  function Names<R>(commits: seq<Commit<R>>): (names: seq<Label>)
    ensures |names| == |commits|
  {
    seq(|commits|, i requires 0 <= i < |commits| => commits[i].name)
  }

  /** The entry a run should have made: its claim, and its reply once recorded. */
  function Standing<Ctx, R>(sys: System<Ctx, R>, claimed: bool, reply: Option<R>): LedgerEntry<R>
  {
    if !claimed || !Transactional(sys) then Free else if reply.Some? then Applied(reply.value) else Pending
  }

  predicate EndsInTransaction<Ctx, R>(sys: System<Ctx, R>)
  {
    |sys.segments| > 0 && sys.segments[|sys.segments| - 1].TransactionSegment?
  }

  /** The units of the first `i` segments: one each, and a claim of its own when the saga opens outbound. */
  function PrefixNames<Ctx, R>(sys: System<Ctx, R>, i: nat): seq<Label>
    requires i <= |sys.segments|
  {
    if i == 0 then [] else PrefixNames(sys, i - 1) + OwnName(sys, i - 1)
  }

  function OwnName<Ctx, R>(sys: System<Ctx, R>, i: nat): seq<Label>
    requires i < |sys.segments|
  {
    if sys.segments[i].TransactionSegment? then [TxUnit(i)]
    else if i == 0 && Keyed(sys) then [ClaimUnit(0)] else []
  }

  /** The unit committed all of its segment's writes, in order; units of the ledger alone wrote nothing. */
  ghost predicate CommitOk<Ctx(!new), R(!new)>(sys: System<Ctx, R>, c: Commit<R>)
  {
    match c.name
    case TxUnit(k) =>
      k < |sys.segments| && sys.segments[k].TransactionSegment?
      && exists ctx :: RanWhole(sys.segments[k].steps, ctx, c.tick, c.writes, c.callbacks)
    case CompensateUnit(k) =>
      OutboundAt(sys, k) && exists ctx ::
        RanWhole(CompensationSteps(sys.segments[k].step.compensate), ctx, c.tick, c.writes, c.callbacks)
    case ClaimUnit(_) => LedgerOnly(c)
    case RecordUnit => LedgerOnly(c)
  }

  lemma RanIsWhole<Ctx(!new), R(!new)>(
      sys: System<Ctx, R>, steps: seq<Step<Ctx>>, before: Snapshot<Ctx, R>, after: Snapshot<Ctx, R>, c: Commit<R>)
    requires RanFrom(sys, steps, before, after, c)
    ensures exists ctx :: RanWhole(steps, ctx, c.tick, c.writes, c.callbacks)
  {
    var from :| RanOn(sys, steps, from, before, after, c);
    assert RanWhole(steps, from, c.tick, c.writes, c.callbacks);
  }

  ghost predicate AllOk<Ctx(!new), R(!new)>(sys: System<Ctx, R>, commits: seq<Commit<R>>)
  {
    forall i :: 0 <= i < |commits| ==> CommitOk(sys, commits[i])
  }

  // ---- The invariant of a run.

  /** Nothing recorded or given back yet: the key is held from the first unit on, until the reply is in. */
  ghost predicate InFlight<Ctx(!new), R(!new)>(sys: System<Ctx, R>, m: Machine<Ctx, R>, started: bool, reply: Option<R>)
  {
    && AllOk(sys, m.now.commits) && m.now.replay == None
    && m.now.claimed == (started && Keyed(sys))
    && OwnEntry(m.now.commits) == Standing(sys, m.now.claimed, reply)
  }

  predicate GaveBack<R>(commits: seq<Commit<R>>)
  {
    commits != [] && commits[|commits| - 1].name.CompensateUnit?
  }

  /** The units of a prefix of the segments, and at most one compensation, of the outbound that failed. */
  ghost predicate FailedAfter<Ctx(!new), R(!new)>(sys: System<Ctx, R>, commits: seq<Commit<R>>, k: nat)
  {
    && k <= |sys.segments| && (k == |sys.segments| ==> !EndsInTransaction(sys))
    && (Names(commits) == PrefixNames(sys, k)
        || (OutboundAt(sys, k) && Names(commits) == PrefixNames(sys, k + 1) + [CompensateUnit(k)]))
  }

  ghost predicate Ended<Ctx(!new), R(!new)>(sys: System<Ctx, R>, m: Machine<Ctx, R>, outcome: Outcome<R>)
  {
    var commits := m.now.commits;
    match outcome
    case Replied(v) =>
      && AllOk(sys, commits)
      && Names(commits) == PrefixNames(sys, |sys.segments|)
           + (if m.now.claimed && !EndsInTransaction(sys) then [RecordUnit] else [])
      && m.now.claimed == (|sys.segments| > 0 && Keyed(sys))
      && OwnEntry(commits) == Standing(sys, m.now.claimed, Some(v))
    case Replayed(_) =>
      Keyed(sys) && |commits| == 1 && LedgerOnly(commits[0]) && commits[0].ops == []
    case Failed(_) =>
      && AllOk(sys, commits) && (exists k :: FailedAfter(sys, commits, k))
      && m.now.claimed == (commits != [] && Keyed(sys))
      && OwnEntry(commits) == Standing(sys, m.now.claimed && !GaveBack(commits), None)
  }

  ghost predicate Stage<Ctx(!new), R(!new)>(sys: System<Ctx, R>, m: Machine<Ctx, R>)
  {
    var n, names := |sys.segments|, Names(m.now.commits);
    match m.phase
    case At(i, reply) =>
      && i <= n && names == PrefixNames(sys, i) && InFlight(sys, m, i > 0, reply)
      && (reply.Some? <==> i == n && EndsInTransaction(sys))
    case Calling(i) => OutboundAt(sys, i) && names == PrefixNames(sys, i + 1) && InFlight(sys, m, true, None)
    case Compensating(i, _) => OutboundAt(sys, i) && names == PrefixNames(sys, i + 1) && InFlight(sys, m, true, None)
    case Recording(_) =>
      n > 0 && names == PrefixNames(sys, n) && InFlight(sys, m, true, None) && m.now.claimed && !EndsInTransaction(sys)
    case Over(outcome) => Ended(sys, m, outcome)
  }

  lemma NamesGrow<R>(commits: seq<Commit<R>>, c: Commit<R>)
    ensures Names(commits + [c]) == Names(commits) + [c.name]
    ensures OwnEntry(commits + [c]) == ApplyOps(OwnEntry(commits), c.ops)
  {
    assert (commits + [c])[..|commits|] == commits;
  }

  lemma AllOkGrow<Ctx(!new), R(!new)>(sys: System<Ctx, R>, commits: seq<Commit<R>>, c: Commit<R>)
    requires AllOk(sys, commits) && CommitOk(sys, c)
    ensures AllOk(sys, commits + [c])
  {
  }

  lemma {:induction false} PrefixStarted<Ctx(!new), R(!new)>(sys: System<Ctx, R>, commits: seq<Commit<R>>, i: nat)
    requires i <= |sys.segments| && Names(commits) == PrefixNames(sys, i)
    ensures i == 0 ==> commits == []
    ensures i > 0 && Keyed(sys) ==> commits != []
  {
    if i > 0 {
      StartsNonEmpty(sys, i);
      assert |commits| == |PrefixNames(sys, i)|;
    }
  }

  lemma {:induction false} StartsNonEmpty<Ctx(!new), R(!new)>(sys: System<Ctx, R>, i: nat)
    requires 0 < i <= |sys.segments|
    ensures Keyed(sys) ==> PrefixNames(sys, i) != []
  {
    if i > 1 { StartsNonEmpty(sys, i - 1); }
  }

  lemma FailKeeps<Ctx(!new), R(!new)>(
      sys: System<Ctx, R>, m: Machine<Ctx, R>, m': Machine<Ctx, R>, k: nat, started: bool, e: SagaError)
    requires InFlight(sys, m, started, None) && FailedAfter(sys, m.now.commits, k) && !GaveBack(m.now.commits)
    requires Keyed(sys) ==> (started <==> m.now.commits != [])
    requires m'.phase == Over(Failed(e)) && m'.now.commits == m.now.commits && m'.now.claimed == m.now.claimed
    ensures Stage(sys, m')
  {
  }

  lemma {:induction false} PrefixGivesNothingBack<Ctx(!new), R(!new)>(sys: System<Ctx, R>, i: nat)
    requires i <= |sys.segments|
    ensures forall k :: 0 <= k < |PrefixNames(sys, i)| ==> !PrefixNames(sys, i)[k].CompensateUnit?
  {
    if i > 0 { PrefixGivesNothingBack(sys, i - 1); }
  }

  lemma PrefixNotGivenBack<Ctx(!new), R(!new)>(sys: System<Ctx, R>, commits: seq<Commit<R>>, i: nat)
    requires i <= |sys.segments| && Names(commits) == PrefixNames(sys, i)
    ensures !GaveBack(commits) && ((i == |sys.segments| && EndsInTransaction(sys)) || FailedAfter(sys, commits, i))
    ensures Keyed(sys) ==> (i > 0 <==> commits != [])
  {
    PrefixStarted(sys, commits, i);
    PrefixGivesNothingBack(sys, i);
    if commits != [] { assert Names(commits)[|commits| - 1] == commits[|commits| - 1].name; }
  }

  /** What the unit of a segment comes to: the run fails with nothing more committed, or the unit committed. */
  lemma TransactionMoves<Ctx(!new), R(!new)>(sys: System<Ctx, R>, i: nat, m: Machine<Ctx, R>, m': Machine<Ctx, R>)
    returns (end: Option<UnitEnd<R>>, value: Option<R>)
    requires i < |sys.segments| && sys.segments[i].TransactionSegment? && TransactionMove(sys, i, m, m')
    requires m.now.replay == None && (m.now.claimed ==> Keyed(sys))
    ensures end.None? ==> Stopped(sys, m, m')
    ensures end.Some? ==> TransactionEnd(sys, i, m.now, m'.now, value, end.value)
    ensures end.Some? ==> m'.phase == if end.value.Ran? then At(i + 1, value) else Over(Replayed(end.value.response))
  {
    end, value := None, None;
    if !(m'.now == m.now && m'.phase.Over? && m'.phase.outcome.Failed?) {
      var result :| TransactionEnds(sys, i, m, m', result);
      var plan := Plan(sys, TxUnit(i), m'.locks, i == 0);
      if result.Err? {
        FailedUnit(sys.env, plan, BodyOf(sys, i), m.now, m'.now, result);
      } else {
        value := result.value;
        var e := TransactionEffect(sys, i, plan, m.now, m'.now, value);
        end := Some(e);
      }
    }
  }

  /** The run failed, and its last step committed nothing. */
  ghost predicate Stopped<Ctx(!new), R(!new)>(sys: System<Ctx, R>, m: Machine<Ctx, R>, m': Machine<Ctx, R>)
  {
    m'.phase.Over? && m'.phase.outcome.Failed? && LeavesNothing(sys.env.mode, m.now, m'.now)
  }

  lemma StoppedKeepsStage<Ctx(!new), R(!new)>(
      sys: System<Ctx, R>, m: Machine<Ctx, R>, m': Machine<Ctx, R>, k: nat, started: bool)
    requires k <= |sys.segments| && Names(m.now.commits) == PrefixNames(sys, k) && InFlight(sys, m, started, None)
    requires (k > 0 <==> started) && (k < |sys.segments| || !EndsInTransaction(sys)) && Stopped(sys, m, m')
    ensures Stage(sys, m')
  {
    PrefixNotGivenBack(sys, m.now.commits, k);
    FailKeeps(sys, m, m', k, started, m'.phase.outcome.error);
  }

  lemma TransactionKeepsStage<Ctx(!new), R(!new)>(sys: System<Ctx, R>, i: nat, m: Machine<Ctx, R>, m': Machine<Ctx, R>)
    requires Stage(sys, m) && m.phase.At? && m.phase.index == i < |sys.segments|
    requires sys.segments[i].TransactionSegment? && TransactionMove(sys, i, m, m')
    ensures Stage(sys, m')
  {
    var end, value := TransactionMoves(sys, i, m, m');
    match end
    case None => StoppedKeepsStage(sys, m, m', i, i > 0);
    case Some(Ran(c)) => RanKeepsStage(sys, i, m, m', value, c);
    case Some(Repeated(c, response)) => RepeatedKeepsStage(sys, i, m, m', value, c, response);
  }

  /** A unit that committed `c` keeps the run in flight. */
  lemma FlightGrows<Ctx(!new), R(!new)>(
      sys: System<Ctx, R>, m: Machine<Ctx, R>, m': Machine<Ctx, R>, c: Commit<R>, reply: Option<R>)
    requires AllOk(sys, m.now.commits) && CommitOk(sys, c) && m'.now.commits == m.now.commits + [c]
    requires m'.now.replay == None && m'.now.claimed == Keyed(sys)
    requires ApplyOps(OwnEntry(m.now.commits), c.ops) == Standing(sys, Keyed(sys), reply)
    ensures InFlight(sys, m', true, reply) && Names(m'.now.commits) == Names(m.now.commits) + [c.name]
  {
    NamesGrow(m.now.commits, c);
    AllOkGrow(sys, m.now.commits, c);
  }

  lemma RanKeepsStage<Ctx(!new), R(!new)>(
      sys: System<Ctx, R>, i: nat, m: Machine<Ctx, R>, m': Machine<Ctx, R>, value: Option<R>, c: Commit<R>)
    requires Stage(sys, m) && m.phase.At? && m.phase.index == i < |sys.segments| && sys.segments[i].TransactionSegment?
    requires TransactionEnd(sys, i, m.now, m'.now, value, Ran(c)) && m'.phase == At(i + 1, value)
    ensures Stage(sys, m')
  {
    RanIsWhole(sys, sys.segments[i].steps, m.now, m'.now, c);
    RanGoesOn(sys, i, m, m', value, c);
  }

  lemma RanGoesOn<Ctx(!new), R(!new)>(
      sys: System<Ctx, R>, i: nat, m: Machine<Ctx, R>, m': Machine<Ctx, R>, value: Option<R>, c: Commit<R>)
    requires Stage(sys, m) && m.phase.At? && m.phase.index == i < |sys.segments| && sys.segments[i].TransactionSegment?
    requires CommitOk(sys, c) && c.name == TxUnit(i) && m'.now.commits == m.now.commits + [c]
    requires m'.now.replay == None && m'.now.claimed == Keyed(sys) && (value.Some? <==> i == |sys.segments| - 1)
    requires c.ops == if !Transactional(sys) then [] else
      (if m.now.claimed then [] else [Claim]) + if value.Some? then [Record(value.value)] else []
    requires m'.phase == At(i + 1, value)
    ensures Stage(sys, m')
  {
    RanRows(m.now.claimed, Transactional(sys), OwnEntry(m.now.commits), value, c.ops);
    FlightGrows(sys, m, m', c, value);
    assert PrefixNames(sys, i + 1) == PrefixNames(sys, i) + OwnName(sys, i);
  }

  lemma RepeatedKeepsStage<Ctx(!new), R(!new)>(
      sys: System<Ctx, R>, i: nat, m: Machine<Ctx, R>, m': Machine<Ctx, R>, value: Option<R>, c: Commit<R>, response: R)
    requires Stage(sys, m) && m.phase.At? && m.phase.index == i < |sys.segments| && sys.segments[i].TransactionSegment?
    requires TransactionEnd(sys, i, m.now, m'.now, value, Repeated(c, response)) && m'.phase == Over(Replayed(response))
    ensures Stage(sys, m')
  {
    assert i == 0 && Names(m.now.commits) == [];
    assert m'.now.commits == [c];
  }

  /** The rows of a unit, on the entry its run has made so far. */
  lemma RanRows<R>(claimed: bool, stored: bool, own: LedgerEntry<R>, value: Option<R>, ops: seq<LedgerOp<R>>)
    requires own == if claimed && stored then Pending else Free
    requires ops == if !stored then [] else
      (if claimed then [] else [Claim]) + if value.Some? then [Record(value.value)] else []
    ensures ApplyOps(own, ops) == if !stored then Free else if value.Some? then Applied(value.value) else Pending
  {
    if stored && value.Some? {
      assert ops[..|ops| - 1] == if claimed then [] else [Claim];
    }
  }

  // ---- The other moves.

  lemma ClaimedKeepsStage<Ctx(!new), R(!new)>(
      sys: System<Ctx, R>, m: Machine<Ctx, R>, m': Machine<Ctx, R>, c: Commit<R>)
    requires Stage(sys, m) && m.phase.At? && m.phase.index == 0 && OutboundAt(sys, 0) && Keyed(sys)
    requires m.now.commits == [] && m'.now.commits == [c] && c.name == ClaimUnit(0) && LedgerOnly(c)
    requires if m'.now.replay.Some? then m'.phase == Over(Replayed(m'.now.replay.value)) && c.ops == []
             else m'.phase == Calling(0) && m'.now.claimed && c.ops == if Transactional(sys) then [Claim] else []
    ensures Stage(sys, m')
  {
    assert PrefixNames(sys, 1) == PrefixNames(sys, 0) + OwnName(sys, 0);
    if m'.now.replay.None? {
      if Transactional(sys) { assert c.ops[..0] == []; }
      FlightGrows(sys, m, m', c, None);
    }
  }

  lemma ClaimKeepsStage<Ctx(!new), R(!new)>(sys: System<Ctx, R>, i: nat, m: Machine<Ctx, R>, m': Machine<Ctx, R>)
    requires Stage(sys, m) && m.phase.At? && m.phase.index == i && OutboundAt(sys, i)
    requires ClaimMove(sys, i, m, m')
    ensures Stage(sys, m')
  {
    assert PrefixNames(sys, i + 1) == PrefixNames(sys, i) + OwnName(sys, i);
    if !(sys.env.mode == Unkeyed || m.now.claimed) {
      assert i == 0 && m.now.commits == [] by { assert |Names(m.now.commits)| == 0; }
      FirstClaimKeepsStage(sys, m, m');
    }
  }

  lemma FirstClaimKeepsStage<Ctx(!new), R(!new)>(sys: System<Ctx, R>, m: Machine<Ctx, R>, m': Machine<Ctx, R>)
    requires Stage(sys, m) && m.phase.At? && m.phase.index == 0 && OutboundAt(sys, 0) && m.now.commits == []
    requires Keyed(sys) && !m.now.claimed && ClaimMove(sys, 0, m, m')
    ensures Stage(sys, m')
  {
    var plan := Plan(sys, ClaimUnit(0), [], true);
    var result :| ClaimEnds(sys, 0, m, m', result);
    if result.Err? {
      FailedUnit(sys.env, plan, ClaimOnly, m.now, m'.now, result);
      StoppedKeepsStage(sys, m, m', 0, false);
    } else {
      var c := ClaimEffect(sys, plan, m.now, m'.now, result.value);
      NothingRan(sys, m.now, m'.now, c);
      ClaimedKeepsStage(sys, m, m', c);
    }
  }

  lemma OutboundKeepsStage<Ctx(!new), R(!new)>(sys: System<Ctx, R>, i: nat, m: Machine<Ctx, R>, m': Machine<Ctx, R>)
    requires Stage(sys, m) && m.phase == Calling(i) && OutboundMove(sys.segments[i].step, i, m, m')
    ensures Stage(sys, m')
  {
    var step := sys.segments[i].step;
    var tick: nat :| OutboundEnds(step, i, m, m', step.call(m.now.ctx, tick));
    if m'.phase.Over? { StoppedKeepsStage(sys, m, m', i + 1, true); }
  }

  lemma CompensateKeepsStage<Ctx(!new), R(!new)>(
      sys: System<Ctx, R>, i: nat, e: SagaError, m: Machine<Ctx, R>, m': Machine<Ctx, R>)
    requires Stage(sys, m) && m.phase == Compensating(i, e)
    requires CompensateMove(sys, sys.segments[i].step, i, e, m, m')
    ensures Stage(sys, m')
  {
    var c := CompensationMoves(sys, i, e, m, m');
    if c.None? { StoppedKeepsStage(sys, m, m', i + 1, true); } else { CompensatedKeepsStage(sys, i, m, m', c.value); }
  }

  /** What a compensation comes to: the run ends, with it committed or with nothing more. */
  lemma CompensationMoves<Ctx(!new), R(!new)>(
      sys: System<Ctx, R>, i: nat, e: SagaError, m: Machine<Ctx, R>, m': Machine<Ctx, R>)
    returns (committed: Option<Commit<R>>)
    requires OutboundAt(sys, i) && CompensateMove(sys, sys.segments[i].step, i, e, m, m') && m.now.replay == None
    ensures committed.None? ==> Stopped(sys, m, m')
    ensures committed.Some? ==> var c := committed.value;
      && m'.phase.Over? && m'.phase.outcome.Failed? && m'.now.claimed == m.now.claimed
      && m'.now.commits == m.now.commits + [c] && c.name == CompensateUnit(i)
      && RanFrom(sys, CompensationSteps(sys.segments[i].step.compensate), m.now, m'.now, c)
      && (sys.env.mode != InProcess ==> m'.now.entry == ApplyOps(m.now.entry, c.ops))
      && c.ops == if m.now.claimed && Transactional(sys) then [Release] else []
  {
    var step := sys.segments[i].step;
    var locks := if step.compensate.None? || !step.inheritLocks then [] else m.locks;
    var plan, body := Plan(sys, CompensateUnit(i), locks, false), Body<Ctx, R>.Compensation(step.compensate);
    var result :| CompensationEnds(sys, step, i, e, m, m', result);
    if result.Err? {
      FailedUnit(sys.env, plan, body, m.now, m'.now, result);
      committed := None;
    } else {
      var c := CompensationEffect(sys, i, plan, m.now, m'.now, result.value);
      committed := Some(c);
    }
  }

  lemma CompensatedKeepsStage<Ctx(!new), R(!new)>(
      sys: System<Ctx, R>, i: nat, m: Machine<Ctx, R>, m': Machine<Ctx, R>, c: Commit<R>)
    requires OutboundAt(sys, i) && Names(m.now.commits) == PrefixNames(sys, i + 1) && InFlight(sys, m, true, None)
    requires m'.now.commits == m.now.commits + [c] && c.name == CompensateUnit(i)
    requires RanFrom(sys, CompensationSteps(sys.segments[i].step.compensate), m.now, m'.now, c)
    requires m'.now.claimed == m.now.claimed && c.ops == if m.now.claimed && Transactional(sys) then [Release] else []
    requires m'.phase.Over? && m'.phase.outcome.Failed?
    ensures Stage(sys, m')
  {
    RanIsWhole(sys, CompensationSteps(sys.segments[i].step.compensate), m.now, m'.now, c);
    assert CommitOk(sys, c);
    NamesGrow(m.now.commits, c);
    AllOkGrow(sys, m.now.commits, c);
    assert FailedAfter(sys, m'.now.commits, i);
    if m.now.claimed && Transactional(sys) { assert c.ops[..0] == []; }
  }

  lemma FinishKeepsStage<Ctx(!new), R(!new)>(sys: System<Ctx, R>, m: Machine<Ctx, R>, m': Machine<Ctx, R>)
    requires Stage(sys, m) && m.phase.At? && m.phase.index == |sys.segments| && FinishMove(sys, m.phase.reply, m, m')
    ensures Stage(sys, m')
  {
    var n := |sys.segments|;
    if m'.phase.Over? && m'.phase.outcome.Failed? { StoppedKeepsStage(sys, m, m', n, n > 0); }
  }

  lemma RecordKeepsStage<Ctx(!new), R(!new)>(sys: System<Ctx, R>, v: R, m: Machine<Ctx, R>, m': Machine<Ctx, R>)
    requires Stage(sys, m) && m.phase == Recording(v) && RecordMove(sys, v, m, m')
    ensures Stage(sys, m')
  {
    var plan := Plan(sys, RecordUnit, [], false);
    var result :| RecordEnds(sys, v, m, m', result);
    if result.Err? {
      FailedUnit(sys.env, plan, RecordReply(v), m.now, m'.now, result);
      StoppedKeepsStage(sys, m, m', |sys.segments|, true);
    } else {
      var c := RecordEffect(sys, plan, v, m.now, m'.now, result.value);
      NothingRan(sys, m.now, m'.now, c);
      RecordedKeepsStage(sys, v, m, m', c);
    }
  }

  lemma RecordedKeepsStage<Ctx(!new), R(!new)>(
      sys: System<Ctx, R>, v: R, m: Machine<Ctx, R>, m': Machine<Ctx, R>, c: Commit<R>)
    requires Stage(sys, m) && m.phase == Recording(v) && m'.phase == Over(Replied(v)) && m'.now.claimed
    requires m'.now.commits == m.now.commits + [c] && c.name == RecordUnit && LedgerOnly(c)
    requires c.ops == if Transactional(sys) then [Record(v)] else []
    ensures Stage(sys, m')
  {
    NamesGrow(m.now.commits, c);
    AllOkGrow(sys, m.now.commits, c);
    if Transactional(sys) { assert c.ops[..0] == []; }
  }

  function WithEntry<Ctx, R>(m: Machine<Ctx, R>, entry: LedgerEntry<R>): Machine<Ctx, R>
  {
    m.(now := m.now.(entry := entry))
  }

  /** One step of a run, after other runs did what they liked to the ledger entry. */
  ghost predicate NextAmong<Ctx(!new), R(!new)>(sys: System<Ctx, R>, m: Machine<Ctx, R>, m': Machine<Ctx, R>)
  {
    exists entry :: Next(sys, WithEntry(m, entry), m')
  }

  lemma NextKeepsStage<Ctx(!new), R(!new)>(sys: System<Ctx, R>, m: Machine<Ctx, R>, m': Machine<Ctx, R>)
    requires OnlyOutbound(sys) && Stage(sys, m) && Next(sys, m, m')
    ensures Stage(sys, m')
  {
    match m.phase
    case At(i, reply) =>
      if i == |sys.segments| { FinishKeepsStage(sys, m, m'); }
      else if sys.segments[i].TransactionSegment? { TransactionKeepsStage(sys, i, m, m'); }
      else { ClaimKeepsStage(sys, i, m, m'); }
    case Calling(i) => OutboundKeepsStage(sys, i, m, m');
    case Compensating(i, e) => CompensateKeepsStage(sys, i, e, m, m');
    case Recording(v) => RecordKeepsStage(sys, v, m, m');
    case Over(_) =>
  }

  lemma EntryKeepsStage<Ctx(!new), R(!new)>(sys: System<Ctx, R>, m: Machine<Ctx, R>, entry: LedgerEntry<R>)
    requires Stage(sys, m)
    ensures Stage(sys, WithEntry(m, entry))
  {
  }

  lemma StepKeepsStage<Ctx(!new), R(!new)>(sys: System<Ctx, R>, m: Machine<Ctx, R>, m': Machine<Ctx, R>)
    requires OnlyOutbound(sys) && Stage(sys, m) && NextAmong(sys, m, m')
    ensures Stage(sys, m')
  {
    var entry :| Next(sys, WithEntry(m, entry), m');
    EntryKeepsStage(sys, m, entry);
    NextKeepsStage(sys, WithEntry(m, entry), m');
  }

  /** What `segmentsOf` makes: an outbound segment holds an outbound step. */
  ghost predicate OnlyOutbound<Ctx, R>(sys: System<Ctx, R>)
  {
    forall i :: 0 <= i < |sys.segments| && sys.segments[i].OutboundSegment? ==> sys.segments[i].step.OutboundStep?
  }

  /** A run that has not started: no unit committed, no key claimed. */
  predicate Fresh<Ctx, R>(m: Machine<Ctx, R>)
  {
    m.phase == At(0, None) && m.locks == [] && !m.now.claimed && m.now.replay.None? && m.now.commits == []
  }

  /** The states of a run among others, one step after the other. */
  ghost predicate Path<Ctx(!new), R(!new)>(sys: System<Ctx, R>, path: seq<Machine<Ctx, R>>)
  {
    |path| > 0 &&
    if |path| == 1 then Fresh(path[0])
    else Path(sys, path[..|path| - 1]) && NextAmong(sys, path[|path| - 2], path[|path| - 1])
  }

  lemma {:induction false} PathKeepsStage<Ctx(!new), R(!new)>(sys: System<Ctx, R>, path: seq<Machine<Ctx, R>>)
    requires OnlyOutbound(sys) && Path(sys, path)
    ensures Stage(sys, path[|path| - 1])
    decreases |path|
  {
    var n := |path|;
    if n == 1 {
      FreshStage(sys, path[0]);
    } else {
      var init, last := path[..n - 1], path[n - 1];
      PathKeepsStage(sys, init);
      assert init[|init| - 1] == path[n - 2];
      StepKeepsStage(sys, init[|init| - 1], last);
    }
  }

  lemma FreshStage<Ctx(!new), R(!new)>(sys: System<Ctx, R>, m: Machine<Ctx, R>)
    requires Fresh(m)
    ensures Stage(sys, m)
  {
  }

  /** The units of the first `k` segments, then at most the compensation of outbound `k` or the reply's record. */
  ghost predicate PrefixCommitted<Ctx(!new), R(!new)>(sys: System<Ctx, R>, commits: seq<Commit<R>>, k: nat)
  {
    && AllOk(sys, commits) && k <= |sys.segments|
    && (|| Names(commits) == PrefixNames(sys, k)
        || (k == |sys.segments| && Names(commits) == PrefixNames(sys, k) + [RecordUnit])
        || (OutboundAt(sys, k) && Names(commits) == PrefixNames(sys, k + 1) + [CompensateUnit(k)]))
  }

  /** What a run leaves committed: a prefix, or, if it found its reply recorded, no write at all. */
  ghost predicate Atomic<Ctx(!new), R(!new)>(sys: System<Ctx, R>, phase: Phase<R>, commits: seq<Commit<R>>)
  {
    if phase.Over? && phase.outcome.Replayed? then forall i :: 0 <= i < |commits| ==> LedgerOnly(commits[i])
    else exists k :: PrefixCommitted(sys, commits, k)
  }

  lemma PrefixIsAtomic<Ctx(!new), R(!new)>(sys: System<Ctx, R>, commits: seq<Commit<R>>, k: nat)
    requires AllOk(sys, commits) && k <= |sys.segments| && Names(commits) == PrefixNames(sys, k)
    ensures exists j :: PrefixCommitted(sys, commits, j)
  {
    assert PrefixCommitted(sys, commits, k);
  }

  lemma EndedIsAtomic<Ctx(!new), R(!new)>(sys: System<Ctx, R>, m: Machine<Ctx, R>, outcome: Outcome<R>)
    requires Ended(sys, m, outcome) && !outcome.Replayed?
    ensures exists j :: PrefixCommitted(sys, m.now.commits, j)
  {
    if outcome.Replied? {
      assert PrefixCommitted(sys, m.now.commits, |sys.segments|);
    } else {
      var k: nat :| FailedAfter(sys, m.now.commits, k);
      assert PrefixCommitted(sys, m.now.commits, k);
    }
  }

  lemma StageIsAtomic<Ctx(!new), R(!new)>(sys: System<Ctx, R>, m: Machine<Ctx, R>)
    requires Stage(sys, m)
    ensures Atomic(sys, m.phase, m.now.commits)
  {
    match m.phase
    case At(i, _) => PrefixIsAtomic(sys, m.now.commits, i);
    case Calling(i) => PrefixIsAtomic(sys, m.now.commits, i + 1);
    case Compensating(i, _) => PrefixIsAtomic(sys, m.now.commits, i + 1);
    case Recording(_) => PrefixIsAtomic(sys, m.now.commits, |sys.segments|);
    case Over(outcome) => if !outcome.Replayed? { EndedIsAtomic(sys, m, outcome); }
  }

  /**
   * Atomicity of a whole run: at every moment what it has committed is a prefix of its transaction
   * segments, each whole, in order and once, followed by at most one compensation, that of the
   * outbound step that failed. A run that found its reply recorded has committed no write at all.
   */
  lemma {:induction false} RunIsAtomic<Ctx(!new), R(!new)>(sys: System<Ctx, R>, path: seq<Machine<Ctx, R>>)
    requires OnlyOutbound(sys) && Path(sys, path)
    ensures var m := path[|path| - 1]; Atomic(sys, m.phase, m.now.commits)
  {
    PathKeepsStage(sys, path);
    StageIsAtomic(sys, path[|path| - 1]);
  }

  /** A run that replied committed every transaction segment, and recorded that reply if it has a key. */
  lemma {:induction false} RepliedMeansAll<Ctx(!new), R(!new)>(sys: System<Ctx, R>, path: seq<Machine<Ctx, R>>, v: R)
    requires OnlyOutbound(sys) && Path(sys, path)
    requires path[|path| - 1].phase == Over(Replied(v))
    ensures var commits := path[|path| - 1].now.commits;
      && PrefixNames(sys, |sys.segments|) <= Names(commits)
      && AllOk(sys, commits)
      && OwnEntry(commits) == Standing(sys, |sys.segments| > 0, Some(v))
  {
    PathKeepsStage(sys, path);
  }

  lemma {:induction false} LastUnitInPrefix<Ctx(!new), R(!new)>(sys: System<Ctx, R>, k: nat, j: nat)
    requires k <= |sys.segments| && j < |sys.segments| && sys.segments[j].TransactionSegment?
    ensures TxUnit(j) in PrefixNames(sys, k) <==> j < k
  {
    if k > 0 { LastUnitInPrefix(sys, k - 1, j); }
  }

  /**
   * In a keyed saga that ends in a transaction segment the reply is recorded if and only if that
   * segment's writes are committed: they are one commit.
   */
  lemma {:induction false} RecordedWithLastSegment<Ctx(!new), R(!new)>(sys: System<Ctx, R>, path: seq<Machine<Ctx, R>>)
    requires sys.env.mode == InDatabase && OnlyOutbound(sys) && Path(sys, path) && EndsInTransaction(sys)
    requires var m := path[|path| - 1]; !(m.phase.Over? && m.phase.outcome.Replayed?)
    ensures var commits := path[|path| - 1].now.commits;
      OwnEntry(commits).Applied? <==> TxUnit(|sys.segments| - 1) in Names(commits)
  {
    PathKeepsStage(sys, path);
    RecordedAtStage(sys, path[|path| - 1]);
  }

  lemma RecordedAtStage<Ctx(!new), R(!new)>(sys: System<Ctx, R>, m: Machine<Ctx, R>)
    requires sys.env.mode == InDatabase && EndsInTransaction(sys) && Stage(sys, m)
    requires !(m.phase.Over? && m.phase.outcome.Replayed?)
    ensures OwnEntry(m.now.commits).Applied? <==> TxUnit(|sys.segments| - 1) in Names(m.now.commits)
  {
    match m.phase
    case At(i, reply) => InFlightNotRecorded(sys, m, i, i > 0, reply);
    case Calling(i) => InFlightNotRecorded(sys, m, i + 1, true, None);
    case Compensating(i, _) => InFlightNotRecorded(sys, m, i + 1, true, None);
    case Recording(_) =>
    case Over(Replied(_)) => LastUnitInPrefix(sys, |sys.segments|, |sys.segments| - 1);
    case Over(Replayed(_)) =>
    case Over(Failed(_)) => FailedNotRecorded(sys, m);
  }

  lemma InFlightNotRecorded<Ctx(!new), R(!new)>(
      sys: System<Ctx, R>, m: Machine<Ctx, R>, i: nat, started: bool, reply: Option<R>)
    requires Transactional(sys) && EndsInTransaction(sys) && InFlight(sys, m, started, reply)
    requires (started ==> Keyed(sys)) && (reply.Some? ==> started)
    requires i <= |sys.segments| && Names(m.now.commits) == PrefixNames(sys, i)
    requires (reply.Some? <==> i == |sys.segments|)
    ensures OwnEntry(m.now.commits).Applied? <==> TxUnit(|sys.segments| - 1) in Names(m.now.commits)
  {
    LastUnitInPrefix(sys, i, |sys.segments| - 1);
  }

  lemma FailedNotRecorded<Ctx(!new), R(!new)>(sys: System<Ctx, R>, m: Machine<Ctx, R>)
    requires EndsInTransaction(sys) && Stage(sys, m) && m.phase.Over? && m.phase.outcome.Failed?
    ensures OwnEntry(m.now.commits) == Free || OwnEntry(m.now.commits) == Pending
    ensures TxUnit(|sys.segments| - 1) !in Names(m.now.commits)
  {
    var n := |sys.segments|;
    var k: nat :| FailedAfter(sys, m.now.commits, k);
    LastUnitInPrefix(sys, k, n - 1);
    if OutboundAt(sys, k) { LastUnitInPrefix(sys, k + 1, n - 1); }
  }
}
