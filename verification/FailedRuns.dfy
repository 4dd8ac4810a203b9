/**
 * Runs that show what the documentation does not say of failures: a run that fails does not always free
 * its key (README.md), and a ledger in process can keep a reply whose writes were rolled back, stay
 * pending, or be freed by a compensation that was not committed (src/saga/idempotency-ledger.ts).
 */
module FailedRuns {
  import opened Common
  import opened LockPort
  import opened Saga
  import opened Segments
  import opened UnitHistory
  import opened SagaRun
  import opened SagaSafety
  import opened SoloRun
  import opened InProcessRuns
  import opened AtMostOnce

  const FINE := PortRun(None, 0, None)
  const REFUSES := PortRun(Some(Other(7)), 0, None)
  const REJECTS := PortRun(None, 0, Some(Other(7)))
  const REPEATS := PortRun(None, 1, None)

  /** A database that does as it should in its first run, and as told in the others. */
  function World<Ctx>(mode: LedgerMode, later: PortRun): Environment<Ctx>
  {
    Environment(
      mode, k => if k == 0 then FINE else later, k => LockFate(0, None), code => None, (ctx: Ctx) => true,
      (saved: Ctx, ctx: Ctx) => saved, (callback, k) => false, (k, n) => 0)
  }

  /** Writes, except in a call that comes late. */
  function Writes(write: Write): Step<int>
  {
    (ctx, tick) => if tick == 9 then StepResult(ctx, [], [], Some(Other(1))) else StepResult(ctx + 1, [write], [], None)
  }

  /** A transaction, an outbound call that succeeds, and a transaction. */
  function Saga3(mode: LedgerMode, later: PortRun): System<int, int>
  {
    System(
      World(mode, later),
      [TransactionSegment([Writes(10)], []),
       OutboundSegment(OutboundStep((ctx, tick) => OutboundResult(ctx, None), None, true)),
       TransactionSegment([Writes(20)], [])],
      (ctx, tick) => Ok(ctx), None, 10)
  }

  /** An outbound call that fails, with a compensation. */
  function Saga1(later: PortRun): System<int, int>
  {
    System(
      World(InProcess, later),
      [OutboundSegment(OutboundStep((ctx, tick) => OutboundResult(ctx, Some(Other(2))), Some(Writes(30)), true))],
      (ctx, tick) => Ok(ctx), None, 10)
  }

  lemma NothingToLock(sys: System<int, int>, i: nat, m: Machine<int, int>)
    requires i < |sys.segments| && sys.segments[i].TransactionSegment? && sys.segments[i].locks == []
    ensures Resolves(sys.segments[i].locks, m.now.ctx, sys.maxLocks, Ok([]))
  {
    assert Canonical([], []);
  }

  /** A call of a one-step segment that writes. */
  lemma WritingCall(
      env: Environment<int>, plan: UnitPlan, write: Write, reply: Option<Reply<int, int>>, from: Call<int, int>,
      tick: nat)
    returns (run: CallRun<int, int>)
    requires plan.locks == [] && env.mode != Unkeyed && tick != 9
    requires (reply.Some? ==> reply.value(from.ctx + 1, tick) == Ok(from.ctx + 1))
    requires from == Opened(from.ctx, from.claimed, None, from.entry) && (from.claimed || from.entry == Free)
    ensures RunsAlone(env, plan, Transaction([Writes(write)], reply), run) && run.from == from && run.tick == tick
    ensures run.call.flow == Going && run.call.ctx == from.ctx + 1 && run.call.claimed && run.call.replay == None
    ensures run.call.writes == [write] && run.call.callbacks == []
    ensures run.call.value == if reply.Some? then Some(from.ctx + 1) else None
    ensures run.call.ops == if env.mode == InProcess then [] else
      (if from.claimed then [] else [Claim]) + if reply.Some? then [Record(from.ctx + 1)] else []
    ensures run.call.entry == if env.mode == InDatabase then from.entry
      else if reply.Some? then Applied(from.ctx + 1) else if from.claimed then from.entry else Pending
  {
    var steps, fate := [Writes(write)], env.lockFate(tick);
    var claimed := ClaimOnce(env.mode, from);
    assert steps[..0] == [];
    assert RunSteps(claimed, steps, tick) == RunStep(RunSteps(claimed, steps[..0], tick), steps[0], tick);
    run := CallRun(from, CallBody(env.mode, 0, fate, Transaction(steps, reply), from, tick), tick);
    CallAlone(env, plan, Transaction(steps, reply), run);
  }

  /** A call of it that throws before it writes. */
  lemma ThrowingCall(
      env: Environment<int>, plan: UnitPlan, write: Write, reply: Option<Reply<int, int>>, from: Call<int, int>)
    returns (run: CallRun<int, int>)
    requires plan.locks == [] && env.mode == InProcess && from == Opened(from.ctx, true, None, from.entry)
    ensures RunsAlone(env, plan, Transaction([Writes(write)], reply), run) && run.from == from
    ensures run.call.flow == Threw(Other(1)) && run.call.entry == from.entry && run.call.claimed
  {
    var steps := [Writes(write)];
    assert steps[..0] == [];
    assert RunSteps(from, steps, 9) == RunStep(RunSteps(from, steps[..0], 9), steps[0], 9);
    run := CallRun(from, CallBody(env.mode, 0, env.lockFate(9), Transaction(steps, reply), from, 9), 9);
    CallAlone(env, plan, Transaction(steps, reply), run);
  }

  // ---- Up to the last unit.

  const START: Machine<int, int> := Machine(At(0, None), [], Snapshot(0, false, None, Free, []))

  /** The first unit has committed its write and claimed the key. */
  function Begun(mode: LedgerMode): Snapshot<int, int>
  {
    Snapshot(1, true, None, Pending, [Commit(TxUnit(0), 0, [10], if mode == InDatabase then [Claim] else [], [])])
  }

  function Standing3(mode: LedgerMode, phase: Phase<int>): Machine<int, int> { Machine(phase, [], Begun(mode)) }

  lemma FirstStep(mode: LedgerMode, later: PortRun) returns (a: Attempt<int, int>)
    requires mode != Unkeyed
    ensures SoloStep(Saga3(mode, later), START, Standing3(mode, At(1, None)), [a])
  {
    var sys, m' := Saga3(mode, later), Standing3(mode, At(1, None));
    var plan, body := Plan(sys, TxUnit(0), [], true), BodyOf(sys, 0);
    var run := WritingCall(sys.env, plan, 10, None, Opened(0, false, None, Free), 0);
    a := Called([], run, None);
    var rows: seq<LedgerOp<int>> := [Claim];
    assert rows[..0] == [];
    assert run.call.ops == if mode == InDatabase then rows else [];
    assert mode == InDatabase ==> ApplyOps(run.call.entry, rows) == Pending;
    assert AfterAttempt(mode, plan.name, START.now, a) == m'.now;
    NothingToLock(sys, 0, START);
    ExecutedStep(sys, plan, body, START, m', 0, a);
  }

  lemma MiddleSteps(mode: LedgerMode, later: PortRun)
    requires mode != Unkeyed
    ensures SoloStep(Saga3(mode, later), Standing3(mode, At(1, None)), Standing3(mode, Calling(1)), [])
    ensures SoloStep(Saga3(mode, later), Standing3(mode, Calling(1)), Standing3(mode, At(2, None)), [])
  {
    var step := Saga3(mode, later).segments[1].step;
    var calling, m' := Standing3(mode, Calling(1)), Standing3(mode, At(2, None));
    assert OutboundEnds(step, 1, calling, m', step.call(calling.now.ctx, 0));
  }

  /** The last unit makes the attempt `a`, which fails. */
  lemma LastStep(mode: LedgerMode, later: PortRun, a: Attempt<int, int>) returns (m': Machine<int, int>)
    requires mode != Unkeyed && Matches(later, a) && EndOf(a).Err?
    requires AttemptRuns(
      World(mode, later), Plan(Saga3(mode, later), TxUnit(2), [], false), BodyOf(Saga3(mode, later), 2), Begun(mode),
      None, a)
    ensures SoloStep(Saga3(mode, later), Standing3(mode, At(2, None)), m', [a])
    ensures m'.phase == Over(Failed(EndOf(a).error)) && m'.now == AfterAttempt(mode, TxUnit(2), Begun(mode), a)
  {
    var sys, m := Saga3(mode, later), Standing3(mode, At(2, None));
    var plan, body := Plan(sys, TxUnit(2), [], false), BodyOf(sys, 2);
    m' := Machine(Over(Failed(EndOf(a).error)), [], AfterAttempt(mode, TxUnit(2), Begun(mode), a));
    assert Wrapped(sys.env, EndOf(a)) == Err(EndOf(a).error);
    NothingToLock(sys, 2, m);
    ExecutedStep(sys, plan, body, m, m', 1, a);
  }

  /** The whole run, whose last unit makes the attempt `a`. */
  lemma RunOf(mode: LedgerMode, later: PortRun, a: Attempt<int, int>)
    returns (path: seq<Machine<int, int>>, history: seq<seq<Attempt<int, int>>>)
    requires mode != Unkeyed && Matches(later, a) && EndOf(a).Err?
    requires AttemptRuns(
      World(mode, later), Plan(Saga3(mode, later), TxUnit(2), [], false), BodyOf(Saga3(mode, later), 2), Begun(mode),
      None, a)
    ensures SoloPath(Saga3(mode, later), path, history) && path[0].now.entry == Free && |history| == 4
    ensures path[4].phase == Over(Failed(EndOf(a).error))
    ensures path[4].now == AfterAttempt(mode, TxUnit(2), Begun(mode), a)
  {
    var sys := Saga3(mode, later);
    var first := FirstStep(mode, later);
    MiddleSteps(mode, later);
    var m' := LastStep(mode, later, a);
    path, history := ThreeSteps(mode, later, first);
    SoloGrows(sys, path, history, m', [a]);
    path, history := path + [m'], history + [[a]];
  }

  lemma ThreeSteps(mode: LedgerMode, later: PortRun, first: Attempt<int, int>)
    returns (path: seq<Machine<int, int>>, history: seq<seq<Attempt<int, int>>>)
    requires mode != Unkeyed
    requires SoloStep(Saga3(mode, later), START, Standing3(mode, At(1, None)), [first])
    ensures SoloPath(Saga3(mode, later), path, history) && |history| == 3
    ensures path[0] == START && path[3] == Standing3(mode, At(2, None))
  {
    var sys := Saga3(mode, later);
    MiddleSteps(mode, later);
    path, history := [START], [];
    assert SoloPath(sys, path, history);
    SoloGrows(sys, path, history, Standing3(mode, At(1, None)), [first]);
    path, history := path + [Standing3(mode, At(1, None))], history + [[first]];
    SoloGrows(sys, path, history, Standing3(mode, Calling(1)), []);
    path, history := path + [Standing3(mode, Calling(1))], history + [[]];
    SoloGrows(sys, path, history, Standing3(mode, At(2, None)), []);
    path, history := path + [Standing3(mode, At(2, None))], history + [[]];
  }

  // ---- The states that the documentation excludes.

  ghost predicate FailsWithEntry(
      sys: System<int, int>, path: seq<Machine<int, int>>, history: seq<seq<Attempt<int, int>>>, committed: seq<Label>,
      entry: LedgerEntry<int>)
  {
    && SoloPath(sys, path, history) && path[0].now.entry == Free && Failing(path[|history|])
    && Names(path[|history|].now.commits) == committed && path[|history|].now.entry == entry
  }

  /** The call of the last unit that gets to its end: it stages its write and records the reply. */
  lemma LastCall(mode: LedgerMode, later: PortRun) returns (run: CallRun<int, int>)
    requires mode == InProcess
    ensures RunsAlone(
      World(mode, later), Plan(Saga3(mode, later), TxUnit(2), [], false), BodyOf(Saga3(mode, later), 2), run)
    ensures run.from == Opened(1, true, None, Pending) && run.call.flow == Going && run.call.writes == [20]
    ensures run.call.entry == Applied(2) && run.call.claimed && run.call.ctx == 2
  {
    var sys := Saga3(mode, later);
    var plan := Plan(sys, TxUnit(2), [], false);
    run := WritingCall(sys.env, plan, 20, Some(sys.reply), Opened(1, true, None, Pending), 1);
  }

  /** The COMMIT of the last unit is rejected: its write is lost, its reply stays. */
  lemma RejectedCommitKeepsReply()
    ensures exists path, history :: FailsWithEntry(Saga3(InProcess, REJECTS), path, history, [TxUnit(0)], Applied(2))
  {
    var run := LastCall(InProcess, REJECTS);
    var path, history := RunOf(InProcess, REJECTS, Called([], run, Some(Other(7))));
    assert FailsWithEntry(Saga3(InProcess, REJECTS), path, history, [TxUnit(0)], Applied(2));
  }

  /** The port calls the last unit again after a call that got to its end, and the second call throws. */
  lemma RepeatedCallKeepsReply()
    ensures exists path, history :: FailsWithEntry(Saga3(InProcess, REPEATS), path, history, [TxUnit(0)], Applied(2))
  {
    var sys := Saga3(InProcess, REPEATS);
    var plan, body := Plan(sys, TxUnit(2), [], false), BodyOf(sys, 2);
    var run := LastCall(InProcess, REPEATS);
    var again := ThrowingCall(sys.env, plan, 20, Some(sys.reply), Opened(2, true, None, Applied(2)));
    assert [run][..0] == [];
    assert Chain(sys.env, plan, body, Begun(InProcess), None, [run][..0]);
    assert Chain(sys.env, plan, body, Begun(InProcess), None, [run]);
    var path, history := RunOf(InProcess, REPEATS, Called([run], again, None));
    assert FailsWithEntry(sys, path, history, [TxUnit(0)], Applied(2));
  }

  /** The port refuses the last unit: the key stays pending. */
  lemma RefusedUnitKeepsKey(mode: LedgerMode)
    requires mode != Unkeyed
    ensures exists path, history :: FailsWithEntry(Saga3(mode, REFUSES), path, history, [TxUnit(0)], Pending)
  {
    var path, history := RunOf(mode, REFUSES, Refused(Other(7)));
    assert FailsWithEntry(Saga3(mode, REFUSES), path, history, [TxUnit(0)], Pending);
  }

  // ---- A compensation whose COMMIT is rejected.

  function Claimed1(phase: Phase<int>): Machine<int, int>
  {
    Machine(phase, [], Snapshot(0, true, None, Pending, [Commit(ClaimUnit(0), 0, [], [], [])]))
  }

  lemma ClaimStep() returns (a: Attempt<int, int>)
    ensures SoloStep(Saga1(REJECTS), START, Claimed1(Calling(0)), [a])
  {
    var sys, m' := Saga1(REJECTS), Claimed1(Calling(0));
    var plan := Plan(sys, ClaimUnit(0), [], true);
    var from: Call<int, int> := Opened(0, false, None, Free);
    var run := CallRun(from, CallBody(InProcess, 0, sys.env.lockFate(0), ClaimOnly, from, 0), 0);
    CallAlone(sys.env, plan, ClaimOnly, run);
    a := Called([], run, None);
    ExecutedStep(sys, plan, ClaimOnly, START, m', 0, a);
  }

  /** The call of the compensation gets to its end and frees the key, and its COMMIT is rejected. */
  lemma CompensationStep() returns (a: Attempt<int, int>, m': Machine<int, int>)
    ensures SoloStep(Saga1(REJECTS), Claimed1(Compensating(0, Other(2))), m', [a])
    ensures m'.phase == Over(Failed(Other(7))) && m'.now.entry == Free
    ensures Names(m'.now.commits) == [ClaimUnit(0)]
  {
    var sys, m := Saga1(REJECTS), Claimed1(Compensating(0, Other(2)));
    var plan, body := CompensationAt(sys, 0, m).0, CompensationAt(sys, 0, m).1;
    var from: Call<int, int> := Opened(0, true, None, Pending);
    var run := CallRun(from, CallBody(InProcess, 0, sys.env.lockFate(1), body, from, 1), 1);
    CallAlone(sys.env, plan, body, run);
    assert run.call.flow == Going && run.call.entry == Free && run.call.claimed;
    a := Called([], run, Some(Other(7)));
    m' := Machine(Over(Failed(Other(7))), [], AfterAttempt(InProcess, plan.name, m.now, a));
    ExecutedStep(sys, plan, body, m, m', 1, a);
  }

  lemma FailingCall()
    ensures SoloStep(Saga1(REJECTS), Claimed1(Calling(0)), Claimed1(Compensating(0, Other(2))), [])
  {
    var m, m', step := Claimed1(Calling(0)), Claimed1(Compensating(0, Other(2))), Saga1(REJECTS).segments[0].step;
    assert OutboundEnds(step, 0, m, m', step.call(m.now.ctx, 0));
  }

  /** The key is free although the compensation's write was never committed. */
  lemma RejectedCompensationFreesKey()
    ensures exists path, history :: FailsWithEntry(Saga1(REJECTS), path, history, [ClaimUnit(0)], Free)
  {
    var path, history := RejectedCompensation();
  }

  lemma RejectedCompensation() returns (path: seq<Machine<int, int>>, history: seq<seq<Attempt<int, int>>>)
    ensures FailsWithEntry(Saga1(REJECTS), path, history, [ClaimUnit(0)], Free)
  {
    var claim := ClaimStep();
    var a, last := CompensationStep();
    path, history := TwoSteps(claim);
    FailsNow(Saga1(REJECTS), path, history, last, [a], [ClaimUnit(0)], Free);
    path, history := path + [last], history + [[a]];
  }

  lemma FailsNow(
      sys: System<int, int>, path: seq<Machine<int, int>>, history: seq<seq<Attempt<int, int>>>,
      last: Machine<int, int>,
      attempts: seq<Attempt<int, int>>, committed: seq<Label>, entry: LedgerEntry<int>)
    requires SoloPath(sys, path, history) && path[0].now.entry == Free
    requires SoloStep(sys, path[|history|], last, attempts) && Failing(last)
    requires Names(last.now.commits) == committed && last.now.entry == entry
    ensures FailsWithEntry(sys, path + [last], history + [attempts], committed, entry)
  {
    SoloGrows(sys, path, history, last, attempts);
    assert (path + [last])[|history + [attempts]|] == last;
  }

  lemma TwoSteps(claim: Attempt<int, int>)
    returns (path: seq<Machine<int, int>>, history: seq<seq<Attempt<int, int>>>)
    requires SoloStep(Saga1(REJECTS), START, Claimed1(Calling(0)), [claim])
    ensures SoloPath(Saga1(REJECTS), path, history) && |history| == 2
    ensures path[0] == START && path[2] == Claimed1(Compensating(0, Other(2)))
  {
    var sys := Saga1(REJECTS);
    FailingCall();
    path, history := [START], [];
    assert SoloPath(sys, path, history);
    SoloGrows(sys, path, history, Claimed1(Calling(0)), [claim]);
    path, history := path + [Claimed1(Calling(0))], history + [[claim]];
    SoloGrows(sys, path, history, Claimed1(Compensating(0, Other(2))), []);
    path, history := path + [Claimed1(Compensating(0, Other(2)))], history + [[]];
  }

  // ---- With the ledger in the database.

  function Contests<Ctx, R>(sys: System<Ctx, R>, path: seq<Machine<Ctx, R>>): (states: seq<Contest<Ctx, R>>)
    ensures |states| == |path|
  {
    seq(|path|, i requires 0 <= i < |path| => Contest(path[i].now.entry, [sys], [path[i]]))
  }

  /** A run alone is a schedule of one. */
  lemma {:induction false} SoloIsSchedule<Ctx(!new), R(!new)>(
      sys: System<Ctx, R>, path: seq<Machine<Ctx, R>>, history: seq<seq<Attempt<Ctx, R>>>, who: seq<nat>)
    requires sys.env.mode == InDatabase && OnlyOutbound(sys) && SoloPath(sys, path, history)
    requires path[0].now.entry == Free
    requires |who| == |history| && forall i :: 0 <= i < |who| ==> who[i] == 0
    ensures Schedule(Contests(sys, path), who)
    decreases |who|
  {
    var n := |who|;
    if n > 0 {
      var before := path[..n];
      assert before[0] == path[0];
      SoloIsSchedule(sys, before, history[..n - 1], who[..n - 1]);
      assert Contests(sys, path)[..n] == Contests(sys, before);
      SoloIsMove(sys, path[n - 1], path[n], history[n - 1]);
    }
  }

  lemma SoloIsMove<Ctx(!new), R(!new)>(
      sys: System<Ctx, R>, m: Machine<Ctx, R>, m': Machine<Ctx, R>, attempts: seq<Attempt<Ctx, R>>)
    requires SoloStep(sys, m, m', attempts)
    ensures RunMoves(Contest(m.now.entry, [sys], [m]), Contest(m'.now.entry, [sys], [m']), 0)
  {
    assert WithEntry(m, m.now.entry) == m;
    assert [m][0 := m'] == [m'];
  }

  /** A schedule of one run that fails and leaves its key pending. */
  ghost predicate FailsWithKey(sys: System<int, int>, states: seq<Contest<int, int>>, who: seq<nat>)
  {
    && Schedule(states, who) && states[|who|].systems == [sys] && |states[|who|].runs| == 1
    && Failing(states[|who|].runs[0]) && states[|who|].entry == Pending
  }

  /** A run can fail and leave its key pending, with the outbound call made and its first unit committed. */
  lemma FailureCanKeepTheKey()
    ensures exists states, who :: FailsWithKey(Saga3(InDatabase, REFUSES), states, who)
  {
    var sys := Saga3(InDatabase, REFUSES);
    RefusedUnitKeepsKey(InDatabase);
    var path, history :| FailsWithEntry(sys, path, history, [TxUnit(0)], Pending);
    var who: seq<nat> := seq(|history|, i => 0);
    SoloIsSchedule(sys, path, history, who);
    assert FailsWithKey(sys, Contests(sys, path), who);
  }
}
