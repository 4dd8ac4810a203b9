/**
 * The executor of one unit of work (src/saga/unit-of-work.ts): checkpoint, attempt loop, calls the
 * transaction port may repeat, claim flags, in-process locks and callbacks. Its methods do what
 * `UnitHistory` describes.
 */
module UnitOfWork {
  import opened Common
  import opened RetryPolicy
  import opened Saga
  import opened UnitHistory

  function Handles(tick: nat, n: nat): (hs: seq<LockHandle>)
    ensures |hs| == n
  {
    seq(n, i requires 0 <= i < n => LockHandle(tick, i))
  }

  ghost predicate FairRandom<Ctx>(env: Environment<Ctx>)
  {
    forall k: nat, n: int :: n > 0 ==> 0 <= env.random(k, n) < n
  }

  /** The attempts so far all failed and are retried; the next begins in `state`. */
  ghost predicate Ongoing<Ctx, R>(
      env: Environment<Ctx>, plan: UnitPlan, body: Body<Ctx, R>, before: Snapshot<Ctx, R>,
      first: nat, attempts: seq<Attempt<Ctx, R>>, state: Snapshot<Ctx, R>)
  {
    var saved := SavedCtx(env, plan, before.ctx);
    && !Refuses(env, plan, before.ctx) && UnitRuns(env, plan, body, before, saved, first, attempts)
    && (|attempts| > 0 ==> GoesOn(env, plan, saved, attempts[|attempts| - 1]))
    && state == StateAfter(env, plan, before, saved, attempts)
  }

  /** What an observer has seen after a unit: the unit that committed, with the callbacks of its last call. */
  function Watched<Ctx, R>(seen: Watch, name: Label, attempts: seq<Attempt<Ctx, R>>): Watch
  {
    if |attempts| == 0 then seen else WatchedAttempt(seen, name, attempts[|attempts| - 1])
  }

  function WatchedAttempt<Ctx, R>(seen: Watch, name: Label, a: Attempt<Ctx, R>): Watch
  {
    if a.Called? && EndOf(a).Ok? then seen.(settled := seen.settled + [(name, a.last.call.callbacks)]) else seen
  }

  /** What the loop knows of the next attempt. */
  ghost predicate NextAttempt<Ctx, R>(
      env: Environment<Ctx>, plan: UnitPlan, body: Body<Ctx, R>, saved: Option<Ctx>, k: nat, state: Snapshot<Ctx, R>,
      a: Attempt<Ctx, R>)
  {
    AttemptRuns(env, plan, body, state, saved, a) && Matches(env.port(k), a)
  }

  lemma StillOngoing<Ctx, R>(
      env: Environment<Ctx>, plan: UnitPlan, body: Body<Ctx, R>, before: Snapshot<Ctx, R>,
      first: nat, attempts: seq<Attempt<Ctx, R>>, state: Snapshot<Ctx, R>, a: Attempt<Ctx, R>)
    requires Ongoing(env, plan, body, before, first, attempts, state)
    requires NextAttempt(env, plan, body, SavedCtx(env, plan, before.ctx), first + |attempts|, state, a)
    requires GoesOn(env, plan, SavedCtx(env, plan, before.ctx), a)
    ensures var left := AfterAttempt(env.mode, plan.name, state, a);
      Ongoing(
        env, plan, body, before, first, attempts + [a],
        left.(ctx := Rewound(env, SavedCtx(env, plan, before.ctx), left.ctx)))
  {
    assert (attempts + [a])[..|attempts|] == attempts;
  }

  lemma UnitEnds<Ctx, R>(
      env: Environment<Ctx>, plan: UnitPlan, body: Body<Ctx, R>, before: Snapshot<Ctx, R>,
      first: nat, attempts: seq<Attempt<Ctx, R>>, state: Snapshot<Ctx, R>, a: Attempt<Ctx, R>)
    requires Ongoing(env, plan, body, before, first, attempts, state) && |attempts| < MaxRuns(env, plan, before.ctx)
    requires NextAttempt(env, plan, body, SavedCtx(env, plan, before.ctx), first + |attempts|, state, a)
    requires GoesOn(env, plan, SavedCtx(env, plan, before.ctx), a) ==> |attempts| + 1 == MaxRuns(env, plan, before.ctx)
    ensures UnitDone(
      env, plan, body, before, first, attempts + [a], AfterAttempt(env.mode, plan.name, state, a),
      Wrapped(env, EndOf(a)))
  {
    assert (attempts + [a])[..|attempts|] == attempts;
  }

  /** After one more attempt the unit is done, or it goes on. */
  lemma OneMore<Ctx, R>(
      env: Environment<Ctx>, plan: UnitPlan, body: Body<Ctx, R>, before: Snapshot<Ctx, R>,
      first: nat, attempts: seq<Attempt<Ctx, R>>, state: Snapshot<Ctx, R>, a: Attempt<Ctx, R>, over: bool,
      after: Snapshot<Ctx, R>)
    returns (more: seq<Attempt<Ctx, R>>)
    requires Ongoing(env, plan, body, before, first, attempts, state) && |attempts| < MaxRuns(env, plan, before.ctx)
    requires NextAttempt(env, plan, body, SavedCtx(env, plan, before.ctx), first + |attempts|, state, a)
    requires over <==>
      !(GoesOn(env, plan, SavedCtx(env, plan, before.ctx), a) && |attempts| + 1 != MaxRuns(env, plan, before.ctx))
    requires var left := AfterAttempt(env.mode, plan.name, state, a);
      after == if over then left else left.(ctx := Rewound(env, SavedCtx(env, plan, before.ctx), left.ctx))
    ensures |more| == |attempts| + 1 && more[|attempts|] == a
    ensures over ==> UnitDone(env, plan, body, before, first, more, after, Wrapped(env, EndOf(a)))
    ensures !over ==> Ongoing(env, plan, body, before, first, more, after)
  {
    more := attempts + [a];
    if over {
      UnitEnds(env, plan, body, before, first, attempts, state, a);
    } else {
      StillOngoing(env, plan, body, before, first, attempts, state, a);
    }
  }

  ghost predicate IsNow<Ctx, R>(now: Snapshot<Ctx, R>, s: Snapshot<Ctx, R>) { now == s }

  /** The attempt loop: it is over and the unit done, or it goes on. */
  ghost predicate Looping<Ctx(!new), R(!new)>(
      env: Environment<Ctx>, plan: UnitPlan, body: Body<Ctx, R>, before: Snapshot<Ctx, R>, first: nat,
      attempts: seq<Attempt<Ctx, R>>, now: Snapshot<Ctx, R>, over: bool, outcome: Result<Option<R>, SagaError>)
  {
    forall s :: IsNow(now, s) ==>
      if over then UnitDone(env, plan, body, before, first, attempts, s, outcome)
      else Ongoing(env, plan, body, before, first, attempts, s)
  }

  lemma LoopIs<Ctx(!new), R(!new)>(
      env: Environment<Ctx>, plan: UnitPlan, body: Body<Ctx, R>, before: Snapshot<Ctx, R>, first: nat,
      attempts: seq<Attempt<Ctx, R>>, now: Snapshot<Ctx, R>, over: bool, outcome: Result<Option<R>, SagaError>)
    ensures Looping(env, plan, body, before, first, attempts, now, over, outcome) <==>
      if over then UnitDone(env, plan, body, before, first, attempts, now, outcome)
      else Ongoing(env, plan, body, before, first, attempts, now)
  {
    assert IsNow(now, now);
  }

  lemma LoopStarts<Ctx(!new), R(!new)>(
      env: Environment<Ctx>, plan: UnitPlan, body: Body<Ctx, R>, before: Snapshot<Ctx, R>, first: nat,
      outcome: Result<Option<R>, SagaError>)
    requires !Refuses(env, plan, before.ctx)
    ensures Looping(env, plan, body, before, first, [], before, false, outcome)
  {
    LoopIs(env, plan, body, before, first, [], before, false, outcome);
  }

  lemma LoopGoesOn<Ctx(!new), R(!new)>(
      env: Environment<Ctx>, plan: UnitPlan, body: Body<Ctx, R>, before: Snapshot<Ctx, R>, first: nat,
      attempts: seq<Attempt<Ctx, R>>, state: Snapshot<Ctx, R>, was: Result<Option<R>, SagaError>,
      a: Attempt<Ctx, R>, over: bool, after: Snapshot<Ctx, R>)
    returns (more: seq<Attempt<Ctx, R>>)
    requires Looping(env, plan, body, before, first, attempts, state, false, was)
    requires |attempts| < MaxRuns(env, plan, before.ctx)
    requires NextAttempt(env, plan, body, SavedCtx(env, plan, before.ctx), first + |attempts|, state, a)
    requires over <==>
      !(GoesOn(env, plan, SavedCtx(env, plan, before.ctx), a) && |attempts| + 1 != MaxRuns(env, plan, before.ctx))
    requires var left := AfterAttempt(env.mode, plan.name, state, a);
      after == if over then left else left.(ctx := Rewound(env, SavedCtx(env, plan, before.ctx), left.ctx))
    ensures |more| == |attempts| + 1 && more[|attempts|] == a
    ensures Looping(env, plan, body, before, first, more, after, over, Wrapped(env, EndOf(a)))
  {
    LoopIs(env, plan, body, before, first, attempts, state, false, was);
    more := OneMore(env, plan, body, before, first, attempts, state, a, over, after);
    LoopIs(env, plan, body, before, first, more, after, over, Wrapped(env, EndOf(a)));
  }

  predicate Counts<T>(n: nat, xs: seq<T>) { n == |xs| }

  /** The calls of a port so far: those rolled back, and the last. Unfolded by `ChainingIs` alone. */
  ghost predicate Chaining<Ctx, R>(
      env: Environment<Ctx>, plan: UnitPlan, body: Body<Ctx, R>, before: Snapshot<Ctx, R>, saved: Option<Ctx>,
      calls: seq<CallRun<Ctx, R>>, last: CallRun<Ctx, R>)
  {
    forall n: nat :: Counts(n, calls) ==>
      && Chain(env, plan, body, before, saved, calls)
      && last.from == StartOf(env, saved, before, calls) && RunsAlone(env, plan, body, last)
  }

  lemma ChainingIs<Ctx, R>(
      env: Environment<Ctx>, plan: UnitPlan, body: Body<Ctx, R>, before: Snapshot<Ctx, R>, saved: Option<Ctx>,
      calls: seq<CallRun<Ctx, R>>, last: CallRun<Ctx, R>)
    ensures Chaining(env, plan, body, before, saved, calls, last) <==>
      && Chain(env, plan, body, before, saved, calls)
      && last.from == StartOf(env, saved, before, calls) && RunsAlone(env, plan, body, last)
  {
    assert Counts(|calls|, calls);
  }

  lemma ChainingGoesOn<Ctx, R>(
      env: Environment<Ctx>, plan: UnitPlan, body: Body<Ctx, R>, before: Snapshot<Ctx, R>, saved: Option<Ctx>,
      calls: seq<CallRun<Ctx, R>>, last: CallRun<Ctx, R>, next: CallRun<Ctx, R>)
    requires Chaining(env, plan, body, before, saved, calls, last) && RunsAlone(env, plan, body, next)
    requires next.from == Opened(
      Rewound(env, saved, last.call.ctx), before.claimed, before.replay, Undone(env.mode, before.claimed, last.call))
    ensures Chaining(env, plan, body, before, saved, calls + [last], next)
  {
    ChainingIs(env, plan, body, before, saved, calls, last);
    ChainGrows(env, plan, body, before, saved, calls, last);
    StartAfter(env, saved, before, calls, last);
    ChainingIs(env, plan, body, before, saved, calls + [last], next);
  }

  class UnitOfWorkExecutor<Ctx(!new), R(!new)> {
    const env: Environment<Ctx>

    // The run.
    var ctx: Ctx
    var claimed: bool
    var replay: Option<R>
    // The database.
    var entry: LedgerEntry<R>
    var commits: seq<Commit<R>>
    // The open transaction.
    var staged: seq<Write>
    var ops: seq<LedgerOp<R>>
    // The attempt.
    var callbacks: seq<Callback>
    var releases: seq<LockHandle>
    // The calls and the runs of the port so far, and the time slept.
    var tick: nat
    var runs: nat
    var slept: int
    // What an observer has seen.
    ghost var watch: Watch

    constructor (env: Environment<Ctx>, ctx: Ctx, entry: LedgerEntry<R>, commits: seq<Commit<R>>)
      ensures this.env == env
      ensures Now() == Snapshot(ctx, false, None, entry, commits)
      ensures watch == UNSEEN && tick == runs == 0 && slept == 0
    {
      this.env, this.ctx, this.entry, this.commits := env, ctx, entry, commits;
      claimed, replay, staged, ops, callbacks, releases := false, None, [], [], [], [];
      tick, runs, slept, watch := 0, 0, 0, UNSEEN;
    }

    ghost function Now(): Snapshot<Ctx, R>
      reads this
    {
      Snapshot(ctx, claimed, replay, entry, commits)
    }

    /** The call in progress, as a value. */
    ghost function InCall(value: Option<R>, flow: Flow): Call<Ctx, R>
      reads this
    {
      Call(ctx, claimed, replay, entry, ops, staged, callbacks, |releases|, value, flow)
    }

    ghost method Note(ev: Event)
      modifies this`watch
      ensures watch == Observe(old(watch), ev)
    {
      watch := Observe(watch, ev);
    }

    method WriteLedger(op: LedgerOp<R>)
      modifies this`ops, this`entry
      ensures InCall(None, Going) == Wrote(env.mode, old(InCall(None, Going)), op)
    {
      match env.mode
      case Unkeyed =>
      case InDatabase => ops := ops + [op];
      case InProcess => entry := ApplyOp(entry, op);
    }

    method ClaimOnce() returns (flow: Flow)
      modifies this`claimed, this`replay, this`ops, this`entry
      ensures InCall(None, flow) == Saga.ClaimOnce(env.mode, old(InCall(None, Going)))
    {
      flow := Going;
      if env.mode != Unkeyed && !claimed {
        match entry
        case Pending => flow := Threw(InProgress);
        case Applied(response) => replay, flow := Some(response), Returned;
        case Free =>
          claimed := true;
          WriteLedger(Claim);
      }
    }

    /** Takes the locks of the unit in the order of its list, until the port fails. */
    method Acquire(plan: UnitPlan) returns (flow: Flow)
      requires releases == [] && watch.open && watch.held == []
      modifies this`releases, this`watch
      ensures InCall(None, flow) == AcquireLocks(old(InCall(None, Going)), |plan.locks|, env.lockFate(tick))
      ensures releases == Handles(tick, |releases|)
      ensures watch == old(watch).(held := releases)
    {
      flow := Going;
      if |plan.locks| > 0 {
        var fate := env.lockFate(tick);
        var granted := if fate.granted <= |plan.locks| then fate.granted else |plan.locks|;
        while |releases| < granted
          invariant |releases| <= granted
          invariant releases == Handles(tick, |releases|)
          invariant watch == old(watch).(held := releases)
        {
          var handle := LockHandle(tick, |releases|);
          Note(LockTaken(handle));
          releases := releases + [handle];
        }
        if fate.failure.Some? { flow := Threw(fate.failure.value); }
      }
    }

    /** One step: it sees ctx as it is, writes through the transaction, registers callbacks. */
    method RunOneStep(step: Step<Ctx>) returns (flow: Flow)
      modifies this`ctx, this`staged, this`callbacks
      ensures InCall(None, flow) == RunStep(old(InCall(None, Going)), step, tick)
    {
      var r := step(ctx, tick);
      ctx, staged, callbacks := r.ctx, staged + r.writes, callbacks + r.callbacks;
      flow := if r.failure.Some? then Threw(r.failure.value) else Going;
    }

    method RunAllSteps(steps: seq<Step<Ctx>>) returns (flow: Flow)
      modifies this`ctx, this`staged, this`callbacks
      ensures InCall(None, flow) == RunSteps(old(InCall(None, Going)), steps, tick)
    {
      flow := Going;
      ghost var start := InCall(None, Going);
      var i := 0;
      while i < |steps| && flow == Going
        invariant i <= |steps|
        invariant InCall(None, flow) == RunSteps(start, steps[..i], tick)
      {
        assert steps[..i + 1][..i] == steps[..i];
        flow := RunOneStep(steps[i]);
        i := i + 1;
      }
      assert steps[..|steps|] == steps;
      if flow != Going { StepsStop(start, steps, tick, i); }
    }

    /** The reply of the last unit, recorded with it. */
    method ReplyAndRecord(reply: Option<Reply<Ctx, R>>) returns (value: Option<R>, flow: Flow)
      modifies this`ops, this`entry
      ensures InCall(value, flow) == MakeReply(env.mode, old(InCall(None, Going)), reply, tick)
    {
      value, flow := None, Going;
      if reply.Some? {
        var made := reply.value(ctx, tick);
        if made.Err? { return None, Threw(made.error); }
        if claimed { WriteLedger(Record(made.value)); }
        value := Some(made.value);
      }
    }

    /** The claim, the locks, the steps and the reply of a segment's unit, in that order. */
    method RunTransaction(plan: UnitPlan, steps: seq<Step<Ctx>>, reply: Option<Reply<Ctx, R>>)
      returns (value: Option<R>, flow: Flow)
      requires ops == [] && staged == [] && callbacks == [] && releases == [] && watch.open && watch.held == []
      modifies this`ctx, this`claimed, this`replay, this`entry
      modifies this`staged, this`ops, this`callbacks, this`releases, this`watch
      ensures InCall(value, flow) ==
        CallBody(
          env.mode, |plan.locks|, env.lockFate(tick), Transaction(steps, reply),
          old(Opened(ctx, claimed, replay, entry)), tick)
      ensures releases == Handles(tick, |releases|) && watch == old(watch).(held := releases)
    {
      value := None;
      flow := ClaimOnce();
      if flow == Going { flow := Acquire(plan); }
      ghost var locked := InCall(None, flow);
      if flow == Going { flow := RunAllSteps(steps); } else { NoSteps(locked, steps, tick); }
      if flow == Going { value, flow := ReplyAndRecord(reply); }
    }

    method RunCompensation(plan: UnitPlan, step: Option<Step<Ctx>>) returns (flow: Flow)
      requires ops == [] && staged == [] && callbacks == [] && releases == [] && watch.open && watch.held == []
      modifies this`ctx, this`entry, this`staged, this`ops, this`callbacks, this`releases, this`watch
      ensures InCall(None, flow) ==
        CallBody(
          env.mode, |plan.locks|, env.lockFate(tick), Compensation(step),
          old(Opened(ctx, claimed, replay, entry)), tick)
      ensures releases == Handles(tick, |releases|) && watch == old(watch).(held := releases)
    {
      flow := Acquire(plan);
      if flow == Going && step.Some? { flow := RunOneStep(step.value); }
      if flow == Going && claimed { WriteLedger(Release); }
    }

    /** The body of a unit. */
    method RunBody(plan: UnitPlan, body: Body<Ctx, R>) returns (value: Option<R>, flow: Flow)
      requires ops == [] && staged == [] && callbacks == [] && releases == [] && watch.open && watch.held == []
      modifies this`ctx, this`claimed, this`replay, this`entry
      modifies this`staged, this`ops, this`callbacks, this`releases, this`watch
      ensures InCall(value, flow) ==
        CallBody(env.mode, |plan.locks|, env.lockFate(tick), body, old(Opened(ctx, claimed, replay, entry)), tick)
      ensures releases == Handles(tick, |releases|) && watch == old(watch).(held := releases)
    {
      value := None;
      match body
      case Transaction(steps, reply) => value, flow := RunTransaction(plan, steps, reply);
      case ClaimOnly => flow := ClaimOnce();
      case Compensation(step) => flow := RunCompensation(plan, step);
      case RecordReply(v) =>
        flow := Going;
        if claimed { WriteLedger(Record(v)); }
    }

    /** Frees the locks, last acquired first. */
    method ReleaseAll()
      requires watch.held == releases
      modifies this`releases, this`watch
      ensures releases == [] && watch == old(watch).(held := [])
    {
      while |releases| > 0
        invariant watch == old(watch).(held := releases)
        decreases |releases|
      {
        Note(LockFreed(releases[|releases| - 1]));
        releases := releases[..|releases| - 1];
      }
    }

    /** Reverts what a rolled-back call left outside the database. */
    method UndoCall(savedClaimed: bool, savedReplay: Option<R>)
      modifies this`claimed, this`replay, this`callbacks, this`entry
      ensures claimed == savedClaimed && replay == savedReplay && callbacks == []
      ensures entry == if env.mode == InProcess && old(claimed) && !savedClaimed then Free else old(entry)
    {
      var claimedHere := claimed && !savedClaimed;
      claimed, replay, callbacks := savedClaimed, savedReplay, [];
      if claimedHere && env.mode == InProcess { entry := Free; }
    }

    /** What the port calls: the first call of an attempt runs as it is, a later one undoes the one before. */
    method Work(
        plan: UnitPlan, body: Body<Ctx, R>, again: bool, savedClaimed: bool, savedReplay: Option<R>,
        saved: Option<Ctx>)
      returns (value: Option<R>, flow: Flow, ghost run: CallRun<Ctx, R>)
      requires watch.open && watch.held == releases
      requires !again ==> claimed == savedClaimed && replay == savedReplay && callbacks == [] && releases == []
      modifies this`ctx, this`claimed, this`replay, this`entry, this`staged, this`ops,
        this`callbacks, this`releases, this`watch, this`tick
      ensures run.from == Opened(
        if again then Rewound(env, saved, old(ctx)) else old(ctx), savedClaimed, savedReplay,
        if again then Undone(env.mode, savedClaimed, old(InCall(None, Going))) else old(entry))
      ensures run.call == InCall(value, flow) && run.tick == old(tick) && tick == old(tick) + 1
      ensures RunsAlone(env, plan, body, run)
      ensures watch == old(watch).(held := releases)
    {
      if again {
        UndoCall(savedClaimed, savedReplay);
        ReleaseAll();
        if saved.Some? { ctx := env.restored(saved.value, ctx); }
      }
      staged, ops := [], [];
      ghost var from := Opened(ctx, claimed, replay, entry);
      value, flow := RunBody(plan, body);
      run := CallRun(from, InCall(value, flow), tick);
      CallAlone(env, plan, body, run);
      tick := tick + 1;
    }

    /** COMMIT: the staged writes and ledger rows become visible together. */
    method CommitTransaction(plan: UnitPlan)
      requires watch.open && watch.due == [] && watch.held == releases && tick > 0
      modifies this`entry, this`commits, this`watch, this`releases
      ensures commits == old(commits) + [Commit(plan.name, tick - 1, staged, ops, callbacks)]
      ensures entry == if env.mode == InDatabase then ApplyOps(old(entry), ops) else old(entry)
      ensures watch == old(watch).(
        open := false, held := [], due := callbacks, settled := old(watch).settled + [(plan.name, callbacks)])
    {
      commits := commits + [Commit(plan.name, tick - 1, staged, ops, callbacks)];
      if env.mode == InDatabase { entry := ApplyOps(entry, ops); }
      Note(Committed(plan.name, callbacks));
      ReleaseAll();
    }

    /** ROLLBACK: nothing staged is kept, and what the call left elsewhere is undone. */
    method RollBack(plan: UnitPlan, savedClaimed: bool, savedReplay: Option<R>)
      requires watch.open && watch.held == releases
      modifies this`claimed, this`replay, this`callbacks, this`entry, this`watch, this`releases
      ensures claimed == savedClaimed && replay == savedReplay
      ensures entry == Undone(env.mode, savedClaimed, old(InCall(None, Going)))
      ensures watch == old(watch).(open := false, held := [])
    {
      Note(RolledBack(plan.name));
      UndoCall(savedClaimed, savedReplay);
      ReleaseAll();
    }

    /** The port rolls back a call and makes another, in a transaction of its own. */
    method CallAgain(plan: UnitPlan, body: Body<Ctx, R>, savedClaimed: bool, savedReplay: Option<R>, saved: Option<Ctx>)
      returns (value: Option<R>, flow: Flow, ghost run: CallRun<Ctx, R>)
      requires watch.open && watch.held == releases && watch.due == []
      modifies this`ctx, this`claimed, this`replay, this`entry, this`staged, this`ops,
        this`callbacks, this`releases, this`watch, this`tick
      ensures run.from == Opened(
        Rewound(env, saved, old(ctx)), savedClaimed, savedReplay,
        Undone(env.mode, savedClaimed, old(InCall(None, Going))))
      ensures run.call == InCall(value, flow) && run.tick == old(tick) && tick == old(tick) + 1
      ensures RunsAlone(env, plan, body, run)
      ensures watch == old(watch).(held := releases)
    {
      Note(RolledBack(plan.name));
      Note(Began(plan.name));
      value, flow, run := Work(plan, body, true, savedClaimed, savedReplay, saved);
    }

    /** The calls of one `transactions.run`: each opens a transaction, each but the last is rolled back. */
    method PortCalls(plan: UnitPlan, body: Body<Ctx, R>, again: nat, saved: Option<Ctx>)
      returns (value: Option<R>, flow: Flow, ghost rolledBack: seq<CallRun<Ctx, R>>, ghost last: CallRun<Ctx, R>)
      requires Idle(watch) && callbacks == [] && releases == []
      modifies this`ctx, this`claimed, this`replay, this`entry, this`staged, this`ops,
        this`callbacks, this`releases, this`watch, this`tick
      ensures |rolledBack| == again && Chain(env, plan, body, old(Now()), saved, rolledBack)
      ensures last.from == StartOf(env, saved, old(Now()), rolledBack) && RunsAlone(env, plan, body, last)
      ensures last.call == InCall(value, flow) && last.tick + 1 == tick
      ensures watch == old(watch).(open := true, held := releases)
    {
      var savedClaimed, savedReplay := claimed, replay;
      ghost var before, seen := Now(), watch;
      Note(Began(plan.name));
      value, flow, last := Work(plan, body, false, savedClaimed, savedReplay, saved);
      rolledBack := [];
      ChainingIs(env, plan, body, before, saved, rolledBack, last);
      for i := 0 to again
        invariant |rolledBack| == i && Chaining(env, plan, body, before, saved, rolledBack, last)
        invariant last.call == InCall(value, flow) && last.tick + 1 == tick
        invariant watch == seen.(open := true, held := releases)
      {
        ghost var was := last;
        value, flow, last := CallAgain(plan, body, savedClaimed, savedReplay, saved);
        ChainingGoesOn(env, plan, body, before, saved, rolledBack, was, last);
        rolledBack := rolledBack + [was];
      }
      ChainingIs(env, plan, body, before, saved, rolledBack, last);
    }

    /** The end of a `transactions.run`: COMMIT when the last call resolved and the port agrees. */
    method EndRun(
        plan: UnitPlan, value: Option<R>, flow: Flow, rejects: Option<SagaError>, savedClaimed: bool,
        savedReplay: Option<R>)
      returns (end: Result<Option<R>, SagaError>)
      requires watch.open && watch.due == [] && watch.held == releases && tick > 0
      modifies this`claimed, this`replay, this`callbacks, this`entry, this`commits, this`watch, this`releases
      ensures end == if rejects.Some? then Err(rejects.value) else if flow.Threw? then Err(flow.error) else Ok(value)
      ensures end.Ok? ==>
        && Now() == Committing(
             env.mode, plan.name, old(Now()), CallRun(old(InCall(value, flow)), old(InCall(value, flow)), tick - 1))
        && callbacks == old(callbacks)
        && watch == old(watch).(
             open := false, held := [], due := callbacks, settled := old(watch).settled + [(plan.name, callbacks)])
      ensures end.Err? ==>
        && Now() == old(Now()).(
             claimed := savedClaimed, replay := savedReplay,
             entry := Undone(env.mode, savedClaimed, old(InCall(value, flow))))
        && watch == old(watch).(open := false, held := [])
    {
      if flow.Threw? || rejects.Some? {
        RollBack(plan, savedClaimed, savedReplay);
        end := Err(if rejects.Some? then rejects.value else flow.error);
      } else {
        CommitTransaction(plan);
        end := Ok(value);
      }
    }

    /** A run of the port that is not refused: only its last call can commit. */
    method RunCalls(plan: UnitPlan, body: Body<Ctx, R>, again: nat, rejects: Option<SagaError>, saved: Option<Ctx>)
      returns (end: Result<Option<R>, SagaError>, ghost a: Attempt<Ctx, R>)
      requires Idle(watch) && callbacks == [] && releases == []
      modifies this`ctx, this`claimed, this`replay, this`entry, this`commits, this`staged, this`ops,
        this`callbacks, this`releases, this`watch, this`tick
      ensures a.Called? && |a.rolledBack| == again && a.rejects == rejects && end == EndOf(a)
      ensures AttemptRuns(env, plan, body, old(Now()), saved, a)
      ensures Now() == AfterAttempt(env.mode, plan.name, old(Now()), a)
      ensures end.Ok? ==> callbacks == a.last.call.callbacks && watch == old(watch).(
        due := callbacks, settled := old(watch).settled + [(plan.name, callbacks)])
      ensures end.Err? ==> watch == old(watch)
    {
      var savedClaimed, savedReplay := claimed, replay;
      var value, flow;
      ghost var rolledBack, last;
      value, flow, rolledBack, last := PortCalls(plan, body, again, saved);
      a := Called(rolledBack, last, rejects);
      end := EndRun(plan, value, flow, rejects, savedClaimed, savedReplay);
    }

    /** One attempt: the port refuses, or it calls the body. */
    method RunAttempt(plan: UnitPlan, body: Body<Ctx, R>, saved: Option<Ctx>)
      returns (end: Result<Option<R>, SagaError>, ghost a: Attempt<Ctx, R>)
      requires Idle(watch)
      modifies this`ctx, this`claimed, this`replay, this`entry, this`commits, this`staged, this`ops,
        this`callbacks, this`releases, this`watch, this`tick, this`runs
      ensures runs == old(runs) + 1 && Matches(env.port(old(runs)), a)
      ensures AttemptRuns(env, plan, body, old(Now()), saved, a) && end == EndOf(a)
      ensures Now() == AfterAttempt(env.mode, plan.name, old(Now()), a)
      ensures end.Ok? ==> a.Called? && callbacks == a.last.call.callbacks && watch == old(watch).(
        due := callbacks, settled := old(watch).settled + [(plan.name, callbacks)])
      ensures end.Err? ==> watch == old(watch)
    {
      callbacks, releases := [], [];
      var port := env.port(runs);
      runs := runs + 1;
      if port.refused.Some? {
        a := Refused(port.refused.value);
        end := Err(port.refused.value);
      } else {
        end, a := RunCalls(plan, body, port.again, port.rejects, saved);
      }
    }

    /** The callbacks of the committed call, in registration order; one that throws stops none. */
    method DrainAfterCommit()
      requires watch.due == callbacks && !watch.open && watch.held == [] && !watch.broken
      modifies this`watch
      ensures watch == old(watch).(due := [])
    {
      for i := 0 to |callbacks|
        invariant watch == old(watch).(due := callbacks[i..])
      {
        var threw := env.callbackThrows(callbacks[i], tick);
        Note(CallbackRan(callbacks[i], threw));
      }
    }

    /** Sleeps before the next attempt: nothing is open, held or due meanwhile. */
    method BackOff(policy: Policy, attempt: int)
      requires Idle(watch) && FairRandom(env) && ValidPolicy(policy) && attempt >= 1
      modifies this`watch, this`slept
      ensures watch == old(watch)
      ensures old(slept) + Least(policy, attempt) <= slept <= old(slept) + Undithered(policy, attempt)
    {
      var k := runs;
      var random := (n: int) => env.random(k, n);
      var ms := DelayFor(policy, attempt, random);
      JitterBand(policy, attempt, random);
      BackoffGrowsToCap(policy, attempt, attempt);
      Note(Slept(ms));
      slept := slept + ms;
    }

    /** Restores ctx and backs off; the unit had slept since `start` at most once per failed attempt. */
    method Rewind(plan: UnitPlan, saved: Ctx, attempt: int, ghost start: int)
      requires Idle(watch) && FairRandom(env) && attempt >= 1
      requires plan.retry.Some? && ValidPolicy(plan.retry.value)
      requires SleptFor(start, slept, attempt - 1, plan)
      modifies this`ctx, this`watch, this`slept
      ensures ctx == env.restored(saved, old(ctx)) && watch == old(watch)
      ensures SleptFor(start, slept, attempt, plan)
    {
      ctx := env.restored(saved, ctx);
      BackOff(plan.retry.value, attempt);
    }

    /** One try, with its callbacks, and the restore and the sleep if the loop goes on. */
    method Turn(plan: UnitPlan, body: Body<Ctx, R>, saved: Option<Ctx>, attempt: int, ghost start: int)
      returns (over: bool, end: Result<Option<R>, SagaError>, ghost a: Attempt<Ctx, R>)
      requires Idle(watch) && FairRandom(env) && attempt >= 1
      requires plan.retry.Some? ==> ValidPolicy(plan.retry.value)
      requires SleptFor(start, slept, attempt - 1, plan)
      modifies this
      ensures runs == old(runs) + 1 && NextAttempt(env, plan, body, saved, old(runs), old(Now()), a) && end == EndOf(a)
      ensures over <==> !(GoesOn(env, plan, saved, a) && attempt != plan.retry.value.attempts)
      ensures var left := AfterAttempt(env.mode, plan.name, old(Now()), a);
        Now() == if over then left else left.(ctx := Rewound(env, saved, left.ctx))
      ensures SleptFor(start, slept, if over then attempt - 1 else attempt, plan)
      ensures watch == WatchedAttempt(old(watch), plan.name, a)
    {
      end, a := RunAttempt(plan, body, saved);
      over := true;
      if end.Ok? {
        DrainAfterCommit();
      } else if
        saved.Some? && plan.retry.Some? && Retries(env, plan, end.error) && attempt != plan.retry.value.attempts
      {
        over := false;
        Rewind(plan, saved.value, attempt, start);
      }
    }

    /** One turn of the attempt loop: the unit is done, or it goes on with an attempt left. */
    method Advance(
        plan: UnitPlan, body: Body<Ctx, R>, saved: Option<Ctx>, attempt: int, ghost start: int,
        ghost before: Snapshot<Ctx, R>, ghost first: nat, ghost attempts: seq<Attempt<Ctx, R>>,
        ghost was: Result<Option<R>, SagaError>)
      returns (over: bool, outcome: Result<Option<R>, SagaError>, ghost more: seq<Attempt<Ctx, R>>)
      requires Idle(watch) && FairRandom(env) && (plan.retry.Some? ==> ValidPolicy(plan.retry.value))
      requires saved == SavedCtx(env, plan, before.ctx) && 1 <= attempt <= MaxRuns(env, plan, before.ctx)
      requires |attempts| == attempt - 1 && runs == first + |attempts|
      requires Looping(env, plan, body, before, first, attempts, Now(), false, was)
      requires SleptFor(start, slept, attempt - 1, plan)
      modifies this
      ensures |more| == attempt && runs == first + |more| && watch == Watched(old(watch), plan.name, more)
      ensures Looping(env, plan, body, before, first, more, Now(), over, outcome)
      ensures SleptFor(start, slept, if over then attempt - 1 else attempt, plan)
      ensures !over ==> attempt < MaxRuns(env, plan, before.ctx) && watch == old(watch)
    {
      ghost var state := Now();
      ghost var a;
      over, outcome, a := Turn(plan, body, saved, attempt, start);
      more := LoopGoesOn(env, plan, body, before, first, attempts, state, was, a, over, Now());
      outcome := Wrapped(env, outcome);
    }

    /**
     * Runs one unit of work. What it does is a history of attempts and calls, with the lemmas of
     * `UnitHistory` to say what that amounts to; callbacks run for the call that committed, and only for it.
     */
    method Execute(plan: UnitPlan, body: Body<Ctx, R>)
      returns (outcome: Result<Option<R>, SagaError>, ghost attempts: seq<Attempt<Ctx, R>>)
      requires Idle(watch) && FairRandom(env)
      requires plan.retry.Some? ==> ValidPolicy(plan.retry.value)
      modifies this
      ensures UnitDone(env, plan, body, old(Now()), old(runs), attempts, Now(), outcome)
      ensures runs == old(runs) + |attempts| && watch == Watched(old(watch), plan.name, attempts)
      ensures SleptFor(old(slept), slept, if |attempts| == 0 then 0 else |attempts| - 1, plan)
    {
      attempts := [];
      if Refuses(env, plan, ctx) {
        outcome := Err(Usage);
      } else {
        outcome, attempts := AttemptLoop(plan, body);
      }
    }

    /** The attempt loop, after the checkpoint. */
    method AttemptLoop(plan: UnitPlan, body: Body<Ctx, R>)
      returns (outcome: Result<Option<R>, SagaError>, ghost attempts: seq<Attempt<Ctx, R>>)
      requires Idle(watch) && FairRandom(env) && !Refuses(env, plan, ctx)
      requires plan.retry.Some? ==> ValidPolicy(plan.retry.value)
      modifies this
      ensures UnitDone(env, plan, body, old(Now()), old(runs), attempts, Now(), outcome)
      ensures runs == old(runs) + |attempts| && watch == Watched(old(watch), plan.name, attempts)
      ensures |attempts| > 0 && SleptFor(old(slept), slept, |attempts| - 1, plan)
    {
      ghost var before, first, seen, start := Now(), runs, watch, slept;
      var saved := SavedCtx(env, plan, ctx);
      attempts, outcome := [], Err(Usage);
      var attempt, over := 1, false;
      LoopStarts(env, plan, body, before, first, outcome);
      while !over
        invariant !over ==> 1 <= attempt <= MaxRuns(env, plan, before.ctx) && |attempts| == attempt - 1 && watch == seen
        invariant Looping(env, plan, body, before, first, attempts, Now(), over, outcome)
        invariant over ==> |attempts| > 0
        invariant SleptFor(start, slept, if over then |attempts| - 1 else |attempts|, plan)
        invariant runs == first + |attempts| && watch == Watched(seen, plan.name, attempts)
        decreases !over, MaxRuns(env, plan, before.ctx) - attempt
      {
        over, outcome, attempts := Advance(plan, body, saved, attempt, start, before, first, attempts, outcome);
        attempt := attempt + 1;
      }
      LoopIs(env, plan, body, before, first, attempts, Now(), over, outcome);
    }
  }
}
