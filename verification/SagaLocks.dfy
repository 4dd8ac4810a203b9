/**
 * The locks of the units of a run (src/saga/saga-runner.ts, src/saga/segments.ts): a transaction
 * segment takes those it declares, a compensation those of the last transaction segment before the
 * call that failed, every other unit none. All of them follow one order, so runs never deadlock.
 */
module SagaLocks {
  import opened Common
  import opened Orders
  import opened LockPort
  import opened Saga
  import opened Segments
  import opened SagaRun
  import opened UnitEffects
  import opened SagaSafety
  import opened SoloRun
  import DF = DeadlockFreedom

  /** The last transaction segment before segment `i`. */
  function LastTransaction<Ctx, R>(sys: System<Ctx, R>, i: nat): (j: Option<nat>)
    requires i <= |sys.segments|
    ensures j.Some? ==> j.value < i && sys.segments[j.value].TransactionSegment?
  {
    if i == 0 then None
    else if sys.segments[i - 1].TransactionSegment? then Some(i - 1)
    else LastTransaction(sys, i - 1)
  }

  /** The unit of segment `j`, step `k` of the run, took `locks`: those the segment declares, for ctx as it was then. */
  ghost predicate TookAt<Ctx(!new), R(!new)>(
      sys: System<Ctx, R>, path: seq<Machine<Ctx, R>>, k: nat, j: nat, locks: seq<LockRequest>)
  {
    && k + 1 < |path| && path[k].phase.At? && path[k].phase.index == j < |sys.segments|
    && sys.segments[j].TransactionSegment? && UnitLocks(sys, path[k], path[k + 1]) == locks
    && Resolves(sys.segments[j].locks, path[k].now.ctx, sys.maxLocks, Ok(locks))
  }

  /** `locks` are those that the unit of the last transaction segment before `i` took in this run, or none. */
  ghost predicate TakenBefore<Ctx(!new), R(!new)>(
      sys: System<Ctx, R>, path: seq<Machine<Ctx, R>>, i: nat, locks: seq<LockRequest>)
  {
    i <= |sys.segments| &&
    if LastTransaction(sys, i).None? then locks == []
    else exists k :: TookAt(sys, path, k, LastTransaction(sys, i).value, locks)
  }

  /** The segment that a run is at. */
  function Place<R>(phase: Phase<R>): Option<nat>
  {
    match phase
    case At(i, _) => Some(i)
    case Calling(i) => Some(i)
    case Compensating(i, _) => Some(i)
    case _ => None
  }

  ghost predicate LocksOk<Ctx(!new), R(!new)>(sys: System<Ctx, R>, path: seq<Machine<Ctx, R>>)
  {
    |path| > 0 &&
    var m := path[|path| - 1];
    Place(m.phase).Some? ==> TakenBefore(sys, path, Place(m.phase).value, m.locks)
  }

  /** The locks of the unit that a step of a run executes. */
  function UnitLocks<Ctx, R>(sys: System<Ctx, R>, m: Machine<Ctx, R>, m': Machine<Ctx, R>): seq<LockRequest>
  {
    match UnitAt(sys, m, m')
    case None => []
    case Some(unit) => unit.0.locks
  }

  lemma TakenStays<Ctx(!new), R(!new)>(
      sys: System<Ctx, R>, path: seq<Machine<Ctx, R>>, m: Machine<Ctx, R>, i: nat, locks: seq<LockRequest>)
    requires TakenBefore(sys, path, i, locks)
    ensures TakenBefore(sys, path + [m], i, locks)
  {
    if LastTransaction(sys, i).Some? {
      var j := LastTransaction(sys, i).value;
      var k: nat :| TookAt(sys, path, k, j, locks);
      assert TookAt(sys, path + [m], k, j, locks);
    }
  }

  /** The unit of a segment begins with the locks the segment resolves to, or the run ends before it. */
  lemma TransactionLocks<Ctx(!new), R(!new)>(
      sys: System<Ctx, R>, path: seq<Machine<Ctx, R>>, i: nat, entry: LedgerEntry<R>, m': Machine<Ctx, R>)
    requires |path| > 0 && i < |sys.segments| && sys.segments[i].TransactionSegment?
    requires var m := path[|path| - 1];
      m.phase.At? && m.phase.index == i && TransactionMove(sys, i, WithEntry(m, entry), m')
    ensures m'.phase.Over? || (m'.phase.At? && m'.phase.index == i + 1)
    ensures TookAt(sys, path + [m'], |path| - 1, i, m'.locks) || (m'.locks == path[|path| - 1].locks && m'.phase.Over?)
  {
    var m := path[|path| - 1];
    assert (path + [m'])[|path| - 1] == m && (path + [m'])[|path|] == m';
  }

  /** Between transaction segments the locks stay. */
  lemma OtherLocks<Ctx(!new), R(!new)>(sys: System<Ctx, R>, m: Machine<Ctx, R>, m': Machine<Ctx, R>)
    requires OnlyOutbound(sys) && Next(sys, m, m')
    requires m.phase.At? ==> m.phase.index >= |sys.segments| || sys.segments[m.phase.index].OutboundSegment?
    ensures m'.locks == m.locks
    ensures Place(m'.phase).Some? ==>
      && Place(m.phase).Some? && OutboundAt(sys, Place(m.phase).value)
      && Place(m.phase).value <= Place(m'.phase).value <= Place(m.phase).value + 1
  {
  }

  lemma OtherKeepsLocks<Ctx(!new), R(!new)>(
      sys: System<Ctx, R>, path: seq<Machine<Ctx, R>>, entry: LedgerEntry<R>, m': Machine<Ctx, R>)
    requires OnlyOutbound(sys) && LocksOk(sys, path) && Next(sys, WithEntry(path[|path| - 1], entry), m')
    requires var phase := path[|path| - 1].phase;
      phase.At? ==> phase.index >= |sys.segments| || sys.segments[phase.index].OutboundSegment?
    ensures LocksOk(sys, path + [m'])
  {
    OtherLocks(sys, WithEntry(path[|path| - 1], entry), m');
    LocksStay(sys, path, m');
  }

  lemma LocksStay<Ctx(!new), R(!new)>(sys: System<Ctx, R>, path: seq<Machine<Ctx, R>>, m': Machine<Ctx, R>)
    requires LocksOk(sys, path) && m'.locks == path[|path| - 1].locks
    requires Place(m'.phase).Some? ==>
      var was := Place(path[|path| - 1].phase);
      was.Some? && OutboundAt(sys, was.value) && was.value <= Place(m'.phase).value <= was.value + 1
    ensures LocksOk(sys, path + [m'])
  {
    if Place(m'.phase).Some? {
      var m := path[|path| - 1];
      var i := Place(m.phase).value;
      assert LastTransaction(sys, i + 1) == LastTransaction(sys, i);
      TakenStays(sys, path, m', i, m.locks);
    }
  }

  lemma TransactionKeepsLocks<Ctx(!new), R(!new)>(
      sys: System<Ctx, R>, path: seq<Machine<Ctx, R>>, i: nat, m': Machine<Ctx, R>)
    requires |path| > 0 && (m'.phase.Over? || (m'.phase.At? && m'.phase.index == i + 1))
    requires TookAt(sys, path + [m'], |path| - 1, i, m'.locks) || m'.phase.Over?
    ensures LocksOk(sys, path + [m'])
  {
    if !m'.phase.Over? { TookIsTaken(sys, path + [m'], |path| - 1, i, m'.locks); }
    assert (path + [m'])[|path|] == m';
  }

  lemma TookIsTaken<Ctx(!new), R(!new)>(
      sys: System<Ctx, R>, path: seq<Machine<Ctx, R>>, k: nat, i: nat, locks: seq<LockRequest>)
    requires TookAt(sys, path, k, i, locks)
    ensures TakenBefore(sys, path, i + 1, locks)
  {
    assert LastTransaction(sys, i + 1) == Some(i);
  }

  lemma StepKeepsLocks<Ctx(!new), R(!new)>(sys: System<Ctx, R>, path: seq<Machine<Ctx, R>>, m': Machine<Ctx, R>)
    requires OnlyOutbound(sys) && LocksOk(sys, path) && NextAmong(sys, path[|path| - 1], m')
    ensures LocksOk(sys, path + [m'])
  {
    var m := path[|path| - 1];
    var entry :| Next(sys, WithEntry(m, entry), m');
    if m.phase.At? && m.phase.index < |sys.segments| && sys.segments[m.phase.index].TransactionSegment? {
      TransactionLocks(sys, path, m.phase.index, entry, m');
      TransactionKeepsLocks(sys, path, m.phase.index, m');
    } else {
      OtherKeepsLocks(sys, path, entry, m');
    }
  }

  lemma {:induction false} PathKeepsLocks<Ctx(!new), R(!new)>(sys: System<Ctx, R>, path: seq<Machine<Ctx, R>>)
    requires OnlyOutbound(sys) && Path(sys, path)
    ensures LocksOk(sys, path)
    decreases |path|
  {
    if |path| > 1 {
      var init, last := path[..|path| - 1], path[|path| - 1];
      PathKeepsLocks(sys, init);
      StepKeepsLocks(sys, init, last);
      assert path == init + [last];
    }
  }

  /**
   * The unit of a compensation that inherits locks takes exactly the list that the unit of the last
   * transaction segment before the call took in this run, or none if there is no such segment. Every
   * other compensation takes none.
   */
  lemma {:induction false} CompensationInherits<Ctx(!new), R(!new)>(
      sys: System<Ctx, R>, path: seq<Machine<Ctx, R>>, i: nat, e: SagaError, m': Machine<Ctx, R>)
    requires OnlyOutbound(sys) && Path(sys, path) && path[|path| - 1].phase == Compensating(i, e)
    requires NextAmong(sys, path[|path| - 1], m')
    ensures OutboundAt(sys, i)
    ensures var step, locks := sys.segments[i].step, UnitLocks(sys, path[|path| - 1], m');
      if step.compensate.Some? && step.inheritLocks then TakenBefore(sys, path, i, locks) else locks == []
  {
    PathKeepsLocks(sys, path);
  }

  lemma ResolvedAscend<Ctx>(declarations: seq<LockDeclaration<Ctx>>, ctx: Ctx, max: nat, locks: seq<LockRequest>)
    requires Resolves(declarations, ctx, max, Ok(locks))
    ensures Ascending(locks, IdOf, IdLess) && |locks| <= max
  {
    var requests := Requested(declarations, ctx).value;
    var canonical :|
      Canonical(requests, canonical) && Ok(locks) == if |canonical| > max then Err(Usage) else Ok(canonical);
  }

  lemma TakenAscend<Ctx(!new), R(!new)>(
      sys: System<Ctx, R>, path: seq<Machine<Ctx, R>>, i: nat, locks: seq<LockRequest>)
    requires TakenBefore(sys, path, i, locks)
    ensures Ascending(locks, IdOf, IdLess) && |locks| <= sys.maxLocks
  {
    if LastTransaction(sys, i).Some? {
      var j := LastTransaction(sys, i).value;
      var k: nat :| TookAt(sys, path, k, j, locks);
      ResolvedAscend(sys.segments[j].locks, path[k].now.ctx, sys.maxLocks, locks);
    }
  }

  lemma {:induction false} TransactionIsOrdered<Ctx(!new), R(!new)>(
      sys: System<Ctx, R>, path: seq<Machine<Ctx, R>>, i: nat, entry: LedgerEntry<R>, m': Machine<Ctx, R>)
    requires LocksOk(sys, path) && i < |sys.segments| && sys.segments[i].TransactionSegment?
    requires var m := path[|path| - 1];
      m.phase.At? && m.phase.index == i && TransactionMove(sys, i, WithEntry(m, entry), m')
    ensures Ascending(m'.locks, IdOf, IdLess) && |m'.locks| <= sys.maxLocks
  {
    var m := path[|path| - 1];
    TransactionLocks(sys, path, i, entry, m');
    if m'.locks == m.locks {
      TakenAscend(sys, path, i, m.locks);
    } else {
      ResolvedAscend(sys.segments[i].locks, m.now.ctx, sys.maxLocks, m'.locks);
    }
  }

  /** Every unit a run executes takes its locks in the canonical order, and no more than the limit. */
  lemma {:induction false} EveryUnitIsOrdered<Ctx(!new), R(!new)>(
      sys: System<Ctx, R>, path: seq<Machine<Ctx, R>>, m': Machine<Ctx, R>)
    requires OnlyOutbound(sys) && Path(sys, path) && NextAmong(sys, path[|path| - 1], m')
    ensures var locks := UnitLocks(sys, path[|path| - 1], m'); Ascending(locks, IdOf, IdLess) && |locks| <= sys.maxLocks
  {
    PathKeepsLocks(sys, path);
    var m := path[|path| - 1];
    var entry :| Next(sys, WithEntry(m, entry), m');
    match m.phase
    case At(i, _) =>
      if i < |sys.segments| && sys.segments[i].TransactionSegment? { TransactionIsOrdered(sys, path, i, entry, m'); }
    case Compensating(i, _) => TakenAscend(sys, path, i, m.locks);
    case _ =>
  }

  /** A unit that some run executes next, with its locks as wants. */
  ghost predicate UnitOfRun<Ctx(!new), R(!new)>(
      unit: DF.Unit<LockId>, sys: System<Ctx, R>, path: seq<Machine<Ctx, R>>, m': Machine<Ctx, R>)
  {
    && OnlyOutbound(sys) && Path(sys, path) && NextAmong(sys, path[|path| - 1], m')
    && unit.locks == DF.Wants(UnitLocks(sys, path[|path| - 1], m')) && unit.taken == 0 && unit.phase == DF.Running
  }

  lemma {:induction false} UnitOfRunIsFresh<Ctx(!new), R(!new)>(
      unit: DF.Unit<LockId>, sys: System<Ctx, R>, path: seq<Machine<Ctx, R>>, m': Machine<Ctx, R>)
    requires UnitOfRun(unit, sys, path, m')
    ensures DF.Fresh(unit, IdLess)
  {
    EveryUnitIsOrdered(sys, path, m');
    var locks := UnitLocks(sys, path[|path| - 1], m');
    assert forall i, j :: 0 <= i < j < |locks| ==> IdLess(IdOf(locks[i]), IdOf(locks[j]));
  }

  /** Whatever units of whatever runs meet at one lock manager, they never deadlock, and every schedule ends. */
  lemma {:induction false} RunsNeverDeadlock<Ctx(!new), R(!new)>(
      s: DF.State<LockId>, systems: seq<System<Ctx, R>>, paths: seq<seq<Machine<Ctx, R>>>,
      nexts: seq<Machine<Ctx, R>>, steps: seq<DF.Step>)
    requires s.table == map[] && |systems| == |paths| == |nexts| == |s.units|
    requires forall u :: 0 <= u < |s.units| ==> UnitOfRun(s.units[u], systems[u], paths[u], nexts[u])
    requires DF.Schedule(s, steps)
    ensures |steps| <= DF.TotalRemaining(s.units) && DF.Live(DF.End(s, steps))
  {
    IdLessIsTotalOrder();
    forall u | 0 <= u < |s.units| ensures DF.Fresh(s.units[u], IdLess) {
      UnitOfRunIsFresh(s.units[u], systems[u], paths[u], nexts[u]);
    }
    DF.AscendingListsNeverDeadlock(s, IdLess, steps);
  }
}
