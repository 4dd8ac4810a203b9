/**
 * The parts of a saga run as values (src/saga/saga.ts, src/saga/idempotency-ledger.ts,
 * src/saga/concurrency-errors.ts): steps, ledger rows, and what one call of a unit's body does to
 * ctx, to the claim and to its own transaction.
 *
 * A step is an arbitrary function of ctx and of a tick that no two calls share. Two calls of the same
 * step may therefore behave differently, so a step may read the database, the clock or anything else.
 */
module Saga {
  import opened Common
  import opened LockPort
  import opened RetryPolicy

  datatype SagaError =
    | Concurrency(kind: ErrorKind)
    | InProgress
    | IllegalTransition
    | OutcomeUnknown
    | Usage
    | Other(code: int)

  type Write = nat
  type Callback = nat

  datatype StepResult<Ctx> =
    StepResult(ctx: Ctx, writes: seq<Write>, callbacks: seq<Callback>, failure: Option<SagaError>)

  type Step<!Ctx> = (Ctx, nat) -> StepResult<Ctx>
  type Reply<!Ctx, !R> = (Ctx, nat) -> Result<R, SagaError>

  /** The row of one (scope, key) pair: `pending` from claim to record, `applied` afterwards. */
  datatype LedgerEntry<R> = Free | Pending | Applied(response: R)

  datatype LedgerOp<R> = Claim | Record(response: R) | Release

  function ApplyOp<R>(entry: LedgerEntry<R>, op: LedgerOp<R>): LedgerEntry<R>
  {
    match op
    case Claim => Pending
    case Record(response) => Applied(response)
    case Release => Free
  }

  function ApplyOps<R>(entry: LedgerEntry<R>, ops: seq<LedgerOp<R>>): LedgerEntry<R>
  {
    if ops == [] then entry else ApplyOp(ApplyOps(entry, ops[..|ops| - 1]), ops[|ops| - 1])
  }

  /**
   * Unkeyed: no ledger, or the run has no key. InDatabase: the ledger's rows are part of the
   * transaction. InProcess: the ledger ignores the transaction (`transactional === false`).
   */
  datatype LedgerMode = Unkeyed | InDatabase | InProcess

  datatype Label = TxUnit(index: nat) | ClaimUnit(index: nat) | CompensateUnit(index: nat) | RecordUnit

  /** What one unit committed, in one transaction, and the callbacks it registered for afterwards. */
  datatype Commit<R> =
    Commit(name: Label, tick: nat, writes: seq<Write>, ops: seq<LedgerOp<R>>, callbacks: seq<Callback>)

  datatype Body<!Ctx, !R> =
    | Transaction(steps: seq<Step<Ctx>>, reply: Option<Reply<Ctx, R>>)
    | ClaimOnly
    | Compensation(step: Option<Step<Ctx>>)
    | RecordReply(value: R)

  /**
   * What the lock port does in one call: it registers releases for a prefix of the locks (a database
   * port for none), and it may fail.
   */
  datatype LockFate = LockFate(granted: nat, failure: Option<SagaError>)

  datatype Flow = Going | Returned | Threw(error: SagaError)

  /** A call of a body in progress. `ops` and `writes` are staged in its transaction. */
  datatype Call<Ctx, R> = Call(
    ctx: Ctx, claimed: bool, replay: Option<R>, entry: LedgerEntry<R>,
    ops: seq<LedgerOp<R>>, writes: seq<Write>, callbacks: seq<Callback>, locks: nat,
    value: Option<R>, flow: Flow)

  function Opened<Ctx, R>(ctx: Ctx, claimed: bool, replay: Option<R>, entry: LedgerEntry<R>): Call<Ctx, R>
  {
    Call(ctx, claimed, replay, entry, [], [], [], 0, None, Going)
  }

  /** A ledger in the database stages the row; one in process changes it at once. */
  function Wrote<Ctx, R>(mode: LedgerMode, call: Call<Ctx, R>, op: LedgerOp<R>): Call<Ctx, R>
  {
    match mode
    case Unkeyed => call
    case InDatabase => call.(ops := call.ops + [op])
    case InProcess => call.(entry := ApplyOp(call.entry, op))
  }

  /** `claimOnce`: returns early on a replay, throws on an unfinished first run. */
  function ClaimOnce<Ctx, R>(mode: LedgerMode, call: Call<Ctx, R>): Call<Ctx, R>
  {
    if call.flow != Going || mode == Unkeyed || call.claimed then call
    else
      match call.entry
      case Pending => call.(flow := Threw(InProgress))
      case Applied(response) => call.(replay := Some(response), flow := Returned)
      case Free => Wrote(mode, call.(claimed := true), Claim)
  }

  function AcquireLocks<Ctx, R>(call: Call<Ctx, R>, wanted: nat, fate: LockFate): Call<Ctx, R>
  {
    if call.flow != Going || wanted == 0 then call
    else
      var granted := if fate.granted <= wanted then fate.granted else wanted;
      call.(locks := granted, flow := if fate.failure.Some? then Threw(fate.failure.value) else Going)
  }

  function RunStep<Ctx, R>(call: Call<Ctx, R>, step: Step<Ctx>, tick: nat): Call<Ctx, R>
  {
    if call.flow != Going then call
    else
      var r := step(call.ctx, tick);
      call.(ctx := r.ctx, writes := call.writes + r.writes, callbacks := call.callbacks + r.callbacks,
            flow := if r.failure.Some? then Threw(r.failure.value) else Going)
  }

  function RunSteps<Ctx, R>(call: Call<Ctx, R>, steps: seq<Step<Ctx>>, tick: nat): Call<Ctx, R>
  {
    if |steps| == 0 then call
    else RunStep(RunSteps(call, steps[..|steps| - 1], tick), steps[|steps| - 1], tick)
  }

  function RecordIfClaimed<Ctx, R>(mode: LedgerMode, call: Call<Ctx, R>, value: R): Call<Ctx, R>
  {
    if call.flow != Going || !call.claimed then call else Wrote(mode, call, Record(value))
  }

  function ReleaseIfClaimed<Ctx, R>(mode: LedgerMode, call: Call<Ctx, R>): Call<Ctx, R>
  {
    if call.flow != Going || !call.claimed then call else Wrote(mode, call, Release)
  }

  function MakeReply<Ctx, R>(
      mode: LedgerMode, call: Call<Ctx, R>, reply: Option<Reply<Ctx, R>>, tick: nat): Call<Ctx, R>
  {
    if call.flow != Going || reply.None? then call
    else
      match reply.value(call.ctx, tick)
      case Err(e) => call.(flow := Threw(e))
      case Ok(v) => RecordIfClaimed(mode, call, v).(value := Some(v))
  }

  /** One call of a body, alone: claim, locks, steps, and the ledger row of the reply or the release. */
  function CallBody<Ctx, R>(
      mode: LedgerMode, wanted: nat, fate: LockFate, body: Body<Ctx, R>, from: Call<Ctx, R>, tick: nat): Call<Ctx, R>
  {
    match body
    case Transaction(steps, reply) =>
      MakeReply(mode, RunSteps(AcquireLocks(ClaimOnce(mode, from), wanted, fate), steps, tick), reply, tick)
    case ClaimOnly => ClaimOnce(mode, from)
    case Compensation(step) =>
      var locked := AcquireLocks(from, wanted, fate);
      ReleaseIfClaimed(mode, if step.Some? then RunStep(locked, step.value, tick) else locked)
    case RecordReply(value) => RecordIfClaimed(mode, from, value)
  }

  /** The entry after a call was rolled back: `undoCall` frees a claim that call took, and no other. */
  function Undone<Ctx, R>(mode: LedgerMode, claimedBefore: bool, call: Call<Ctx, R>): LedgerEntry<R>
  {
    if mode == InProcess && call.claimed && !claimedBefore then Free else call.entry
  }

  datatype UnitPlan = UnitPlan(name: Label, locks: seq<LockRequest>, retry: Option<Policy>, strictCheckpoint: bool)

  /**
   * What the transaction port does in one `run`: it refuses at once, or it calls the body
   * `again + 1` times, rolling back all calls but the last, and then commits or rejects.
   */
  datatype PortRun = PortRun(refused: Option<SagaError>, again: nat, rejects: Option<SagaError>)

  /**
   * `cloneable` tells of which ctx a checkpoint can be taken, and `restored(saved, ctx)` what restoring
   * it makes of ctx: the clone checkpoint and a custom one alike.
   */
  datatype Environment<!Ctx> = Environment(
    mode: LedgerMode,
    port: nat -> PortRun,
    lockFate: nat -> LockFate,
    classifier: int -> Option<ErrorKind>,
    cloneable: Ctx -> bool,
    restored: (Ctx, Ctx) -> Ctx,
    callbackThrows: (Callback, nat) -> bool,
    random: (nat, int) -> int)

  /** Errors of the engine keep their kind; the classifier may name any database kind for the rest. */
  function Classify(classifier: int -> Option<ErrorKind>, error: SagaError): Option<ErrorKind>
  {
    match error
    case Concurrency(kind) => Some(kind)
    case Other(code) => if classifier(code) == Some(StaleState) then None else classifier(code)
    case _ => None
  }

  function FinalError(error: SagaError, kind: Option<ErrorKind>): SagaError
  {
    if kind == None || kind == Some(StaleState) || error.Concurrency? then error else Concurrency(kind.value)
  }

  // What an observer sees a run do, in order.
  datatype LockHandle = LockHandle(tick: nat, index: nat)

  datatype Event =
    | Began(name: Label)
    | Committed(name: Label, callbacks: seq<Callback>)
    | RolledBack(name: Label)
    | LockTaken(handle: LockHandle)
    | LockFreed(handle: LockHandle)
    | CallbackRan(callback: Callback, threw: bool)
    | Slept(ms: int)
    | CalledOut(index: nat)

  /**
   * An observer's view: an open transaction, the locks held, the callbacks due, the units committed
   * with the callbacks each registered, the outbound calls made, and whether a rule was broken.
   */
  datatype Watch = Watch(
    open: bool, held: seq<LockHandle>, due: seq<Callback>,
    settled: seq<(Label, seq<Callback>)>, out: seq<nat>, broken: bool)

  /** Nothing open, held or due, and no rule broken. */
  predicate Idle(w: Watch)
  {
    !w.open && w.held == [] && w.due == [] && !w.broken
  }

  /** The order rules of a run: what may happen when. */
  function Observe(w: Watch, ev: Event): Watch
  {
    match ev
    case Began(_) => w.(open := true, broken := w.broken || w.open || w.due != [])
    case Committed(name, callbacks) =>
      w.(open := false, due := callbacks, settled := w.settled + [(name, callbacks)],
         broken := w.broken || !w.open || w.due != [])
    case RolledBack(_) => w.(open := false, broken := w.broken || !w.open)
    case LockTaken(h) =>
      w.(held := w.held + [h],
         broken := w.broken || !w.open || h.index != |w.held| || (w.held != [] && w.held[0].tick != h.tick))
    case LockFreed(h) =>
      if w.held != [] && w.held[|w.held| - 1] == h then w.(held := w.held[..|w.held| - 1]) else w.(broken := true)
    case CallbackRan(c, _) =>
      if w.due != [] && w.due[0] == c then w.(due := w.due[1..], broken := w.broken || w.open || w.held != [])
      else w.(broken := true)
    case Slept(_) => w.(broken := w.broken || !Idle(w))
    case CalledOut(index) => w.(out := w.out + [index], broken := w.broken || !Idle(w))
  }

  const UNSEEN := Watch(false, [], [], [], [], false)
}
