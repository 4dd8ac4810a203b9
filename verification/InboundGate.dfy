/**
 * The claim of an inbound request (src/inbound/inbound.idempotency.ts, src/inbound/inbound.failure.ts):
 * claim before the dispatch, then succeed or fail; a repeat is answered from the record. Any store call
 * may throw, with or without having done its work.
 */
module InboundGate {
  import opened Common
  import opened CodeUnits
  import opened InboundStore

  // ---- Records.

  function ReplyRecord(result: Json): Record { map[CachedResult := result] }

  function AcceptedRecord(id: Text): Record { map[AcceptedMark := Bool(true), MessageId := Str(id)] }

  function WrapStoredFailure(data: Json): Record
  {
    map[StoredFailure := Obj(map[Version := Num(1), Data := data])]
  }

  function ReadStoredFailure(record: Record): Option<Json>
  {
    match Get(record, StoredFailure)
    case Obj(fields) => Some(Get(fields, Data))
    case _ => None
  }

  /** A store that serializes drops what is undefined, at every depth. */
  function SerializedJson(j: Json): Json
  {
    match j
    case Obj(fields) => Obj(map f | f in fields && fields[f] != Undefined :: SerializedJson(fields[f]))
    case _ => j
  }

  function Serialized(record: Record): Record
  {
    map f | f in record && record[f] != Undefined :: SerializedJson(record[f])
  }

  // ---- Answers to a repeat.

  datatype Answer =
    | Reply(result: Json)
    | Accepted(id: Text)
    | Duplicate(of: Status, cached: Json)
    | Rethrow(data: Json)
    | RejectedInFlight

  datatype Action = Keep | Release | Store

  /** What is thrown by a dispatch: its mark, and whether it may only mean that nobody answered in time. */
  datatype DispatchError = DispatchError(code: int, mark: Option<Action>, unanswered: bool)

  /** A classifier returns an action, something else, or throws. */
  datatype Policy =
    | KeepAll
    | Marked
    | Static(action: Action)
    | Classified(classify: DispatchError -> Result<Option<Action>, int>)

  datatype Plan = Plan(
    ttl: int, replay: bool, rejectInFlight: bool, policy: Policy, serialize: DispatchError -> Result<Json, int>)

  function CachedResultOf(e: Option<Entry>): Json
  {
    if e.Some? && e.value.result.Some? && CachedResult in e.value.result.value
    then e.value.result.value[CachedResult] else Null
  }

  function CompletedRepeat(replay: bool, e: Entry): Answer
  {
    var record := if e.result.Some? then e.result.value else map[];
    var failure := ReadStoredFailure(record);
    if failure.Some? then Rethrow(failure.value)
    else if replay then
      if Get(record, AcceptedMark) == Bool(true) && Get(record, MessageId).Str? then Accepted(Get(record, MessageId).s)
      else Reply(Get(record, CachedResult))
    else Duplicate(Completed, CachedResultOf(Some(e)))
  }

  function ResolveRepeat(plan: Plan, e: Option<Entry>): Answer
  {
    if e.Some? && e.value.status == Completed then CompletedRepeat(plan.replay, e.value)
    else if e.Some? && e.value.status == Failed then Duplicate(Failed, CachedResultOf(e))
    else if plan.rejectInFlight then RejectedInFlight
    else Duplicate(InFlight, CachedResultOf(e))
  }

  function Stored(record: Record, expiresAt: int): Entry { Entry(Completed, expiresAt, Some(record), None) }

  /**
   * The three shapes of a completed record are never taken for one another, whatever they carry: a
   * replay answers what was recorded.
   */
  lemma ShapesNeverConfuse(v: Json, id: Text, data: Json, at: int, replay: bool)
    ensures CompletedRepeat(replay, Stored(ReplyRecord(v), at)) == if replay then Reply(v) else Duplicate(Completed, v)
    ensures CompletedRepeat(replay, Stored(AcceptedRecord(id), at)) ==
      if replay then Accepted(id) else Duplicate(Completed, Null)
    ensures CompletedRepeat(replay, Stored(WrapStoredFailure(data), at)) == Rethrow(data)
  {
  }

  /** Nor when the store serializes records, even for values that disappear. */
  lemma SerializedShapesNeverConfuse(v: Json, id: Text, data: Json, at: int)
    ensures CompletedRepeat(true, Stored(Serialized(ReplyRecord(v)), at)) == Reply(SerializedJson(v))
    ensures CompletedRepeat(true, Stored(Serialized(AcceptedRecord(id)), at)) == Accepted(id)
    ensures CompletedRepeat(true, Stored(Serialized(WrapStoredFailure(data)), at)) == Rethrow(SerializedJson(data))
  {
    SerializedFailure(data);
    SerializedReply(v);
    SerializedAccepted(id);
    ShapesNeverConfuse(v, id, data, at, true);
  }

  lemma SerializedReply(v: Json)
    ensures var record := Serialized(ReplyRecord(v));
      && Get(record, CachedResult) == SerializedJson(v)
      && Get(record, StoredFailure) == Undefined && Get(record, AcceptedMark) == Undefined
  {
  }

  lemma SerializedAccepted(id: Text)
    ensures Serialized(AcceptedRecord(id)) == AcceptedRecord(id)
  {
  }

  lemma SerializedFailure(data: Json)
    ensures ReadStoredFailure(Serialized(WrapStoredFailure(data))) == Some(SerializedJson(data))
  {
    var wrapped := Obj(map[Version := Num(1), Data := data]);
    assert Get(SerializedJson(wrapped).fields, Data) == SerializedJson(data);
  }

  // ---- The failure policy.

  /** None: the classifier threw. */
  function DecideFailureAction(policy: Policy, error: DispatchError): Option<Action>
  {
    match policy
    case KeepAll => Some(Keep)
    case Marked => Some(if error.mark.Some? then error.mark.value else Keep)
    case Static(action) =>
      if error.mark.Some? then error.mark else Some(if error.unanswered then Keep else action)
    case Classified(classify) =>
      if error.mark.Some? then error.mark
      else
        var decided := classify(error);
        if decided.Err? then None else Some(if decided.value.Some? then decided.value.value else Keep)
  }

  /** By mark, static value or classifier the failure is to be met with `action`. */
  ghost predicate Wants(policy: Policy, error: DispatchError, action: Action)
  {
    || (!policy.KeepAll? && error.mark == Some(action))
    || (policy.Static? && policy.action == action && error.mark == None && !error.unanswered)
    || (policy.Classified? && error.mark == None && policy.classify(error) == Ok(Some(action)))
  }

  // ---- Settling a claim.

  datatype Fault = Works | ThrowsBefore | ThrowsAfter

  function Effect(e: Option<Entry>, done: Option<Entry>, fault: Fault): Option<Entry>
  {
    if fault == ThrowsBefore then e else done
  }

  /** `None` for a settlement that is kept. */
  datatype Settlement = Success(record: Record) | Failure(error: int, action: Action, record: Record)

  /** A settlement makes a store call of its own, unless it is kept or asks for a release the store lacks. */
  predicate Calls(s: Settlement, hasRelease: bool)
  {
    s.Success? || s.action == Store || (s.action == Release && hasRelease)
  }

  /** What the settlement's own call leaves of the entry. */
  function AfterCall(e: Option<Entry>, s: Settlement, hasRelease: bool, f: Fault): Option<Entry>
  {
    if !Calls(s, hasRelease) then e
    else Effect(e, if s.Failure? && s.action == Release then None else CompletedWith(e, s.record), f)
  }

  /** The request is done; otherwise its `fail` comes next. */
  predicate Settles(s: Settlement, hasRelease: bool, f: Fault) { Calls(s, hasRelease) && f == Works }

  function ErrorOf(s: Settlement, error: int): int { if s.Failure? then s.error else error }

  /** What settling leaves of the entry when nobody comes between; `g` is the fault of the `fail`. */
  function Settled(e: Option<Entry>, s: Settlement, hasRelease: bool, error: int, f: Fault, g: Fault): Option<Entry>
  {
    var after := AfterCall(e, s, hasRelease, f);
    if Settles(s, hasRelease, f) then after else Effect(after, FailedWith(after, ErrorOf(s, error)), g)
  }

  /** Only a release that reached the store frees a key; a `complete` that throws keeps it blocked, for as long. */
  lemma OnlyReleaseFrees(e: Option<Entry>, s: Settlement, hasRelease: bool, error: int, f: Fault, g: Fault)
    requires e.Some?
    ensures Settled(e, s, hasRelease, error, f, g) == None <==>
      s.Failure? && s.action == Release && hasRelease && f != ThrowsBefore
    ensures Settled(e, s, hasRelease, error, f, g) == None <==> AfterCall(e, s, hasRelease, f) == None
    ensures Settled(e, s, hasRelease, error, f, g).Some? ==>
      Settled(e, s, hasRelease, error, f, g).value.expiresAt == e.value.expiresAt
      == AfterCall(e, s, hasRelease, f).value.expiresAt
  {
  }

  /** What a failed dispatch leaves of a claimed entry when the store works, by the policy and the error alone. */
  ghost function LeftByFailure(plan: Plan, error: DispatchError, hasRelease: bool, e: Entry): Option<Entry>
  {
    if Wants(plan.policy, error, Release) && hasRelease then None
    else if Wants(plan.policy, error, Store) && plan.serialize(error).Ok? then
      var wrapped := Obj(map[Version := Num(1), Data := plan.serialize(error).value]);
      Some(Entry(Completed, e.expiresAt, Some(map[StoredFailure := wrapped]), e.error))
    else Some(Entry(Failed, e.expiresAt, e.result, Some(error.code)))
  }

  lemma FailureLeaves(plan: Plan, error: DispatchError, hasRelease: bool, e: Entry)
    ensures Settled(Some(e), InboundIdempotencyGate.FailureOf(plan, error), hasRelease, error.code, Works, Works) ==
      LeftByFailure(plan, error, hasRelease, e)
  {
  }

  /**
   * A reply timeout or a missing subscriber never frees a key, and stores nothing, unless its mark or the
   * classifier says so; under `KeepAll` nothing does.
   */
  lemma UnansweredIsKept(plan: Plan, error: DispatchError, hasRelease: bool, e: Entry)
    requires plan.policy.KeepAll? || (error.unanswered && error.mark == None && !plan.policy.Classified?)
    ensures Settled(Some(e), InboundIdempotencyGate.FailureOf(plan, error), hasRelease, error.code, Works, Works) ==
      Some(e.(status := Failed, error := Some(error.code)))
  {
  }

  datatype Claim = Skipped | Acquired(id: Id) | Repeat(id: Id)

  class InboundIdempotencyGate {
    const store: MemoryIdempotencyStore
    const hasRelease: bool
    var warnedScopes: set<Text>
    var warnings: seq<Text>

    constructor (store: MemoryIdempotencyStore, hasRelease: bool)
      ensures this.store == store && this.hasRelease == hasRelease && Valid() && warnings == []
    {
      this.store, this.hasRelease, warnedScopes, warnings := store, hasRelease, {}, [];
    }

    /** Each scope was warned about at most once. */
    ghost predicate Valid()
      reads this
    {
      && (forall scope :: scope in warnedScopes <==> scope in warnings)
      && forall i, j :: 0 <= i < j < |warnings| ==> warnings[i] != warnings[j]
    }

    /** The claim, up to `begin`; a repeat goes on to `AnswerRepeat`. */
    method Begin(plan: Plan, id: Option<Id>, now: int, later: int) returns (claim: Claim)
      modifies store
      ensures id.None? ==> claim == Skipped && store.entries == old(store.entries)
      ensures id.Some? ==> claim == if Live(old(store.At(id.value)), now) then Repeat(id.value) else Acquired(id.value)
      ensures id.Some? ==> store.At(id.value) == Begun(old(store.At(id.value)), now, later, plan.ttl)
    {
      if id.None? { return Skipped; }
      var acquired := store.Begin(id.value, now, later, plan.ttl);
      claim := if acquired then Acquired(id.value) else Repeat(id.value);
    }

    method AnswerRepeat(plan: Plan, id: Id, now: int) returns (answer: Answer)
      modifies store
      ensures answer == ResolveRepeat(plan, Kept(old(store.At(id)), now))
      ensures store.At(id) == Kept(old(store.At(id)), now)
    {
      var e := store.Read(id, now);
      answer := ResolveRepeat(plan, e);
    }

    /** The work is committed: a failing `complete` keeps the key blocked, and its error is rethrown. */
    method Succeed(claim: Claim, record: Record, error: int, f: Fault, g: Fault) returns (threw: bool)
      modifies store
      ensures !claim.Acquired? ==> !threw && store.entries == old(store.entries)
      ensures claim.Acquired? ==>
        threw == (f != Works)
        && store.At(claim.id) == Settled(old(store.At(claim.id)), Success(record), hasRelease, error, f, g)
    {
      threw := false;
      if !claim.Acquired? { return; }
      if f != ThrowsBefore { store.Complete(claim.id, record); }
      if f != Works {
        if g != ThrowsBefore { store.Fail(claim.id, error); }
        threw := true;
      }
    }

    /** The settlement of a failed dispatch: the action of the policy, or `Keep` when the policy fails. */
    static function FailureOf(plan: Plan, error: DispatchError): Settlement
    {
      var action := DecideFailureAction(plan.policy, error);
      var data := plan.serialize(error);
      if action == Some(Store) && data.Ok? then Failure(error.code, Store, WrapStoredFailure(data.value))
      else if action == Some(Release) then Failure(error.code, Release, map[])
      else Failure(error.code, Keep, map[])
    }

    /** Applies the failure policy; whatever fails on the way degrades to `keep` and is swallowed. */
    method Failed(claim: Claim, plan: Plan, error: DispatchError, f: Fault, g: Fault)
      requires Valid()
      modifies this, store
      ensures Valid()
      ensures !claim.Acquired? ==> store.entries == old(store.entries)
      ensures claim.Acquired? ==>
        store.At(claim.id) == Settled(old(store.At(claim.id)), FailureOf(plan, error), hasRelease, error.code, f, g)
      ensures claim.Acquired? && f == g == Works && old(store.At(claim.id)).Some? ==>
        store.At(claim.id) == LeftByFailure(plan, error, hasRelease, old(store.At(claim.id)).value)
    {
      if claim.Acquired? && store.At(claim.id).Some? {
        FailureLeaves(plan, error, hasRelease, store.At(claim.id).value);
      }
      if !claim.Acquired? { return; }
      var settled := Settle(claim.id, plan, error, f);
      if !settled && g != ThrowsBefore { store.Fail(claim.id, error.code); }
    }

    /** True when the key was released or the failure stored; false means `keep`, also when a call threw. */
    method Settle(id: Id, plan: Plan, error: DispatchError, f: Fault) returns (settled: bool)
      requires Valid()
      modifies this, store
      ensures Valid()
      ensures var s := FailureOf(plan, error); var e := old(store.At(id));
        match s.action
        case Keep => !settled && store.At(id) == e
        case Store => settled == (f == Works) && store.At(id) == Effect(e, CompletedWith(e, s.record), f)
        case Release =>
          if hasRelease then settled == (f == Works) && store.At(id) == Effect(e, None, f)
          else !settled && store.At(id) == e
    {
      var action := DecideFailureAction(plan.policy, error);
      settled := false;
      if action == Some(Store) {
        var data := plan.serialize(error);
        if data.Err? { return; }
        if f != ThrowsBefore { store.Complete(id, WrapStoredFailure(data.value)); }
        settled := f == Works;
      } else if action == Some(Release) {
        if !hasRelease {
          WarnNoRelease(id.scope);
          return;
        }
        if f != ThrowsBefore { store.Release(id); }
        settled := f == Works;
      }
    }

    method WarnNoRelease(scope: Text)
      requires Valid()
      modifies this
      ensures Valid() && scope in warnings
    {
      if scope in warnedScopes { return; }
      warnedScopes, warnings := warnedScopes + {scope}, warnings + [scope];
    }
  }
}
