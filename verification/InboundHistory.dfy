/**
 * The requests on one storage key through time (src/inbound/inbound.idempotency.ts over
 * src/idempotency/memory-idempotency.store.ts): claims, settlements, reads and purges, each one store
 * segment, in any interleaving. A request that acquired the key owns a claim until it settles; nothing
 * stops it from settling after its claim expired. A settlement whose own store call throws, or that makes
 * none, is followed by a `fail`, and other requests may come between the two.
 */
module InboundHistory {
  import opened Common
  import opened InboundStore
  import opened InboundGate

  /**
   * `owners` are the requests that acquired the key and have not settled, with the expiry of their claims;
   * `failing` are those of them that have only their `fail` to do.
   */
  datatype State = State(entry: Option<Entry>, owners: map<nat, int>, failing: set<nat>, time: int)

  datatype Step =
    | Ask(who: nat, now: int, later: int, ttl: int)
    | Answer(who: nat, now: int, s: Settlement, hasRelease: bool, f: Fault)
    | GiveUp(who: nat, now: int, error: int, g: Fault)
    | Look(now: int)

  /** Nobody has asked yet. */
  function Start(time: int): State { State(None, map[], {}, time) }

  /** The time when a step is over. */
  function Until(step: Step): int { if step.Ask? then step.later else step.now }

  predicate Acquires(s: State, step: Step) { step.Ask? && !Live(s.entry, step.now) }

  predicate Enabled(s: State, step: Step)
  {
    && s.time <= step.now <= Until(step)
    && (step.Ask? ==> step.who !in s.owners)
    && (step.Answer? ==> step.who in s.owners && step.who !in s.failing)
    && (step.GiveUp? ==> step.who in s.owners && step.who in s.failing)
  }

  function Apply(s: State, step: Step): State
  {
    match step
    case Ask(who, now, later, ttl) =>
      var owners := if Live(s.entry, now) then s.owners else s.owners[who := later + ttl];
      State(Begun(s.entry, now, later, ttl), owners, s.failing, later)
    case Answer(who, now, settlement, hasRelease, f) =>
      var after := AfterCall(s.entry, settlement, hasRelease, f);
      if Settles(settlement, hasRelease, f) then State(after, s.owners - {who}, s.failing, now)
      else State(after, s.owners, s.failing + {who}, now)
    case GiveUp(who, now, error, g) =>
      State(Effect(s.entry, FailedWith(s.entry, error), g), s.owners - {who}, s.failing - {who}, now)
    case Look(now) => State(Kept(s.entry, now), s.owners, s.failing, now)
  }

  predicate Runs(s: State, steps: seq<Step>)
  {
    |steps| > 0 ==> Runs(s, steps[..|steps| - 1]) && Enabled(End(s, steps[..|steps| - 1]), steps[|steps| - 1])
  }

  function End(s: State, steps: seq<Step>): State
  {
    if |steps| == 0 then s else Apply(End(s, steps[..|steps| - 1]), steps[|steps| - 1])
  }

  /** A release call, whether or not it reaches the store. */
  predicate CallsRelease(step: Step)
  {
    step.Answer? && step.s.Failure? && step.s.action == Release && step.hasRelease
  }

  predicate NoRelease(steps: seq<Step>) { forall i :: 0 <= i < |steps| ==> !CallsRelease(steps[i]) }

  /** The key is taken until `deadline`, whatever its status. */
  predicate TakenUntil(s: State, deadline: int)
  {
    s.time < deadline ==> s.entry.Some? && s.entry.value.expiresAt == deadline
  }

  lemma {:induction false} StaysTaken(s: State, steps: seq<Step>, deadline: int)
    requires TakenUntil(s, deadline) && Runs(s, steps) && NoRelease(steps)
    ensures TakenUntil(End(s, steps), deadline) && End(s, steps).time >= s.time
  {
    if |steps| > 0 {
      var init, step := steps[..|steps| - 1], steps[|steps| - 1];
      StaysTaken(s, init, deadline);
      TakenStep(End(s, init), step, deadline);
    }
  }

  lemma TakenStep(s: State, step: Step, deadline: int)
    requires TakenUntil(s, deadline) && Enabled(s, step) && !CallsRelease(step)
    ensures TakenUntil(Apply(s, step), deadline)
  {
    if step.Answer? && s.entry.Some? { OnlyReleaseFrees(s.entry, step.s, step.hasRelease, 0, step.f, Works); }
  }

  /**
   * Two acquisitions with no release call between them are at least the ttl of the first apart, counted
   * from the end of its `begin`, whatever happens in between.
   */
  lemma {:induction false} AcquisitionsAreApart(s: State, first: Step, between: seq<Step>, second: Step)
    requires Enabled(s, first) && Acquires(s, first) && Runs(Apply(s, first), between) && NoRelease(between)
    requires Enabled(End(Apply(s, first), between), second) && Acquires(End(Apply(s, first), between), second)
    ensures second.now >= first.later + first.ttl
  {
    StaysTaken(Apply(s, first), between, first.later + first.ttl);
  }

  /** And no further apart than that: the key can be acquired again at the very moment its claim expires. */
  lemma FreeAtExpiry(s: State, first: Step, who: nat, ttl: int)
    requires Enabled(s, first) && Acquires(s, first) && first.ttl >= 0 && who !in s.owners && who != first.who
    ensures var expiry := first.later + first.ttl;
      && Enabled(Apply(s, first), Ask(who, expiry, expiry, ttl))
      && Acquires(Apply(s, first), Ask(who, expiry, expiry, ttl))
      && (first.ttl > 0 ==> !Acquires(Apply(s, first), Ask(who, expiry - 1, expiry - 1, ttl)))
  {
  }

  // ---- A policy that frees nothing.

  /** A step of requests to an endpoint with this plan, over a store that has a release or has none. */
  ghost predicate Under(plan: Plan, hasRelease: bool, step: Step)
  {
    && (step.Ask? ==> step.ttl == plan.ttl)
    && (step.Answer? ==>
          step.hasRelease == hasRelease
          && (step.s.Success? || exists error :: step.s == InboundIdempotencyGate.FailureOf(plan, error)))
  }

  ghost predicate AllUnder(plan: Plan, hasRelease: bool, steps: seq<Step>)
  {
    forall i :: 0 <= i < |steps| ==> Under(plan, hasRelease, steps[i])
  }

  /** A run from the start in which the key is acquired by `first`, and again before the claim of `first` expires. */
  ghost predicate Redispatched(
      plan: Plan, hasRelease: bool, before: seq<Step>, first: Step, between: seq<Step>, second: Step)
  {
    var s := End(Start(0), before);
    && Runs(Start(0), before) && AllUnder(plan, hasRelease, before + [first] + between + [second])
    && Enabled(s, first) && Acquires(s, first) && Runs(Apply(s, first), between)
    && Enabled(End(Apply(s, first), between), second) && Acquires(End(Apply(s, first), between), second)
    && second.now < first.later + first.ttl
  }

  /**
   * A key is dispatched twice within the ttl of a claim, on some run, if and only if the endpoint did not
   * choose to keep all failures and its store can release.
   */
  lemma RedispatchExactly(plan: Plan, hasRelease: bool)
    requires plan.ttl > 0
    ensures plan.policy != KeepAll && hasRelease <==>
      exists before, first, between, second :: Redispatched(plan, hasRelease, before, first, between, second)
  {
    if plan.policy != KeepAll && hasRelease {
      ReleasedRunsAgain(plan);
    } else {
      forall before, first, between, second
        ensures !Redispatched(plan, hasRelease, before, first, between, second)
      {
        if Redispatched(plan, hasRelease, before, first, between, second) {
          NothingFreed(plan, hasRelease, before + [first], between, [second]);
          AcquisitionsAreApart(End(Start(0), before), first, between, second);
        }
      }
    }
  }

  lemma NothingFreed(plan: Plan, hasRelease: bool, before: seq<Step>, between: seq<Step>, after: seq<Step>)
    requires plan.policy == KeepAll || !hasRelease
    requires AllUnder(plan, hasRelease, before + between + after)
    ensures NoRelease(between)
  {
    forall i | 0 <= i < |between| ensures !CallsRelease(between[i]) {
      assert (before + between + after)[|before| + i] == between[i];
    }
  }

  /** A failure marked for release frees the key at once, under every policy that obeys marks. */
  lemma ReleasedRunsAgain(plan: Plan)
    requires plan.ttl > 0 && plan.policy != KeepAll
    ensures exists before, first, between, second :: Redispatched(plan, true, before, first, between, second)
  {
    var first, second := Ask(0, 0, 0, plan.ttl), Ask(1, 0, 0, plan.ttl);
    var marked := DispatchError(0, Some(Release), false);
    var freed := Answer(0, 0, InboundIdempotencyGate.FailureOf(plan, marked), true, Works);
    assert freed.s.action == Release;
    OneStep(Apply(Start(0), first), freed);
    assert Under(plan, true, freed) && [] + [first] + [freed] + [second] == [first, freed, second];
    assert Redispatched(plan, true, [], first, [freed], second);
  }

  lemma OneStep(s: State, step: Step)
    requires Enabled(s, step)
    ensures Runs(s, [step]) && End(s, [step]) == Apply(s, step)
  {
    assert [step][..0] == [];
    assert Runs(s, []) && End(s, []) == s;
  }

  lemma OneMore(s: State, steps: seq<Step>, step: Step)
    requires Runs(s, steps) && Enabled(End(s, steps), step)
    ensures Runs(s, steps + [step]) && End(s, steps + [step]) == Apply(End(s, steps), step)
  {
    assert (steps + [step])[..|steps|] == steps;
  }

  // ---- Requests that have not settled.

  /** With this step `who` has settled. */
  predicate Answers(step: Step, who: nat)
  {
    (step.GiveUp? && step.who == who) || (step.Answer? && step.who == who && Settles(step.s, step.hasRelease, step.f))
  }

  predicate Unanswered(steps: seq<Step>, who: nat, i: nat)
  {
    forall j :: i < j < |steps| ==> !Answers(steps[j], who)
  }

  predicate OpenedAt(time: int, steps: seq<Step>, who: nat, i: nat)
  {
    && i < |steps| && steps[i].Ask? && steps[i].who == who && Acquires(End(Start(time), steps[..i]), steps[i])
    && Unanswered(steps, who, i)
  }

  /** In this run `who` acquired the key and has not settled. */
  ghost predicate Open(time: int, steps: seq<Step>, who: nat)
  {
    exists i :: OpenedAt(time, steps, who, i)
  }

  /** The owners of a run's end are the requests that acquired the key in it and have not settled. */
  lemma {:induction false} OwnersAreOpen(time: int, steps: seq<Step>, who: nat)
    requires Runs(Start(time), steps)
    ensures who in End(Start(time), steps).owners <==> Open(time, steps, who)
  {
    if |steps| > 0 {
      var init, step := steps[..|steps| - 1], steps[|steps| - 1];
      OwnersAreOpen(time, init, who);
      assert steps == init + [step];
      if Open(time, init, who) && !Answers(step, who) { OpenStays(time, init, step, who); }
      if Open(time, steps, who) { OpenWas(time, init, step, who); }
      if step.Ask? && step.who == who && Acquires(End(Start(time), init), step) {
        assert OpenedAt(time, steps, who, |init|);
      }
    }
  }

  lemma OpenStays(time: int, steps: seq<Step>, step: Step, who: nat)
    requires Open(time, steps, who) && !Answers(step, who)
    ensures Open(time, steps + [step], who)
  {
    var i: nat :| OpenedAt(time, steps, who, i);
    assert (steps + [step])[..i] == steps[..i];
    assert OpenedAt(time, steps + [step], who, i);
  }

  lemma OpenWas(time: int, steps: seq<Step>, step: Step, who: nat)
    requires Open(time, steps + [step], who)
    ensures !Answers(step, who) || (step.Ask? && step.who == who)
    ensures Open(time, steps, who) || (step.Ask? && step.who == who && Acquires(End(Start(time), steps), step))
  {
    var more := steps + [step];
    var i: nat :| OpenedAt(time, more, who, i);
    assert more[..i] == if i < |steps| then steps[..i] else steps;
    if i < |steps| {
      assert !Answers(more[|steps|], who);
      assert Unanswered(steps, who, i) by {
        forall j | i < j < |steps| ensures !Answers(steps[j], who) { assert !Answers(more[j], who); }
      }
      assert OpenedAt(time, steps, who, i);
    }
  }

  // ---- Recorded outcomes.

  predicate CompletedWithRecord(s: State, record: Record)
  {
    s.entry.Some? && s.entry.value.status == Completed && s.entry.value.result == Some(record)
  }

  /** The key is completed with `record`, and its claim has not expired. */
  predicate Recorded(s: State, record: Record)
  {
    CompletedWithRecord(s, record) && s.time < s.entry.value.expiresAt
  }

  /** The key is completed with `record`, which nobody can replace until the claim expires. */
  predicate Final(s: State, record: Record, deadline: int)
  {
    s.time < deadline ==> CompletedWithRecord(s, record) && s.entry.value.expiresAt == deadline && s.owners == map[]
  }

  lemma {:induction false} FinalStays(s: State, steps: seq<Step>, record: Record, deadline: int)
    requires Final(s, record, deadline) && Runs(s, steps)
    ensures Final(End(s, steps), record, deadline) && s.time <= End(s, steps).time
  {
    if |steps| > 0 { FinalStays(s, steps[..|steps| - 1], record, deadline); }
  }

  /** However the run goes on, the record stays until its claim expires. */
  ghost predicate StaysOnEveryRun(s: State, record: Record)
    requires Recorded(s, record)
  {
    forall more :: Runs(s, more) && End(s, more).time < s.entry.value.expiresAt ==>
      CompletedWithRecord(End(s, more), record)
  }

  /**
   * After any run, a recorded outcome is safe, however the run goes on, if and only if no request that
   * acquired the key has still to settle: one that outlived its own claim may settle late and overwrite it.
   */
  lemma {:induction false} CompletedStaysExactly(time: int, steps: seq<Step>, record: Record)
    requires Runs(Start(time), steps) && Recorded(End(Start(time), steps), record)
    ensures StaysOnEveryRun(End(Start(time), steps), record) <==> forall who :: !Open(time, steps, who)
  {
    var s := End(Start(time), steps);
    forall who ensures who in s.owners <==> Open(time, steps, who) { OwnersAreOpen(time, steps, who); }
    if s.owners == map[] {
      forall more | Runs(s, more) && End(s, more).time < s.entry.value.expiresAt
        ensures CompletedWithRecord(End(s, more), record)
      {
        FinalStays(s, more, record, s.entry.value.expiresAt);
      }
    } else {
      var who :| who in s.owners;
      assert Open(time, steps, who);
      LateAnswer(s, who, record);
    }
  }

  lemma LateAnswer(s: State, who: nat, record: Record)
    requires Recorded(s, record) && who in s.owners
    ensures !StaysOnEveryRun(s, record)
  {
    var other := record[CachedResult := OtherThan(Get(record, CachedResult))];
    var late :=
      if who in s.failing then GiveUp(who, s.time, 0, Works) else Answer(who, s.time, Success(other), false, Works);
    OneStep(s, late);
    assert Get(other, CachedResult) != Get(record, CachedResult);
    assert !CompletedWithRecord(End(s, [late]), record);
  }

  function OtherThan(j: Json): Json { if j == Null then Undefined else Null }

  // ---- Requests that settle in time.

  predicate Settling(step: Step) { step.Answer? || step.GiveUp? }

  /** The settlement's own store call did its work and threw nevertheless. */
  predicate Torn(step: Step) { step.Answer? && Calls(step.s, step.hasRelease) && step.f == ThrowsAfter }

  /**
   * A request settles before its own claim expires, with no call torn. It may also never settle, or have
   * calls that throw before they do anything.
   */
  predicate Punctual(s: State, step: Step)
  {
    !Torn(step) && (Settling(step) && step.who in s.owners ==> step.now < s.owners[step.who])
  }

  predicate PunctualRun(s: State, steps: seq<Step>)
  {
    |steps| > 0 ==>
      PunctualRun(s, steps[..|steps| - 1]) && Punctual(End(s, steps[..|steps| - 1]), steps[|steps| - 1])
  }

  /** The claim of `who` has not expired. */
  predicate Timely(s: State, who: nat) { who in s.owners && s.time < s.owners[who] }

  /** An unexpired claim is the entry, in flight. */
  predicate HoldsEntry(s: State, who: nat)
  {
    Timely(s, who) ==> s.entry == Some(Entry(InFlight, s.owners[who], None, None))
  }

  predicate SameOwner(s: State, v: nat, w: nat) { Timely(s, v) && Timely(s, w) ==> v == w }

  /** There is one unexpired claim at most, and it is the entry. */
  ghost predicate OneTimely(s: State)
  {
    (forall who :: HoldsEntry(s, who)) && forall v, w :: SameOwner(s, v, w)
  }

  lemma PunctualStep(s: State, step: Step)
    requires OneTimely(s) && Enabled(s, step) && Punctual(s, step)
    ensures OneTimely(Apply(s, step))
  {
    var t := Apply(s, step);
    forall who ensures HoldsEntry(t, who) { PunctualHolds(s, step, who); }
    forall v, w ensures SameOwner(t, v, w) { PunctualSame(s, step, v, w); }
  }

  lemma PunctualHolds(s: State, step: Step, who: nat)
    requires OneTimely(s) && Enabled(s, step) && Punctual(s, step)
    ensures HoldsEntry(Apply(s, step), who)
  {
    assert HoldsEntry(s, who);
    if Settling(step) { assert SameOwner(s, who, step.who); }
  }

  lemma PunctualSame(s: State, step: Step, v: nat, w: nat)
    requires OneTimely(s) && Enabled(s, step) && Punctual(s, step)
    ensures SameOwner(Apply(s, step), v, w)
  {
    assert SameOwner(s, v, w) && HoldsEntry(s, v) && HoldsEntry(s, w);
  }

  lemma {:induction false} PunctualHasOne(s: State, steps: seq<Step>)
    requires OneTimely(s) && Runs(s, steps) && PunctualRun(s, steps)
    ensures OneTimely(End(s, steps))
  {
    if |steps| > 0 {
      PunctualHasOne(s, steps[..|steps| - 1]);
      PunctualStep(End(s, steps[..|steps| - 1]), steps[|steps| - 1]);
    }
  }

  /** The entry is settled, and whoever has not settled is too late to do it in time. */
  ghost predicate SettledIn(s: State, e: Entry)
  {
    s.time < e.expiresAt ==> s.entry == Some(e) && forall who :: !Timely(s, who)
  }

  lemma SettlersAreTimely(s: State, step: Step)
    requires Enabled(s, step) && Punctual(s, step) && Settling(step)
    ensures Timely(s, step.who)
  {
  }

  lemma SettledStep(s: State, step: Step, e: Entry)
    requires SettledIn(s, e) && Enabled(s, step) && Punctual(s, step)
    ensures SettledIn(Apply(s, step), e)
  {
    if Settling(step) { SettlersAreTimely(s, step); }
    forall who | Apply(s, step).time < e.expiresAt ensures !Timely(Apply(s, step), who) {
      assert !Timely(s, who);
    }
  }

  lemma {:induction false} SettledStays(s: State, steps: seq<Step>, e: Entry)
    requires SettledIn(s, e) && Runs(s, steps) && PunctualRun(s, steps)
    ensures SettledIn(End(s, steps), e) && s.time <= End(s, steps).time
  {
    if |steps| > 0 {
      var init, step := steps[..|steps| - 1], steps[|steps| - 1];
      SettledStays(s, init, e);
      SettledStep(End(s, init), step, e);
    }
  }

  /** A run from the start that recorded an outcome, and its continuation, still within the claim. */
  ghost predicate RecordedThen(time: int, steps: seq<Step>, more: seq<Step>, record: Record)
  {
    var s := End(Start(time), steps);
    && Runs(Start(time), steps) && Recorded(s, record)
    && Runs(s, more) && End(s, more).time < s.entry.value.expiresAt
  }

  /** The run forgets or replaces the outcome it recorded. */
  ghost predicate Loses(time: int, steps: seq<Step>, more: seq<Step>, record: Record)
  {
    RecordedThen(time, steps, more, record) && !CompletedWithRecord(End(End(Start(time), steps), more), record)
  }

  /** When requests settle before their own claims expire, or never, and no call is torn, a recorded outcome stays. */
  lemma {:induction false} PunctualKeepsOutcomes(time: int, steps: seq<Step>, more: seq<Step>, record: Record)
    requires RecordedThen(time, steps, more, record)
    requires PunctualRun(Start(time), steps) && PunctualRun(End(Start(time), steps), more)
    ensures var s, t := End(Start(time), steps), End(End(Start(time), steps), more);
      CompletedWithRecord(t, record) && t.entry.value.expiresAt == s.entry.value.expiresAt
  {
    var s := End(Start(time), steps);
    assert OneTimely(Start(time));
    PunctualHasOne(Start(time), steps);
    forall who ensures !Timely(s, who) { assert HoldsEntry(s, who); }
    SettledStays(s, more, s.entry.value);
  }

  /** A request settles at most `limit` after it acquired its claim of `ttl`; calls are torn only if `torn`. */
  predicate Within(s: State, step: Step, ttl: int, limit: int, torn: bool)
  {
    && (step.Ask? ==> step.ttl == ttl) && (Torn(step) ==> torn)
    && (Settling(step) && step.who in s.owners ==> step.now <= s.owners[step.who] - ttl + limit)
  }

  predicate WithinRun(s: State, steps: seq<Step>, ttl: int, limit: int, torn: bool)
  {
    |steps| > 0 ==>
      && WithinRun(s, steps[..|steps| - 1], ttl, limit, torn)
      && Within(End(s, steps[..|steps| - 1]), steps[|steps| - 1], ttl, limit, torn)
  }

  lemma {:induction false} WithinIsPunctual(s: State, steps: seq<Step>, ttl: int, limit: int)
    requires limit < ttl && WithinRun(s, steps, ttl, limit, false)
    ensures PunctualRun(s, steps)
  {
    if |steps| > 0 { WithinIsPunctual(s, steps[..|steps| - 1], ttl, limit); }
  }

  lemma WithinMore(s: State, steps: seq<Step>, step: Step, ttl: int, limit: int, torn: bool)
    requires WithinRun(s, steps, ttl, limit, torn) && Within(End(s, steps), step, ttl, limit, torn)
    ensures WithinRun(s, steps + [step], ttl, limit, torn)
  {
    assert (steps + [step])[..|steps|] == steps;
  }

  /** A run in which every request settles within `limit` loses an outcome it recorded. */
  ghost predicate LosesWithin(
      time: int, steps: seq<Step>, more: seq<Step>, record: Record, ttl: int, limit: int, torn: bool)
  {
    && Loses(time, steps, more, record)
    && WithinRun(Start(time), steps, ttl, limit, torn) && WithinRun(End(Start(time), steps), more, ttl, limit, torn)
  }

  /**
   * Recorded outcomes stay, on every run, if and only if requests are given less time than their claims
   * last and no store call throws after it did its work.
   */
  lemma OutcomesStayExactly(ttl: int, limit: nat, torn: bool)
    requires ttl > 0
    ensures (forall time, steps, more, record :: !LosesWithin(time, steps, more, record, ttl, limit, torn)) <==>
      limit < ttl && !torn
  {
    if limit < ttl && !torn {
      forall time, steps, more, record ensures !LosesWithin(time, steps, more, record, ttl, limit, torn) {
        if LosesWithin(time, steps, more, record, ttl, limit, torn) {
          WithinIsPunctual(Start(time), steps, ttl, limit);
          WithinIsPunctual(End(Start(time), steps), more, ttl, limit);
          PunctualKeepsOutcomes(time, steps, more, record);
        }
      }
    } else {
      var one, two := ReplyRecord(Num(1)), ReplyRecord(Num(2));
      assert one[CachedResult] != two[CachedResult];
      if torn { TornRelease(ttl, limit, one, 0); } else { LateSuccess(ttl, limit, one, two, torn); }
    }
  }

  // ---- A request that settles after its claim expired.

  /** The first request is still at work when its claim expires, and the second acquires the key and answers. */
  function Overtaken(ttl: int, record: Record): seq<Step>
  {
    [Ask(0, 0, 0, ttl), Ask(1, ttl, ttl, ttl), Answer(1, ttl, Success(record), true, Works)]
  }

  lemma OvertakenRuns(ttl: int, limit: int, record: Record, torn: bool)
    requires 0 < ttl <= limit
    ensures Runs(Start(0), Overtaken(ttl, record)) && WithinRun(Start(0), Overtaken(ttl, record), ttl, limit, torn)
    ensures End(Start(0), Overtaken(ttl, record)) ==
      State(Some(Entry(Completed, 2 * ttl, Some(record), None)), map[0 := ttl], {}, ttl)
  {
    var a, b, c := Ask(0, 0, 0, ttl), Ask(1, ttl, ttl, ttl), Answer(1, ttl, Success(record), true, Works);
    var s1 := State(Some(Entry(InFlight, ttl, None, None)), map[0 := ttl], {}, 0);
    var s2 := State(Some(Entry(InFlight, 2 * ttl, None, None)), map[0 := ttl, 1 := 2 * ttl], {}, ttl);
    FirstOf(Start(0), a, ttl, limit, torn);
    assert Apply(Start(0), a) == s1;
    NextOf(Start(0), [a], b, ttl, limit, torn);
    assert [a] + [b] == [a, b] && Apply(s1, b) == s2;
    NextOf(Start(0), [a, b], c, ttl, limit, torn);
    assert [a, b] + [c] == [a, b, c] == Overtaken(ttl, record);
    assert map[0 := ttl, 1 := 2 * ttl] - {1} == map[0 := ttl];
  }

  lemma FirstOf(s: State, step: Step, ttl: int, limit: int, torn: bool)
    requires Enabled(s, step) && Within(s, step, ttl, limit, torn)
    ensures Runs(s, [step]) && WithinRun(s, [step], ttl, limit, torn) && End(s, [step]) == Apply(s, step)
  {
    OneStep(s, step);
    assert WithinRun(s, [], ttl, limit, torn) && [] + [step] == [step];
    WithinMore(s, [], step, ttl, limit, torn);
  }

  lemma NextOf(s: State, steps: seq<Step>, step: Step, ttl: int, limit: int, torn: bool)
    requires Runs(s, steps) && WithinRun(s, steps, ttl, limit, torn)
    requires Enabled(End(s, steps), step) && Within(End(s, steps), step, ttl, limit, torn)
    ensures var more := steps + [step];
      Runs(s, more) && WithinRun(s, more, ttl, limit, torn) && End(s, more) == Apply(End(s, steps), step)
  {
    OneMore(s, steps, step);
    WithinMore(s, steps, step, ttl, limit, torn);
  }

  /** The late answer of the first request replaces the outcome that the second recorded. */
  lemma LateSuccess(ttl: int, limit: int, record: Record, late: Record, torn: bool)
    requires 0 < ttl <= limit && late != record
    ensures LosesWithin(
      0, Overtaken(ttl, record), [Answer(0, ttl, Success(late), true, Works)], record, ttl, limit, torn)
    ensures CompletedWithRecord(
      End(End(Start(0), Overtaken(ttl, record)), [Answer(0, ttl, Success(late), true, Works)]), late)
  {
    var s := End(Start(0), Overtaken(ttl, record));
    OvertakenRuns(ttl, limit, record, torn);
    FirstOf(s, Answer(0, ttl, Success(late), true, Works), ttl, limit, torn);
  }

  /** The late failure of the first request frees a completed key, and a third request is dispatched. */
  lemma LateRelease(ttl: int, limit: int, record: Record, error: int)
    requires 0 < ttl <= limit
    ensures var freed := Answer(0, ttl, Failure(error, Release, map[]), true, Works);
      var s := End(Start(0), Overtaken(ttl, record));
      && LosesWithin(0, Overtaken(ttl, record), [freed], record, ttl, limit, false)
      && Acquires(End(s, [freed]), Ask(2, ttl, ttl, ttl)) && Enabled(End(s, [freed]), Ask(2, ttl, ttl, ttl))
      && ttl < s.entry.value.expiresAt
  {
    var s := End(Start(0), Overtaken(ttl, record));
    OvertakenRuns(ttl, limit, record, false);
    FirstOf(s, Answer(0, ttl, Failure(error, Release, map[]), true, Works), ttl, limit, false);
  }

  // ---- A store call that throws after it did its work.

  /** A release frees the key and throws; before the `fail` after it, another request is dispatched and answers. */
  function Between(ttl: int, record: Record, error: int): seq<Step>
  {
    [Ask(0, 0, 0, ttl), Answer(0, 0, Failure(error, Release, map[]), true, ThrowsAfter),
     Ask(1, 0, 0, ttl), Answer(1, 0, Success(record), true, Works)]
  }

  lemma BetweenRuns(ttl: int, limit: nat, record: Record, error: int)
    requires 0 < ttl
    ensures var steps := Between(ttl, record, error);
      && Runs(Start(0), steps) && WithinRun(Start(0), steps, ttl, limit, true)
      && End(Start(0), steps) == State(Some(Entry(Completed, ttl, Some(record), None)), map[0 := ttl], {0}, 0)
  {
    var a, b := Ask(0, 0, 0, ttl), Answer(0, 0, Failure(error, Release, map[]), true, ThrowsAfter);
    var c, d := Ask(1, 0, 0, ttl), Answer(1, 0, Success(record), true, Works);
    FirstOf(Start(0), a, ttl, limit, true);
    assert Apply(Start(0), a) == State(Some(Entry(InFlight, ttl, None, None)), map[0 := ttl], {}, 0);
    NextOf(Start(0), [a], b, ttl, limit, true);
    assert [a] + [b] == [a, b] && End(Start(0), [a, b]) == State(None, map[0 := ttl], {0}, 0);
    NextOf(Start(0), [a, b], c, ttl, limit, true);
    assert [a, b] + [c] == [a, b, c];
    NextOf(Start(0), [a, b, c], d, ttl, limit, true);
    assert [a, b, c] + [d] == Between(ttl, record, error);
    assert map[0 := ttl, 1 := ttl] - {1} == map[0 := ttl];
  }

  /** The `fail` of the first request marks the outcome that the second recorded as failed, long before it expires. */
  lemma TornRelease(ttl: int, limit: nat, record: Record, error: int)
    requires 0 < ttl
    ensures LosesWithin(0, Between(ttl, record, error), [GiveUp(0, 0, error, Works)], record, ttl, limit, true)
    ensures var t := End(End(Start(0), Between(ttl, record, error)), [GiveUp(0, 0, error, Works)]);
      Live(t.entry, t.time) && t.entry.value.status == InboundStore.Failed
  {
    BetweenRuns(ttl, limit, record, error);
    FirstOf(End(Start(0), Between(ttl, record, error)), GiveUp(0, 0, error, Works), ttl, limit, true);
  }

  // ---- What a repeat is answered.

  /** `settle` is the last step of a request that settles in time; this is the entry it leaves. */
  lemma SettledFor(time: int, before: seq<Step>, settle: Step, after: seq<Step>) returns (e: Entry)
    requires Runs(Start(time), before) && PunctualRun(Start(time), before)
    requires Enabled(End(Start(time), before), settle) && Punctual(End(Start(time), before), settle)
    requires Settling(settle) && Answers(settle, settle.who) && !CallsRelease(settle)
    requires var s := Apply(End(Start(time), before), settle); Runs(s, after) && PunctualRun(s, after)
    ensures var held := End(Start(time), before); var t := End(Apply(held, settle), after);
      && Apply(held, settle).entry == Some(e) && e.expiresAt == held.owners[settle.who]
      && held.entry == Some(Entry(InFlight, e.expiresAt, None, None))
      && (t.time < e.expiresAt ==> t.entry == Some(e))
  {
    var held := End(Start(time), before);
    assert OneTimely(Start(time));
    PunctualHasOne(Start(time), before);
    assert HoldsEntry(held, settle.who);
    forall who ensures !Timely(Apply(held, settle), who) { assert SameOwner(held, who, settle.who); }
    e := Apply(held, settle).entry.value;
    SettledStays(Apply(held, settle), after, e);
  }

  /** A success, or a failure stored for replay. */
  predicate Records(s: Settlement) { s.Success? || s.action == Store }

  /**
   * When requests settle before their own claims expire, or never, and no call is torn, the outcome of the
   * owner is the answer of every repeat until the claim expires: nothing is dispatched again, and a replay
   * returns what was recorded.
   */
  lemma {:induction false} ReplayReturnsTheOutcome(
      time: int, before: seq<Step>, settle: Step, after: seq<Step>, plan: Plan, now: int)
    requires Runs(Start(time), before) && PunctualRun(Start(time), before)
    requires Enabled(End(Start(time), before), settle) && Punctual(End(Start(time), before), settle)
    requires settle.Answer? && Records(settle.s) && settle.f == Works
    requires var s := Apply(End(Start(time), before), settle); Runs(s, after) && PunctualRun(s, after)
    requires var held := End(Start(time), before);
      End(Apply(held, settle), after).time <= now < held.owners[settle.who]
    ensures var held := End(Start(time), before);
      var t, deadline := End(Apply(held, settle), after), held.owners[settle.who];
      && Live(t.entry, now)
      && ResolveRepeat(plan, Kept(t.entry, now)) == CompletedRepeat(plan.replay, Stored(settle.s.record, deadline))
  {
    var e := SettledFor(time, before, settle, after);
  }

  /** The same for a request that failed and is kept: every repeat is told so, under every plan. */
  lemma {:induction false} FailureIsReported(
      time: int, before: seq<Step>, settle: Step, after: seq<Step>, plan: Plan, now: int)
    requires Runs(Start(time), before) && PunctualRun(Start(time), before)
    requires Enabled(End(Start(time), before), settle) && Punctual(End(Start(time), before), settle)
    requires settle.GiveUp? && settle.g != ThrowsBefore
    requires var s := Apply(End(Start(time), before), settle); Runs(s, after) && PunctualRun(s, after)
    requires var held := End(Start(time), before);
      End(Apply(held, settle), after).time <= now < held.owners[settle.who]
    ensures var t := End(Apply(End(Start(time), before), settle), after);
      Live(t.entry, now) && ResolveRepeat(plan, Kept(t.entry, now)) == Duplicate(InboundStore.Failed, Null)
  {
    var e := SettledFor(time, before, settle, after);
  }

  /** While the owner is at work every repeat is refused as in flight, or answered as a duplicate of it. */
  lemma {:induction false} InFlightIsAnswered(time: int, steps: seq<Step>, who: nat, plan: Plan, now: int)
    requires Runs(Start(time), steps) && PunctualRun(Start(time), steps)
    requires var s := End(Start(time), steps); who in s.owners && s.time <= now < s.owners[who]
    ensures var e := End(Start(time), steps).entry;
      && Live(e, now)
      && (plan.rejectInFlight ==> ResolveRepeat(plan, Kept(e, now)) == RejectedInFlight)
      && (!plan.rejectInFlight ==> ResolveRepeat(plan, Kept(e, now)) == Duplicate(InFlight, Null))
  {
    assert OneTimely(Start(time));
    PunctualHasOne(Start(time), steps);
    assert HoldsEntry(End(Start(time), steps), who);
  }
}
