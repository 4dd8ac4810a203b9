# Verification of the saga engine and its companions

A Dafny model of the concurrency engine for sagas and of the smaller state machines beside it, with
proofs over whole runs and all interleavings. `dafny verify dfyconfig.toml` checks the project.

**The saga engine.** A step is an arbitrary function of ctx and of a tick that no two calls share, so
two calls of one step may behave differently. The transaction port may refuse, may call a body any
number of times and roll back all calls but the last, and may reject a commit; restoring ctx is an
arbitrary function too. `Saga` describes one call of a body as a value and `UnitHistory` a whole unit
as a history of attempts and calls; `UnitOfWork` is the executor whose methods do just that, and
`UnitAmong` the same history with other runs between its calls.
`SagaRun` is the machine of one run and `SagaRunner` the class that walks the segments along a path of
it, among other runs. `UnitEffects` and `SagaSafety` show what a run leaves behind, `StraightRun` that
it amounts to its steps one after the other, `SagaLocks` which locks its units take, `FailedCalls` what
follows an outbound call that fails, `CheckpointRule` what a ctx that cannot be checkpointed means, and
`AtMostOnce` interleaves any number of runs on one key. `SoloRun` and `InProcessRuns` say what a failed run leaves
with a ledger that a rollback does not reach, `FailedRuns` holds runs that the documentation
excludes, and `FailureShapes` says which sagas have such runs. An observer (`Saga.Watch`), a ghost field
of the executor, checks the order of transactions, locks, callbacks, sleeps and outbound calls.

**Locks.** `LockPort` is the canonical order, `MemoryLockPort` the readers-writer manager in process
over the specification in `LockTable` and `LockHistory`, `AdvisoryLocks` the physical keys, and
`DeadlockFreedom` any number of units against one manager. `CodePoints` is the text a database sees.

**Checkpoints.** `ObjectGraph` is a heap with cycles and the two searches over it; `Checkpoint` the
snapshot and its repeatable restore; `RestoreLimits` and `CheckpointLimits` say exactly when they
bring ctx back. The executor does not assume that they do: a restore there is an arbitrary
`env.restored`, and what needs a faithful one says so (`UnitHistory.Faithful`). `GraphViews` joins the
two: clone checkpoints are faithful to what can be seen of ctx exactly under the condition of
`RestoreLimits`.

**Beside the engine.** `QueueMachine` and `QueueChannel`, the TTL store and the inbound gate
(`InboundStore`, `InboundGate`, `InboundHistory`, `InboundKeys`), state machines with compare-and-set
(`StateMachine`, `Transition`), and fanout under its cycle guard (`Fanout`).

Where code and documentation disagree the model follows the code:

- `README.md:540-541` says a failed run frees its key. It does so exactly in the cases of
  `AtMostOnce.FailedRunKey`; `FailedRuns.FailureCanKeepTheKey` is a run that keeps it, and
  `FailureShapes.FailuresFreeKeyExactly` says which sagas never do.
- `src/saga/idempotency-ledger.ts:44-50` says the in-process ledger never keeps an applied entry whose
  writes never committed, nor a stuck pending key. `InProcessRuns.FailedInProcess` says exactly what a
  failed run leaves, and `FailedRuns` holds runs that leave either.
- `src/inbound/inbound.idempotency.ts:231-253` lets a request settle after its claim expired, and lets
  others come between a store call that throws and the `fail` after it, so recorded outcomes stay exactly
  under the conditions of `InboundHistory.CompletedStaysExactly` and `InboundHistory.OutcomesStayExactly`.
- `src/saga/retry-policy.ts:116-144` accepts ctx values that its restore does not bring back;
  `RestoreLimits.RestoresExactly` and `CheckpointLimits.ImmutableExactly` say exactly which.
- `src/saga/postgres/advisory-lock-port.ts:6-16` calls the hash input injective; it is on well-formed
  strings (`AdvisoryLocks.HashInputExactly`).

## Model

| member | source | states |
|---|---|---|
| `UnitOfWork.UnitOfWorkExecutor.Execute` | src/saga/unit-of-work.ts:95-120 | What a unit does, for every port, lock port, step and restore, is a history of attempts and calls: each call is the body run alone from where the one before was undone and ctx restored, each attempt but the last failed with a retried error, and the outcome is that of the last, classified. A first unit whose ctx cannot be checkpointed does not start. At most `attempts` runs of the port, all of them used when the last error is retryable; before each retry a sleep in the band that the policy gives this attempt; callbacks run for the committed call alone. |
| `UnitHistory.RetryIsTransparent` | src/saga/unit-of-work.ts:95-120 | However many attempts failed and calls were repeated, a unit that succeeds ends as its last call alone: its ctx, claim, replay, writes, ledger rows and callbacks, and one commit. That call starts from the claim and the entry the unit found, and from the ctx it found if ctx is restored faithfully or calls are not repeated. |
| `UnitAmong.AmongCommits` | src/saga/unit-of-work.ts:193-206 | The same among other runs: whatever others make of the ledger row between the attempts of a unit, and between the calls of one attempt, a unit that succeeds ends as its last call alone, made on the row that this call found. |
| `UnitAmong.AmongFails` | src/saga/unit-of-work.ts:208-243 | A unit that fails leaves nothing, whatever row its calls found. |
| `UnitHistory.UnitFails` | src/saga/unit-of-work.ts:208-243 | A unit that fails leaves claim, replay and commits as they were, and the entry too unless the ledger is in process. |
| `UnitOfWork.UnitOfWorkExecutor.AttemptLoop` | src/saga/unit-of-work.ts:98-120 | The loop behind it, with the checkpoint taken: nothing open, held or due between attempts, and ctx restored before each. |
| `UnitOfWork.UnitOfWorkExecutor.RunAttempt` | src/saga/unit-of-work.ts:171-218 | One attempt: a port that refuses leaves everything as it was; otherwise the last call alone can commit, and a failed attempt leaves ctx as that call left it and the entry as its undoing does. |
| `UnitOfWork.UnitOfWorkExecutor.Work` | src/saga/unit-of-work.ts:195-206 | What the port calls: a repeated call first undoes the claim flags, the callbacks, the in-process claim and the locks of the call before and restores ctx over what that call left; the body then runs as it does alone. |
| `UnitOfWork.UnitOfWorkExecutor.UndoCall` | src/saga/unit-of-work.ts:225-242 | Claim flags and replay are restored, callbacks dropped, and an in-process claim is freed if and only if this call took it. |
| `UnitOfWork.UnitOfWorkExecutor.RunBody` | src/saga/saga-runner.ts:281-294 | The body of every unit does claim, locks, steps, ledger row in that order and equals the call as a value, whatever fails on the way. |
| `UnitOfWork.UnitOfWorkExecutor.ClaimOnce` | src/saga/saga-runner.ts:353-368 | Claims a free key, reports a recorded reply as a replay, throws on an unfinished first run, and does nothing once claimed or without a key. |
| `UnitOfWork.UnitOfWorkExecutor.Acquire` | src/saga/unit-of-work.ts:244-257 | Takes the locks in the order of the list, all from one call, inside the open transaction; a failure keeps the prefix taken for release. |
| `UnitOfWork.UnitOfWorkExecutor.ReleaseAll` | src/saga/unit-of-work.ts:260-268 | Every lock of the attempt is freed exactly once, last acquired first, and none is held afterwards. |
| `UnitOfWork.UnitOfWorkExecutor.DrainAfterCommit` | src/saga/unit-of-work.ts:271-283 | The callbacks of the committed call run once each, in registration order, after the commit and with no lock held; one that throws stops none. |
| `UnitOfWork.UnitOfWorkExecutor.BackOff` | src/saga/unit-of-work.ts:110-117 | A sleep in the band of the failed attempt, with no transaction open, no lock held and no callback due. |
| `UnitHistory.FinalErrorKeepsKind` | src/saga/unit-of-work.ts:143-169 | The error thrown at the end classifies as the error that ended the loop: wrapping changes neither a database kind nor a logic failure. |
| `UnitHistory.RetriesExactly` | src/saga/unit-of-work.ts:98-160 | Which failures are retried, in every finished unit: each attempt but the last failed with a conflict of a kind in `on`, thrown by the engine or known to the classifier, never with a claim in progress, an illegal transition, an unknown outcome or misuse; a unit that fails although ctx can be checkpointed has used up its attempts, or its last error is no such conflict. |
| `UnitHistory.FailureIsNamed` | src/saga/unit-of-work.ts:143-169 | A failed unit throws the error of its last attempt, as a conflict of the kind the classifier gives it, if it gives one, and unchanged otherwise. |
| `UnitHistory.RefusedLocksRunNothing` | src/saga/saga-runner.ts:281-288 | A call whose locks are not granted runs no step and writes nothing; what it throws is the error of the lock port. |
| `CheckpointRule.LaterUnitsRunOnce` | src/saga/unit-of-work.ts:122-141 | Over any run with a policy: once something was committed or called, a unit that begins on a ctx that cannot be checkpointed is exactly one run of the port, and commits if the port neither refuses nor rejects it and its last call does not throw. |
| `CheckpointRule.FirstUnitIsRefused` | src/saga/saga-runner.ts:241-258 | Before that, the unit of the first segment, or the first claim, on such a ctx is no run of the port at all: nothing happens and the run ends as misuse. |
| `FailedCalls.CallsAreCompensated` | src/saga/saga-runner.ts:313-330 | Over any run: a failed outbound call ends the run only if there is neither a compensation nor a key; otherwise its unit follows. |
| `FailedCalls.CompensationEndsRun` | src/saga/saga-runner.ts:321-338 | That unit is always made and ends the run: if it commits, with all writes of the compensation, the key freed in the same commit and the error of the call; else with its own error and nothing committed. |
| `UnitHistory.StepsKeepClaim` | src/saga/saga-runner.ts:284-288 | Steps never touch the claim, the replay, the ledger entry or the locks. |
| `UnitHistory.CallKeepsEntry` | src/saga/saga-test-kit.ts:39-56 | No call of a body changes a ledger entry in the database before the commit. |
| `Segments.GroupsPartition` | src/saga/segments.ts:20-35 | The grouping is an order-preserving partition: its concatenation is the list of steps, outbound steps stand alone, and no two transaction groups are adjacent. |
| `Segments.GroupsUnique` | src/saga/segments.ts:20-35 | It is the only such partition: any maximal grouping is the grouping of its own steps. |
| `Segments.SegmentsOf` | src/saga/segments.ts:20-35 | The loop computes the segments of that partition, with the locks of the steps of each group in order. |
| `Segments.SegmentExactly` | src/saga/segments.ts:19-35 | A transaction segment runs the steps of its group in order and declares exactly the locks that they declare. |
| `Segments.ResolveLocks` | src/saga/segments.ts:69-92 | Either misuse (a declaration without keys that is not optional, an empty key, more locks than the limit after merging) or the canonical list of all requests. |
| `Segments.ResolvedExactly` | src/saga/segments.ts:39-92 | The same by the declarations alone: each key of each declaration is locked once, exclusively if and only if some declaration of it is exclusive, with the least timeout declared for it; no other lock is taken; misuse if and only if some declaration has no key without being optional, or an empty one, or there are more locks than the limit. |
| `UnitEffects.TransactionRows` | src/saga/saga-runner.ts:281-294 | The ledger rows of one committed unit: a claim if the run had none, the reply if it is the last; a unit that found a reply did nothing else. |
| `UnitEffects.StepsAreWhole` | src/saga/saga-runner.ts:284-288 | A call that got through its steps ran all of them, each on the ctx the one before left, and staged exactly their writes and callbacks in order. |
| `SagaSafety.StepKeepsStage` | src/saga/saga-runner.ts:210-240 | Every step of a run, with the ledger entry changed at will by others in between, keeps the invariant of a run: the units committed are those of the segments passed, the key is held from the first unit on, the reply is recorded by the last. |
| `SagaSafety.RunIsAtomic` | src/saga/saga-runner.ts:210-240 | Whole-run atomicity for every failure of steps, commits and ports, every ledger mode and whatever other runs do: the commits are the units of a prefix of the segments, each whole, in order and once, then at most the compensation of the outbound that failed or the record of the reply; a replayed run wrote nothing. `StraightRun.RunIsStraight` adds on which ctx each ran. |
| `SagaSafety.RepliedMeansAll` | src/saga/saga-runner.ts:228-239 | A run that replied committed every transaction segment and, with a ledger in the database, recorded that reply. |
| `SagaSafety.RecordedWithLastSegment` | src/saga/saga-runner.ts:289-293 | A keyed saga that ends in a transaction segment has its reply recorded if and only if the writes of that segment are committed. |
| `StraightRun.RunIsStraight` | src/saga/saga-runner.ts:210-350 | A run that begins each of its units on a ctx that is restored faithfully, or whose calls are not repeated, amounts to its segments one after the other, each once on the ctx the one before left, whatever attempts failed and calls were repeated: what is committed is what they wrote, the compensation ran on the ctx of the failed call, and the reply is made of the ctx the last segment left. |
| `SagaLocks.CompensationInherits` | src/saga/saga-runner.ts:316-338 | The unit of a compensation that inherits locks takes exactly the list that the unit of the last transaction segment before the call took in this run, or none if there is no such segment; every other compensation takes none. |
| `SagaLocks.EveryUnitIsOrdered` | src/saga/saga-runner.ts:224-228 | Every unit a run executes, compensations included, takes its locks strictly along the canonical order and no more than the limit. |
| `SagaLocks.RunsNeverDeadlock` | src/saga/lock-port.ts:55-68 | Whatever units of whatever runs meet at one lock manager, they never deadlock, and every schedule ends. |
| `SagaRunner.SagaRunner.Run` | src/saga/saga-runner.ts:113-240 | A run of the runner is a path of that machine, whatever other runs make of the ledger entry between its steps: misuse ends it before anything happens, its commits are atomic in the sense above, the callbacks that ran are those of the committed units, in order, the outbound calls are those of a prefix of the segments, each once, none while a unit is open; and alone with a ledger in process a failed run leaves the entry of `InProcessRuns.FailedInProcess`. |
| `SagaRunner.SagaRunner.AssertRunnable` | src/saga/saga-runner.ts:146-208 | The checks before anything starts: the policy, the declarations, the unit of work around the call, the classifier, the ledger. |
| `SagaRunner.RefusedExactly` | src/saga/saga-runner.ts:146-208 | What they refuse, case by case: a bad policy, locks without a lock port or wrongly declared, locks or retries nested in a unit of work in either direction, a policy for database errors without a classifier, and one with a key and a ledger in process. |
| `SagaRunner.SagaRunner.Walk` | src/saga/saga-runner.ts:210-240 | The loop over the segments ends in one outcome, stops at the first failure or replay, and replies only after the last segment. |
| `SagaRunner.SagaRunner.RunTransaction` | src/saga/saga-runner.ts:224-238 | A segment's locks are resolved before its unit starts; a failure or a replay ends the walk. |
| `SagaRunner.SagaRunner.RunOutbound` | src/saga/saga-runner.ts:296-319 | An outbound segment is called at most once, after the key is claimed, and a failure leads to its compensation. |
| `SagaRunner.SagaRunner.CallOut` | src/saga/saga-runner.ts:310-314 | The outbound call happens with no transaction open, no lock held and no callback due. |
| `SagaRunner.SagaRunner.Compensate` | src/saga/saga-runner.ts:321-338 | The compensation runs under the locks it inherits, frees a held key in the same unit, and the run ends with the call's error or its own. |
| `SagaRunner.SagaRunner.FinishAfterOutbound` | src/saga/saga-runner.ts:340-350 | A reply made after the last unit is recorded in a unit of its own before the run answers. |
| `AtMostOnce.StepKeepsInv` | src/saga/saga-runner.ts:353-379 | In any interleaving of the calls of any number of runs on one key, the row is what one run has made of it, or free. |
| `AtMostOnce.UnitsAreOrderly` | src/saga/saga-test-kit.ts:65-99 | Every step does to the row exactly what the unit it committed had staged, if it committed one, and that is what a ledger in the database expects: a claim only of a free key, a reply or a release only of a pending one. |
| `AtMostOnce.OneRunAtMost` | src/saga/saga-runner.ts:353-379 | At most one run holds the key or has recorded its reply, and the row is that run's. |
| `AtMostOnce.RecordedForEver` | src/saga/saga-test-kit.ts:69-99 | Once a reply is recorded the entry never changes. |
| `AtMostOnce.AnswersAgree` | src/saga/saga-runner.ts:228-239 | However the runs of a key are interleaved, all that answer give the same answer, the recorded one. |
| `AtMostOnce.LaterRunsDoNothing` | src/saga/saga-runner.ts:281-294 | A run that starts after the record executes no step: however its first unit is executed, every call of every attempt stops at the claim, and the run replays exactly the stored reply or fails, with no write committed. |
| `AtMostOnce.LateStartersDoNothing` | src/saga/saga-runner.ts:281-294 | Over every schedule: a run that has not started when the reply is recorded never gets further than that, whatever the other runs do. |
| `AtMostOnce.FailedRunKey` | src/saga/saga-runner.ts:296-338 | Exactly when a failed run has given back its key: if and only if it committed nothing or its compensation was the last thing it committed; otherwise the entry is pending. |
| `AtMostOnce.HeldKeyStays` | src/saga/saga-runner.ts:353-368 | A key that a finished run still holds stays pending for the rest of every schedule, whatever the other runs do. |
| `FailedRuns.FailureCanKeepTheKey` | README.md:540-541 | The README says a failed run frees the key. A saga whose second transaction fails after a successful outbound call leaves it pending. |
| `FailureShapes.FailuresFreeKeyExactly` | README.md:540-541 | Which sagas keep that promise: for fixed steps, calls and reply, of which the first unit can commit, every run that fails from a free key leaves it free, in every world and with either ledger, if and only if the saga has no outbound step. |
| `FailureShapes.ShapeDecides` | src/saga/saga-runner.ts:210-240 | By the shape of the segments alone: all sagas of a shape free their keys whenever they fail if and only if the shape is a single transaction segment or none. |
| `FailureShapes.OthersKeepKey` | src/saga/saga-runner.ts:296-338 | Whatever its steps, calls and reply do, any other saga whose first unit can commit has a run that fails and leaves the key pending: the database refuses the next unit. |
| `FailureShapes.OneUnitHoldsNothing` | src/saga/saga-runner.ts:271-294 | A failed run of one transaction segment holds no key however it is interleaved with others. |
| `InProcessRuns.FailedInProcess` | src/saga/unit-of-work.ts:225-242 | The entry after a run, alone on its key with a ledger in process, failed: a reply is recorded if and only if an earlier unit had claimed the key and some call of the unit that records the reply got to its end, be it rolled back or not; the key is free if and only if nothing was committed or some call of the compensation got to its end; else it is pending. |
| `FailedRuns.RejectedCommitKeepsReply` | src/saga/idempotency-ledger.ts:44-50 | The ledger's comment excludes an applied entry whose writes never committed. A whole run that leaves one: the COMMIT of the last unit is rejected. |
| `FailedRuns.RepeatedCallKeepsReply` | src/saga/unit-of-work.ts:195-206 | Another: the port repeats the last unit after a call that got to its end, and the second call throws. |
| `FailedRuns.RefusedUnitKeepsKey` | src/saga/idempotency-ledger.ts:44-50 | The comment also excludes a stuck pending key. A run whose last unit is refused by the port leaves one, with either ledger. |
| `FailedRuns.RejectedCompensationFreesKey` | src/saga/saga-runner.ts:321-338 | A run whose compensation is rejected at its COMMIT has freed the key of the ledger in process all the same. |
| `Ledgers.RowsAreOps` | src/saga/saga-test-kit.ts:65-99 | Rows staged by a unit and committed with its writes change the entry as claim, record and release do. |
| `Ledgers.TxLedger.Claim` | src/saga/saga-test-kit.ts:69-89 | Reads new, in progress or replay off the committed rows; clearing the rows of a released key changes no entry. |
| `Ledgers.TxLedger.Commit` | src/saga/saga-test-kit.ts:39-56 | A commit makes staged writes and rows visible together and moves every key's entry by the operations of its unit. |
| `Ledgers.MemoryIdempotencyLedger.Claim` | src/saga/idempotency-ledger.ts:60-71 | Takes a free key at once, whatever becomes of the transaction, and leaves other keys alone. |
| `LockPort.IdLessExactly` | src/saga/lock-port.ts:39-47 | The order of locks is by namespace, then by key, each compared code unit by code unit. |
| `LockPort.IdLessIsTotalOrder` | src/saga/lock-port.ts:40-68 | Comparing namespaces, then keys, by code units is a strict total order on lock identities. |
| `LockPort.CanonicalLocks` | src/saga/lock-port.ts:55-68 | The map-and-sort loop gives the canonical list: strictly ascending by (namespace, key), one merged lock for each identity requested and no other. |
| `LockPort.MergedJoins` | src/saga/lock-port.ts:46-53 | The merge of the requests for an identity is their join: exclusive if and only if some request was, with the least timeout any of them defines. |
| `LockPort.CanonicalMeaning` | src/saga/lock-port.ts:55-68 | Every request has a lock, every lock has a request, and each lock is the join of the requests for it. |
| `LockPort.CanonicalDependsOnlyOnSet` | src/saga/lock-port.ts:55-68 | Reordering or repeating the requests changes nothing. |
| `LockPort.CanonicalIsIdempotent` | src/saga/lock-port.ts:55-68 | Canonicalizing a canonical list changes nothing. |
| `MemoryLockPort.MemoryLockPort.LockOne` | src/testing/memory-lock-port.ts:48-80 | A request is granted at once if and only if nobody waits and, for a writer, nobody holds the lock, or, for a reader, no writer does; else it queues last. The entry invariant holds afterwards. |
| `MemoryLockPort.MemoryLockPort.Release` | src/testing/memory-lock-port.ts:87-97 | The first call of a release frees one hold of its mode and grants from the head of the queue; later calls do nothing; an entry exists exactly while it has holders or waiters. |
| `MemoryLockPort.MemoryLockPort.TimeOut` | src/testing/memory-lock-port.ts:66-76 | A waiter that times out leaves the queue, others may be granted, and no one else loses a place. |
| `MemoryLockPort.MemoryLockPort.Pump` | src/testing/memory-lock-port.ts:99-107 | Grants from the head of the queue as long as the holders allow it, and stops at the first that must wait. |
| `MemoryLockPort.SpliceIsOwnRelease` | src/testing/memory-lock-port.ts:87-97 | Removing the first holder of a mode from the mode list equals removing the releasing holder itself. |
| `LockTable.RequestOk` | src/testing/memory-lock-port.ts:48-80 | A request keeps an entry legal: holders all shared or one exclusive, and a head of the queue that the holders do not allow. |
| `LockTable.ReleaseOk` | src/testing/memory-lock-port.ts:87-97 | So does a release. |
| `LockTable.TimeOutOk` | src/testing/memory-lock-port.ts:66-76 | So does a timeout. |
| `LockHistory.LegalKeepsOrder` | src/testing/memory-lock-port.ts:48-107 | After any requests, releases and timeouts on a lock: granted followed by waiting is the order of arrival without those who timed out, and whoever was granted holds the lock or has left it. |
| `LockTable.PumpExactly` | src/testing/memory-lock-port.ts:101-109 | A pump lets in nobody if the head must wait, else the writer at the head alone, or all readers up to the first writer together. |
| `LockTable.LeavingLetsIn` | src/testing/memory-lock-port.ts:87-97 | So do a release and a timeout, once the holder or the waiter has gone. |
| `LockHistory.NobodyWaitsInVain` | src/testing/memory-lock-port.ts:82-109 | After every history the head of the queue is a writer behind some holder, or a reader behind a writer: readers share, and none waits for another. |
| `LockHistory.NoOvertaking` | src/testing/memory-lock-port.ts:48-107 | If a later request was granted, an earlier one that did not time out was granted before it; readers never overtake a waiting writer. |
| `DeadlockFreedom.StepKeepsInv` | src/saga/unit-of-work.ts:244-268 | Every step of any number of units against the lock manager keeps what units and locks say of each other consistent. |
| `DeadlockFreedom.NoDeadlock` | src/saga/lock-port.ts:55-68 | In every such state with an unfinished unit some unit can step without waiting: the one holding the largest lock waited for does not wait. |
| `DeadlockFreedom.SchedulesEnd` | src/saga/unit-of-work.ts:98-120 | Every schedule has a bounded number of steps, retries included. |
| `DeadlockFreedom.AllCanFinish` | src/saga/lock-port.ts:55-68 | From every such state a schedule finishes all units. |
| `DeadlockFreedom.MutualExclusion` | src/testing/memory-lock-port.ts:82-85 | While a unit holds a lock exclusively no other holds it at all. |
| `DeadlockFreedom.CanonicalListsNeverDeadlock` | src/saga/lock-port.ts:55-68 | Units that take canonical lists never deadlock, after any schedule from the start. |
| `DeadlockFreedom.OppositeOrdersDeadlock` | src/saga/lock-port.ts:23-29 | Without one order they can: two units with opposite lists reach a state where each waits for the other. |
| `AdvisoryLocks.HashInputExactly` | src/saga/postgres/advisory-lock-port.ts:33-35 | Two identities have the same hash input if and only if the database sees the same two texts: the number of characters in front keeps namespace and key apart. |
| `AdvisoryLocks.HashInputIsInjective` | src/saga/postgres/advisory-lock-port.ts:6-16 | So the input is injective on identities of well-formed strings; only strings with half a surrogate pair can collide, because they are sent as the replacement character. |
| `AdvisoryLocks.Canonicalize` | src/saga/postgres/advisory-lock-port.ts:104-116 | Strictly ascending by the signed int8 key, one lock for each key asked for, each exactly the join of the requests that hash to it. |
| `AdvisoryLocks.PhysicalDependsOnlyOnSet` | src/saga/postgres/advisory-lock-port.ts:127-144 | Keys, modes and timeouts of the result do not depend on the order of the rows. |
| `AdvisoryLocks.PhysicalLocks` | src/saga/postgres/advisory-lock-port.ts:127-144 | Refuses a wrong number of rows, a bad ordinal, a key out of range or an unsafe isolation, and nothing else; otherwise the canonical physical list. |
| `AdvisoryLocks.EveryRequestIsCovered` | src/saga/postgres/advisory-lock-port.ts:127-144 | For any hash and any order of the rows, each request is covered by a lock at least as strong, with a timeout no longer than its own. |
| `AdvisoryLocks.PhysicalListsNeverDeadlock` | src/saga/postgres/advisory-lock-port.ts:104-116 | The deadlock argument carries over to physical keys, collisions included. |
| `AdvisoryLocks.HashInputReads` | src/saga/postgres/advisory-lock-port.ts:33-35 | The input for namespace `ab` and key `c` is `2:abc`. |
| `AdvisoryLocks.EachUnderItsTimeout` | src/saga/postgres/advisory-lock-port.ts:172-193 | The setting a lock statement runs under is the session's if its request asks for no timeout, else that timeout in milliseconds. |
| `AdvisoryLocks.DefaultsFillIn` | src/saga/postgres/advisory-lock-port.ts:93-96 | The default timeout is for requests without one of their own, and changes nothing else. |
| `AdvisoryLocks.Session.LockAll` | src/saga/postgres/advisory-lock-port.ts:172-193 | Each lock statement runs under the timeout its request asks for, or the original one; after a successful loop the session timeout is the original; a failing statement leaves a prefix taken. |
| `AdvisoryLocks.Session.Acquire` | src/saga/postgres/advisory-lock-port.ts:195-215 | The whole call: defaults applied, timeouts checked, list resolved, and misuse touches neither locks nor setting. |
| `RetryPolicy.BackoffGrowsToCap` | src/saga/retry-policy.ts:31-39 | For every valid policy the delay before jitter never decreases with the attempt and never exceeds the cap or 2147483647. |
| `RetryPolicy.BackoffDoubles` | src/saga/retry-policy.ts:36-40 | The first delay is the base, each next one twice the one before until it meets the cap: the configured one, or 32 times the base, within what a timer holds. |
| `RetryPolicy.JitterReaches` | src/saga/retry-policy.ts:41-48 | Every delay of the band can come, and the band is the full one when no jitter is set. |
| `RetryPolicy.SleepIsBounded` | src/saga/retry-policy.ts:31-48 | The sleep of a whole unit is at most its retries times the cap, and exactly the sum of the delays without jitter. |
| `RetryPolicy.ValidateRetryPolicy` | src/saga/saga-definition.ts:19-68 | Accepts exactly the policies with distinct kinds, 1 to 20 attempts, and a base and a cap in order that a timer can hold. |
| `RetryPolicy.JitterBand` | src/saga/retry-policy.ts:40-48 | A jittered delay stays in [0, d], or in [floor(d/2), d] for equal jitter; without jitter it is d. |
| `RetryPolicy.ProductsAreExact` | src/saga/retry-policy.ts:36-40 | Every product of a valid policy stays below 2^53, where the arithmetic of the program is exact. |
| `ObjectGraph.Search.Visit` | src/saga/retry-policy.ts:117-133 | The depth-first search over a possibly cyclic graph terminates and settles what it accepts, or ends at a path to what breaks the rule. |
| `ObjectGraph.AssertPlainGraph` | src/saga/retry-policy.ts:140-145 | Accepts if and only if the root hides no property and every value reachable from it through objects, arrays, Maps and Sets is allowed. |
| `ObjectGraph.CleanExactly` | src/saga/retry-policy.ts:88-133 | What the two searches look for, said of each object found: no function or symbol in it, no other class, no hidden property unless it is built in; or frozen, and neither a built-in container nor a view. |
| `ObjectGraph.AllImmutable` | src/saga/retry-policy.ts:167-177 | Finds nothing under a frozen root if and only if every other reachable object is frozen and neither a built-in container nor a view. |
| `CheckpointLimits.ImmutableExactly` | src/saga/retry-policy.ts:164-177 | For a frozen ctx, no change that respects what is frozen or closed to new keys can be seen from it if and only if the search finds nothing and ctx is not itself a Map, a Set, a Date or the like; the code does not look at the second condition. |
| `CheckpointLimits.FrozenMapCanChange` | src/saga/retry-policy.ts:164-177 | A frozen Map as ctx is accepted, not restored, and can change. |
| `Checkpoint.TakeCheckpoint` | src/saga/retry-policy.ts:164-187 | Refuses exactly the graphs the searches reject; a frozen ctx is not restored; otherwise there is a checkpoint whose snapshot is a copy of the graph as it was. |
| `Checkpoint.CloneCheckpoint.Restore` | src/saga/retry-policy.ts:179-187 | Whatever steps did since, the own fields of ctx are those it had and what they lead to is a copy of what they led to, object for object, all of them new; nothing else on the heap changes and the restore can be repeated. If a step froze ctx, it stays as the step left it, and the restore fails unless it has nothing to assign; if ctx takes no new keys, the restore fails if and only if a step deleted one that it had. |
| `Checkpoint.CopyCompose` | src/saga/retry-policy.ts:180-182 | A clone of a clone is a clone, with one composed renaming of objects. |
| `Checkpoint.RestoredShowsTheSame` | src/saga/retry-policy.ts:179-187 | After a restore every path from ctx shows what it showed at the checkpoint, a class instance as a plain object. |
| `RestoreLimits.RestoresExactly` | src/saga/retry-policy.ts:117-187 | Whatever steps did, a restore brings an accepted ctx back, as a graph with its sharing and frozenness, if and only if ctx is a plain object or a class instance that takes new keys or has none, nothing it leads to refers back to it, and nothing below it is frozen, closed to new keys or has something a clone does not carry. |
| `GraphViews.SameGraphExactly` | src/saga/retry-policy.ts:179-187 | Two graphs are isomorphic if and only if no route of keys, and no comparison of two routes for identity, tells them apart. |
| `GraphViews.FaithfulExactly` | src/saga/unit-of-work.ts:122-141 | So clone checkpoints of an accepted ctx are faithful, in the sense on which straight runs and transparent retries depend, if and only if that condition holds. |
| `RestoreLimits.SelfReferenceIsLost` | src/saga/retry-policy.ts:140-145 | Accepted and not brought back: a ctx that refers to itself refers to another object after a restore, which does not see a write of ctx. |
| `RestoreLimits.NestedFrozenThaws` | src/saga/retry-policy.ts:117-133 | Accepted and not brought back: a frozen object below ctx is no longer frozen. |
| `RestoreLimits.ArrayKeepsLength` | src/saga/retry-policy.ts:183-186 | Accepted and not brought back: an array as ctx keeps the length a step gave it. |
| `Checkpoint.CloneCheckpoint.Write` | src/saga/retry-policy.ts:179-187 | A step that writes what it can reach leaves the snapshot intact. |
| `Checkpoint.CloneCheckpoint.StructuredClone` | src/saga/retry-policy.ts:180-181 | A clone is new, closed, refers to nothing else, and nothing else refers to it. |
| `Checkpoint.SealedIsNeverFound` | src/saga/retry-policy.ts:180-181 | No path from outside a sealed region leads into it, so no step ever comes by an object of the snapshot. |
| `Checkpoint.CloneShowsTheSame` | src/saga/retry-policy.ts:180-181 | Along every path a clone shows what the original shows. |
| `QueueMachine.EveryRunIsFifo` | src/channels/queue.channel.ts:45-119 | In every interleaving: accepted messages are the started ones followed by the buffer, so each starts once and in send order; the buffer stays within capacity; an open queue with messages and consumers has a pump scheduled or running. |
| `QueueMachine.EveryMessageIsStarted` | src/channels/queue.channel.ts:83-95 | Left to itself an open queue with consumers stops after a bounded number of steps, and only when every accepted message has been handed out. |
| `QueueMachine.CloseDrains` | src/channels/queue.channel.ts:65-72 | While there are consumers, when no `close` is at work any more every accepted message has been handed out, whatever else happened. |
| `QueueMachine.CloseEnds` | src/channels/queue.channel.ts:65-72 | After a `close`, whatever state the queue was in, all `close` calls end within a bounded number of the queue's own steps; it then holds exactly the messages that nobody was there to take and has handed out the others. |
| `QueueMachine.LeftBehind` | src/channels/queue.channel.ts:65-95 | What a closed queue still holds then is never handed out on any run, whoever subscribes, until it is closed again. |
| `QueueMachine.UnsubscribedGetsNothing` | src/channels/queue.channel.ts:46-53 | Over every run: a consumer that unsubscribed is handed no later message. |
| `QueueMachine.EachOnceARound` | src/channels/queue.channel.ts:113-118 | Of any n consecutive starts among n consumers that stay the same no two go to the same one, until the cursor wraps. |
| `QueueMachine.TurnAtWrap` | src/channels/queue.channel.ts:116 | At the wrap of the cursor the turn is kept if and only if the number of consumers divides 2^53 - 1. |
| `QueueChannel.QueueChannel.Send` | src/channels/queue.channel.ts:55-63 | Accepts if and only if the channel is open and holds fewer messages than its capacity, and wakes the pump; else it refuses and changes nothing: never a silent drop. |
| `QueueChannel.QueueChannel.ProcessNext` | src/channels/queue.channel.ts:97-111 | The oldest message goes to the consumer whose turn it is; without a consumer it is put back in its place. |
| `QueueChannel.QueueChannel.Tick` | src/channels/queue.channel.ts:74-95 | The scheduled pump runs unless one is running, and takes the step of the machine. |
| `QueueChannel.QueueChannel.Close` | src/channels/queue.channel.ts:65-72 | Closes to new messages and starts draining; done at once exactly when there is nothing to do or nobody to do it. |
| `InboundStore.MemoryIdempotencyStore.Begin` | src/idempotency/memory-idempotency.store.ts:18-26 | Acquires if and only if the key has no unexpired entry, and then starts a new claim; no other key changes. |
| `InboundStore.MemoryIdempotencyStore.Read` | src/idempotency/memory-idempotency.store.ts:42-53 | Answers an unexpired entry and drops an expired one. |
| `InboundStore.MemoryIdempotencyStore.PurgeExpired` | src/idempotency/memory-idempotency.store.ts:59-68 | Drops every expired entry and no other, and counts them. |
| `InboundGate.InboundIdempotencyGate.Begin` | src/inbound/inbound.idempotency.ts:216-229 | A claim is skipped without a key, acquired when the key is free or expired, a repeat otherwise. |
| `InboundGate.InboundIdempotencyGate.Succeed` | src/inbound/inbound.idempotency.ts:231-240 | A failing `complete` is rethrown and leaves the key blocked, whether or not it reached the store. |
| `InboundGate.InboundIdempotencyGate.Failed` | src/inbound/inbound.idempotency.ts:243-253 | With a store that works the key becomes free, holds the serialized failure, or is marked failed, by mark, static value or classifier; whatever fails on the way degrades to keeping the key. |
| `InboundGate.FailureLeaves` | src/inbound/inbound.failure.ts:142-157 | Which of the three, by the policy and the error alone: freed if the store can release and release is wanted, by a mark unless the policy keeps all, else by a static value if somebody answered, else by the classifier; a stored failure likewise; marked failed in every other case. |
| `InboundGate.UnansweredIsKept` | src/inbound/inbound.failure.ts:151-154 | An unmarked reply timeout or missing subscriber is kept under every policy but a classifier, and everything is under `KeepAll`: marked failed, with its claim as long as before. |
| `InboundGate.OnlyReleaseFrees` | src/inbound/inbound.idempotency.ts:231-274 | A settlement frees a key if and only if it is a release that reached the store; it never changes when the key expires. |
| `InboundGate.ShapesNeverConfuse` | src/inbound/inbound.idempotency.ts:172-184 | A reply, an accepted id and a stored failure are never taken for one another, whatever they carry: replay answers what was recorded. |
| `InboundGate.SerializedShapesNeverConfuse` | src/inbound/inbound.failure.ts:117-128 | Nor when the store serializes records and drops what is undefined. |
| `InboundHistory.RedispatchExactly` | src/inbound/inbound.failure.ts:142-157 | Some run dispatches a key twice within the ttl of a claim if and only if the endpoint did not choose to keep all failures and its store can release. |
| `InboundHistory.AcquisitionsAreApart` | src/idempotency/memory-idempotency.store.ts:18-68 | Two acquisitions of a key with no release call between them are at least the first claim's ttl apart, over any timed sequence of requests, settlements, reads and purges. |
| `InboundHistory.FreeAtExpiry` | src/idempotency/memory-idempotency.store.ts:18-27 | And the key can be acquired again at the moment the claim expires, not before. |
| `InboundHistory.CompletedStaysExactly` | src/inbound/inbound.idempotency.ts:231-253 | After any run from the start, a recorded outcome stays until its claim expires, however the run goes on, if and only if no request that acquired the key has still to settle. |
| `InboundHistory.InFlightIsAnswered` | src/inbound/inbound.idempotency.ts:186-201 | While its owner is at work within its claim, every repeat is refused as in flight or answered as a duplicate in flight, as the endpoint wants it. |
| `InboundHistory.FailureIsReported` | src/inbound/inbound.idempotency.ts:186-192 | After a request failed and was kept, every repeat within its claim is answered as a duplicate of a failed one. |
| `InboundHistory.OwnersAreOpen` | src/inbound/inbound.idempotency.ts:216-253 | The owners of a run's end are the requests that acquired the key in it and have not settled. |
| `InboundHistory.OutcomesStayExactly` | src/inbound/inbound.idempotency.ts:216-253 | Recorded outcomes stay on every run, with other requests between a failed store call and the `fail` after it, if and only if requests are given less time to settle than their claims last and no store call throws after it did its work. |
| `InboundHistory.LateSuccess` | src/inbound/inbound.idempotency.ts:231-240 | A run from the start in which a request outlives its claim and its late answer replaces the outcome another has recorded. |
| `InboundHistory.LateRelease` | src/inbound/inbound.idempotency.ts:243-253 | The same with a late release: a completed key is freed, and dispatched again before its claim expires. |
| `InboundHistory.TornRelease` | src/inbound/inbound.idempotency.ts:243-274 | A run in which a release frees the key and throws: before the `fail` after it another request is dispatched and answers, and that outcome is then marked failed. |
| `InboundHistory.ReplayReturnsTheOutcome` | src/inbound/inbound.idempotency.ts:172-201 | When requests settle before their own claims expire, or never, and no store call throws after it did its work, every repeat until the expiry is refused a dispatch and answered with the first outcome, success or stored failure. |
| `InboundKeys.TwoPassesAreOne` | src/inbound/inbound.idempotency.ts:78-83 | The two replacements escape each character once. |
| `InboundKeys.EncodeInboundKey` | src/inbound/inbound.idempotency.ts:93-98 | Refuses exactly empty keys and malformed parts; else a string as it is, or the escaped parts joined. |
| `InboundKeys.DecodeEncode` | src/inbound/inbound.idempotency.ts:93-98 | Splitting at colons and unescaping reads back the parts of every array key. |
| `InboundKeys.ArraysCollideExactly` | src/inbound/inbound.idempotency.ts:86-98 | Two array keys are one storage key if and only if their parts read the same; arrays of strings only when they are equal. |
| `InboundKeys.KnownCollisions` | src/inbound/inbound.idempotency.ts:78-98 | The number 7 and the string "7" are one part, and a plain string can spell an array key. |
| `InboundKeys.StorageKeyExactly` | src/idempotency/idempotency-store.ts:20-22 | `scope::key` separates a scope from every shorter one if and only if the scope has no two colons in a row and none at its end. |
| `InboundKeys.StorageKeyIsInjective` | src/idempotency/idempotency-store.ts:20-22 | Among such scopes the storage key identifies the pair. |
| `StateMachine.ReadTargets` | src/saga/state-machine.ts:44-65 | Accepts exactly the declarations with at least one state, lists of declared states only, and no target twice; else it blames the first state that breaks this, for what it breaks. |
| `StateMachine.Invert` | src/saga/state-machine.ts:67-73 | The loop computes the exact inverse of the targets, without duplicates. |
| `StateMachine.DefineStateMachine` | src/saga/state-machine.ts:81-102 | A definable declaration gives a machine whose sources and targets are exact inverses over its states. |
| `StateMachine.SourcesInvertTargets` | src/saga/state-machine.ts:90-99 | `sourcesOf`, `targetsOf`, `canTransition` and `isTerminal` agree with one another in both directions. |
| `Transition.SourcesFor` | src/saga/transition.ts:95-110 | Legal if and only if some state is named and the machine allows the move from each; the default is every source. |
| `Transition.Transit` | src/saga/transition.ts:118-140 | Misuse never reaches the port; a lost race is never a silent success; a stale result leaves the row unchanged; a count other than exactly 0 or 1 is reported as unknown. |
| `Transition.MemoryTransitionPort.CompareAndSet` | src/testing/memory-transition-port.ts:32-49 | Moves the row and adds one to its version if and only if state and version match; a forced reply changes no row. |
| `Transition.HistoryIsPath` | src/saga/transition.ts:118-140 | Under any interleaving of transitions the states of a row are a path of the machine, and its version is its start plus the number of successes. |
| `Transition.TerminalStays` | src/saga/state-machine.ts:98 | A terminal state is never left. |
| `Transition.OneWinnerPerVersion` | src/testing/memory-transition-port.ts:40-48 | Of all the transitions that expect one version at most one succeeds. |
| `Fanout.AssertNoFanoutCycle` | src/channel.ts:74-92 | Refuses exactly hop 51 and a third crossing. |
| `Fanout.SendIsTried` | src/channels/fanout.channel.ts:64-81 | Sending terminates on every graph of bindings and tries the hop at the end of every walk the guard lets through, and no other. |
| `Fanout.EntersExactly` | src/channel.ts:66-92 | From an empty history a message enters a channel along exactly the walks of at most 50 hops that cross no name a third time. |
| `Fanout.EntriesAreBounded` | src/channel.ts:66-92 | From an empty history no message enters a channel through a binding a third time or after more than 50 hops. |
| `Fanout.GuardIsExact` | src/channel.ts:66-92 | The guard trips if and only if a cycle can be reached or some walk has more than 50 hops: every reachable cycle is rejected, and a graph without either never trips it. |

## Left out

- AtMostOnce.OneRunAtMost: speaks of a ledger whose rows are in the database; the in-process ledger
  gives no such guarantee across a rollback (`InProcessRuns.FailedInProcess`).
- AtMostOnce.StepKeepsInv: one call of a unit, from its claim to its commit, is one atomic step on the
  ledger row, as in `FakeDb`; isolation levels of a real database are not modelled.
- UnitOfWork.UnitOfWorkExecutor.Execute: does not model the `attempt` number a step can read,
  `afterCommit` called after its unit settled, a callback that acts on the run, or a release of an
  in-process claim or lock, or a restore, that throws.
- SagaRunner.SagaRunner.Run: other runs change the ledger entry between its units; within a unit they do
  so in the machine only (`SagaRun.UnitStep`). Error messages, tracing and headers are not modelled, and
  all misuse is one error.
- InProcessRuns.FailedInProcess: speaks of a run without a retry policy, because the runner refuses one
  with a key and a ledger in process (`SagaRunner.Runnable`), and of a run alone on its key.
- Checkpoint.CloneCheckpoint.Restore: the order of keys, `#private` state, accessors and read-only
  properties of ctx itself, a key named `__proto__` and buffers that several views share are not modelled.
- RestoreLimits.RestoresExactly: steps are assumed not to freeze ctx, to close it to new keys or to give
  it hidden properties; a graph is compared by its contents, not by the order of keys, and no key is named
  `__proto__`.
- AdvisoryLocks.PhysicalLocks: rows are numbers already read from the driver; the texts a driver may
  return instead, the probe for an open transaction and the SQL are not modelled, and the hash is
  arbitrary.
- QueueMachine.EachOnceARound: stops at the wrap of the cursor after 2^53 - 1 picks; what happens there
  is `QueueMachine.TurnAtWrap`.
- QueueMachine.EveryMessageIsStarted: assumes handlers settle and error hooks do not throw.
- InboundKeys.ArraysCollideExactly: a finite number is the numeral it prints as, with neither a colon
  nor a percent sign in it; number formatting is not modelled.
- MemoryLockPort.MemoryLockPort.TimeOut: timers are steps that may come at any time while a request waits.
- Fanout.SendIsTried: local subscribers of a fanout and the order in which concurrent sends settle are
  not modelled; other channels are sinks.
- The HTTP, gRPC and message-broker adapters, the outbound gateway and its retry loop, the flow steps
  and the trace context: plumbing, or simpler twins of what is here.
- Module wiring, decorators, discovery, swagger, banners, hop logging, graph rendering: no state worth
  a proof.
- `compileGlob`, the direct and publish-subscribe channels, header mapping and option merging: per-branch
  behaviour only.
- Numbers are unbounded integers; `RetryPolicy.ProductsAreExact` shows the backoff needs no more.
