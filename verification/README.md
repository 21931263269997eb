# Durable workflow replay, verified

A Dafny model of the Dozer workflow engine, with proofs. A job's whole progress is one compact record; every
attempt restarts the user's program from the top and replays recorded steps through that record. The engine is
for one promise: any number of failed, parked, retried, signalled or killed runs, taken together, behave like one
uninterrupted run of the program. That promise is proved here, together with what it rests on.

## How the model is built

- **Records.** `JobRecord` is the compact record `s,c,u,a,t,r,e,ps` and what each store operation does to it.
  `StateStore` holds the store as a class that updates that record in place and persists it. `Keys` and
  `KeyEncoding` tie step keys as tree paths to step keys as text.
- **Programs.** `Program` has a datatype of deterministic workflow programs: return, call a step (outside work or
  nested workflow code) and go on depending on its result, or wait for a signal. Beside it stand two functions.
  `Exec` runs a program against the record, under an infinite schedule that says at every point whether user
  code throws, sleeps or the process dies, what outside work returns, and what the clock shows. `Evaluate` and
  `Preorder` know nothing of records: they give the value and the key list of one uninterrupted run, in which an
  oracle gives every outside step and wait its result. The oracle is only required to agree with the first recorded
  success of each step (`Extends`).
- **Objects.** `ExecutionContext`, `StepWrapper`, `Engine`, `Client`, `Queues` and `ObjectGraph` are the source's
  objects, with their fields and loops. Each method is proved to do what the functions say, so that every theorem
  about the functions is one about the methods. Logs that no code reads (first successes, bodies started, retries
  asked for, payloads offered) are ghost state. `JobViews` says how a job object, in memory and in the queue, is seen
  as a job of the lifecycle model.
- **Lives.** `Lifecycle` is the job as a transition system: attempts, runs without a registered workflow, signals,
  cancellations and changes of process, in any order and number. `Life(cfg, p, events)` is the job after such a
  history; theorems about it hold for all programs, all histories and all schedules.

The heart of the proof is `Replay.Ok`, a predicate recursive in the program that says what an agreeing record
looks like at every level of nesting, and `Replay.ExecOk`, which shows that every execution keeps it, wherever it is
cut short. `Invariants`, `StartedBodies` and `RetryBudget` draw from it what is needed; `Guarantees` lifts that to
lives, `RunLoop` to the engine's loop, and `Theorems` states the results. `Origins` says where the first results of
steps and waits come from, `Deadlines` how long waits wait, `RetryCounts` how often exactly a failing step is tried,
and `RunOutcomes` what the loop makes of each failure and how runs that fail end. `Progress` and `Continuation` add that unfinished jobs get done when nothing stands in
their way, and that each of them still can. `TraceShape`, `Compaction` and most of `Probe` need no agreement: they hold
for any client, or any record.

## What the proofs turned up

- A final result that the serializer refuses, on a workflow with a result queue and a workflow attempt left, is
  published as `undefined`: `markPublishingResult` sets the status before it serializes
  (src/runtime/workflow-state.store.ts:127-132), the error goes to the workflow-level retry, and the next turn
  of the loop finds a completing job and publishes the stored result, which is none.
  `Theorems.RefusedResultIsPublishedAsUndefined` is the shortest such life. Over all histories, what a completion
  returns and what is published is the workflow's value exactly if that can be stored, and `undefined` otherwise
  (`Theorems.EveryRunAgreesWithEvaluation`, `Theorems.OutboxIsHonest`).
- That early status is in memory only. A process that loads the job finds it running (`Theorems.EarlyStatusIsLost`);
  no other status, and nothing else of the record, can get lost that way (`Theorems.SavedStatus`).
- An expired wait is settled by two writes (src/runtime/workflow-execution-context.ts:154-155). If the process dies
  between them the signal stays pending: a late `sendSignal` then replaces the `null` that replays have read, and a
  later wait for the same name expires at once (`HalfExpiry.HalfExpiredResultIsReplaced`,
  `HalfExpiry.LaterWaitDoesNotWait`). Records without such a signal are safe (`HalfExpiry.StaleDeliveryOverwrites`).
- A completing job becomes failed in one way: its workflow is no longer registered when it is run again.
- Stored values come back as they went in exactly when no plain object in them holds a string under the envelope
  marker (`Serializer.RoundTrip`; `Serializer.ImitationIsMisread` is the smallest exception). Workflow values are of
  that kind in the rest of the model.
- Compaction changes no replay of any record that clients leave behind (`Compaction.CompactionChangesNoReplay`). On
  records of other origin it can: one that holds results at two names of one path makes a step run again
  (`Compaction.UnpinnedCompactionRepeatsWork`).
- Distinct workflow job ids can share a result id in one way only: a numeric id and the same number after `#`
  (`Queues.ResultIdsCollide`). Ids of the in-memory queue never do.
- A sleep or wait request inside a step with attempts left is a failed attempt of that step and does not park the job
  (src/decorators/step.decorator.ts:125-147); the model follows the code.

## Model

| member | source | states |
|---|---|---|
| `Theorems.EveryRunAgreesWithEvaluation` | src/engine/dozer-engine.ts:467-517 | after any history, an attempt that completes hands over the evaluator's value, each outside step at its first recorded success, or `undefined` in its place: the value itself exactly if the serializer accepts it; the whole preorder is traced then, and always a prefix of it; no attempt raises a replay conflict or nondeterminism error |
| `Theorems.CompletionsAgree` | src/engine/dozer-engine.ts:503-517 | any two completions in one history return the same value, storable or not |
| `Theorems.CacheInvariant` | src/runtime/workflow-state.store.ts:155-236 | in every reachable record value keys and undefined-keys are disjoint, nothing recorded lies under a recorded result, every recorded step is traced, and compaction is a no-op |
| `Theorems.RecordedResultsNeverChange` | src/runtime/workflow-state.store.ts:98-111 | a step or wait that holds a result stays covered by it or an ancestor's, and never holds another: each wait resolves once and later replays read that |
| `Theorems.RerunIsPureReplay` | src/engine/dozer-engine.ts:482-517 | running any completed job starts no body and changes no result, counter, trace or signal; without faults it is completed on disk with the same stored result exactly if the value can be stored |
| `Theorems.RetriesAreConserved` | src/decorators/step.decorator.ts:125-147 | for every weighting of retry requests, what was asked for plus what open steps can still ask for never exceeds the initial budget |
| `Theorems.RetryRequestsOfAStep` | src/decorators/step.decorator.ts:99-145 | over a job's whole life a step asks for fewer retries than it has attempts |
| `Theorems.RecordedFailuresOfAStep` | src/runtime/workflow-state.store.ts:238-249 | the failures on record for a step stay below its attempts at every moment |
| `RetryCounts.RetriesAreExact` | src/decorators/step.decorator.ts:125-147 | over any history, as long as an outside step has no result it has asked for exactly as many retries as failures are on record; in a history without non-retryable errors and deaths of the process both are the smaller of its starts and its attempts less one, so that every start but the last allowed is followed by a retry, and none after it |
| `RetryCounts.ExecTries` | src/decorators/step.decorator.ts:116-147 | an execution that leaves an outside step without a result started its body at most once; if it did, the answer was a failure, counted and retried exactly if it is not final and an attempt is left after it |
| `RetryCounts.FailingStepUsesAllAttempts` | src/engine/dozer-engine.ts:546-566 | a run whose first step always fails starts its body once per turn: the step's attempts less one are each followed by a retry, then the error leaves the step and uses up the workflow's attempts, and then the run is rejected and the job failed, on disk too |
| `Theorems.PendingSignal` | src/runtime/workflow-execution-context.ts:140-172 | at most one signal is awaited; its wait is the last traced step, is not covered by any result, and never had one |
| `Theorems.DeliveredOnce` | src/client/dozer-client.ts:134-152 | a delivered payload is the first and only result of its wait, every later replay reads it, and nothing is awaited under that key again |
| `Origins.FirstResultsAreEarned` | src/runtime/workflow-execution-context.ts:140-172 | every outside step and every wait that has a result got it by one event: a step by an attempt in which its work was read to return that value without a fault; a wait by the delivery of a signal awaited under its key, whose payload it is, or by an attempt before which it was pending with a deadline that the attempt's clock reached, and then it is `null` |
| `Origins.OutsideStepsRead` | src/decorators/step.decorator.ts:118-125 | the result of an outside step, at any moment of any history, is what its work returned in an attempt in which it neither threw nor slept nor died |
| `Origins.ExecEarns` | src/decorators/step.decorator.ts:116-125 | whatever an execution records first for an outside step it has read, without a fault; for a wait it is `null`, after the deadline it was pending with |
| `Deadlines.WaitsAreTimed` | src/runtime/workflow-execution-context.ts:163-171 | every pending wait, at any moment of any history, was started by an attempt, is one of the program's for that name, and its deadline is exactly its own timeout after what the clock said then; without a timeout it has none |
| `Deadlines.ExecTimes` | src/runtime/workflow-execution-context.ts:163-171 | whatever wait an execution starts has its own timeout, counted from a reading of that execution's clock, as its deadline |
| `Deadlines.NullNeedsItsTimeout` | src/runtime/workflow-execution-context.ts:151-158 | over any history, a wait has the payload of its signal, or `null`; `null` that was not delivered needs a timeout, an attempt that started the wait, and a later attempt whose clock was that far or further on |
| `Deadlines.EarlyRunAwaitsAgain` | src/engine/dozer-engine.ts:538-544 | a run whose clock never reaches the deadline of the pending wait resolves and records nothing; the wait keeps its deadline, and without faults the run parks for that signal again, to that deadline, however many steps around it are retried first |
| `Deadlines.ExecAwaitsAgain` | src/runtime/workflow-execution-context.ts:151-160 | an execution before the deadline does not return and leaves signals and results as they are; without faults it asks for that signal with the deadline on record, or for a retry of a step around the wait |
| `Theorems.OutboxIsHonest` | src/engine/dozer-engine.ts:310-329 | every payload handed over is what the workflow's value stands for, and that value exactly if it can be stored; completed implies published; the stored result is the value, or none; the whole preorder is traced |
| `Theorems.CompletingJobOnlyCompletes` | src/engine/dozer-engine.ts:482-486 | whatever happens to a completing job, no body starts; it becomes failed exactly when its workflow is not registered, and running exactly when another process loads it and its result had been refused; otherwise it is completing or completed |
| `Theorems.SavedStatus` | src/runtime/workflow-state.store.ts:119-132 | the status on disk is that in memory, except exactly while a refused result has set one that was never written; then a process that loads the job finds it running |
| `Theorems.EarlyStatusIsLost` | src/runtime/workflow-state.store.ts:119-132 | the shortest life in which a status is lost: a workflow that returns a function, and a change of process |
| `Theorems.PublishedPayload` | src/runtime/workflow-state.store.ts:127-132 | after any history, a fault-free attempt whose code returns publishes that value at once exactly if the serializer accepts it; otherwise the next turn completes the job with `undefined` published |
| `Theorems.CancelOnlyBeforeAnyCode` | src/client/dozer-client.ts:112-132 | cancelling changes a job exactly when it is pending; a pending or cancelled job has empty caches, trace, signals and outbox and started no body |
| `Theorems.CancelledForGood` | src/client/dozer-client.ts:112-132 | cancelling a pending job makes it cancelled, in memory and on disk, whatever its history; whatever happens afterwards it stays exactly as it is and no body is ever started |
| `Theorems.CancellationIsFinal` | src/engine/dozer-engine.ts:452-454 | no event changes a cancelled job |
| `Theorems.FirstIsLast` | src/runtime/workflow-state.store.ts:280-310 | what was once recorded for a step or wait is its only result, stays covered, and no signal is awaited under its key again |
| `Theorems.RefusedResultIsPublishedAsUndefined` | src/runtime/workflow-state.store.ts:127-132 | the shortest life in which `undefined` is published: a workflow that returns a function, and two fault-free turns |
| `Guarantees.NoRecordedBodyRunsAgain` | src/decorators/step.decorator.ts:93-97 | a body started after any moment belongs to a step that was not covered by a result, and had none recorded, at that moment |
| `Guarantees.LifeIsGood` | src/engine/dozer-engine.ts:447-582 | every reachable job agrees with evaluation; status, stored result and outbox are those of the workflow's value, storable or not; the status on disk is that in memory or was left behind by a refused result |
| `Guarantees.LifeAdvances` | src/runtime/workflow-state.store.ts:155-236 | first results, the trace, the log of started bodies and coverage of steps only grow over any history |
| `Guarantees.HappensBudget` | src/engine/dozer-engine.ts:546-565 | no event raises spent plus remaining retries |
| `Guarantees.AttemptMemory` | src/engine/dozer-engine.ts:482-517 | what an attempt does to caches, counters, trace and logs is what running the code does; storing, publishing, completing and failing do nothing to them |
| `Guarantees.DeliverGood` | src/runtime/workflow-state.store.ts:280-310 | a delivery keeps the job in agreement with evaluation, and its status and outbox truthful |
| `Guarantees.AfterDelivered` | src/runtime/workflow-state.store.ts:280-310 | what a delivery does to every single key: result and zero failures for the wait, nothing left inside it, all else unchanged |
| `Guarantees.FirstStaysCovered` | src/runtime/workflow-state.store.ts:233-235 | what was recorded once is covered by its own or an ancestor's result at all times |
| `Guarantees.NewJobIsSound` | src/client/dozer-client.ts:77-87 | a new job is sound for every workflow |
| `Guarantees.HappensSound` | src/engine/dozer-engine.ts:447-582 | no event, a change of process among them, makes a sound job unsound |
| `Guarantees.DeliverTouches` | src/runtime/workflow-state.store.ts:280-310 | a delivery changes no cell but those that end up with a result, and forgets no first success |
| `Lifecycle.AttemptGood` | src/engine/dozer-engine.ts:482-517 | one attempt keeps the job good, completes only with what the evaluator's value stands for, and throws no replay error |
| `Lifecycle.FinalizeGood` | src/engine/dozer-engine.ts:310-329 | finalizing keeps the job good wherever it is cut short |
| `Lifecycle.ConcludeGood` | src/engine/dozer-engine.ts:508-514 | storing and publishing a result keeps the job good wherever it is cut short |
| `Lifecycle.RefusedResultGood` | src/runtime/workflow-state.store.ts:119-132 | a refused result leaves the finished job with a status it has not saved and nothing stored |
| `Lifecycle.CompactionIsNoOp` | src/runtime/workflow-state.store.ts:189-210 | on a record that agrees with evaluation compaction removes nothing |
| `Lifecycle.RunReplays` | src/engine/dozer-engine.ts:503-508 | running finished code again moves nothing but the cursor; without faults it gives the evaluator's value with the trace consumed |
| `Lifecycle.ReloadedGood` | src/runtime/workflow-state.store.ts:88-96 | what another process loads is as good as what was in memory |
| `Replay.ExecOk` | src/runtime/workflow-execution-context.ts:67-101 | every execution, wherever it is cut short, keeps the record in agreement with evaluation, returns the evaluator's value if it returns, and raises no replay error |
| `Replay.PerformOk` | src/decorators/step.decorator.ts:93-150 | the same for one step or wait: entered, skipped, produced or refused |
| `Replay.SkipOk` | src/runtime/workflow-execution-context.ts:49-65 | skipping from a step that holds its result ends exactly after that step's block of the trace |
| `Replay.CloseOk` | src/runtime/workflow-state.store.ts:212-236 | saving the result of a step whose code has run to its end makes the step closed and keeps agreement |
| `Replay.CatchOk` | src/decorators/step.decorator.ts:125-147 | counting a failure and asking for a retry keeps agreement |
| `Replay.AwaitOk` | src/runtime/workflow-execution-context.ts:151-171 | starting, continuing and expiring a wait keep agreement |
| `Replay.OkFrame` | src/runtime/workflow-execution-context.ts:67-101 | agreement of a part of the tree depends only on what is recorded there and on the pending signals |
| `Invariants.TraceIsPrefix` | src/runtime/workflow-state.store.ts:312-332 | the trace of an agreeing record is a prefix of the preorder key list |
| `Invariants.FinishedReplays` | src/runtime/workflow-execution-context.ts:85-100 | replaying a finished program, as a run or as a probe, moves nothing but the cursor, and without faults returns the evaluator's value with the trace consumed |
| `Invariants.PendingIsLast` | src/runtime/workflow-state.store.ts:251-260 | a pending signal belongs to the last traced step, which holds no result |
| `Invariants.ResultIsDetermined` | src/runtime/workflow-state.store.ts:212-236 | two records that agree with the same evaluation hold the same result for a step |
| `Invariants.ResultsDoNotNest` | src/runtime/workflow-state.store.ts:233-235 | no result or failure count lies under a recorded result |
| `Invariants.RecordedIsTraced` | src/runtime/workflow-state.store.ts:212-249 | only traced steps hold results or failure counts |
| `Invariants.FirstIsCovered` | src/runtime/workflow-state.store.ts:233-235 | a step that ever succeeded is covered by its own or an ancestor's result |
| `StartedBodies.ExecStarts` | src/decorators/step.decorator.ts:93-118 | one execution starts the bodies of different steps, none of which was covered by a result |
| `StartedBodies.ExecKeepsCovered` | src/runtime/workflow-state.store.ts:155-187 | on any record, results are dropped only under an ancestor's result |
| `Frames.ExecFrame` | src/runtime/workflow-state.store.ts:155-187 | on any record, an execution in one frame changes no cell outside that frame's part of the tree, and only appends to trace and logs |
| `Frames.ExecTidy` | src/runtime/workflow-state.store.ts:212-249 | on any record, value keys and undefined-keys stay disjoint, counters positive, and status, result and error are left alone |
| `Frames.AfterRecorded` | src/runtime/workflow-state.store.ts:212-236 | what saving a result does to every single key: result and zero failures for the step, nothing left inside it, all else unchanged |
| `RetryBudget.ExecBudget` | src/decorators/step.decorator.ts:125-147 | an execution spends no more retry weight than the budget it uses up |
| `RetryBudget.BudgetOfStep` | src/decorators/step.decorator.ts:99-103 | the budget for requests of one step is below its attempts |
| `RetryBudget.LeftDelay` | src/decorators/step.decorator.ts:130-145 | the delays a step can still ask for are the total of its strategy less those already used |
| `RetryBudget.RaisedRequestIsLogged` | src/decorators/step.decorator.ts:138-144 | a retry request that leaves an execution is the last one it logged, even when an outer step re-caught an inner request |
| `RetryBudget.FailuresWithinAttempts` | src/runtime/workflow-state.store.ts:238-249 | a counted failure always leaves the step an attempt |
| `RunLoop.RunTerminates` | src/engine/dozer-engine.ts:467-582 | the loop ends for every program and schedule, after at most one turn more than the retries left to open steps and to the workflow |
| `RunLoop.TurnKeeps` | src/engine/dozer-engine.ts:518-566 | every `continue` leaves strictly fewer retries, and sleep slept plus sleep left does not grow |
| `RunLoop.TurnsAreBounded` | src/engine/dozer-engine.ts:546-565 | after any number of turns the job is good, and turns and total sleep are within what the policies of open steps and workflow allow |
| `RunLoop.TurnsAreEvents` | src/engine/dozer-engine.ts:467-582 | the first `n` turns of a run are at most `n` attempts in the life of the job |
| `RunOutcomes.TurnFollows` | src/engine/dozer-engine.ts:518-580 | what a turn makes of its attempt: an ordinary error leaves one more failed attempt and the policy's delay, or, without attempts left, a failed job; a non-retryable one fails the job; a sleep or wait request parks to its time; a retry request goes on with no attempt used up; an unpublished result rejects the run |
| `RunOutcomes.FailureFollows` | src/engine/dozer-engine.ts:533-579 | the same for the `catch` block, whatever was thrown and whatever job is left |
| `RunOutcomes.FailingCodeUsesAllAttempts` | src/engine/dozer-engine.ts:553-566 | a workflow whose code fails every time is run exactly as often as it has attempts, with all its policy's delays between; then the run is rejected and the job failed, with nothing recorded |
| `RunOutcomes.NonRetryableEndsTheRun` | src/engine/dozer-engine.ts:553-579 | a non-retryable error ends the run in its first turn, whatever attempts are left |
| `RunOutcomes.SleepParksTheRun` | src/engine/dozer-engine.ts:533-536 | a sleep request of workflow code parks the run in its first turn until exactly the time it names |
| `RunOutcomes.RunsParkOnRecord` | src/engine/dozer-engine.ts:538-544 | a run parked for a signal leaves it pending with exactly the deadline it is parked to; any other parked run has a time |
| `RunOutcomes.RunsEndAsTheyMust` | src/engine/dozer-engine.ts:467-582 | the last turn of a run is determined, and these are its number and its end for code that always fails, a non-retryable error, and a sleep request |
| `RunOutcomes.UnregisteredFails` | src/engine/dozer-engine.ts:568-579 | a run without a registered workflow fails any job that is not cancelled, and changes nothing else |
| `RunOutcomes.UnconsumedTraceThrows` | src/engine/dozer-engine.ts:508 | on any record, an attempt of any workflow that returns before the end of the trace throws a nondeterminism error and stores and publishes nothing |
| `RunOutcomes.DroppedStepsAreNoticed` | src/engine/dozer-engine.ts:508 | so a workflow changed to return at once throws on every record with a trace |
| `RunOutcomes.ConcludeConcludes` | src/engine/dozer-engine.ts:508-514 | what is stored, persisted, published and reported once code has returned, for every trace, fault and value |
| `RunOutcomes.FinalizePublishes` | src/engine/dozer-engine.ts:310-329 | the stored result, or `undefined`, is offered once and the job then completed with it; a fault before the first leaves both undone, one between them the second |
| `RetryPolicy.TotalDelayClosedForm` | src/runtime/retry-policy.ts:3-24 | total delay over all attempts is b(M-1), bM(M-1)/2 or b(2^(M-1)-1) |
| `RetryPolicy.StrategiesAreOrdered` | src/runtime/retry-policy.ts:15-23 | constant <= linear <= exponential at every attempt |
| `RetryPolicy.Resolve` | src/decorators/step.decorator.ts:99-113 | for each option the step's own wins, then the default's, then one attempt, no delay, constant; never less than one attempt |
| `TraceShape.TracesAreWellShaped` | src/runtime/workflow-execution-context.ts:67-130 | for any stack-disciplined client, over any number of runs and cache changes, the trace is only appended to, strictly ascends in preorder and is parent-closed |
| `TraceShape.SkipsExactlyTheSubtree` | src/runtime/workflow-execution-context.ts:49-65 | in an ascending trace skipping passes over all descendants of a step and nothing else |
| `TraceShape.ApplyKeeps` | src/runtime/workflow-execution-context.ts:67-130 | opening, closing, restarting and changing caches keep the shape of trace and stack |
| `TraceShape.BetweenIsInside` | src/runtime/workflow-execution-context.ts:49-65 | what comes in preorder between a step and its descendant is a descendant |
| `KeyEncoding.ToStepKeyIsInjective` | src/runtime/workflow-execution-context.ts:23-25 | two steps share a key only if path and name are the same, whatever characters the names hold |
| `KeyEncoding.StepKeyText` | src/runtime/workflow-execution-context.ts:23-25 | the text of a key: the decimal numbers of the path with dots between them, a colon, and the name |
| `KeyEncoding.ExtractStepPathRecoversPath` | src/runtime/workflow-state.store.ts:76-83 | cutting a key at its first colon gives its dotted path |
| `KeyEncoding.PrefixTestIsDescendantTest` | src/runtime/workflow-state.store.ts:155-161 | the text test for a path prefix holds exactly for proper descendants |
| `KeyEncoding.JoinIsInjective` | src/runtime/workflow-execution-context.ts:23-29 | a dotted path determines the numeric path |
| `KeyEncoding.DotsCountDepth` | src/runtime/workflow-state.store.ts:193-198 | the number of dotted parts compaction sorts by is the depth in the tree |
| `KeyEncoding.DescendantKeysAreFound` | src/runtime/workflow-state.store.ts:155-161 | on whole keys, the test for a path prefix finds exactly the proper descendants of a step |
| `Compaction.CompactionKeepsEveryRun` | src/runtime/workflow-state.store.ts:189-210 | on any record whose results are traced at distinct paths, every program under every schedule runs on the compacted record as on the record |
| `Compaction.ExecTwins` | src/runtime/workflow-state.store.ts:189-210 | records that differ only under cached ancestors stay so through an execution and give the same outcome, trace and logs |
| `Compaction.UnpinnedCompactionRepeatsWork` | src/runtime/workflow-state.store.ts:189-210 | on arbitrary records, which no client leaves behind, compaction can make a replay repeat work |
| `Compaction.UnpinnedExample` | src/runtime/workflow-state.store.ts:189-210 | there are such records and programs |
| `Compaction.CompactionChangesNoReplay` | src/runtime/workflow-state.store.ts:189-210 | whatever record stack-disciplined clients leave behind, deterministic or not, compacting it changes nothing any program does next under any schedule |
| `Compaction.ClientsArePinned` | src/runtime/workflow-state.store.ts:212-332 | in such records every result belongs to a traced step and no two traced steps share a path |
| `JobRecord.CompactionIsIdempotent` | src/runtime/workflow-state.store.ts:189-210 | compacting twice is compacting once |
| `JobRecord.SavedStepResult` | src/runtime/workflow-state.store.ts:212-236 | saving gives the step that result and no failures, takes results and failures from everything inside it, and leaves every other step, the trace, the verdict and the signals alone |
| `JobRecord.DeliveredSignal` | src/runtime/workflow-state.store.ts:280-310 | delivering does the same to the step that waits, and drops that signal only |
| `JobRecord.CompactedRecord` | src/runtime/workflow-state.store.ts:189-210 | compaction takes results and failures from exactly the steps with a cached proper ancestor |
| `Probe.ProbeIsReadOnly` | src/engine/dozer-engine.ts:331-356 | a probe of any workflow on any record starts no body and changes nothing |
| `Probe.AcceptedTrace` | src/engine/dozer-engine.ts:356-381 | if a probe accepts, the keys the workflow enters are exactly the top level of the trace, in order, and every other entry is inside one of them that holds a result |
| `Probe.HonestCompletionIsAccepted` | src/engine/dozer-engine.ts:331-385 | after any history, the probe accepts a completed deterministic workflow exactly if its value can be stored |
| `Probe.GoodCompletionMatches` | src/engine/dozer-engine.ts:356-381 | what is stored of a completed job matches its workflow exactly if the value can be stored |
| `Probe.AcceptsExactly` | src/engine/dozer-engine.ts:331-385 | without faults, the probe of any workflow on any record accepts exactly if the keys it enters, each with what is traced inside it, are the trace and its value is the stored one; with faults only if |
| `StateStore.WorkflowStateStore.SaveStepResult` | src/runtime/workflow-state.store.ts:212-236 | the new record as specified, persisted; a refused result leaves record and job alone |
| `StateStore.WorkflowStateStore.RemoveDescendantStepCache` | src/runtime/workflow-state.store.ts:155-187 | the three loops delete exactly the descendants' results, undefined-marks and counters |
| `StateStore.WorkflowStateStore.CompactDescendantStepCache` | src/runtime/workflow-state.store.ts:189-210 | the loop over a stale key list leaves exactly the keys with no cached proper ancestor |
| `StateStore.WorkflowStateStore.IncrementStepRetryCount` | src/runtime/workflow-state.store.ts:243-249 | one more failure for this step, persisted and returned |
| `StateStore.WorkflowStateStore.SavePendingSignal` | src/runtime/workflow-state.store.ts:251-260 | the wait is pending under its name, persisted |
| `StateStore.WorkflowStateStore.ClearPendingSignal` | src/runtime/workflow-state.store.ts:270-278 | the name is no longer pending, persisted |
| `StateStore.WorkflowStateStore.DeliverSignal` | src/runtime/workflow-state.store.ts:280-310 | delivers if the name is pending and the payload can be stored; tells a name that is not pending from a payload that is refused; nothing changes in either |
| `StateStore.WorkflowStateStore.BeginStep` | src/runtime/workflow-state.store.ts:312-332 | appends at the end unless strict, accepts the traced step, refuses any other without a change |
| `StateStore.WorkflowStateStore.MarkCompleted` | src/runtime/workflow-state.store.ts:119-125 | completed, compacted and persisted; a refused result changes only the status in memory |
| `StateStore.WorkflowStateStore.MarkPublishingResult` | src/runtime/workflow-state.store.ts:127-132 | completing with the result stored and persisted; a refused result changes only the status in memory |
| `StateStore.WorkflowStateStore.MarkCompletedFromStoredResult` | src/runtime/workflow-state.store.ts:134-139 | completed with the stored result, compacted and persisted |
| `StateStore.WorkflowStateStore.MarkRunning` | src/runtime/workflow-state.store.ts:113-117 | running, without an error, persisted |
| `StateStore.WorkflowStateStore.MarkFailed` | src/runtime/workflow-state.store.ts:141-146 | failed, with the error and without a result, persisted |
| `StateStore.WorkflowStateStore.MarkCancelled` | src/runtime/workflow-state.store.ts:148-153 | cancelled, with the message and without a result, persisted |
| `StateStore.WorkflowStateStore.Flush` | src/runtime/workflow-state.store.ts:360-388 | the persisted record is the one in memory unless the store is read-only |
| `StateStore.RemovingIsEnough` | src/runtime/workflow-state.store.ts:200-209 | a key that is already gone may be passed over: an ancestor removed its descendants |
| `StateStore.WorkflowJob.Load` | src/runtime/workflow-state.store.ts:88-96 | the state in memory becomes the one in the queue |
| `ExecutionContext.WorkflowExecutionContext.EnterStep` | src/runtime/workflow-execution-context.ts:67-101 | numbers the child, extends the trace at its end or refuses a step other than the traced one with a replay conflict, and in a probe one that is not traced or has no result with a nondeterminism error; pushes a frame and skips the block of a cached step |
| `ExecutionContext.WorkflowExecutionContext.SkipCachedDescendants` | src/runtime/workflow-execution-context.ts:49-65 | the loop moves the cursor to the first entry not inside the step |
| `ExecutionContext.WorkflowExecutionContext.ResetCurrentStepChildren` | src/runtime/workflow-execution-context.ts:103-110 | the top frame counts children from zero; the rest of the stack is unchanged |
| `ExecutionContext.WorkflowExecutionContext.ExitStep` | src/runtime/workflow-execution-context.ts:124-130 | pops the top frame but never the root |
| `ExecutionContext.WorkflowExecutionContext.WaitForSignal` | src/runtime/workflow-execution-context.ts:140-172 | returns the recorded result, or resolves, starts or continues the wait; the stack ends as before with one more child counted |
| `ExecutionContext.WorkflowExecutionContext.AwaitEntered` | src/runtime/workflow-execution-context.ts:151-171 | an entered wait without a result: not pending, it becomes pending until exactly `now` plus its timeout, or for good, and the error thrown carries that deadline; pending before its deadline, nothing changes and the error carries the deadline on record; at or past it, `null` is its result and the signal is cleared |
| `StepWrapper.DozerStepWrapper` | src/decorators/step.decorator.ts:93-150 | a step the trace does not accept throws, and a cached one gives its result, with nothing recorded and no body started; otherwise the body is started: outside work that returns a storable value gives it and is recorded, first result included; if it throws or cannot be stored the step throws, has no result and no first result is added; the frame is popped on every path |
| `StepWrapper.ExecuteStep` | src/decorators/step.decorator.ts:116-150 | starts the body in a frame with no children counted; outside work that returns a storable value gives that result, recorded; if it throws, or cannot be stored, the step throws, is left without a result, and first results are unchanged |
| `StepWrapper.Catch` | src/decorators/step.decorator.ts:125-147 | unless the error is non-retryable or the process died: with the old count plus one below the attempts, a retry request with the step's key, policy and that count, which is stored and persisted; otherwise the same error, with the record unchanged |
| `StepWrapper.RunCode` | src/runtime/workflow-execution-context.ts:67-130 | workflow code over the real frame stack and cursor does what `Exec` says, and leaves the stack as it was |
| `StepWrapper.CompleteStep` | src/decorators/step.decorator.ts:123-147 | a returned value that can be stored is the step's result, nothing inside it is left, and all other steps are unchanged; anything else throws, and at most the failure counters change |
| `Engine.DozerEngine.Run` | src/engine/dozer-engine.ts:447-582 | its turns, the last one among them, are those of the loop model and attempts in the life of the job; a cancelled job is untouched; a value is what the evaluator's stands for, and so is the one payload in the result queue, where other jobs' payloads stay; code that always fails takes all attempts and fails the job, a non-retryable error fails it in the first turn, a sleep request and a wait delay it to exactly the time requested or the deadline on record, or to the default one; before that deadline no run resolves the wait; a probe without faults turns a value into an error exactly if the workflow's cannot be stored; the job stays sound in memory and in the queue |
| `Engine.DozerEngine.TakeTurn` | src/engine/dozer-engine.ts:467-580 | one turn: an attempt and the reaction to its failure, with what the queue then holds |
| `Engine.DozerEngine.RunAttempt` | src/engine/dozer-engine.ts:482-517 | finalizes a completing job, otherwise runs the code from the top and concludes; the record left behind is in the queue, but for the status before a refused result |
| `Engine.DozerEngine.ConcludeRun` | src/engine/dozer-engine.ts:508-514 | an unconsumed trace throws and stores nothing; a storable result is stored, published if configured and the job completed, each step of which may fail; a refused one throws and sets a status in memory alone; the record left behind is in the queue, but for that status |
| `Engine.DozerEngine.FinalizePublishingResult` | src/engine/dozer-engine.ts:310-329 | offers the stored result under the job's result id, then completes the job with it, in memory and in the queue; a fault before either leaves it undone |
| `Engine.DozerEngine.EnqueueWorkflowResult` | src/engine/dozer-engine.ts:259-302 | offers the payload under the job's result id; a duplicate that is there counts as published |
| `Engine.DozerEngine.RunDeterminismProbe` | src/engine/dozer-engine.ts:331-385 | accepts exactly when the strict replay does, and changes neither record, persisted state nor logs |
| `Engine.DozerEngine.Settle` | src/engine/dozer-engine.ts:516-544 | delays a parked job to its deadline or the default one; turns a value into an error exactly if the probe is on and rejects |
| `Engine.DozerEngine.SoundAfter` | src/engine/dozer-engine.ts:467-582 | any number of turns keeps the job sound, whatever its open steps will return |
| `Engine.DozerEngine.TruthfulAfter` | src/engine/dozer-engine.ts:503-517 | a run that gives a value gives what the evaluator's stands for, for every oracle that agrees with what was recorded |
| `Engine.DozerEngine.TakeTurns` | src/engine/dozer-engine.ts:467-582 | the loop ends, its turns are those of the loop model, and the last of them is the first that ends it |
| `Engine.DozerEngine.TakeOver` | src/runtime/workflow-state.store.ts:88-96 | the job another process loads is the one in the queue, as sound as the one in memory |
| `Engine.DozerEngine.StoreResult` | src/engine/dozer-engine.ts:509-513 | stores the result, or leaves an early status in memory alone |
| `Engine.DozerEngine.HandleFailure` | src/engine/dozer-engine.ts:518-580 | for every kind of failure whether the loop goes on, with which attempts used and which delay, or how the run ends: failed in memory and on disk, or parked to the time of the request |
| `Client.DozerClient.Cancel` | src/client/dozer-client.ts:112-132 | true exactly for a pending job, which then is cancelled, with the message and without a result, in memory and in the queue; any other is unchanged; a sound job stays sound |
| `Client.DozerClient.SendSignal` | src/client/dozer-client.ts:134-152 | delivered, not pending or refused, as the store says; a job that got its signal leaves the delayed set; a sound job stays sound, in memory and in the queue |
| `Client.DozerClient.Start` | src/client/dozer-client.ts:72-99 | a pending job, new to the queue and sound for every workflow, unless its input cannot be serialized |
| `Queues.InMemoryWorkflowQueue.MoveToDelayed` | src/queue/in-memory-workflow-queue.ts:95-100 | delays a known job, replacing an earlier time; an unknown id changes nothing |
| `Queues.InMemoryWorkflowQueue.PromoteDelayed` | src/queue/in-memory-workflow-queue.ts:102-105 | the job is no longer delayed; all others are as before |
| `Queues.ResultQueue.Add` | src/engine/dozer-engine.ts:288-301 | the first payload under an id is the one that stays, whether duplicates are ignored or rejected |
| `Queues.ResultIdsCollide` | src/queue/workflow-queue.ts:87-93 | two job ids share a result id exactly when one is numeric and the other is it after `#` |
| `Queues.InMemoryWorkflowQueue.Add` | src/queue/in-memory-workflow-queue.ts:73-88 | a new job under an id no other job has; all others stay |
| `Queues.InMemoryWorkflowQueue.Get` | src/queue/in-memory-workflow-queue.ts:90-93 | the job with this id, if there is one |
| `Queues.InMemoryIdsKeepApart` | src/queue/in-memory-workflow-queue.ts:78-79 | different jobs of an in-memory queue have different result ids |
| `Serializer.RoundTrip` | src/runtime/value-serializer.ts:167-338 | decoding what was encoded gives the value back exactly when no plain object in it holds a string under the envelope marker |
| `Serializer.SerializeSucceedsOnSupported` | src/runtime/value-serializer.ts:182-301 | encoding a tree succeeds exactly when it has no unsupported leaf |
| `Serializer.OnlyStringsEncodeToStrings` | src/runtime/value-serializer.ts:48-54 | only strings encode to strings, so only an object that held a string under the marker can pass for an envelope |
| `Serializer.DecodedFields` | src/runtime/value-serializer.ts:333-337 | an object that is no envelope decodes to given fields exactly when each field does |
| `Serializer.ReplayReadsWhatWasStored` | src/runtime/workflow-state.store.ts:105-111 | reading a stored workflow value gives that value |
| `Serializer.DeserializeInternal` | src/runtime/value-serializer.ts:320-338 | the loops over arrays and records compute the decoding |
| `Serializer.ImitationIsMisread` | src/runtime/value-serializer.ts:48-54 | an object that imitates an envelope is stored and read back as `undefined` |
| `Serializer.StoredForms` | src/runtime/value-serializer.ts:167-281 | which values but arrays and objects are refused, and what all others are stored as, field by field |
| `Serializer.WholeElements` | src/runtime/value-serializer.ts:76-117 | stored bytes become a typed array exactly if its kind is one of the eleven known and they are a whole number of its elements |
| `Serializer.LenientEnvelopes` | src/runtime/value-serializer.ts:119-165 | absent or null text fields are read as empty, a typed array without its kind and every unknown kind of envelope are refused |
| `Serializer.FailuresPropagate` | src/runtime/value-serializer.ts:320-338 | an array or plain object can be read exactly if all its elements or fields can |
| `ObjectGraph.GraphSerializer.SerializeInternal` | src/runtime/value-serializer.ts:167-318 | terminates on every finite heap, restores the set of objects on the path, and encodes the tree unfolding |
| `ObjectGraph.GraphSerializer.SerializeArray` | src/runtime/value-serializer.ts:283-297 | the loop over an array encodes its unfolding; the set is restored on every path |
| `ObjectGraph.GraphSerializer.SerializeObject` | src/runtime/value-serializer.ts:299-317 | the loop over an object's keys encodes its unfolding; the set is restored on every path |
| `ObjectGraph.WalkSucceeds` | src/runtime/value-serializer.ts:205-207 | the walk succeeds exactly when no cycle and no unsupported leaf can be reached; shared references are no obstacle |
| `ObjectGraph.UnfoldingIsLocal` | src/runtime/value-serializer.ts:283-318 | the unfolding of an address does not depend on how it was reached unless an object on the path is met again |
| `Progress.ExecReturns` | src/runtime/workflow-execution-context.ts:67-101 | from any agreeing record, a fault-free execution of a program without waits whose results can be stored returns |
| `Progress.SmoothAttemptCompletes` | src/engine/dozer-engine.ts:467-517 | after any history short of cancellation such an attempt completes with the evaluator's value, stored and saved |
| `Continuation.EveryJobCanComplete` | src/engine/dozer-engine.ts:447-582 | after any history short of cancellation, a program whose results can be stored has a continuation of attempts, with one signal after each but the last, that completes the job with its value; there are no more signals than steps without a result |
| `Continuation.ExecReturnsOrAwaits` | src/runtime/workflow-execution-context.ts:67-172 | from any agreeing record, an execution without faults returns or leaves a signal awaited |
| `HalfExpiry.ExpiryIsTwoWrites` | src/runtime/workflow-execution-context.ts:153-155 | an expired wait is settled by saving `null` and then clearing its signal |
| `HalfExpiry.NoSignalIsStale` | src/runtime/workflow-execution-context.ts:153-155 | without a death between the two writes no signal is ever pending for a step that has a result |
| `HalfExpiry.StaleDeliveryOverwrites` | src/runtime/workflow-state.store.ts:280-310 | on any record, a delivery replaces a recorded result by another exactly if its signal is pending for a step that has a different one |
| `HalfExpiry.HalfExpiredResultIsReplaced` | src/runtime/workflow-execution-context.ts:153-155 | after the first write alone, a signal replaces the recorded `null` exactly if its payload is another value |
| `HalfExpiry.ResolvesAtOnce` | src/runtime/workflow-execution-context.ts:151-171 | a wait without a result gets one at once exactly if its name is pending with a deadline that has passed |
| `HalfExpiry.LaterWaitDoesNotWait` | src/runtime/workflow-execution-context.ts:153-155 | after the first write alone a later wait for the same name never waits, after both it does |
| `JobViews.DiskIsSound` | src/runtime/workflow-state.store.ts:360-388 | a job sound in memory is sound in the queue |

## Left out

- Workflow code that catches step errors, and steps that run in parallel; programs run one step at a time and a step's error ends the attempt.
- Overlapping `run`, `sendSignal` and `cancel` on one job: each reads, modifies and writes the whole record, and the code has no locking. Events follow one another here.
- Tracing switched off, and the probe under it.
- StepWrapper.DozerStepWrapper: step timeouts, which leave the body running against a shared frame stack, are not modelled.
- StepWrapper.ExecuteStep: step timeouts are not modelled.
- StateStore.WorkflowStateStore.Flush: `maxStateSizeBytes` is not modelled, and an `updateData` call that fails only as the death of the process.
- ExecutionContext.WorkflowExecutionContext.WaitForSignal: does not model a crash between the two flushes of an expired wait, as `AwaitEntered`.
- ExecutionContext.WorkflowExecutionContext.AwaitEntered: does not model a crash between the two flushes of an expired wait; lives have no such event, and `HalfExpiry` says what it does to a record.
- Engine.DozerEngine.RunDeterminismProbe: has no time limit, and compares results as values, not in encoded form; the probe follows a completed run and is no turn of `RunLoop`.
- Engine.DozerEngine.Run: takes a job that was found and a workflow that is registered; a run without a registered workflow is an event of `Lifecycle`.
- Engine.DozerEngine.FinalizePublishingResult: a death of the process while publishing ends the run like a refused publication does; the record is the same.
- Real time: every clock reading is an input. The calls of `breakUntil` and `breakFor` are sleep faults of the schedule.
- `onFailed`, `onWorkflowFailed`, `publishOnFailure`, logging, progress, priority, texts of errors: suppressed side effects.
- Serializer.RoundTrip: base64 (section 4 of RFC 4648) and ISO date texts are an abstract pair of inverse functions; NaN, negative zero and `__proto__` keys are not modelled, nor are envelopes whose payload field is not a string except as errors.
- Progress.ExecReturns: says nothing of programs with waits, which may park for ever; see `Continuation.EveryJobCanComplete`.
- Signal names that are names of inherited object properties.
- Waiting for results, job information, merging of options, module wiring, the registry and the BullMQ driver.
- Continuations are functions given as infinite maps with a default; what a program does between two operations beside choosing the next one is not seen.
