/** The engine's run loop over real stores, contexts and queues. */
module Engine {
  import opened Values
  import opened RetryPolicy
  import opened JobRecord
  import opened Program
  import opened StateStore
  import opened ExecutionContext
  import opened StepWrapper
  import opened Queues
  import opened Lifecycle
  import opened Guarantees
  import opened RunLoop
  import opened RunOutcomes
  import opened Deadlines
  import opened JobViews
  import Probe

  /** One workflow definition with its configuration, and the queues of the module. */
  class DozerEngine {
    const cfg: Config
    const workflow: Prog
    const workflowRetry: Policy
    const autoDeterminismProbe: bool
    const signalTimeoutMs: nat
    const queue: InMemoryWorkflowQueue
    const resultQueue: ResultQueue

    constructor (
      cfg: Config, workflow: Prog, workflowRetry: Policy, autoDeterminismProbe: bool, signalTimeoutMs: nat,
      queue: InMemoryWorkflowQueue, resultQueue: ResultQueue)
      ensures this.cfg == cfg && this.workflow == workflow && this.workflowRetry == workflowRetry
      ensures this.autoDeterminismProbe == autoDeterminismProbe && this.signalTimeoutMs == signalTimeoutMs
      ensures this.queue == queue && this.resultQueue == resultQueue
    {
      this.cfg, this.workflow, this.workflowRetry := cfg, workflow, workflowRetry;
      this.autoDeterminismProbe, this.signalTimeoutMs := autoDeterminismProbe, signalTimeoutMs;
      this.queue, this.resultQueue := queue, resultQueue;
    }

    /** The job as the lifecycle model sees it; `cursor` is where its last execution left the trace. */
    ghost function View(job: WorkflowJob, env: Environment, cursor: nat): Job
      reads job, job.state, env, resultQueue
    {
      ViewOf(job, env, cursor, resultQueue.OfferedFor(ToWorkflowResultQueueJobId(job.id)))
    }

    /** The job another process would load. */
    ghost function DiskView(job: WorkflowJob, env: Environment, cursor: nat): Job
      reads job, env, resultQueue
    {
      DiskViewOf(job, env, cursor, resultQueue.OfferedFor(ToWorkflowResultQueueJobId(job.id)))
    }

    /** The result queue stays as it is under every other id. */
    twostate predicate OnlyPublishes(job: WorkflowJob)
      reads resultQueue
    {
      forall id | id != ToWorkflowResultQueueJobId(job.id) ::
        (id in resultQueue.jobs <==> id in old(resultQueue.jobs))
        && (id in resultQueue.jobs ==> resultQueue.jobs[id] == old(resultQueue.jobs)[id])
    }

    /** False if the queue refuses for another reason than a job that is already there. */
    method EnqueueWorkflowResult(job: WorkflowJob, result: Value, env: Environment, ghost cursor: nat)
      returns (published: bool)
      requires resultQueue.Valid()
      modifies resultQueue, env`pos
      ensures resultQueue.Valid() && OnlyPublishes(job) && published == env.schedule(old(env.pos)).fault.None?
      ensures var before, after := old(View(job, env, cursor)), View(job, env, cursor);
              after == before.(w := Ticked(before.w), sent := if published then before.sent + [result] else before.sent)
    {
      var choice := env.Next();
      if choice.fault.Some? {
        return false;
      }
      var id := ToWorkflowResultQueueJobId(job.id);
      var added := resultQueue.Add(result, id);
      return added.Added? || id in resultQueue.jobs;
    }

    /** What is in memory is in the queue before and after. */
    method FinalizePublishingResult(job: WorkflowJob, env: Environment, ghost cursor: nat)
      returns (outcome: AttemptOutcome)
      requires resultQueue.Valid() && job.InStep()
      modifies resultQueue, env`pos, job.state, job
      ensures resultQueue.Valid() && OnlyPublishes(job) && job.InStep()
      ensures (outcome, View(job, env, cursor)) == Finalize(old(View(job, env, cursor)), env.schedule)
      ensures Finalizes(old(View(job, env, cursor)), env.schedule, outcome, View(job, env, cursor))
      ensures old(job.persisted == job.state.Rec()) ==> job.persisted == job.state.Rec()
    {
      ghost var before := View(job, env, cursor);
      var result := if job.state.r.Some? then job.state.r.value else Undefined;
      outcome := Unpublished;
      var published := EnqueueWorkflowResult(job, result, env, cursor);
      if published {
        var completed := CompleteFromStoredResult(job, env, cursor);
        outcome := if completed then Completes(result) else Unpublished;
      }
      FinalizePublishes(before, env.schedule);
    }

    /** After its result is published the job is completed, unless the process dies before. */
    method CompleteFromStoredResult(job: WorkflowJob, env: Environment, ghost cursor: nat) returns (completed: bool)
      requires job.InStep()
      modifies env`pos, job.state, job
      ensures job.InStep() && completed == env.schedule(old(env.pos)).fault.None?
      ensures var before, after := old(View(job, env, cursor)), View(job, env, cursor);
              && (!completed ==> after == before.(w := Ticked(before.w)))
              && (completed ==>
                    after == before.(
                      w := Ticked(before.w).(rec := MarkCompletedFromStoredResult(before.w.rec)), saved := Completed))
      ensures old(job.persisted == job.state.Rec()) ==> job.persisted == job.state.Rec()
    {
      var choice := env.Next();
      if choice.fault.Some? {
        return false;
      }
      var stateStore := new WorkflowStateStore(job, false, false);
      stateStore.MarkCompletedFromStoredResult();
      return true;
    }

    /** What follows once workflow code has returned. */
    method ConcludeRun(job: WorkflowJob, env: Environment, value: Value, cursor: nat) returns (outcome: AttemptOutcome)
      requires resultQueue.Valid() && job.InStep()
      modifies resultQueue, env`pos, job.state, job
      ensures resultQueue.Valid() && OnlyPublishes(job) && job.InStep()
      ensures (outcome, View(job, env, cursor)) == Conclude(cfg, old(View(job, env, cursor)), value, env.schedule)
      ensures Concludes(cfg, old(View(job, env, cursor)), value, env.schedule, outcome, View(job, env, cursor))
      ensures old(job.persisted == job.state.Rec()) && outcome != Throws(Unserializable) ==>
                job.persisted == job.state.Rec()
    {
      ConcludeConcludes(cfg, View(job, env, cursor), value, env.schedule);
      if cursor != |job.state.t| {
        return Throws(NonDeterminism);
      }
      var choice := env.Next();
      if choice.fault.Some? {
        return Throws(Fault(choice.fault.value));
      }
      assert View(job, env, cursor) == old(View(job, env, cursor)).(w := Ticked(old(View(job, env, cursor)).w));
      var ok := StoreResult(job, env, value, cursor);
      outcome := HandOverResult(job, env, value, ok, cursor);
    }

    method HandOverResult(job: WorkflowJob, env: Environment, value: Value, ok: bool, ghost cursor: nat)
      returns (outcome: AttemptOutcome)
      requires resultQueue.Valid() && job.InStep() && ok == Supported(value)
      modifies resultQueue, env`pos, job.state, job
      ensures resultQueue.Valid() && OnlyPublishes(job) && job.InStep()
      ensures (outcome, View(job, env, cursor)) == HandOver(cfg, old(View(job, env, cursor)), value, env.schedule)
      ensures old(job.persisted == job.state.Rec()) && outcome != Throws(Unserializable) ==>
                job.persisted == job.state.Rec()
    {
      if !ok {
        return Throws(Unserializable);
      }
      if cfg.publishes {
        outcome := FinalizePublishingResult(job, env, cursor);
        return if outcome.Completes? then Completes(value) else outcome;
      }
      return Completes(value);
    }

    /** `markPublishingResult` or `markCompleted`; false if the serializer refuses the result. */
    method StoreResult(job: WorkflowJob, ghost env: Environment, value: Value, ghost cursor: nat) returns (ok: bool)
      requires job.InStep()
      modifies job.state, job
      ensures job.InStep() && ok == Supported(value)
      ensures View(job, env, cursor) == WithResult(cfg, old(View(job, env, cursor)), value)
      ensures ok ==> job.persisted == job.state.Rec()
    {
      var stateStore := new WorkflowStateStore(job, false, false);
      ghost var before := View(job, env, cursor);
      if cfg.publishes {
        ok := stateStore.MarkPublishingResult(value);
      } else {
        ok := stateStore.MarkCompleted(value);
      }
      if ok {
        assert job.persisted == job.state.Rec();
      } else {
        assert View(job, env, cursor) == before.(w := before.w.(rec := before.w.rec.(s := EarlyStatus(cfg))));
      }
    }

    /** One turn of the loop up to its outcome. */
    method RunAttempt(job: WorkflowJob, env: Environment, ghost cursor: nat)
      returns (outcome: AttemptOutcome, ghost cursor': nat)
      requires resultQueue.Valid() && job.InStep()
      modifies resultQueue, env, job.state, job
      ensures resultQueue.Valid() && OnlyPublishes(job) && job.InStep()
      ensures (outcome, View(job, env, cursor')) == Attempt(cfg, workflow, old(View(job, env, cursor)), env.schedule)
      ensures old(job.persisted == job.state.Rec()) && outcome != Throws(Unserializable) ==>
                job.persisted == job.state.Rec()
    {
      if job.state.s == Completing {
        cursor' := cursor;
        outcome := FinalizePublishingResult(job, env, cursor);
        return;
      }
      var stateStore := new WorkflowStateStore(job, false, false);
      var context := new WorkflowExecutionContext(stateStore, env, cfg.defaultRetry, false);
      stateStore.MarkRunning();
      RunFrame(cfg, workflow, old(View(job, env, cursor)), env.schedule);
      var result := RunCode(workflow, context);
      cursor' := context.traceCursor;
      match result
      case Returned(value) => outcome := ConcludeRun(job, env, value, context.traceCursor);
      case Raised(failure) => outcome := Throws(failure);
    }

    /** A strict, read-only replay after completion; false is a probe failure. */
    method RunDeterminismProbe(job: WorkflowJob, env: Environment) returns (accepted: bool)
      modifies env, job.state, job
      ensures job.state.Rec() == old(job.state.Rec()) && job.persisted == old(job.persisted)
      ensures env.started == old(env.started) && env.first == old(env.first) && env.retries == old(env.retries)
      ensures accepted <==> old(Probed(job, env))
    {
      var probeStateStore := new WorkflowStateStore(job, true, true);
      var probeContext := new WorkflowExecutionContext(probeStateStore, env, cfg.defaultRetry, true);
      Probe.ProbeIsReadOnly(workflow, [], 0, probeContext.View(), probeContext.Options());
      var result := RunCode(workflow, probeContext);
      return result.Returned? && probeContext.traceCursor == |job.state.t|
        && Supported(result.value) && job.state.r == Some(result.value);
    }

    /** One turn: an attempt and the reaction of the `catch` block. Without a result the loop goes on. */
    method TakeTurn(job: WorkflowJob, env: Environment, failedAttempts: nat, slept: nat, ghost cursor: nat)
      returns (end: Option<RunResult>, failedAttempts': nat, slept': nat, ghost cursor': nat)
      requires resultQueue.Valid() && job.InStep()
      modifies resultQueue, env, job.state, job
      ensures resultQueue.Valid() && OnlyPublishes(job) && job.InStep()
      ensures AfterTurn(View(job, env, cursor'), end, failedAttempts', slept')
           == Turn(cfg, workflow, env.schedule, workflowRetry,
                Going(old(View(job, env, cursor)), failedAttempts, slept))
    {
      var outcome: AttemptOutcome;
      outcome, cursor' := RunAttempt(job, env, cursor);
      failedAttempts', slept' := failedAttempts, slept;
      match outcome
      case Completes(value) => end := Some(Resolved(value));
      case Unpublished => end := Some(Rejected);
      case Throws(failure) =>
        end, failedAttempts', slept' := HandleFailure(job, env, failure, failedAttempts, slept, cursor');
    }

    /** The `catch` block of the loop. */
    method HandleFailure(
      job: WorkflowJob, ghost env: Environment, failure: Failure, failedAttempts: nat, slept: nat, ghost cursor: nat)
      returns (end: Option<RunResult>, failedAttempts': nat, slept': nat)
      requires job.InStep()
      modifies job.state, job
      ensures job.InStep()
      ensures AfterTurn(View(job, env, cursor), end, failedAttempts', slept')
           == AfterFailure(workflowRetry, Going(old(View(job, env, cursor)), failedAttempts, slept), failure,
                old(View(job, env, cursor)))
      ensures Follows(
                workflowRetry, Going(old(View(job, env, cursor)), failedAttempts, slept), failure,
                old(View(job, env, cursor)), AfterTurn(View(job, env, cursor), end, failedAttempts', slept'))
    {
      ghost var before := View(job, env, cursor);
      FailureFollows(workflowRetry, Going(before, failedAttempts, slept), failure, before);
      failedAttempts', slept' := failedAttempts, slept;
      match React(failure, failedAttempts + 1 >= workflowRetry.maxAttempts)
      case Dies => end := Some(ProcessGone);
      case Parks(until, awaited) => end := Some(Parked(until, awaited));
      case RetriesStep(request) =>
        end, slept' := None, slept + DelayMs(request.policy, request.failedAttempts);
      case RetriesWorkflow =>
        end, failedAttempts' := None, failedAttempts + 1;
        slept' := slept + DelayMs(workflowRetry, failedAttempts');
      case Fails =>
        var stateStore := new WorkflowStateStore(job, false, false);
        stateStore.MarkFailed(ERROR_TEXT);
        end := Some(Rejected);
    }

    ghost function AfterTurn(job: Job, end: Option<RunResult>, failedAttempts: nat, slept: nat): RunState {
      if end.None? then Going(job, failedAttempts, slept) else Over(job, end.value, slept)
    }

    /** Another process takes over: what it finds in the queue is the job, reloaded, and as sound as before. */
    method TakeOver(job: WorkflowJob, ghost env: Environment, ghost cursor: nat)
      requires job.InStep() && Sound(cfg, workflow, View(job, env, cursor))
      modifies job.state
      ensures job.InStep() && job.state.Rec() == job.persisted
      ensures View(job, env, cursor) == old(DiskView(job, env, cursor)) == Reloaded(old(View(job, env, cursor)))
      ensures Sound(cfg, workflow, View(job, env, cursor))
    {
      DiskIsReload(job, env, cursor, resultQueue.OfferedFor(ToWorkflowResultQueueJobId(job.id)));
      DiskIsSound(cfg, workflow, job, env, cursor, resultQueue.OfferedFor(ToWorkflowResultQueueJobId(job.id)));
      job.Load();
    }

    /** The verdict of the probe. */
    ghost predicate Probed(job: WorkflowJob, probeEnv: Environment)
      reads job.state, probeEnv
    {
      Probe.Accepts(workflow, WorldOf(job.state.Rec(), probeEnv, 0), probeEnv.schedule, cfg.defaultRetry)
    }

    /** After the loop: delay a parked job, probe a completed one. */
    method Settle(job: WorkflowJob, end: RunResult, now: int, probeEnv: Environment) returns (result: RunResult)
      modifies job.state, job, probeEnv, queue`delayedJobs
      ensures job.state.Rec() == old(job.state.Rec()) && job.persisted == old(job.persisted)
      ensures result == if autoDeterminismProbe && end.Resolved? && !old(Probed(job, probeEnv)) then Rejected else end
      ensures queue.delayedJobs ==
              if end.Parked? && job.id in queue.jobs then
                old(queue.delayedJobs)[job.id := if end.until.Some? then end.until.value else now + signalTimeoutMs]
              else old(queue.delayedJobs)
    {
      result := end;
      if end.Parked? {
        queue.MoveToDelayed(job.id, if end.until.Some? then end.until.value else now + signalTimeoutMs);
      }
      if end.Resolved? && autoDeterminismProbe {
        var accepted := RunDeterminismProbe(job, probeEnv);
        if !accepted {
          result := Rejected;
        }
      }
    }

    /** The turns of a run: the `n`-th is the last, and ends it with `end`, in job `after`. */
    ghost predicate RanTo(schedule: Schedule, before: Job, n: nat, after: Job, end: RunResult) {
      var st := Turns(cfg, workflow, schedule, workflowRetry, before, n);
      st.Over? && st.job == after && st.result == end && Last(IsOver(cfg, workflow, schedule, workflowRetry, before), n)
    }

    /** `after` continues the life of `before`, whatever that was, by at most `n` attempts. */
    ghost predicate SameLife(before: Job, n: nat, after: Job) {
      forall events | before == Life(cfg, workflow, events) :: GoesOn(cfg, workflow, events, n, after)
    }

    /** A value that comes out is the one the program's value stands for; so is the one payload in the queue. */
    ghost predicate Delivers(job: WorkflowJob, after: Job, end: RunResult)
      reads resultQueue
    {
      var id := ToWorkflowResultQueueJobId(job.id);
      && (end.Resolved? ==>
            forall o: Oracle | Extends(o, after.w.first) :: end.value == Payload(Evaluate(workflow, [], 0, o)))
      && (after.w.rec.s == Completed && cfg.publishes ==>
            id in resultQueue.jobs
            && forall o: Oracle | Extends(o, after.w.first) ::
                 resultQueue.jobs[id] == Payload(Evaluate(workflow, [], 0, o)))
    }

    /**
     * `run` for a job that was found: turns until one ends it. The result is that of the turns; a probe can
     * only turn a value into an error, and changes nothing. Parked jobs are delayed. The job stays sound, in
     * memory and for a process that loads it from the queue.
     */
    method Run(job: WorkflowJob, env: Environment, probeEnv: Environment, ghost cursor: nat)
      returns (result: RunResult, ghost end: RunResult, ghost n: nat, ghost cursor': nat)
      requires resultQueue.Valid() && probeEnv != env && workflowRetry.maxAttempts >= 1
      requires job.InStep() && Sound(cfg, workflow, View(job, env, cursor))
      modifies resultQueue, env, job.state, job, probeEnv, queue`delayedJobs
      ensures resultQueue.Valid() && OnlyPublishes(job) && job.InStep()
      ensures Sound(cfg, workflow, View(job, env, cursor')) && Sound(cfg, workflow, DiskView(job, env, cursor'))
      ensures result == end || (autoDeterminismProbe && end.Resolved? && result == Rejected)
      ensures autoDeterminismProbe && end.Resolved? && (forall n :: probeEnv.schedule(n).fault.None?) ==>
                ValueStands(View(job, env, cursor'), result == end)
      ensures old(job.state.s) == Cancelled ==>
                end == Rejected && View(job, env, cursor') == old(View(job, env, cursor))
      ensures old(job.state.s) != Cancelled ==>
                && RanTo(env.schedule, old(View(job, env, cursor)), n, View(job, env, cursor'), end)
                && SameLife(old(View(job, env, cursor)), n, View(job, env, cursor'))
                && EndsAsItMust(
                     workflowRetry, env.schedule, old(View(job, env, cursor)), n, end, View(job, env, cursor'))
                && ParksUntilDeadline(env.schedule, old(View(job, env, cursor)), end, View(job, env, cursor'))
      ensures Delivers(job, View(job, env, cursor'), end)
      ensures queue.delayedJobs == old(queue.delayedJobs)
              || (end.Parked? && job.id in queue.jobs && job.id in queue.delayedJobs
                  && queue.delayedJobs == old(queue.delayedJobs)[job.id := queue.delayedJobs[job.id]])
      ensures end.Parked? && job.id in queue.jobs ==>
                job.id in queue.delayedJobs
                && queue.delayedJobs[job.id]
                   == if end.until.Some? then end.until.value else env.schedule(env.pos).now + signalTimeoutMs
    {
      n, cursor', end := 0, cursor, Rejected;
      if job.state.s == Cancelled {
        CancelledFacts(job, env, cursor);
        return Rejected, end, n, cursor';
      }
      ghost var start := View(job, env, cursor);
      var ended: RunResult;
      ended, n, cursor' := TakeTurns(job, env, cursor);
      end := ended;
      RunsEndAsTheyMust(cfg, workflow, env.schedule, workflowRetry, start, n);
      RunsParkUntilDeadline(cfg, workflow, env.schedule, workflowRetry, start, n);
      EndFacts(env.schedule, start, n, job, env, cursor', end);
      VerdictFacts(env.schedule, start, n, job, env, cursor', end, probeEnv);
      result := Settle(job, ended, env.schedule(env.pos).now, probeEnv);
    }

    /** `stands` says, for the workflow's value, whether it can be stored. */
    ghost predicate ValueStands(after: Job, stands: bool) {
      forall o: Oracle | Extends(o, after.w.first) :: stands <==> Supported(Evaluate(workflow, [], 0, o))
    }

    /** The loop of `run`. It ends, and its turns are those of the loop model. */
    method TakeTurns(job: WorkflowJob, env: Environment, ghost cursor: nat)
      returns (end: RunResult, ghost n: nat, ghost cursor': nat)
      requires resultQueue.Valid() && workflowRetry.maxAttempts >= 1
      requires job.InStep() && Sound(cfg, workflow, View(job, env, cursor)) && job.state.s != Cancelled
      modifies resultQueue, env, job.state, job
      ensures resultQueue.Valid() && OnlyPublishes(job) && job.InStep()
      ensures RanTo(env.schedule, old(View(job, env, cursor)), n, View(job, env, cursor'), end)
    {
      n, cursor' := 0, cursor;
      ghost var start := View(job, env, cursor);
      ghost var limit := Limit(cfg, workflow, env.schedule, workflowRetry, start);
      ghost var left := StartFacts(env.schedule, start, limit);
      var failedAttempts: nat, slept: nat := 0, 0;
      while true
        invariant resultQueue.Valid() && OnlyPublishes(job) && job.InStep()
        invariant InLoop(env.schedule, start, n, Going(View(job, env, cursor'), failedAttempts, slept), limit, left)
        decreases left
      {
        ghost var st := Going(View(job, env, cursor'), failedAttempts, slept);
        var ended: Option<RunResult>;
        ended, failedAttempts, slept, cursor' := TakeTurn(job, env, failedAttempts, slept, cursor');
        n := n + 1;
        left := TurnFacts(
          env.schedule, start, n, st, AfterTurn(View(job, env, cursor'), ended, failedAttempts, slept), limit, left);
        if ended.Some? {
          EndsInTurn(cfg, workflow, env.schedule, workflowRetry, start, n - 1, n);
          return ended.value, n, cursor';
        }
      }
    }

    /** Between two turns: where the loop model stands, what its bounds say, and the retries left. */
    ghost predicate InLoop(schedule: Schedule, start: Job, n: nat, st: RunState, limit: Oracle, left: int) {
      && st.Going? && Turns(cfg, workflow, schedule, workflowRetry, start, n) == st
      && Bounded(cfg, workflow, workflowRetry, start, n, st, limit)
      && left == RetriesLeft(cfg, workflow, workflowRetry, st, limit)
    }

    lemma CancelledFacts(job: WorkflowJob, env: Environment, cursor: nat)
      requires resultQueue.Valid() && job.InStep() && Sound(cfg, workflow, View(job, env, cursor))
      requires job.state.s == Cancelled
      ensures Sound(cfg, workflow, DiskView(job, env, cursor))
      ensures Delivers(job, View(job, env, cursor), Rejected)
    {
      DiskIsSound(cfg, workflow, job, env, cursor, resultQueue.OfferedFor(ToWorkflowResultQueueJobId(job.id)));
    }

    lemma StartFacts(schedule: Schedule, start: Job, limit: Oracle) returns (left: int)
      requires limit == Limit(cfg, workflow, schedule, workflowRetry, start)
      requires Sound(cfg, workflow, start) && start.w.rec.s != Cancelled && workflowRetry.maxAttempts >= 1
      ensures InLoop(schedule, start, 0, Going(start, 0, 0), limit, left)
    {
      left := RetriesLeft(cfg, workflow, workflowRetry, Going(start, 0, 0), limit);
      LimitExtendsEveryTurn(cfg, workflow, schedule, workflowRetry, start, 0);
      assert Extends(limit, start.w.first);
      BoundedAtStart(cfg, workflow, workflowRetry, start, limit);
    }

    /** The `n`-th turn, taken from `st`. */
    lemma TurnFacts(
      schedule: Schedule, start: Job, n: nat, st: RunState, st': RunState, limit: Oracle, left: int)
      returns (left': int)
      requires n > 0 && InLoop(schedule, start, n - 1, st, limit, left)
      requires limit == Limit(cfg, workflow, schedule, workflowRetry, start)
      requires st' == Turn(cfg, workflow, schedule, workflowRetry, st)
      ensures Turns(cfg, workflow, schedule, workflowRetry, start, n) == st'
      ensures st'.Going? ==> InLoop(schedule, start, n, st', limit, left') && 0 <= left' < left
    {
      LimitExtendsEveryTurn(cfg, workflow, schedule, workflowRetry, start, n);
      TurnKeeps(cfg, workflow, schedule, workflowRetry, st, limit);
      BoundedNext(cfg, workflow, workflowRetry, start, n, st, st', limit);
      left' := if st'.Going? then RetriesLeft(cfg, workflow, workflowRetry, st', limit) else 0;
    }

    /** A probe without faults accepts what a run completed exactly if the value can be stored. */
    lemma VerdictFacts(
      schedule: Schedule, start: Job, n: nat, job: WorkflowJob, env: Environment, cursor: nat, end: RunResult,
      probeEnv: Environment)
      requires Sound(cfg, workflow, start) && start.w.rec.s != Cancelled && workflowRetry.maxAttempts >= 1
      requires Sound(cfg, workflow, View(job, env, cursor)) && RanTo(schedule, start, n, View(job, env, cursor), end)
      ensures end.Resolved? && (forall n :: probeEnv.schedule(n).fault.None?) ==>
                ValueStands(View(job, env, cursor), Probed(job, probeEnv))
    {
      if end.Resolved? && forall n :: probeEnv.schedule(n).fault.None? {
        var after := View(job, env, cursor);
        BoundedAfter(schedule, start, n, Known(after.w.first));
        assert after.w.rec.s == Completed;
        Probe.AcceptsExactly(
          workflow, WorldOf(job.state.Rec(), probeEnv, 0), probeEnv.schedule, cfg.defaultRetry);
        forall o: Oracle | Extends(o, after.w.first)
          ensures Probed(job, probeEnv) <==> Supported(Evaluate(workflow, [], 0, o))
        {
          Probe.GoodCompletionMatches(cfg, workflow, after, o);
        }
      }
    }

    /** What a run that has ended leaves behind. */
    lemma EndFacts(
      schedule: Schedule, start: Job, n: nat, job: WorkflowJob, env: Environment, cursor: nat, end: RunResult)
      requires Sound(cfg, workflow, start) && start.w.rec.s != Cancelled && workflowRetry.maxAttempts >= 1
      requires resultQueue.Valid() && job.InStep() && RanTo(schedule, start, n, View(job, env, cursor), end)
      ensures Sound(cfg, workflow, View(job, env, cursor)) && Sound(cfg, workflow, DiskView(job, env, cursor))
      ensures SameLife(start, n, View(job, env, cursor)) && Delivers(job, View(job, env, cursor), end)
    {
      var id := ToWorkflowResultQueueJobId(job.id);
      SoundAfter(schedule, start, n);
      DiskIsSound(cfg, workflow, job, env, cursor, resultQueue.OfferedFor(id));
      TruthfulAfter(schedule, start, n);
      ContinuesAfter(schedule, start, n);
      PayloadInQueue(job, env, cursor);
    }

    lemma ContinuesAfter(schedule: Schedule, start: Job, n: nat)
      requires start.w.rec.s != Cancelled
      ensures SameLife(start, n, Turns(cfg, workflow, schedule, workflowRetry, start, n).job)
    {
      var after := Turns(cfg, workflow, schedule, workflowRetry, start, n).job;
      forall events | start == Life(cfg, workflow, events)
        ensures GoesOn(cfg, workflow, events, n, after)
      {
        TurnsAreEvents(cfg, workflow, schedule, workflowRetry, events, start, n);
      }
    }

    lemma PayloadInQueue(job: WorkflowJob, env: Environment, cursor: nat)
      requires resultQueue.Valid() && Sound(cfg, workflow, View(job, env, cursor))
      ensures Delivers(job, View(job, env, cursor), Rejected)
    {
      var after, id := View(job, env, cursor), ToWorkflowResultQueueJobId(job.id);
      if after.w.rec.s == Completed && cfg.publishes {
        assert Good(cfg, workflow, after, Known(after.w.first));
        forall o: Oracle | Extends(o, after.w.first)
          ensures resultQueue.jobs[id] == Payload(Evaluate(workflow, [], 0, o))
        {
          assert Good(cfg, workflow, after, o) && after.sent[0] in after.sent;
        }
      }
    }

    lemma TruthfulAfter(schedule: Schedule, start: Job, n: nat)
      requires Sound(cfg, workflow, start) && start.w.rec.s != Cancelled && workflowRetry.maxAttempts >= 1
      ensures var st := Turns(cfg, workflow, schedule, workflowRetry, start, n);
              st.Over? && st.result.Resolved? ==>
                forall o: Oracle | Extends(o, st.job.w.first) ::
                  st.result.value == Payload(Evaluate(workflow, [], 0, o))
    {
      var st := Turns(cfg, workflow, schedule, workflowRetry, start, n);
      forall o: Oracle | Extends(o, st.job.w.first) ensures Truthful(workflow, st, o) {
        BoundedAfter(schedule, start, n, o);
      }
    }

    lemma BoundedAfter(schedule: Schedule, start: Job, n: nat, o: Oracle)
      requires Sound(cfg, workflow, start) && start.w.rec.s != Cancelled && workflowRetry.maxAttempts >= 1
      requires Extends(o, Turns(cfg, workflow, schedule, workflowRetry, start, n).job.w.first)
      ensures Bounded(
                cfg, workflow, workflowRetry, start, n, Turns(cfg, workflow, schedule, workflowRetry, start, n), o)
    {
      LoopBodyNeverForgets(cfg, workflow, schedule, workflowRetry);
      IterateGrows(LoopBody(cfg, workflow, schedule, workflowRetry), Going(start, 0, 0), 0, n);
      assert Extends(o, start.w.first);
      TurnsAreBounded(cfg, workflow, schedule, workflowRetry, start, n, o);
    }

    /** Soundness is kept by any number of turns. */
    lemma SoundAfter(schedule: Schedule, start: Job, n: nat)
      requires Sound(cfg, workflow, start) && start.w.rec.s != Cancelled && workflowRetry.maxAttempts >= 1
      ensures Sound(cfg, workflow, Turns(cfg, workflow, schedule, workflowRetry, start, n).job)
    {
      var st := Turns(cfg, workflow, schedule, workflowRetry, start, n);
      forall o: Oracle | Extends(o, st.job.w.first) ensures Good(cfg, workflow, st.job, o) {
        BoundedAfter(schedule, start, n, o);
      }
    }
  }
}
