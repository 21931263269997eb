/** What the run loop makes of each kind of failure, and how runs that fail end. */
module RunOutcomes {
  import opened Values
  import opened Keys
  import opened RetryPolicy
  import opened JobRecord
  import opened Program
  import opened Frames
  import opened Lifecycle
  import opened RunLoop

  // ---- One turn

  /** Errors that are neither requests to the engine nor marked as not worth a retry. */
  predicate Ordinary(failure: Failure) {
    failure == Fault(ErrorThrown) || failure.ReplayConflict? || failure.NonDeterminism? || failure.Unserializable?
  }

  /** The job failed, in memory and on disk, and all else about it is as it was. */
  ghost predicate Fails(job: Job, job': Job) {
    && job'.w == job.w.(rec := job.w.rec.(s := Failed, r := None, e := job'.w.rec.e)) && job'.w.rec.e.Some?
    && job'.sent == job.sent && job'.saved == Failed
  }

  /** The run is over with this result, and the job is as the attempt left it. */
  ghost predicate Ends(st: RunState, job: Job, result: RunResult, slept: nat) {
    st == Over(job, result, slept)
  }

  /** How the loop stands after an attempt that left `job` and threw. */
  ghost predicate Follows(workflowRetry: Policy, st: RunState, failure: Failure, job: Job, st': RunState)
    requires st.Going?
  {
    && (Ordinary(failure) ==>
          var failed := st.failedAttempts + 1;
          if failed < workflowRetry.maxAttempts then
            st' == Going(
              job, failed,
              st.slept + ResolveRetryDelayMs(workflowRetry.baseMs, workflowRetry.strategy, failed))
          else st'.Over? && Fails(job, st'.job) && st'.result == Rejected && st'.slept == st.slept)
    && (failure == Fault(NonRetryableThrown) ==>
          st'.Over? && Fails(job, st'.job) && st'.result == Rejected && st'.slept == st.slept)
    && (failure == Fault(ProcessDied) ==> Ends(st', job, ProcessGone, st.slept))
    && (failure.Fault? && failure.fault.SleepUntil? ==>
          Ends(st', job, Parked(Some(failure.fault.wakeUpAt), None), st.slept))
    && (failure.SignalWaitRequested? ==>
          Ends(st', job, Parked(failure.expiresAt, Some(failure.signal)), st.slept))
    && (failure.RetryRequested? ==>
          var request := failure.request;
          st' == Going(
            job, st.failedAttempts,
            st.slept + ResolveRetryDelayMs(request.policy.baseMs, request.policy.strategy, request.failedAttempts)))
  }

  lemma FailureFollows(workflowRetry: Policy, st: RunState, failure: Failure, job: Job)
    requires st.Going?
    ensures Follows(workflowRetry, st, failure, job, AfterFailure(workflowRetry, st, failure, job))
  {}

  /** Of a turn: it follows what its attempt threw, and a result, published or not, ends the run. */
  lemma TurnFollows(cfg: Config, p: Prog, schedule: Schedule, workflowRetry: Policy, st: RunState)
    requires st.Going?
    ensures var (outcome, job) := Attempt(cfg, p, st.job, schedule);
            var st' := Turn(cfg, p, schedule, workflowRetry, st);
            && (outcome.Throws? ==> Follows(workflowRetry, st, outcome.failure, job, st'))
            && (outcome.Completes? ==> Ends(st', job, Resolved(outcome.value), st.slept))
            && (outcome.Unpublished? ==> Ends(st', job, Rejected, st.slept))
  {
    var (outcome, job) := Attempt(cfg, p, st.job, schedule);
    if outcome.Throws? {
      FailureFollows(workflowRetry, st, outcome.failure, job);
    }
  }

  /** A run of a workflow that is not registered fails the job, unless it is cancelled. */
  lemma UnregisteredFails(cfg: Config, p: Prog, job: Job)
    ensures var job' := Happens(cfg, p, job, RunUnregistered);
            if job.w.rec.s == Cancelled then job' == job else Fails(job, job')
  {}

  // ---- Handing the result over

  /** Only time has passed. */
  predicate OnlyTimePassed(job: Job, job': Job) {
    job' == job.(w := job.w.(pos := job'.w.pos))
  }

  /** Completed in memory and on disk with `result` stored, and nothing new recorded, started or asked for. */
  ghost predicate CompletedWith(job: Job, result: Option<Value>, job': Job) {
    && job'.saved == Completed && job'.w == job.w.(rec := job'.w.rec, pos := job'.w.pos)
    && OnlyTopsLeft(job.w.rec.(s := Completed, r := result, e := None), job'.w.rec)
  }

  /** `first` strikes while the result is published, `second` before the job is completed. */
  ghost predicate Publishing(
    job: Job, result: Value, first: Option<Fault>, second: Option<Fault>, outcome: AttemptOutcome, job': Job) {
    if first.Some? then outcome == Unpublished && OnlyTimePassed(job, job')
    else
      && job'.sent == job.sent + [result]
      && if second.Some? then outcome == Unpublished && OnlyTimePassed(job.(sent := job'.sent), job')
         else outcome == Completes(result) && CompletedWith(job, job.w.rec.r, job')
  }

  /** The stored result is published, and the job completed with it. */
  ghost predicate Finalizes(job: Job, schedule: Schedule, outcome: AttemptOutcome, job': Job) {
    Publishing(
      job, if job.w.rec.r.Some? then job.w.rec.r.value else Undefined,
      schedule(job.w.pos).fault, schedule(job.w.pos + 1).fault, outcome, job')
  }

  lemma FinalizePublishes(job: Job, schedule: Schedule)
    ensures var (outcome, job') := Finalize(job, schedule); Finalizes(job, schedule, outcome, job')
  {
    CompactedRecord(job.w.rec.(s := Completed, e := None));
  }

  /** Workflow code has returned `value`: what is stored, published and reported. */
  ghost predicate Concludes(
    cfg: Config, job: Job, value: Value, schedule: Schedule, outcome: AttemptOutcome, job': Job)
  {
    if job.w.cursor != |job.w.rec.t| then outcome == Throws(NonDeterminism) && job' == job
    else if schedule(job.w.pos).fault.Some? then
      outcome == Throws(Fault(schedule(job.w.pos).fault.value)) && OnlyTimePassed(job, job')
    else if !Supported(value) then
      var early := if cfg.publishes then Completing else Completed;
      outcome == Throws(Unserializable) && OnlyTimePassed(job.(w := job.w.(rec := job.w.rec.(s := early))), job')
    else if !cfg.publishes then
      outcome == Completes(value) && CompletedWith(job, Some(value), job') && job'.sent == job.sent
    else
      Publishing(
        job.(w := job.w.(rec := job.w.rec.(s := Completing, r := Some(value), e := None)), saved := Completing),
        value, schedule(job.w.pos + 1).fault, schedule(job.w.pos + 2).fault, outcome, job')
  }

  lemma ConcludeConcludes(cfg: Config, job: Job, value: Value, schedule: Schedule)
    ensures var (outcome, job') := Conclude(cfg, job, value, schedule);
            Concludes(cfg, job, value, schedule, outcome, job')
  {
    CompactedRecord(job.w.rec.(s := Completed, r := Some(value), e := None));
    FinalizePublishes(WithResult(cfg, job.(w := Ticked(job.w)), value), schedule);
  }

  /**
   * Code that returns without having consumed the whole trace is another workflow than the one that left it:
   * whatever the record and the program, the attempt throws, and stores and publishes nothing.
   */
  lemma UnconsumedTraceThrows(cfg: Config, p: Prog, job: Job, schedule: Schedule)
    requires RunsCode(job)
    requires var (outcome, w) := RunOf(cfg, p, job, schedule); outcome.Returned? && w.cursor < |w.rec.t|
    ensures var (outcome, job') := Attempt(cfg, p, job, schedule);
            && outcome == Throws(NonDeterminism) && job'.w.rec.s == job'.saved == Running
            && job'.w.rec.r == job.w.rec.r && job'.sent == job.sent
  {
    RunFrame(cfg, p, job, schedule);
    var (outcome, w) := RunOf(cfg, p, job, schedule);
    ConcludeConcludes(cfg, RunningJob(job, w), outcome.value, schedule);
  }

  /** A workflow that was changed to return at once is caught as soon as there is a trace. */
  lemma DroppedStepsAreNoticed(cfg: Config, value: Value, job: Job, schedule: Schedule)
    requires RunsCode(job) && schedule(job.w.pos).fault.None? && job.w.rec.t != []
    ensures var (outcome, job') := Attempt(cfg, Return(value), job, schedule);
            && outcome == Throws(NonDeterminism) && job'.w.rec.s == job'.saved == Running
            && job'.w.rec.r == job.w.rec.r && job'.sent == job.sent
  {
    ExecPerforms(Return(value), [], 0, Begun(job.w), Setup(schedule, false, cfg.defaultRetry));
    UnconsumedTraceThrows(cfg, Return(value), job, schedule);
  }

  // ---- Faults in workflow code

  /** Neither cancelled nor waiting for its result to be published: an attempt runs the code. */
  predicate RunsCode(job: Job) {
    job.w.rec.s !in {Completing, Cancelled}
  }

  /** Code that fails before it does anything leaves the job as it was, but running. */
  lemma FaultyAttempt(cfg: Config, p: Prog, job: Job, schedule: Schedule, fault: Fault)
    requires RunsCode(job) && schedule(job.w.pos).fault == Some(fault)
    ensures Attempt(cfg, p, job, schedule)
         == (Throws(Fault(fault)), RunningJob(job, Ticked(Begun(job.w))))
  {
    ExecPerforms(p, [], 0, Begun(job.w), Setup(schedule, false, cfg.defaultRetry));
  }

  /** The job failed without having recorded, traced or started anything more. */
  ghost predicate FailsUntouched(job: Job, job': Job) {
    && job'.w.rec.s == job'.saved == Failed && job'.sent == job.sent
    && job'.w.rec == job.w.rec.(s := Failed, r := None, e := job'.w.rec.e)
    && job'.w.first == job.w.first && job'.w.started == job.w.started && job'.w.retries == job.w.retries
  }

  /** A non-retryable error ends the run in its first turn, whatever attempts are left. */
  lemma NonRetryableEndsTheRun(cfg: Config, p: Prog, schedule: Schedule, workflowRetry: Policy, job: Job)
    requires RunsCode(job) && schedule(job.w.pos).fault == Some(NonRetryableThrown)
    ensures var st := Turns(cfg, p, schedule, workflowRetry, job, 1);
            st.Over? && st.result == Rejected && st.slept == 0 && FailsUntouched(job, st.job)
  {
    FaultyAttempt(cfg, p, job, schedule, NonRetryableThrown);
    FirstTurn(cfg, p, schedule, workflowRetry, job);
    TurnFollows(cfg, p, schedule, workflowRetry, Going(job, 0, 0));
  }

  /** A sleep request parks the job until its very time. */
  lemma SleepParksTheRun(cfg: Config, p: Prog, schedule: Schedule, workflowRetry: Policy, job: Job, wakeUpAt: int)
    requires RunsCode(job) && schedule(job.w.pos).fault == Some(SleepUntil(wakeUpAt))
    ensures var st := Turns(cfg, p, schedule, workflowRetry, job, 1);
            && st.Over? && st.result == Parked(Some(wakeUpAt), None) && st.slept == 0
            && st.job.w.rec == job.w.rec.(s := Running, e := None) && st.job.saved == Running
  {
    FaultyAttempt(cfg, p, job, schedule, SleepUntil(wakeUpAt));
    FirstTurn(cfg, p, schedule, workflowRetry, job);
    TurnFollows(cfg, p, schedule, workflowRetry, Going(job, 0, 0));
  }

  lemma FirstTurn(cfg: Config, p: Prog, schedule: Schedule, workflowRetry: Policy, job: Job)
    ensures Turns(cfg, p, schedule, workflowRetry, job, 0) == Going(job, 0, 0)
    ensures Turns(cfg, p, schedule, workflowRetry, job, 1) == Turn(cfg, p, schedule, workflowRetry, Going(job, 0, 0))
  {
    NextTurn(cfg, p, schedule, workflowRetry, job, 1);
  }

  lemma NextTurn(cfg: Config, p: Prog, schedule: Schedule, workflowRetry: Policy, job: Job, n: nat)
    requires n > 0
    ensures var st := Turns(cfg, p, schedule, workflowRetry, job, n - 1);
            Turns(cfg, p, schedule, workflowRetry, job, n)
            == if st.Going? then Turn(cfg, p, schedule, workflowRetry, st) else st
  {}

  ghost predicate AlwaysFails(schedule: Schedule) {
    forall n :: schedule(n).fault == Some(ErrorThrown)
  }

  /** The loop after `n` attempts whose code failed at once. */
  ghost predicate FailedSoOften(workflowRetry: Policy, job: Job, n: nat, st: RunState) {
    && st.slept == TotalDelay(workflowRetry.baseMs, workflowRetry.strategy, if st.Going? then n + 1 else n)
    && if n < workflowRetry.maxAttempts then
         && st.Going? && st.failedAttempts == n && RunsCode(st.job) && st.job.sent == job.sent
         && st.job.w.rec == job.w.rec.(s := st.job.w.rec.s, e := st.job.w.rec.e)
         && st.job.w.first == job.w.first && st.job.w.started == job.w.started && st.job.w.retries == job.w.retries
       else st.Over? && st.result == Rejected && FailsUntouched(job, st.job)
  }

  /**
   * Workflow code that fails every time is run exactly as often as the workflow has attempts; then the run
   * is rejected and the job failed. It sleeps for all delays of the policy.
   */
  lemma FailingCodeUsesAllAttempts(
    cfg: Config, p: Prog, schedule: Schedule, workflowRetry: Policy, job: Job, n: nat)
    requires RunsCode(job) && AlwaysFails(schedule) && n <= workflowRetry.maxAttempts && workflowRetry.maxAttempts >= 1
    ensures FailedSoOften(workflowRetry, job, n, Turns(cfg, p, schedule, workflowRetry, job, n))
  {
    var body := LoopBody(cfg, p, schedule, workflowRetry);
    var inv := (m: nat, st: RunState) => m <= workflowRetry.maxAttempts ==> FailedSoOften(workflowRetry, job, m, st);
    forall m: nat, st: RunState | inv(m, st) ensures inv(m + 1, if st.Over? then st else body(st)) {
      if m < workflowRetry.maxAttempts {
        FailedOnceMore(cfg, p, schedule, workflowRetry, job, st, m, m + 1);
      }
    }
    IterateInvariant(body, Going(job, 0, 0), n, inv);
  }

  lemma FailedOnceMore(
    cfg: Config, p: Prog, schedule: Schedule, workflowRetry: Policy, job: Job, st: RunState, m: nat, n: nat)
    requires RunsCode(job) && AlwaysFails(schedule) && n == m + 1 <= workflowRetry.maxAttempts
    requires FailedSoOften(workflowRetry, job, m, st)
    ensures FailedSoOften(workflowRetry, job, n, Turn(cfg, p, schedule, workflowRetry, st))
  {
    FaultyAttempt(cfg, p, st.job, schedule, ErrorThrown);
    TurnFollows(cfg, p, schedule, workflowRetry, st);
    NextTotalDelay(workflowRetry, n);
  }

  // ---- Exactly when a run is over

  /** A run that is over stays so. */
  lemma {:induction false} OverStaysOver(
    cfg: Config, p: Prog, schedule: Schedule, workflowRetry: Policy, job: Job, m: nat, n: nat)
    requires m <= n && Turns(cfg, p, schedule, workflowRetry, job, m).Over?
    ensures Turns(cfg, p, schedule, workflowRetry, job, n) == Turns(cfg, p, schedule, workflowRetry, job, m)
    decreases n - m
  {
    if m < n {
      OverStaysOver(cfg, p, schedule, workflowRetry, job, m, n - 1);
      NextTurn(cfg, p, schedule, workflowRetry, job, n);
    }
  }

  ghost function IsOver(cfg: Config, p: Prog, schedule: Schedule, workflowRetry: Policy, job: Job): nat -> bool {
    (n: nat) => Turns(cfg, p, schedule, workflowRetry, job, n).Over?
  }

  /** The `n`-th turn is the last one. */
  ghost predicate Last(isOver: nat -> bool, n: nat) {
    n > 0 && isOver(n) && !isOver(n - 1)
  }

  lemma TurnIsOver(cfg: Config, p: Prog, schedule: Schedule, workflowRetry: Policy, job: Job, n: nat)
    ensures IsOver(cfg, p, schedule, workflowRetry, job)(n)
       <==> Turns(cfg, p, schedule, workflowRetry, job, n).Over?
  {}

  lemma EndsInTurn(cfg: Config, p: Prog, schedule: Schedule, workflowRetry: Policy, job: Job, m: nat, n: nat)
    requires Turns(cfg, p, schedule, workflowRetry, job, m).Going?
    requires Turns(cfg, p, schedule, workflowRetry, job, n).Over? && n == m + 1
    ensures Last(IsOver(cfg, p, schedule, workflowRetry, job), n)
  {
    TurnIsOver(cfg, p, schedule, workflowRetry, job, m);
    TurnIsOver(cfg, p, schedule, workflowRetry, job, n);
    IsLast(IsOver(cfg, p, schedule, workflowRetry, job), m, n);
  }

  lemma IsLast(isOver: nat -> bool, m: nat, n: nat)
    requires n == m + 1 && isOver(n) && !isOver(m)
    ensures Last(isOver, n)
  {}

  lemma OneLastTurn(
    cfg: Config, p: Prog, schedule: Schedule, workflowRetry: Policy, job: Job, isOver: nat -> bool, m: nat, n: nat)
    requires isOver == IsOver(cfg, p, schedule, workflowRetry, job) && Last(isOver, m) && Last(isOver, n)
    ensures m == n
  {
    forall a: nat, b: nat | a <= b && isOver(a) ensures isOver(b) {
      OverStaysOver(cfg, p, schedule, workflowRetry, job, a, b);
    }
    OneLast(isOver, m, n);
  }

  lemma OneLast(isOver: nat -> bool, m: nat, n: nat)
    requires forall a: nat, b: nat | a <= b && isOver(a) :: isOver(b)
    requires Last(isOver, m) && Last(isOver, n)
    ensures m == n
  {}

  // ---- Waits

  /** A request to wait names a signal that is pending, with its deadline. */
  ghost predicate RequestIsOnRecord(failure: Failure, w: World) {
    failure.SignalWaitRequested? ==>
      failure.signal in w.rec.ps && w.rec.ps[failure.signal].expiresAt == failure.expiresAt
  }

  lemma {:induction false} ExecRequestsOnRecord(p: Prog, path: seq<nat>, i: nat, w: World, x: Setup)
    requires w.cursor <= |w.rec.t|
    ensures var (outcome, w') := Exec(p, path, i, w, x); outcome.Raised? ==> RequestIsOnRecord(outcome.failure, w')
    decreases p, 2
  {
    var r := Perform(p, path, i, w, x);
    ExecPerforms(p, path, i, w, x);
    if r.Continues? && !p.Return? {
      ExecRequestsOnRecord(Next(p, r.result), path, i + 1, r.w, x);
    } else {
      PerformRequestsOnRecord(p, path, i, w, x);
    }
  }

  lemma {:induction false} PerformRequestsOnRecord(p: Prog, path: seq<nat>, i: nat, w: World, x: Setup)
    requires w.cursor <= |w.rec.t|
    ensures var r := Perform(p, path, i, w, x); r.Stops? ==> RequestIsOnRecord(r.failure, r.w)
    decreases p, 1
  {
    PerformWorks(p, path, i, w, x);
    if Works(p, path, i, w, x) {
      ProduceRequestsOnRecord(p, path, i, EnteredBy(p, path, i, w, x), x.schedule(w.pos).now, x);
    } else {
      PerformIdles(p, path, i, w, x);
    }
  }

  lemma {:induction false} ProduceRequestsOnRecord(p: Prog, path: seq<nat>, i: nat, w: World, now: int, x: Setup)
    requires !p.Return? && w.cursor <= |w.rec.t|
    ensures var r := Produce(p, KeyOf(p, path, i), w, now, x); r.Stops? ==> RequestIsOnRecord(r.failure, r.w)
    decreases p, 0
  {
    if p.Step? && p.body.Inner? {
      var key := KeyOf(p, path, i);
      var w1 := w.(started := w.started + [key]);
      ExecRequestsOnRecord(p.body.code, path + [i], 0, w1, x);
      assert RunBody(p, key, w, x).1 == Exec(p.body.code, path + [i], 0, w1, x).1;
      CaughtRequestsOnRecord(RunBody(p, key, w, x).1, key, Resolve(p.retry, x.defaultRetry), RunBody(p, key, w, x).0);
    }
  }

  lemma CaughtRequestsOnRecord(w: World, key: Key, policy: Policy, outcome: Outcome)
    requires outcome.Raised? ==> RequestIsOnRecord(outcome.failure, w)
    ensures outcome.Raised? ==>
              var (rethrown, w') := Caught(w, key, policy, outcome.failure); RequestIsOnRecord(rethrown, w')
  {}

  /** A run parked for a signal is parked to the deadline that is on record for it. */
  ghost predicate ParkedOnRecord(st: RunState) {
    st.Over? && st.result.Parked? ==>
      if st.result.awaited.None? then st.result.until.Some?
      else
        && st.result.awaited.value in st.job.w.rec.ps
        && st.job.w.rec.ps[st.result.awaited.value].expiresAt == st.result.until
  }

  lemma {:induction false} RunsParkOnRecord(
    cfg: Config, p: Prog, schedule: Schedule, workflowRetry: Policy, job: Job, n: nat)
    ensures ParkedOnRecord(Turns(cfg, p, schedule, workflowRetry, job, n))
  {
    if n == 0 {
      FirstTurn(cfg, p, schedule, workflowRetry, job);
    } else {
      RunsParkOnRecord(cfg, p, schedule, workflowRetry, job, n - 1);
      NextTurn(cfg, p, schedule, workflowRetry, job, n);
      var st := Turns(cfg, p, schedule, workflowRetry, job, n - 1);
      if st.Going? {
        TurnParksOnRecord(cfg, p, schedule, workflowRetry, st);
      }
    }
  }

  lemma TurnParksOnRecord(cfg: Config, p: Prog, schedule: Schedule, workflowRetry: Policy, st: RunState)
    requires st.Going?
    ensures ParkedOnRecord(Turn(cfg, p, schedule, workflowRetry, st))
  {
    var (outcome, job) := Attempt(cfg, p, st.job, schedule);
    if outcome.Throws? {
      TurnFollows(cfg, p, schedule, workflowRetry, st);
      AttemptRequestsOnRecord(cfg, p, st.job, schedule);
    }
  }

  lemma AttemptRequestsOnRecord(cfg: Config, p: Prog, job: Job, schedule: Schedule)
    ensures var (outcome, job') := Attempt(cfg, p, job, schedule);
            outcome.Throws? ==> RequestIsOnRecord(outcome.failure, job'.w)
  {
    ExecRequestsOnRecord(p, [], 0, Begun(job.w), Setup(schedule, false, cfg.defaultRetry));
    var (outcome, w) := RunOf(cfg, p, job, schedule);
    if outcome.Returned? {
      ConcludingAsksNothing(cfg, RunningJob(job, w), outcome.value, schedule);
    }
  }

  lemma ConcludingAsksNothing(cfg: Config, job: Job, value: Value, schedule: Schedule)
    ensures var outcome := Conclude(cfg, job, value, schedule).0;
            outcome.Throws? ==> !outcome.failure.SignalWaitRequested? && !outcome.failure.RetryRequested?
  {}

  /** How a run ended, as far as the outside world alone decides it. */
  ghost predicate EndsAsItMust(
    workflowRetry: Policy, schedule: Schedule, start: Job, n: nat, end: RunResult, after: Job)
  {
    && ParkedOnRecord(Over(after, end, 0))
    && (RunsCode(start) ==>
          var fault := schedule(start.w.pos).fault;
          && (AlwaysFails(schedule) ==>
                n == workflowRetry.maxAttempts && end == Rejected && FailsUntouched(start, after))
          && (fault == Some(NonRetryableThrown) ==> n == 1 && end == Rejected && FailsUntouched(start, after))
          && (fault.Some? && fault.value.SleepUntil? ==> n == 1 && end == Parked(Some(fault.value.wakeUpAt), None)))
  }

  lemma RunsEndAsTheyMust(cfg: Config, p: Prog, schedule: Schedule, workflowRetry: Policy, start: Job, n: nat)
    requires workflowRetry.maxAttempts >= 1 && Last(IsOver(cfg, p, schedule, workflowRetry, start), n)
    ensures var st := Turns(cfg, p, schedule, workflowRetry, start, n);
            EndsAsItMust(workflowRetry, schedule, start, n, st.result, st.job)
  {
    var isOver := IsOver(cfg, p, schedule, workflowRetry, start);
    RunsParkOnRecord(cfg, p, schedule, workflowRetry, start, n);
    if RunsCode(start) {
      var fault := schedule(start.w.pos).fault;
      FirstTurn(cfg, p, schedule, workflowRetry, start);
      if AlwaysFails(schedule) {
        AllAttemptsAreUsed(cfg, p, schedule, workflowRetry, start);
        OneLastTurn(cfg, p, schedule, workflowRetry, start, isOver, n, workflowRetry.maxAttempts);
      } else if fault == Some(NonRetryableThrown) {
        NonRetryableEndsTheRun(cfg, p, schedule, workflowRetry, start);
        OneLastTurn(cfg, p, schedule, workflowRetry, start, isOver, n, 1);
      } else if fault.Some? && fault.value.SleepUntil? {
        SleepParksTheRun(cfg, p, schedule, workflowRetry, start, fault.value.wakeUpAt);
        OneLastTurn(cfg, p, schedule, workflowRetry, start, isOver, n, 1);
      }
    }
  }

  lemma AllAttemptsAreUsed(cfg: Config, p: Prog, schedule: Schedule, workflowRetry: Policy, job: Job)
    requires RunsCode(job) && AlwaysFails(schedule) && workflowRetry.maxAttempts >= 1
    ensures Last(IsOver(cfg, p, schedule, workflowRetry, job), workflowRetry.maxAttempts)
    ensures var st := Turns(cfg, p, schedule, workflowRetry, job, workflowRetry.maxAttempts);
            && st.Over? && st.result == Rejected && FailsUntouched(job, st.job)
            && st.slept == TotalDelay(workflowRetry.baseMs, workflowRetry.strategy, workflowRetry.maxAttempts)
  {
    var n := workflowRetry.maxAttempts;
    FailingCodeUsesAllAttempts(cfg, p, schedule, workflowRetry, job, n);
    FailingCodeUsesAllAttempts(cfg, p, schedule, workflowRetry, job, n - 1);
  }
}
