/**
 * The `while (true)` of one `run`: it ends for every program and every schedule, after a number of turns
 * and a total sleep that the retry policies bound.
 */
module RunLoop {
  import opened Values
  import opened Keys
  import opened RetryPolicy
  import opened JobRecord
  import opened Program
  import opened Frames
  import opened RetryBudget
  import opened Lifecycle
  import opened Guarantees

  datatype RunResult =
    | Resolved(value: Value)
    | Rejected
    | Parked(until: Option<int>, awaited: Option<string>)
    | ProcessGone

  /** Between two turns, or at the end. `slept` adds up the backoff delays of this run. */
  datatype RunState =
    | Going(job: Job, failedAttempts: nat, slept: nat)
    | Over(job: Job, result: RunResult, slept: nat)

  /** One turn of the loop; `workflowRetry` is the resolved workflow-level policy. */
  ghost function Turn(cfg: Config, p: Prog, schedule: Schedule, workflowRetry: Policy, st: RunState): RunState
    requires st.Going?
  {
    var (outcome, job) := Attempt(cfg, p, st.job, schedule);
    match outcome
    case Completes(value) => Over(job, Resolved(value), st.slept)
    case Unpublished => Over(job, Rejected, st.slept)
    case Throws(failure) => AfterFailure(workflowRetry, st, failure, job)
  }

  /** The `catch` block of the loop. */
  ghost function AfterFailure(workflowRetry: Policy, st: RunState, failure: Failure, job: Job): RunState
    requires st.Going?
  {
    AfterReaction(workflowRetry, st, React(failure, st.failedAttempts + 1 >= workflowRetry.maxAttempts), job)
  }

  ghost function AfterReaction(workflowRetry: Policy, st: RunState, reaction: Reaction, job: Job): RunState
    requires st.Going?
  {
    match reaction
    case Dies => Over(job, ProcessGone, st.slept)
    case Parks(until, awaited) => Over(job, Parked(until, awaited), st.slept)
    case RetriesStep(request) =>
      Going(job, st.failedAttempts, st.slept + DelayMs(request.policy, request.failedAttempts))
    case RetriesWorkflow =>
      Going(job, st.failedAttempts + 1, st.slept + DelayMs(workflowRetry, st.failedAttempts + 1))
    case Fails => Over(FailedJob(job), Rejected, st.slept)
  }

  ghost function LoopBody(cfg: Config, p: Prog, schedule: Schedule, workflowRetry: Policy): RunState -> RunState {
    (st: RunState) => if st.Going? then Turn(cfg, p, schedule, workflowRetry, st) else st
  }

  /** Where a loop stands after at most `n` turns. */
  ghost function Iterate(body: RunState -> RunState, start: RunState, n: nat): RunState {
    if n == 0 then start
    else
      var st := Iterate(body, start, n - 1);
      if st.Over? then st else body(st)
  }

  ghost function Turns(cfg: Config, p: Prog, schedule: Schedule, workflowRetry: Policy, job: Job, n: nat): RunState {
    Iterate(LoopBody(cfg, p, schedule, workflowRetry), Going(job, 0, 0), n)
  }

  ghost predicate Runnable(cfg: Config, p: Prog, job: Job, o: Oracle) {
    Good(cfg, p, job, o) && job.w.rec.s != Cancelled
  }

  /** Retries still possible: those of open steps, and those of the workflow. */
  ghost function RetriesLeft(cfg: Config, p: Prog, workflowRetry: Policy, st: RunState, o: Oracle): int
    requires st.Going?
  {
    Budget(p, [], 0, Mem(st.job.w), o, cfg.defaultRetry, Each()) + workflowRetry.maxAttempts - 1 - st.failedAttempts
  }

  /** Sleep still possible. */
  ghost function SleepLeft(cfg: Config, p: Prog, workflowRetry: Policy, st: RunState, o: Oracle): int
    requires st.Going?
  {
    Budget(p, [], 0, Mem(st.job.w), o, cfg.defaultRetry, Delay())
    + TotalDelay(workflowRetry.baseMs, workflowRetry.strategy, workflowRetry.maxAttempts)
    - TotalDelay(workflowRetry.baseMs, workflowRetry.strategy, st.failedAttempts + 1)
  }

  lemma {:induction false} SpentIsMonotone(weight: Weight, a: seq<RetryRequest>, b: seq<RetryRequest>)
    requires a <= b
    ensures Spent(weight, a) <= Spent(weight, b)
    decreases |b|
  {
    if |a| == |b| {
      assert a == b;
    } else {
      assert a <= b[..|b| - 1];
      SpentIsMonotone(weight, a, b[..|b| - 1]);
    }
  }

  /** A failure that asks for a step retry has used up at least the weight of its request, any other none. */
  ghost predicate UsesBudget(cfg: Config, p: Prog, job: Job, job': Job, failure: Failure, o: Oracle, weight: Weight) {
    Budget(p, [], 0, Mem(job'.w), o, cfg.defaultRetry, weight)
    + (if failure.RetryRequested? then weight(failure.request) else 0)
    <= Budget(p, [], 0, Mem(job.w), o, cfg.defaultRetry, weight)
  }

  lemma FailedAttemptUsesBudget(cfg: Config, p: Prog, job: Job, schedule: Schedule, o: Oracle, weight: Weight)
    requires Runnable(cfg, p, job, o) && Attempt(cfg, p, job, schedule).0.Throws?
    requires Extends(o, Attempt(cfg, p, job, schedule).1.w.first)
    ensures var (outcome, job') := Attempt(cfg, p, job, schedule);
            UsesBudget(cfg, p, job, job', outcome.failure, o, weight)
  {
    var (outcome, job') := Attempt(cfg, p, job, schedule);
    AttemptBudget(cfg, p, job, schedule, false, o, weight);
    RetriesGrow(cfg, p, job, schedule, o);
    RequestIsSpent(weight, job.w.retries, job'.w.retries, outcome.failure);
  }

  lemma RequestIsSpent(weight: Weight, retries: seq<RetryRequest>, retries': seq<RetryRequest>, failure: Failure)
    requires retries <= retries'
    requires failure.RetryRequested? ==> |retries| < |retries'| && retries'[|retries'| - 1] == failure.request
    ensures Spent(weight, retries) + (if failure.RetryRequested? then weight(failure.request) else 0)
         <= Spent(weight, retries')
  {
    SpentIsMonotone(weight, retries, if failure.RetryRequested? then retries'[..|retries'| - 1] else retries');
  }

  lemma RetriesGrow(cfg: Config, p: Prog, job: Job, schedule: Schedule, o: Oracle)
    requires Runnable(cfg, p, job, o) && Extends(o, Attempt(cfg, p, job, schedule).1.w.first)
    ensures var (outcome, job') := Attempt(cfg, p, job, schedule);
            && job.w.retries <= job'.w.retries
            && (outcome.Throws? && outcome.failure.RetryRequested? ==>
                  && |job.w.retries| < |job'.w.retries|
                  && job'.w.retries[|job'.w.retries| - 1] == outcome.failure.request)
  {
    AttemptMemory(cfg, p, job, schedule, false, o);
    if job.w.rec.s != Completing {
      RunFrame(cfg, p, job, schedule);
      RaisedRequestIsLogged(p, [], 0, Begun(job.w), Setup(schedule, false, cfg.defaultRetry));
      OnlyCodeAsksForRetries(cfg, p, job, schedule);
    }
  }

  lemma OnlyCodeAsksForRetries(cfg: Config, p: Prog, job: Job, schedule: Schedule)
    ensures var outcome := Attempt(cfg, p, job, schedule).0;
            outcome.Throws? && outcome.failure.RetryRequested? ==>
              job.w.rec.s != Completing && RunOf(cfg, p, job, schedule).0 == Raised(outcome.failure)
  {}

  /** A turn either ends the run, or leaves fewer retries and no more sleep than before. */
  ghost predicate Progresses(cfg: Config, p: Prog, workflowRetry: Policy, st: RunState, st': RunState, o: Oracle)
    requires st.Going?
  {
    && Runnable(cfg, p, st'.job, o)
    && (st'.Going? ==>
          && st'.failedAttempts < workflowRetry.maxAttempts
          && RetriesLeft(cfg, p, workflowRetry, st', o) < RetriesLeft(cfg, p, workflowRetry, st, o)
          && st'.slept + SleepLeft(cfg, p, workflowRetry, st', o) <= st.slept + SleepLeft(cfg, p, workflowRetry, st, o))
    && (st'.Over? ==> st'.slept == st.slept && Truthful(p, st', o))
  }

  /** A run that gives a value gives the workflow's value, with the job completed. */
  ghost predicate Truthful(p: Prog, st: RunState, o: Oracle) {
    st.Over? && st.result.Resolved? ==>
      st.job.w.rec.s == Completed
      && st.result.value == Payload(Evaluate(p, [], 0, o))
  }

  lemma TurnKeeps(cfg: Config, p: Prog, schedule: Schedule, workflowRetry: Policy, st: RunState, o: Oracle)
    requires st.Going? && Runnable(cfg, p, st.job, o)
    requires st.failedAttempts < workflowRetry.maxAttempts
    requires Extends(o, Turn(cfg, p, schedule, workflowRetry, st).job.w.first)
    ensures Progresses(cfg, p, workflowRetry, st, Turn(cfg, p, schedule, workflowRetry, st), o)
  {
    var (outcome, job') := Attempt(cfg, p, st.job, schedule);
    TurnFirst(cfg, p, schedule, workflowRetry, st);
    AttemptGood(cfg, p, st.job, schedule, o);
    if outcome.Throws? {
      FailedAttemptUsesBudget(cfg, p, st.job, schedule, o, Each());
      FailedAttemptUsesBudget(cfg, p, st.job, schedule, o, Delay());
      AfterFailureKeeps(cfg, p, workflowRetry, st, outcome.failure, job', o);
    }
  }

  /** The reaction to a failure records nothing. */
  lemma TurnFirst(cfg: Config, p: Prog, schedule: Schedule, workflowRetry: Policy, st: RunState)
    requires st.Going?
    ensures Turn(cfg, p, schedule, workflowRetry, st).job.w.first == Attempt(cfg, p, st.job, schedule).1.w.first
  {
    var (outcome, job) := Attempt(cfg, p, st.job, schedule);
    if outcome.Throws? {
      AfterFailureFirst(workflowRetry, st, outcome.failure, job);
    }
  }

  lemma AfterFailureFirst(workflowRetry: Policy, st: RunState, failure: Failure, job: Job)
    requires st.Going?
    ensures AfterFailure(workflowRetry, st, failure, job).job.w.first == job.w.first
  {}

  lemma AfterFailureKeeps(
    cfg: Config, p: Prog, workflowRetry: Policy, st: RunState, failure: Failure, job: Job, o: Oracle)
    requires st.Going? && st.failedAttempts < workflowRetry.maxAttempts && Runnable(cfg, p, job, o)
    requires UsesBudget(cfg, p, st.job, job, failure, o, Each()) && UsesBudget(cfg, p, st.job, job, failure, o, Delay())
    ensures Progresses(cfg, p, workflowRetry, st, AfterFailure(workflowRetry, st, failure, job), o)
  {
    var exhausted := st.failedAttempts + 1 >= workflowRetry.maxAttempts;
    ReactionIsFair(failure, exhausted);
    ReactionKeeps(cfg, p, workflowRetry, st, failure, React(failure, exhausted), job, o);
  }

  /** A step is retried only if asked for, the workflow only while attempts remain. */
  lemma ReactionIsFair(failure: Failure, exhausted: bool)
    ensures var reaction := React(failure, exhausted);
            && (reaction.RetriesStep? ==> failure == RetryRequested(reaction.request))
            && (reaction.RetriesWorkflow? ==> !exhausted)
  {}

  lemma ReactionKeeps(
    cfg: Config, p: Prog, workflowRetry: Policy, st: RunState, failure: Failure, reaction: Reaction, job: Job,
    o: Oracle)
    requires st.Going? && st.failedAttempts < workflowRetry.maxAttempts && Runnable(cfg, p, job, o)
    requires UsesBudget(cfg, p, st.job, job, failure, o, Each()) && UsesBudget(cfg, p, st.job, job, failure, o, Delay())
    requires reaction.RetriesStep? ==> failure == RetryRequested(reaction.request)
    requires reaction.RetriesWorkflow? ==> st.failedAttempts + 1 < workflowRetry.maxAttempts
    ensures Progresses(cfg, p, workflowRetry, st, AfterReaction(workflowRetry, st, reaction, job), o)
  {
    match reaction
    case RetriesStep(request) => StepRetryKeeps(cfg, p, workflowRetry, st, request, job, o);
    case RetriesWorkflow => WorkflowRetryKeeps(cfg, p, workflowRetry, st, failure, job, o);
    case _ => EndKeeps(cfg, p, workflowRetry, st, AfterReaction(workflowRetry, st, reaction, job), job, o);
  }

  lemma EndKeeps(cfg: Config, p: Prog, workflowRetry: Policy, st: RunState, st': RunState, job: Job, o: Oracle)
    requires st.Going? && Runnable(cfg, p, job, o) && st'.Over? && !st'.result.Resolved? && st'.slept == st.slept
    requires st'.job == job || st'.job == FailedJob(job)
    ensures Progresses(cfg, p, workflowRetry, st, st', o)
  {
    FailedGood(cfg, p, job, o);
  }

  lemma StepRetryKeeps(
    cfg: Config, p: Prog, workflowRetry: Policy, st: RunState, request: RetryRequest, job: Job, o: Oracle)
    requires st.Going? && st.failedAttempts < workflowRetry.maxAttempts && Runnable(cfg, p, job, o)
    requires UsesBudget(cfg, p, st.job, job, RetryRequested(request), o, Each())
    requires UsesBudget(cfg, p, st.job, job, RetryRequested(request), o, Delay())
    ensures Progresses(cfg, p, workflowRetry, st,
              Going(job, st.failedAttempts, st.slept + DelayMs(request.policy, request.failedAttempts)), o)
  {}

  lemma WorkflowRetryKeeps(
    cfg: Config, p: Prog, workflowRetry: Policy, st: RunState, failure: Failure, job: Job, o: Oracle)
    requires st.Going? && st.failedAttempts + 1 < workflowRetry.maxAttempts && Runnable(cfg, p, job, o)
    requires UsesBudget(cfg, p, st.job, job, failure, o, Each()) && UsesBudget(cfg, p, st.job, job, failure, o, Delay())
    ensures Progresses(cfg, p, workflowRetry, st,
              Going(job, st.failedAttempts + 1, st.slept + DelayMs(workflowRetry, st.failedAttempts + 1)), o)
  {
    NextTotalDelay(workflowRetry, st.failedAttempts + 1);
  }

  lemma NextTotalDelay(policy: Policy, n: nat)
    requires n >= 1
    ensures TotalDelay(policy.baseMs, policy.strategy, n + 1)
         == TotalDelay(policy.baseMs, policy.strategy, n) + DelayMs(policy, n)
  {}

  ghost predicate NeverForgets(body: RunState -> RunState) {
    forall st: RunState {:trigger body(st)} :: Grows(st.job.w.first, body(st).job.w.first)
  }

  lemma {:induction false} IterateGrows(body: RunState -> RunState, start: RunState, m: nat, n: nat)
    requires m <= n && NeverForgets(body)
    ensures Grows(Iterate(body, start, m).job.w.first, Iterate(body, start, n).job.w.first)
    decreases n - m
  {
    if m < n {
      IterateGrows(body, start, m, n - 1);
      var st := Iterate(body, start, n - 1);
      assert Grows(st.job.w.first, body(st).job.w.first);
    }
  }

  lemma LoopBodyNeverForgets(cfg: Config, p: Prog, schedule: Schedule, workflowRetry: Policy)
    ensures NeverForgets(LoopBody(cfg, p, schedule, workflowRetry))
  {
    forall st: RunState
      ensures Grows(st.job.w.first, LoopBody(cfg, p, schedule, workflowRetry)(st).job.w.first)
    {
      if st.Going? {
        AttemptGrows(cfg, p, st.job, schedule);
        TurnFirst(cfg, p, schedule, workflowRetry, st);
      }
    }
  }

  /** `n` turns used up at least `n` of the retries possible at the start, and no more sleep than possible. */
  ghost predicate Bounded(cfg: Config, p: Prog, workflowRetry: Policy, job: Job, n: nat, st: RunState, o: Oracle) {
    var start := Going(job, 0, 0);
    && Runnable(cfg, p, st.job, o) && Truthful(p, st, o)
    && st.slept <= SleepLeft(cfg, p, workflowRetry, start, o)
    && (st.Going? ==>
          && st.failedAttempts < workflowRetry.maxAttempts
          && n + RetriesLeft(cfg, p, workflowRetry, st, o) <= RetriesLeft(cfg, p, workflowRetry, start, o)
          && st.slept + SleepLeft(cfg, p, workflowRetry, st, o) <= SleepLeft(cfg, p, workflowRetry, start, o))
  }

  lemma BoundedAtStart(cfg: Config, p: Prog, workflowRetry: Policy, job: Job, o: Oracle)
    requires workflowRetry.maxAttempts >= 1 && Runnable(cfg, p, job, o)
    ensures Bounded(cfg, p, workflowRetry, job, 0, Going(job, 0, 0), o)
  {
    SleepLeftIsNatural(cfg, p, workflowRetry, Going(job, 0, 0), o);
  }

  lemma BoundedAtEnd(cfg: Config, p: Prog, workflowRetry: Policy, job: Job, m: nat, n: nat, st: RunState, o: Oracle)
    requires st.Over? && Bounded(cfg, p, workflowRetry, job, m, st, o)
    ensures Bounded(cfg, p, workflowRetry, job, n, st, o)
  {}

  lemma BoundedNext(
    cfg: Config, p: Prog, workflowRetry: Policy, job: Job, n: nat, st: RunState, st': RunState, o: Oracle)
    requires n > 0 && st.Going? && Bounded(cfg, p, workflowRetry, job, n - 1, st, o)
    requires Progresses(cfg, p, workflowRetry, st, st', o)
    ensures Bounded(cfg, p, workflowRetry, job, n, st', o)
  {
    if st'.Going? {
      SleepLeftIsNatural(cfg, p, workflowRetry, st', o);
    } else {
      SleepLeftIsNatural(cfg, p, workflowRetry, st, o);
    }
  }

  /** The induction over turns. */
  lemma {:induction false} IterateInvariant(
    body: RunState -> RunState, start: RunState, n: nat, inv: (nat, RunState) -> bool)
    requires inv(0, start)
    requires forall m: nat, st: RunState {:trigger inv(m, st)} | inv(m, st) ::
               inv(m + 1, if st.Over? then st else body(st))
    ensures inv(n, Iterate(body, start, n))
  {
    if n > 0 {
      IterateInvariant(body, start, n - 1, inv);
      assert inv(n - 1, Iterate(body, start, n - 1));
    }
  }

  /**
   * After `n` turns the job is as good as it was, and turns and sleep are within what the retry policies of
   * the steps that were open at the start, and of the workflow, allow.
   */
  lemma TurnsAreBounded(
    cfg: Config, p: Prog, schedule: Schedule, workflowRetry: Policy, job: Job, n: nat, o: Oracle)
    requires workflowRetry.maxAttempts >= 1 && Runnable(cfg, p, job, o)
    requires Extends(o, Turns(cfg, p, schedule, workflowRetry, job, n).job.w.first)
    ensures Bounded(cfg, p, workflowRetry, job, n, Turns(cfg, p, schedule, workflowRetry, job, n), o)
  {
    var body := LoopBody(cfg, p, schedule, workflowRetry);
    LoopBodyNeverForgets(cfg, p, schedule, workflowRetry);
    BoundedAtStart(cfg, p, workflowRetry, job, o);
    var inv := (m: nat, st: RunState) => Extends(o, st.job.w.first) ==> Bounded(cfg, p, workflowRetry, job, m, st, o);
    forall m: nat, st: RunState | inv(m, st) ensures inv(m + 1, if st.Over? then st else body(st)) {
      BoundedTurn(cfg, p, schedule, workflowRetry, job, m + 1, st, o);
    }
    IterateInvariant(body, Going(job, 0, 0), n, inv);
  }

  lemma BoundedTurn(
    cfg: Config, p: Prog, schedule: Schedule, workflowRetry: Policy, job: Job, n: nat, st: RunState, o: Oracle)
    requires n > 0 && (Extends(o, st.job.w.first) ==> Bounded(cfg, p, workflowRetry, job, n - 1, st, o))
    ensures var st' := if st.Over? then st else Turn(cfg, p, schedule, workflowRetry, st);
            Extends(o, st'.job.w.first) ==> Bounded(cfg, p, workflowRetry, job, n, st', o)
  {
    if st.Over? {
      if Extends(o, st.job.w.first) {
        BoundedAtEnd(cfg, p, workflowRetry, job, n - 1, n, st, o);
      }
    } else {
      var st' := Turn(cfg, p, schedule, workflowRetry, st);
      LoopBodyNeverForgets(cfg, p, schedule, workflowRetry);
      assert LoopBody(cfg, p, schedule, workflowRetry)(st) == st';
      if Extends(o, st'.job.w.first) {
        TurnKeeps(cfg, p, schedule, workflowRetry, st, o);
        BoundedNext(cfg, p, workflowRetry, job, n, st, st', o);
      }
    }
  }

  lemma {:induction false} TotalDelayIsMonotone(policy: Policy, m: int, n: int)
    requires m <= n
    ensures TotalDelay(policy.baseMs, policy.strategy, m) <= TotalDelay(policy.baseMs, policy.strategy, n)
    decreases n - m
  {
    if m < n {
      TotalDelayIsMonotone(policy, m, n - 1);
    }
  }

  lemma SleepLeftIsNatural(cfg: Config, p: Prog, workflowRetry: Policy, st: RunState, o: Oracle)
    requires st.Going? && st.failedAttempts < workflowRetry.maxAttempts
    ensures SleepLeft(cfg, p, workflowRetry, st, o) >= 0
  {
    TotalDelayIsMonotone(workflowRetry, st.failedAttempts + 1, workflowRetry.maxAttempts);
  }

  // ---- Termination

  /** What the run would record if its loop never ended: the union over all turns. */
  ghost function Limit(cfg: Config, p: Prog, schedule: Schedule, workflowRetry: Policy, job: Job): Oracle {
    (k: Key) =>
      if exists n :: k in Turns(cfg, p, schedule, workflowRetry, job, n).job.w.first then
        var n :| k in Turns(cfg, p, schedule, workflowRetry, job, n).job.w.first;
        Turns(cfg, p, schedule, workflowRetry, job, n).job.w.first[k]
      else Undefined
  }

  lemma LimitExtendsEveryTurn(cfg: Config, p: Prog, schedule: Schedule, workflowRetry: Policy, job: Job, n: nat)
    ensures Extends(
              Limit(cfg, p, schedule, workflowRetry, job), Turns(cfg, p, schedule, workflowRetry, job, n).job.w.first)
  {
    var first := Turns(cfg, p, schedule, workflowRetry, job, n).job.w.first;
    LoopBodyNeverForgets(cfg, p, schedule, workflowRetry);
    forall k, m: nat | k in first && k in Turns(cfg, p, schedule, workflowRetry, job, m).job.w.first
      ensures Turns(cfg, p, schedule, workflowRetry, job, m).job.w.first[k] == first[k]
    {
      if m <= n {
        IterateGrows(LoopBody(cfg, p, schedule, workflowRetry), Going(job, 0, 0), m, n);
      } else {
        IterateGrows(LoopBody(cfg, p, schedule, workflowRetry), Going(job, 0, 0), n, m);
      }
    }
  }

  /** The loop of every run ends. */
  lemma RunTerminates(cfg: Config, p: Prog, schedule: Schedule, workflowRetry: Policy, job: Job)
    returns (n: nat)
    requires workflowRetry.maxAttempts >= 1
    requires Runnable(cfg, p, job, Limit(cfg, p, schedule, workflowRetry, job))
    ensures Turns(cfg, p, schedule, workflowRetry, job, n).Over?
    ensures n <= 1 + RetriesLeft(cfg, p, workflowRetry, Going(job, 0, 0), Limit(cfg, p, schedule, workflowRetry, job))
  {
    var o := Limit(cfg, p, schedule, workflowRetry, job);
    n := 1 + RetriesLeft(cfg, p, workflowRetry, Going(job, 0, 0), o);
    LimitExtendsEveryTurn(cfg, p, schedule, workflowRetry, job, n);
    TurnsAreBounded(cfg, p, schedule, workflowRetry, job, n, o);
  }

  /** A turn is one event in the life of the job. */
  lemma TurnIsAnEvent(cfg: Config, p: Prog, schedule: Schedule, workflowRetry: Policy, st: RunState)
    requires st.Going? && st.job.w.rec.s != Cancelled
    ensures Turn(cfg, p, schedule, workflowRetry, st).job
         == Happens(cfg, p, st.job, RunAttempt(schedule, st.failedAttempts + 1 >= workflowRetry.maxAttempts))
  {}

  lemma AttemptedIsNotCancelled(cfg: Config, p: Prog, events: seq<Event>, schedule: Schedule)
    requires Life(cfg, p, events).w.rec.s != Cancelled
    ensures Attempt(cfg, p, Life(cfg, p, events), schedule).1.w.rec.s != Cancelled
  {
    var job := Life(cfg, p, events);
    var o := Known(Attempt(cfg, p, job, schedule).1.w.first);
    AttemptGrows(cfg, p, job, schedule);
    LifeIsGood(cfg, p, events, o);
    AttemptGood(cfg, p, job, schedule, o);
  }

  /** `job` is what `events` and `more` attempts after them make of a new job. */
  ghost predicate LivesOn(cfg: Config, p: Prog, events: seq<Event>, more: seq<Event>, job: Job) {
    job == Life(cfg, p, events + more) && job.w.rec.s != Cancelled && forall event | event in more :: event.RunAttempt?
  }

  /** One more turn is one more event. */
  lemma TurnLivesOn(
    cfg: Config, p: Prog, schedule: Schedule, workflowRetry: Policy, st: RunState, events: seq<Event>, more: seq<Event>)
    returns (longer: seq<Event>)
    requires st.Going? && LivesOn(cfg, p, events, more, st.job)
    ensures |longer| == |more| + 1
    ensures LivesOn(cfg, p, events, longer, Turn(cfg, p, schedule, workflowRetry, st).job)
  {
    var event := RunAttempt(schedule, st.failedAttempts + 1 >= workflowRetry.maxAttempts);
    longer := more + [event];
    assert events + longer == (events + more) + [event];
    TurnIsAnEvent(cfg, p, schedule, workflowRetry, st);
    AttemptedIsNotCancelled(cfg, p, events + more, schedule);
    LifeGoesOn(cfg, p, events + more, event);
  }

  /** Some `n` attempts or fewer after `events` make `job`. */
  ghost predicate GoesOn(cfg: Config, p: Prog, events: seq<Event>, n: nat, job: Job) {
    exists more :: |more| <= n && LivesOn(cfg, p, events, more, job)
  }

  lemma TurnContinues(
    cfg: Config, p: Prog, schedule: Schedule, workflowRetry: Policy, st: RunState, events: seq<Event>, n: nat)
    requires GoesOn(cfg, p, events, n, st.job)
    ensures GoesOn(cfg, p, events, n + 1, (if st.Over? then st else Turn(cfg, p, schedule, workflowRetry, st)).job)
  {
    var more :| |more| <= n && LivesOn(cfg, p, events, more, st.job);
    if st.Going? {
      var longer := TurnLivesOn(cfg, p, schedule, workflowRetry, st, events, more);
    }
  }

  /** The turns of a run are attempts in the life of the job, so all that holds of lives holds of runs. */
  lemma TurnsAreEvents(
    cfg: Config, p: Prog, schedule: Schedule, workflowRetry: Policy, events: seq<Event>, job: Job, n: nat)
    requires job == Life(cfg, p, events) && job.w.rec.s != Cancelled
    ensures GoesOn(cfg, p, events, n, Turns(cfg, p, schedule, workflowRetry, job, n).job)
  {
    var body := LoopBody(cfg, p, schedule, workflowRetry);
    var inv := (m: nat, st: RunState) => GoesOn(cfg, p, events, m, st.job);
    assert inv(0, Going(job, 0, 0)) by {
      assert events + [] == events && LivesOn(cfg, p, events, [], job);
    }
    forall m: nat, st: RunState | inv(m, st) ensures inv(m + 1, if st.Over? then st else body(st)) {
      TurnContinues(cfg, p, schedule, workflowRetry, st, events, m);
    }
    IterateInvariant(body, Going(job, 0, 0), n, inv);
  }
}
