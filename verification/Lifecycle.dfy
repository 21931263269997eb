/**
 * The life of a job as a transition system: attempts of the engine's run loop, which may be cut short
 * anywhere, signals and cancellation, in any order and number. They do not overlap.
 */
module Lifecycle {
  import opened Values
  import opened Keys
  import opened RetryPolicy
  import opened JobRecord
  import opened Program
  import opened Frames
  import opened Replay
  import opened Invariants

  /** `publishes`: the workflow has result-queue options and the module has a result queue. */
  datatype Config = Config(defaultRetry: RetryOptions, publishes: bool)

  /**
   * A job with its world, the payloads handed to the result queue, oldest first, and the status on disk. The
   * rest of the record on disk is as in memory: only a status set before a refused result is not written.
   */
  datatype Job = Job(w: World, sent: seq<Value>, saved: Status)

  /** Stands for the message of whatever error made the job fail; the texts are not modelled. */
  const ERROR_TEXT := "error"

  const NEW_JOB := Job(World(INITIAL, 0, 0, map[], [], []), [], Pending)

  datatype AttemptOutcome =
    | Completes(value: Value)
    | Unpublished          // the publish or finalize stage failed; the engine rethrows
    | Throws(failure: Failure)

  type Schedule = nat -> Choice

  /** `finalizePublishingResult`: publish what is stored, then complete; either may fail or be cut short. */
  ghost function Finalize(job: Job, schedule: Schedule): (AttemptOutcome, Job) {
    var result := if job.w.rec.r.Some? then job.w.rec.r.value else Undefined;
    var w1 := Ticked(job.w);
    if schedule(job.w.pos).fault.Some? then (Unpublished, job.(w := w1))
    else
      var published, w2 := job.(w := w1, sent := job.sent + [result]), Ticked(w1);
      if schedule(w1.pos).fault.Some? then (Unpublished, published.(w := w2))
      else (Completes(result), published.(w := w2.(rec := MarkCompletedFromStoredResult(w2.rec)), saved := Completed))
  }

  /**
   * After user code has returned: check the trace, persist the result, publish it if configured. The status
   * is set before the result is serialized, and a result the serializer refuses leaves it set in memory.
   */
  ghost function Conclude(cfg: Config, job: Job, value: Value, schedule: Schedule): (AttemptOutcome, Job) {
    var fault, ticked := schedule(job.w.pos).fault, job.(w := Ticked(job.w));
    if job.w.cursor != |job.w.rec.t| then (Throws(NonDeterminism), job)
    else if fault.Some? then (Throws(Fault(fault.value)), ticked)
    else HandOver(cfg, WithResult(cfg, ticked, value), value, schedule)
  }

  /** The status that storing a result sets before the result is serialized. */
  function EarlyStatus(cfg: Config): Status {
    if cfg.publishes then Completing else Completed
  }

  ghost function WithResult(cfg: Config, job: Job, value: Value): Job {
    if !Supported(value) then job.(w := job.w.(rec := job.w.rec.(s := EarlyStatus(cfg))))
    else if cfg.publishes then job.(w := job.w.(rec := MarkPublishingResult(job.w.rec, value)), saved := Completing)
    else job.(w := job.w.(rec := MarkCompleted(job.w.rec, value)), saved := Completed)
  }

  ghost function HandOver(cfg: Config, job: Job, value: Value, schedule: Schedule): (AttemptOutcome, Job) {
    if !Supported(value) then (Throws(Unserializable), job)
    else if cfg.publishes then
      var (outcome, job') := Finalize(job, schedule);
      (if outcome.Completes? then Completes(value) else outcome, job')
    else (Completes(value), job)
  }

  /** The world an attempt starts in: from the top, with nothing of the trace consumed. */
  function Begun(w: World): World {
    w.(rec := MarkRunning(w.rec), cursor := 0)
  }

  /** The code of an attempt, run from the top. */
  function RunOf(cfg: Config, p: Prog, job: Job, schedule: Schedule): (Outcome, World) {
    Exec(p, [], 0, Begun(job.w), Setup(schedule, false, cfg.defaultRetry))
  }

  /** The job when its code has come to an end, one way or the other. */
  function RunningJob(job: Job, w: World): Job {
    job.(w := w, saved := Running)
  }

  /** One turn of the run loop for a job that is not cancelled. */
  ghost function Attempt(cfg: Config, p: Prog, job: Job, schedule: Schedule): (AttemptOutcome, Job) {
    if job.w.rec.s == Completing then Finalize(job, schedule)
    else
      var (outcome, w) := RunOf(cfg, p, job, schedule);
      match outcome
      case Returned(value) => Conclude(cfg, RunningJob(job, w), value, schedule)
      case Raised(failure) => (Throws(failure), RunningJob(job, w))
  }

  /** How the run loop goes on after a failure. */
  datatype Reaction =
    | Dies
    | Parks(until: Option<int>, awaited: Option<string>)   // `awaited`: the signal, unless the job just sleeps
    | RetriesStep(request: RetryRequest)
    | RetriesWorkflow
    | Fails

  /** `exhausted`: no workflow-level attempt remains. */
  function React(failure: Failure, exhausted: bool): Reaction {
    match failure
    case Fault(ProcessDied) => Dies
    case Fault(SleepUntil(wakeUpAt)) => Parks(Some(wakeUpAt), None)
    case SignalWaitRequested(signal, expiresAt) => Parks(expiresAt, Some(signal))
    case RetryRequested(request) => RetriesStep(request)
    case Fault(NonRetryableThrown) => Fails
    case _ => if exhausted then Fails else RetriesWorkflow
  }

  ghost function AfterAttempt(outcome: AttemptOutcome, job: Job, exhausted: bool): Job {
    if outcome.Throws? && React(outcome.failure, exhausted) == Fails then FailedJob(job) else job
  }

  function FailedJob(job: Job): Job {
    job.(w := job.w.(rec := MarkFailed(job.w.rec, ERROR_TEXT)), saved := Failed)
  }

  /** `Reload`: the process is gone, and another one reads the job from the queue. */
  datatype Event =
    | RunAttempt(schedule: Schedule, exhausted: bool)
    | RunUnregistered
    | SendSignal(name: string, payload: Value)
    | Cancel
    | Reload

  function Deliver(job: Job, name: string, payload: Value): Job {
    if name !in job.w.rec.ps || !Supported(payload) then job
    else job.(w := job.w.(rec := DeliverSignal(job.w.rec, name, payload),
                          first := RecordFirst(job.w.first, job.w.rec.ps[name].stepKey, payload)),
                  saved := job.w.rec.s)
  }

  function Cancellation(job: Job): Job {
    if job.w.rec.s == Pending then job.(w := job.w.(rec := MarkCancelled(job.w.rec)), saved := Cancelled) else job
  }

  function Reloaded(job: Job): Job {
    job.(w := job.w.(rec := job.w.rec.(s := job.saved)))
  }

  ghost function Happens(cfg: Config, p: Prog, job: Job, event: Event): Job {
    match event
    case RunAttempt(schedule, exhausted) =>
      if job.w.rec.s == Cancelled then job
      else
        var (outcome, job') := Attempt(cfg, p, job, schedule);
        AfterAttempt(outcome, job', exhausted)
    case RunUnregistered =>
      if job.w.rec.s == Cancelled then job else FailedJob(job)
    case SendSignal(name, payload) => Deliver(job, name, payload)
    case Cancel => Cancellation(job)
    case Reload => Reloaded(job)
  }

  /** The job after these events, oldest first. */
  ghost function Life(cfg: Config, p: Prog, events: seq<Event>): Job {
    if events == [] then NEW_JOB
    else Happens(cfg, p, Life(cfg, p, events[..|events| - 1]), events[|events| - 1])
  }

  // ---- What holds at every moment

  ghost predicate RootUnused(m: Memory) {
    forall k: Key :: k.path == [] ==> At(m, k) == EMPTY
  }

  ghost predicate Agrees(cfg: Config, p: Prog, w: World, o: Oracle) {
    Ok(p, [], 0, Mem(w), o, cfg.defaultRetry, w.rec.t) && RootUnused(Mem(w)) && Tidy(w.rec)
  }

  ghost predicate Done(p: Prog, w: World, o: Oracle) {
    Finished(p, [], 0, Mem(w), o)
  }

  /** What a workflow hands over: its value, or `undefined` where the serializer refuses that. */
  function Payload(value: Value): Value {
    if Supported(value) then value else Undefined
  }

  /** What is stored of it. */
  function StoredForm(value: Value): Option<Value> {
    if Supported(value) then Some(value) else None
  }

  /** Status, stored result and outbox. */
  ghost predicate TellsTruth(cfg: Config, p: Prog, job: Job, o: Oracle) {
    var rec, value := job.w.rec, Evaluate(p, [], 0, o);
    && (rec.s == Completing || rec.s == Completed ==> rec.r == StoredForm(value) && Done(p, job.w, o))
    && (!Supported(value) ==> rec.r == None)
    && (forall v | v in job.sent :: v == Payload(value))
    && (job.sent != [] ==> Done(p, job.w, o))
    && (rec.s == Completing ==> cfg.publishes)
    && (rec.s == Completed && cfg.publishes ==> job.sent != [])
  }

  /** The status on disk is that in memory, except after a refused result. */
  ghost predicate SavedUnlessRefused(cfg: Config, p: Prog, job: Job, o: Oracle) {
    var refused := job.w.rec.s == EarlyStatus(cfg) && !Supported(Evaluate(p, [], 0, o));
    job.saved == if refused then Running else job.w.rec.s
  }

  predicate Untried(job: Job) {
    job.w.rec.t == [] && job.w.started == [] && job.w.first == map[] && job.sent == []
  }

  ghost predicate Good(cfg: Config, p: Prog, job: Job, o: Oracle) {
    && Agrees(cfg, p, job.w, o)
    && (job.w.rec.s == Pending || job.w.rec.s == Cancelled ==> Untried(job))
    && TellsTruth(cfg, p, job, o) && SavedUnlessRefused(cfg, p, job, o)
  }

  /** The job is as reachable jobs are, whatever its open steps will still return. */
  ghost predicate Sound(cfg: Config, p: Prog, job: Job) {
    forall o: Oracle {:trigger Extends(o, job.w.first)} | Extends(o, job.w.first) :: Good(cfg, p, job, o)
  }

  lemma NewJobIsGood(cfg: Config, p: Prog, o: Oracle)
    ensures Good(cfg, p, NEW_JOB, o)
  {}

  /** On agreeing records compaction has nothing to remove. */
  lemma CompactionIsNoOp(cfg: Config, p: Prog, w: World, o: Oracle)
    requires Agrees(cfg, p, w, o)
    ensures Compacted(w.rec) == w.rec
  {
    forall k | HasCachedAncestor(w.rec, k) ensures !HasStep(w.rec, k) && k !in w.rec.a {
      var a :| HasStep(w.rec, a) && Inside(a.path, k);
      assert At(Mem(w), a).result.Some?;
      assert Below([], 0, a) && Below([], 0, k);
      if At(Mem(w), k).result.Some? || At(Mem(w), k).failures > 0 {
        ResultsDoNotNest(p, [], 0, Mem(w), o, cfg.defaultRetry, w.rec.t, a, k);
      }
    }
    assert Compacted(w.rec).c == w.rec.c && Compacted(w.rec).u == w.rec.u && Compacted(w.rec).a == w.rec.a;
  }

  /** What running the code from the top keeps, whatever the job. */
  lemma RunFrame(cfg: Config, p: Prog, job: Job, schedule: Schedule)
    ensures var w := RunOf(cfg, p, job, schedule).1;
            && Grows(job.w.first, w.first) && job.w.rec.t <= w.rec.t
            && job.w.started <= w.started && job.w.retries <= w.retries
            && w.rec.s == Running && w.rec.r == job.w.rec.r && (Tidy(job.w.rec) ==> Tidy(w.rec))
  {
    ExecFrame(p, [], 0, Begun(job.w), Setup(schedule, false, cfg.defaultRetry));
    ExecTidy(p, [], 0, Begun(job.w), Setup(schedule, false, cfg.defaultRetry));
  }

  lemma AttemptFirst(cfg: Config, p: Prog, job: Job, schedule: Schedule)
    ensures Attempt(cfg, p, job, schedule).1.w.first
         == if job.w.rec.s == Completing then job.w.first else RunOf(cfg, p, job, schedule).1.first
  {
    var (outcome, w) := RunOf(cfg, p, job, schedule);
    ConcludeKeepsFirst(cfg, RunningJob(job, w), schedule);
  }

  lemma BegunAgrees(p: Prog, w: World, o: Oracle, d: RetryOptions)
    requires Ok(p, [], 0, Mem(w), o, d, w.rec.t)
    ensures Mem(Begun(w)) == Mem(w)
    ensures Ok(p, [], 0, Mem(Begun(w)), o, d, Begun(w).rec.t[Begun(w).cursor..])
  {
    assert w.rec.t[0..] == w.rec.t;
  }

  /** What running the code makes of an agreeing record. */
  lemma RunAgrees(cfg: Config, p: Prog, job: Job, schedule: Schedule, o: Oracle)
    requires Agrees(cfg, p, job.w, o) && Extends(o, RunOf(cfg, p, job, schedule).1.first)
    ensures var (outcome, w) := RunOf(cfg, p, job, schedule);
            && Agrees(cfg, p, w, o)
            && (outcome.Returned? ==> outcome.value == Evaluate(p, [], 0, o) && w.cursor == |w.rec.t| && Done(p, w, o))
            && (outcome.Raised? ==> Honest(outcome.failure))
  {
    var x := Setup(schedule, false, cfg.defaultRetry);
    BegunAgrees(p, job.w, o, cfg.defaultRetry);
    ExecOk(p, [], 0, Begun(job.w), x, o);
    ExecFrame(p, [], 0, Begun(job.w), x);
    RunFrame(cfg, p, job, schedule);
    var w := RunOf(cfg, p, job, schedule).1;
    assert w.rec.t[0..] == w.rec.t;
  }

  /** Running finished code again moves nothing but the cursor; without faults it gives the same value. */
  lemma RunReplays(cfg: Config, p: Prog, job: Job, schedule: Schedule, o: Oracle)
    requires Agrees(cfg, p, job.w, o) && Done(p, job.w, o)
    ensures var (outcome, w) := RunOf(cfg, p, job, schedule);
            && w == Begun(job.w).(cursor := w.cursor, pos := w.pos) && Mem(w) == Mem(job.w)
            && ((forall n :: schedule(n).fault.None?) ==>
                  outcome == Returned(Evaluate(p, [], 0, o)) && w.cursor == |w.rec.t|)
  {
    BegunAgrees(p, job.w, o, cfg.defaultRetry);
    FinishedReplays(p, [], 0, Begun(job.w), Setup(schedule, false, cfg.defaultRetry), o);
  }

  /** A completed status, with the stored result published where it has to be, is good. */
  lemma CompletedGood(cfg: Config, p: Prog, job: Job, rec: Record, o: Oracle)
    requires Agrees(cfg, p, job.w, o) && Done(p, job.w, o)
    requires rec == job.w.rec.(s := Completed, r := StoredForm(Evaluate(p, [], 0, o)), e := None)
    requires forall v | v in job.sent :: v == Payload(Evaluate(p, [], 0, o))
    requires if cfg.publishes then job.sent != [] else Supported(Evaluate(p, [], 0, o))
    ensures Compacted(rec) == rec && Good(cfg, p, job.(w := job.w.(rec := rec), saved := Completed), o)
  {
    var w := job.w.(rec := rec);
    assert Mem(w) == Mem(job.w);
    CompactionIsNoOp(cfg, p, w, o);
  }

  /** What an attempt leaves behind, and what it may claim. */
  ghost predicate AttemptedGood(cfg: Config, p: Prog, r: (AttemptOutcome, Job), o: Oracle) {
    && Good(cfg, p, r.1, o) && r.1.w.rec.s != Pending && r.1.w.rec.s != Cancelled
    && (r.0.Completes? ==> r.1.w.rec.s == Completed && r.0.value == Payload(Evaluate(p, [], 0, o)))
    && (r.0.Throws? ==> Honest(r.0.failure))
    && (r.1.saved != r.1.w.rec.s ==> r.0 == Throws(Unserializable) || r.0.Unpublished?)
  }

  /** Time passing and publishing what is stored are good for a completing job. */
  lemma StillCompletingGood(cfg: Config, p: Prog, job: Job, job': Job, o: Oracle)
    requires Good(cfg, p, job, o) && job.w.rec.s == Completing
    requires job' == job.(w := job.w.(pos := job'.w.pos), sent := job'.sent)
    requires job'.sent == job.sent || job'.sent == job.sent + [Payload(Evaluate(p, [], 0, o))]
    ensures Good(cfg, p, job', o)
  {
    assert Mem(job'.w) == Mem(job.w);
  }

  lemma FinalizeGood(cfg: Config, p: Prog, job: Job, schedule: Schedule, o: Oracle)
    requires Good(cfg, p, job, o) && job.w.rec.s == Completing
    ensures AttemptedGood(cfg, p, Finalize(job, schedule), o)
  {
    var w1, w2, sent := Ticked(job.w), Ticked(Ticked(job.w)), job.sent + [Payload(Evaluate(p, [], 0, o))];
    if schedule(job.w.pos).fault.Some? {
      StillCompletingGood(cfg, p, job, job.(w := w1), o);
    } else {
      StillCompletingGood(cfg, p, job, job.(w := w2, sent := sent), o);
      if schedule(w1.pos).fault.None? {
        FinalizedGood(cfg, p, job.(w := w2, sent := sent), o);
      }
    }
  }

  lemma FinalizedGood(cfg: Config, p: Prog, job: Job, o: Oracle)
    requires Good(cfg, p, job, o) && job.w.rec.s == Completing && job.sent != []
    ensures Good(cfg, p, job.(w := job.w.(rec := MarkCompletedFromStoredResult(job.w.rec)), saved := Completed), o)
  {
    CompletedGood(cfg, p, job, job.w.rec.(s := Completed, e := None), o);
  }

  /** A refused result leaves the job with a status it has not saved and no stored result. */
  lemma RefusedResultGood(cfg: Config, p: Prog, job: Job, o: Oracle)
    requires Good(cfg, p, job, o) && !Supported(Evaluate(p, [], 0, o)) && Done(p, job.w, o)
    requires job.w.rec.s == job.saved == Running
    ensures Good(cfg, p, job.(w := job.w.(rec := job.w.rec.(s := EarlyStatus(cfg)))), o)
  {
    assert Mem(job.w.(rec := job.w.rec.(s := EarlyStatus(cfg)))) == Mem(job.w);
  }

  /** A finished, running job with its result stored, or refused. */
  lemma WithResultGood(cfg: Config, p: Prog, job: Job, value: Value, o: Oracle)
    requires Good(cfg, p, job, o) && job.w.rec.s == job.saved == Running && Done(p, job.w, o)
    requires value == Evaluate(p, [], 0, o)
    ensures Good(cfg, p, WithResult(cfg, job, value), o) && WithResult(cfg, job, value).w.rec.s == EarlyStatus(cfg)
    ensures Supported(value) ==> WithResult(cfg, job, value).saved == EarlyStatus(cfg)
  {
    if !Supported(value) {
      RefusedResultGood(cfg, p, job, o);
    } else if cfg.publishes {
      assert Mem(WithResult(cfg, job, value).w) == Mem(job.w);
    } else {
      CompletedGood(cfg, p, job, job.w.rec.(s := Completed, r := Some(value), e := None), o);
    }
  }

  lemma ConcludeGood(cfg: Config, p: Prog, job: Job, value: Value, schedule: Schedule, o: Oracle)
    requires Good(cfg, p, job, o) && job.w.rec.s == job.saved == Running && Done(p, job.w, o)
    requires value == Evaluate(p, [], 0, o) && job.w.cursor == |job.w.rec.t|
    ensures AttemptedGood(cfg, p, Conclude(cfg, job, value, schedule), o)
  {
    var ticked := job.(w := Ticked(job.w));
    TickedGood(cfg, p, job, o);
    if schedule(job.w.pos).fault.None? {
      WithResultGood(cfg, p, ticked, value, o);
      HandOverGood(cfg, p, WithResult(cfg, ticked, value), value, schedule, o);
    }
  }

  lemma TickedGood(cfg: Config, p: Prog, job: Job, o: Oracle)
    requires Good(cfg, p, job, o)
    ensures Good(cfg, p, job.(w := Ticked(job.w)), o) && Mem(Ticked(job.w)) == Mem(job.w)
  {}

  lemma HandOverGood(cfg: Config, p: Prog, job: Job, value: Value, schedule: Schedule, o: Oracle)
    requires Good(cfg, p, job, o) && job.w.rec.s == EarlyStatus(cfg) && value == Evaluate(p, [], 0, o)
    requires Supported(value) ==> job.saved == job.w.rec.s
    ensures AttemptedGood(cfg, p, HandOver(cfg, job, value, schedule), o)
  {
    if cfg.publishes {
      FinalizeGood(cfg, p, job, schedule, o);
    }
  }

  /** The job with its code at an end is as good as before. */
  lemma RunIsGood(cfg: Config, p: Prog, job: Job, schedule: Schedule, o: Oracle)
    requires Good(cfg, p, job, o) && Extends(o, RunOf(cfg, p, job, schedule).1.first)
    ensures var (outcome, w) := RunOf(cfg, p, job, schedule);
            && Good(cfg, p, RunningJob(job, w), o) && w.rec.s == Running
            && (outcome.Returned? ==> outcome.value == Evaluate(p, [], 0, o) && w.cursor == |w.rec.t| && Done(p, w, o))
            && (outcome.Raised? ==> Honest(outcome.failure))
  {
    var w := RunOf(cfg, p, job, schedule).1;
    RunAgrees(cfg, p, job, schedule, o);
    RunFrame(cfg, p, job, schedule);
    if Done(p, job.w, o) {
      RunReplays(cfg, p, job, schedule, o);
    }
    RunningGood(cfg, p, job, w, o);
  }

  lemma RunningGood(cfg: Config, p: Prog, job: Job, w: World, o: Oracle)
    requires Good(cfg, p, job, o) && Agrees(cfg, p, w, o) && w.rec.s == Running && w.rec.r == job.w.rec.r
    requires Done(p, job.w, o) ==> Done(p, w, o)
    ensures Good(cfg, p, RunningJob(job, w), o)
  {}

  lemma AttemptGood(cfg: Config, p: Prog, job: Job, schedule: Schedule, o: Oracle)
    requires Good(cfg, p, job, o) && Extends(o, Attempt(cfg, p, job, schedule).1.w.first)
    ensures AttemptedGood(cfg, p, Attempt(cfg, p, job, schedule), o)
  {
    if job.w.rec.s == Completing {
      FinalizeGood(cfg, p, job, schedule, o);
    } else {
      AttemptFirst(cfg, p, job, schedule);
      RunIsGood(cfg, p, job, schedule, o);
      var (outcome, w) := RunOf(cfg, p, job, schedule);
      if outcome.Returned? {
        ConcludeGood(cfg, p, RunningJob(job, w), outcome.value, schedule, o);
      }
    }
  }

  /** What another process finds is as good. */
  lemma ReloadedGood(cfg: Config, p: Prog, job: Job, o: Oracle)
    requires Good(cfg, p, job, o)
    ensures Good(cfg, p, Reloaded(job), o)
  {
    assert Mem(Reloaded(job).w) == Mem(job.w);
  }

  lemma FailedGood(cfg: Config, p: Prog, job: Job, o: Oracle)
    requires Good(cfg, p, job, o)
    ensures Good(cfg, p, FailedJob(job), o)
  {
    assert Mem(FailedJob(job).w) == Mem(job.w);
  }

  lemma ConcludeKeepsFirst(cfg: Config, job: Job, schedule: Schedule)
    ensures forall value :: Conclude(cfg, job, value, schedule).1.w.first == job.w.first
  {}
}
