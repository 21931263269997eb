/** The promises of the engine, for every program and every sequence of events in a job's life. */
module Theorems {
  import opened Values
  import opened Keys
  import opened JobRecord
  import opened Program
  import opened Frames
  import opened Replay
  import opened Invariants
  import opened RetryBudget
  import opened Lifecycle
  import opened Guarantees

  // ---- Replay

  /**
   * However often a job failed, parked, was retried or died before, an attempt that completes hands over what
   * direct evaluation gives when every outside step takes the value of its first recorded success: that
   * value itself exactly if the serializer accepts it. No attempt raises a replay conflict or nondeterminism
   * error, and the trace is always a prefix of the program's preorder key list.
   */
  lemma EveryRunAgreesWithEvaluation(cfg: Config, p: Prog, events: seq<Event>, schedule: Schedule, o: Oracle)
    requires Life(cfg, p, events).w.rec.s != Cancelled
    requires Extends(o, Attempt(cfg, p, Life(cfg, p, events), schedule).1.w.first)
    ensures var (outcome, job') := Attempt(cfg, p, Life(cfg, p, events), schedule);
            && (outcome.Completes? ==>
                  && outcome.value == Payload(Evaluate(p, [], 0, o)) && job'.w.rec.t == Preorder(p, [], 0, o)
                  && (outcome.value == Evaluate(p, [], 0, o) <==> Supported(Evaluate(p, [], 0, o))))
            && (outcome.Throws? ==> Honest(outcome.failure))
            && job'.w.rec.t <= Preorder(p, [], 0, o)
  {
    var job := Life(cfg, p, events);
    AttemptGrows(cfg, p, job, schedule);
    LifeIsGood(cfg, p, events, o);
    AttemptGood(cfg, p, job, schedule, o);
    TraceOfGoodJob(cfg, p, Attempt(cfg, p, job, schedule).1, o);
  }

  lemma TraceOfGoodJob(cfg: Config, p: Prog, job: Job, o: Oracle)
    requires Good(cfg, p, job, o)
    ensures job.w.rec.t <= Preorder(p, [], 0, o)
    ensures job.sent != [] || job.w.rec.s in {Completing, Completed} ==> job.w.rec.t == Preorder(p, [], 0, o)
  {
    TraceIsPrefix(p, [], 0, Mem(job.w), o, cfg.defaultRetry, job.w.rec.t);
    if Done(p, job.w, o) {
      FinishedTrace(p, [], 0, Mem(job.w), o, cfg.defaultRetry, job.w.rec.t);
    }
  }

  /** Any two completions of a job return the same value, whatever happens between them. */
  lemma CompletionsAgree(cfg: Config, p: Prog, early: seq<Event>, events: seq<Event>, first: Schedule, second: Schedule)
    requires early + [RunAttempt(first, false)] <= events
    requires Life(cfg, p, early).w.rec.s != Cancelled && Attempt(cfg, p, Life(cfg, p, early), first).0.Completes?
    requires Life(cfg, p, events).w.rec.s != Cancelled && Attempt(cfg, p, Life(cfg, p, events), second).0.Completes?
    ensures Attempt(cfg, p, Life(cfg, p, early), first).0.value == Attempt(cfg, p, Life(cfg, p, events), second).0.value
  {
    var o := Known(Attempt(cfg, p, Life(cfg, p, events), second).1.w.first);
    AttemptGrows(cfg, p, Life(cfg, p, events), second);
    EarlyIsKnown(cfg, p, early, events, first, o);
    EveryRunAgreesWithEvaluation(cfg, p, early, first, o);
    EveryRunAgreesWithEvaluation(cfg, p, events, second, o);
  }

  /** What an early attempt recorded is still known later. */
  lemma EarlyIsKnown(cfg: Config, p: Prog, early: seq<Event>, events: seq<Event>, schedule: Schedule, o: Oracle)
    requires early + [RunAttempt(schedule, false)] <= events && Life(cfg, p, early).w.rec.s != Cancelled
    requires Extends(o, Life(cfg, p, events).w.first)
    ensures Extends(o, Attempt(cfg, p, Life(cfg, p, early), schedule).1.w.first)
  {
    var n := |early| + 1;
    LifeAdvances(cfg, p, events, n, o);
    assert events[..n] == early + [RunAttempt(schedule, false)];
    LifeGoesOn(cfg, p, early, RunAttempt(schedule, false));
  }

  /** Value keys and undefined-keys are disjoint, and nothing recorded lies under a recorded result. */
  lemma CacheInvariant(cfg: Config, p: Prog, events: seq<Event>)
    ensures var rec := Life(cfg, p, events).w.rec;
            && rec.c.Keys !! rec.u
            && (forall k | HasCachedAncestor(rec, k) :: !HasStep(rec, k) && k !in rec.a)
            && (forall k | HasStep(rec, k) || k in rec.a :: k in rec.t)
            && Compacted(rec) == rec
  {
    var w, o := Life(cfg, p, events).w, Known(Life(cfg, p, events).w.first);
    LifeIsGood(cfg, p, events, o);
    CompactionIsNoOp(cfg, p, w, o);
    forall k | HasStep(w.rec, k) || k in w.rec.a ensures k in w.rec.t {
      assert At(Mem(w), k).result.Some? || At(Mem(w), k).failures > 0;
      RecordedIsTraced(p, [], 0, Mem(w), o, cfg.defaultRetry, w.rec.t, k);
    }
    assert forall k | HasCachedAncestor(w.rec, k) :: k !in Compacted(w.rec).a && !HasStep(Compacted(w.rec), k);
  }

  /**
   * Whatever step or wait holds a result at moment `n` is covered ever after, and as long as it holds a result
   * of its own it is that one: a wait resolves once, and every later replay reads what it resolved to.
   */
  lemma RecordedResultsNeverChange(cfg: Config, p: Prog, events: seq<Event>, n: nat, k: Key)
    requires n <= |events| && HasStep(Life(cfg, p, events[..n]).w.rec, k)
    ensures var rec, w := Life(cfg, p, events[..n]).w.rec, Life(cfg, p, events).w;
            Covered(Mem(w), k) && (HasStep(w.rec, k) ==> GetStepResult(w.rec, k) == GetStepResult(rec, k))
  {
    var w, w' := Life(cfg, p, events[..n]).w, Life(cfg, p, events).w;
    var o := Known(w'.first);
    LifeAdvances(cfg, p, events, n, o);
    LifeIsGood(cfg, p, events[..n], o);
    LifeIsGood(cfg, p, events, o);
    assert At(Mem(w), k).result.Some?;
    assert Covered(Mem(w), k);
    assert Below([], 0, k);
    if HasStep(w'.rec, k) {
      ResultIsDetermined(p, [], 0, Mem(w), Mem(w'), o, cfg.defaultRetry, w.rec.t, w'.rec.t, k);
    }
  }

  /**
   * Running a completed job again starts no body and changes neither cache, trace, counters nor signals.
   * Without faults it is completed again, on disk and with the same result, exactly if that can be stored.
   */
  lemma RerunIsPureReplay(cfg: Config, p: Prog, events: seq<Event>, schedule: Schedule, exhausted: bool, o: Oracle)
    requires Life(cfg, p, events).w.rec.s == Completed && Extends(o, Life(cfg, p, events).w.first)
    ensures var w := Life(cfg, p, events).w;
            var job' := Happens(cfg, p, Life(cfg, p, events), RunAttempt(schedule, exhausted));
            && SameProgress(w, job'.w)
            && ((forall n :: schedule(n).fault.None?) ==>
                  (job'.saved == Completed && job'.w.rec.r == w.rec.r <==> Supported(Evaluate(p, [], 0, o))))
  {
    var job := Life(cfg, p, events);
    LifeIsGood(cfg, p, events, o);
    RunReplays(cfg, p, job, schedule, o);
    AttemptFirst(cfg, p, job, schedule);
    AttemptMemory(cfg, p, job, schedule, exhausted, o);
    if forall n :: schedule(n).fault.None? {
      RerunConcludes(cfg, p, job, schedule, exhausted, o);
    }
  }

  lemma RerunConcludes(cfg: Config, p: Prog, job: Job, schedule: Schedule, exhausted: bool, o: Oracle)
    requires Agrees(cfg, p, job.w, o) && Done(p, job.w, o) && job.w.rec.s == Completed
    requires forall n :: schedule(n).fault.None?
    ensures var job', value := Happens(cfg, p, job, RunAttempt(schedule, exhausted)), Evaluate(p, [], 0, o);
            && (Supported(value) ==> job'.saved == Completed && job'.w.rec.r == Some(value))
            && (!Supported(value) ==> job'.saved != Completed)
  {
    RunReplays(cfg, p, job, schedule, o);
    FaultlessAttempt(cfg, p, job, schedule, Evaluate(p, [], 0, o));
    ConcludedAfter(cfg, job, Evaluate(p, [], 0, o), Attempt(cfg, p, job, schedule), exhausted);
  }

  lemma ConcludedAfter(cfg: Config, job: Job, value: Value, r: (AttemptOutcome, Job), exhausted: bool)
    requires Concluded(cfg, job, value, r)
    ensures var job' := AfterAttempt(r.0, r.1, exhausted);
            && (Supported(value) ==> job' == r.1)
            && (!Supported(value) ==> job'.saved != Completed && (!exhausted ==> job' == r.1))
  {}

  /** Without faults a result is stored and published, or refused. */
  ghost predicate Concluded(cfg: Config, job: Job, value: Value, r: (AttemptOutcome, Job)) {
    if Supported(value) then
      && r.0 == Completes(value) && r.1.w.rec.s == r.1.saved == Completed && r.1.w.rec.r == Some(value)
      && r.1.sent == if cfg.publishes then job.sent + [value] else job.sent
    else
      && r.0 == Throws(Unserializable) && r.1.w.rec.s == EarlyStatus(cfg) && r.1.w.rec.r == job.w.rec.r
      && r.1.saved == Running && r.1.sent == job.sent
  }

  lemma FaultlessAttempt(cfg: Config, p: Prog, job: Job, schedule: Schedule, value: Value)
    requires job.w.rec.s != Completing && forall n :: schedule(n).fault.None?
    requires var (outcome, w) := RunOf(cfg, p, job, schedule); outcome == Returned(value) && w.cursor == |w.rec.t|
    ensures Concluded(cfg, job, value, Attempt(cfg, p, job, schedule))
  {
    RunFrame(cfg, p, job, schedule);
    FaultlessConclude(cfg, RunningJob(job, RunOf(cfg, p, job, schedule).1), value, schedule);
  }

  lemma FaultlessConclude(cfg: Config, job: Job, value: Value, schedule: Schedule)
    requires job.w.cursor == |job.w.rec.t| && job.saved == Running && forall n :: schedule(n).fault.None?
    ensures Concluded(cfg, job, value, Conclude(cfg, job, value, schedule))
  {
    FaultlessFinalize(WithResult(cfg, job.(w := Ticked(job.w)), value), schedule);
  }

  /** A completing job publishes what is stored, which may be nothing. */
  lemma FaultlessFinalize(job: Job, schedule: Schedule)
    requires forall n :: schedule(n).fault.None?
    ensures var result := if job.w.rec.r.Some? then job.w.rec.r.value else Undefined;
            var (outcome, job') := Finalize(job, schedule);
            && outcome == Completes(result) && job'.w.rec.s == job'.saved == Completed
            && job'.w.rec.r == job.w.rec.r && job'.sent == job.sent + [result]
  {}

  // ---- Retries

  lemma {:induction false} RetriesAreConserved(cfg: Config, p: Prog, events: seq<Event>, o: Oracle, weight: Weight)
    requires Extends(o, Life(cfg, p, events).w.first)
    ensures Account(p, [], 0, Life(cfg, p, events).w, o, cfg.defaultRetry, weight)
         <= Budget(p, [], 0, Mem(NEW_JOB.w), o, cfg.defaultRetry, weight)
  {
    if events != [] {
      var before, event := events[..|events| - 1], events[|events| - 1];
      LifeGrows(cfg, p, before, event);
      RetriesAreConserved(cfg, p, before, o, weight);
      LifeIsGood(cfg, p, before, o);
      HappensBudget(cfg, p, Life(cfg, p, before), event, o, weight);
    }
  }

  /** Over its whole life a step asks for fewer retries than it has attempts. */
  lemma RetryRequestsOfAStep(cfg: Config, p: Prog, events: seq<Event>, o: Oracle, k: Key)
    requires Extends(o, Life(cfg, p, events).w.first)
    ensures Spent(OfStep(k), Life(cfg, p, events).w.retries) < AttemptsOf(p, [], 0, o, cfg.defaultRetry, k)
  {
    RetriesAreConserved(cfg, p, events, o, OfStep(k));
    BudgetOfStep(p, [], 0, Mem(NEW_JOB.w), o, cfg.defaultRetry, k);
  }

  /** At no time has a step more failures on record than it has attempts, less one. */
  lemma RecordedFailuresOfAStep(cfg: Config, p: Prog, events: seq<Event>, o: Oracle, k: Key)
    requires Extends(o, Life(cfg, p, events).w.first)
    ensures GetStepRetryCount(Life(cfg, p, events).w.rec, k) < AttemptsOf(p, [], 0, o, cfg.defaultRetry, k)
  {
    var w := Life(cfg, p, events).w;
    LifeIsGood(cfg, p, events, o);
    assert At(Mem(w), k).failures == GetStepRetryCount(w.rec, k);
    if k.path != [] {
      assert Below([], 0, k);
      FailuresWithinAttempts(p, [], 0, Mem(w), o, cfg.defaultRetry, w.rec.t, k);
    }
  }

  // ---- Signals

  /**
   * At most one signal is awaited at any time; its wait is the last traced step, without a result of its
   * own or of an ancestor, and has never had one.
   */
  lemma PendingSignal(cfg: Config, p: Prog, events: seq<Event>, name: string)
    requires name in Life(cfg, p, events).w.rec.ps
    ensures var w := Life(cfg, p, events).w;
            var key := w.rec.ps[name].stepKey;
            && w.rec.ps.Keys == {name} && key.name == "__signal__:" + name
            && w.rec.t != [] && key == w.rec.t[|w.rec.t| - 1]
            && !Covered(Mem(w), key) && key !in w.first
  {
    var w, o := Life(cfg, p, events).w, Known(Life(cfg, p, events).w.first);
    LifeIsGood(cfg, p, events, o);
    PendingIsLast(p, [], 0, Mem(w), o, cfg.defaultRetry, w.rec.t, name);
    var key := w.rec.ps[name].stepKey;
    NotCoveredAtAll(Mem(w), key);
    if key in w.first {
      FirstIsCovered(p, [], 0, Mem(w), o, cfg.defaultRetry, w.rec.t, key);
    }
  }

  /**
   * What was once recorded for a step or wait is what it gives ever after: it stays covered, its own result
   * is that one, and no signal is ever awaited under its key again.
   */
  lemma FirstIsLast(cfg: Config, p: Prog, events: seq<Event>, key: Key)
    requires key in Life(cfg, p, events).w.first
    ensures var w := Life(cfg, p, events).w;
            && Covered(Mem(w), key) && (HasStep(w.rec, key) ==> GetStepResult(w.rec, key) == w.first[key])
            && forall name | name in w.rec.ps :: w.rec.ps[name].stepKey != key
  {
    var w := Life(cfg, p, events).w;
    LifeIsGood(cfg, p, events, Known(w.first));
    FirstStaysCovered(cfg, p, events, key);
    if HasStep(w.rec, key) {
      assert At(Mem(w), key).result.Some?;
      ResultIsFirst(p, [], 0, Mem(w), Known(w.first), cfg.defaultRetry, w.rec.t, key);
    }
    forall name | name in w.rec.ps ensures w.rec.ps[name].stepKey != key {
      PendingSignal(cfg, p, events, name);
    }
  }

  /**
   * A signal delivered at moment `n` is what its wait returns ever after: the payload is the first and only
   * result of that wait, the wait stays covered, and no signal is ever awaited under its key again.
   */
  lemma DeliveredOnce(cfg: Config, p: Prog, events: seq<Event>, n: nat, name: string, payload: Value)
    requires n < |events| && events[n] == SendSignal(name, payload) && Supported(payload)
    requires name in Life(cfg, p, events[..n]).w.rec.ps
    ensures var key := Life(cfg, p, events[..n]).w.rec.ps[name].stepKey;
            var w := Life(cfg, p, events).w;
            && key in w.first && w.first[key] == payload && Covered(Mem(w), key)
            && (HasStep(w.rec, key) ==> GetStepResult(w.rec, key) == payload)
            && forall name' | name' in w.rec.ps :: w.rec.ps[name'].stepKey != key
  {
    var key := Life(cfg, p, events[..n]).w.rec.ps[name].stepKey;
    assert events[..n + 1] == events[..n] + [events[n]];
    DeliveredFirst(cfg, p, events[..n], name, payload);
    LifeAdvances(cfg, p, events, n + 1, Known(Life(cfg, p, events).w.first));
    FirstIsLast(cfg, p, events, key);
  }

  lemma DeliveredFirst(cfg: Config, p: Prog, events: seq<Event>, name: string, payload: Value)
    requires name in Life(cfg, p, events).w.rec.ps && Supported(payload)
    ensures var key := Life(cfg, p, events).w.rec.ps[name].stepKey;
            var first := Life(cfg, p, events + [SendSignal(name, payload)]).w.first;
            key in first && first[key] == payload
  {
    PendingSignal(cfg, p, events, name);
    LifeGoesOn(cfg, p, events, SendSignal(name, payload));
  }

  // ---- Outbox

  /**
   * Every payload ever handed to the result queue is the one the program's value stands for, and it is that
   * value exactly if the serializer accepts it. A completed job has handed one over, and what is stored is
   * the value, or nothing where it is refused.
   */
  lemma OutboxIsHonest(cfg: Config, p: Prog, events: seq<Event>, o: Oracle)
    requires Extends(o, Life(cfg, p, events).w.first)
    ensures var job, value := Life(cfg, p, events), Evaluate(p, [], 0, o);
            && (forall v | v in job.sent :: v == Payload(value) && (v == value <==> Supported(value)))
            && (job.w.rec.s == Completed && cfg.publishes ==> job.sent != [])
            && (job.w.rec.s in {Completing, Completed} ==> job.w.rec.r == StoredForm(value))
            && (job.sent != [] || job.w.rec.s in {Completing, Completed} ==> job.w.rec.t == Preorder(p, [], 0, o))
  {
    LifeIsGood(cfg, p, events, o);
    TraceOfGoodJob(cfg, p, Life(cfg, p, events), o);
  }

  /** What can become of a completing job. */
  ghost predicate OnlyCompletes(job: Job, event: Event, job': Job) {
    && job'.w.started == job.w.started && job'.w.retries == job.w.retries
    && job'.w.rec.s in {Failed, Running, Completing, Completed}
    && (job'.w.rec.s == Failed <==> event.RunUnregistered?)
    && (job'.w.rec.s == Running <==> event.Reload? && job.saved == Running)
  }

  /**
   * A completing job starts no body and only completes, unless its workflow is no longer registered. If its
   * result was refused, another process finds it running again, for that status never reached the disk.
   */
  lemma CompletingJobOnlyCompletes(cfg: Config, p: Prog, events: seq<Event>, event: Event, o: Oracle)
    requires Life(cfg, p, events).w.rec.s == Completing && Extends(o, Life(cfg, p, events).w.first)
    ensures OnlyCompletes(Life(cfg, p, events), event, Happens(cfg, p, Life(cfg, p, events), event))
    ensures Life(cfg, p, events).saved == Running <==> !Supported(Evaluate(p, [], 0, o))
  {
    LifeIsGood(cfg, p, events, o);
    CompletingOnlyCompletes(cfg, p, Life(cfg, p, events), event, o);
  }

  /**
   * The status on disk is that in memory, except exactly while a refused result has set one that was never
   * written: `completing`, or `completed` if there is no result queue. A job loaded then is running again.
   */
  lemma SavedStatus(cfg: Config, p: Prog, events: seq<Event>, o: Oracle)
    requires Extends(o, Life(cfg, p, events).w.first)
    ensures var job := Life(cfg, p, events);
            var refused := job.w.rec.s == EarlyStatus(cfg) && !Supported(Evaluate(p, [], 0, o));
            && (Happens(cfg, p, job, Reload) == job <==> !refused)
            && (refused ==> Happens(cfg, p, job, Reload) == job.(w := job.w.(rec := job.w.rec.(s := Running))))
  {
    LifeIsGood(cfg, p, events, o);
  }

  /** The shortest life in which a status gets lost: a workflow that returns a function, and a change of process. */
  lemma EarlyStatusIsLost(cfg: Config, schedule: Schedule)
    requires forall n :: schedule(n).fault.None?
    ensures var turn := RunAttempt(schedule, false);
            && Life(cfg, Return(Opaque), [turn]).w.rec.s == EarlyStatus(cfg)
            && Life(cfg, Return(Opaque), [turn, Reload]).w.rec.s == Running
  {
    var p, turn := Return(Opaque), RunAttempt(schedule, false);
    RefusedTurn(cfg, schedule);
    OneEvent(cfg, p, turn);
    TwoEvents(cfg, p, turn, Reload);
  }

  lemma RefusedTurn(cfg: Config, schedule: Schedule)
    requires forall n :: schedule(n).fault.None?
    ensures var job := Happens(cfg, Return(Opaque), NEW_JOB, RunAttempt(schedule, false));
            job.w.rec.s == EarlyStatus(cfg) && job.saved == Running
  {
    var p := Return(Opaque);
    ReturnReturns(cfg, schedule, NEW_JOB, Opaque);
    FaultlessAttempt(cfg, p, NEW_JOB, schedule, Opaque);
    ConcludedAfter(cfg, NEW_JOB, Opaque, Attempt(cfg, p, NEW_JOB, schedule), false);
  }

  lemma OneEvent(cfg: Config, p: Prog, event: Event)
    ensures Life(cfg, p, [event]) == Happens(cfg, p, NEW_JOB, event)
  {
    NoEvents(cfg, p);
    LifeGoesOn(cfg, p, [], event);
    assert [] + [event] == [event];
  }

  lemma CompletingOnlyCompletes(cfg: Config, p: Prog, job: Job, event: Event, o: Oracle)
    requires Good(cfg, p, job, o) && job.w.rec.s == Completing
    ensures OnlyCompletes(job, event, Happens(cfg, p, job, event))
  {
    match event
    case RunAttempt(schedule, exhausted) =>
      FinalizingCompletes(cfg, p, job, schedule, o);
      assert Happens(cfg, p, job, event) == Finalize(job, schedule).1;
    case _ =>
  }

  lemma FinalizingCompletes(cfg: Config, p: Prog, job: Job, schedule: Schedule, o: Oracle)
    requires Good(cfg, p, job, o) && job.w.rec.s == Completing
    ensures var (outcome, job') := Finalize(job, schedule);
            && !outcome.Throws? && job'.w.rec.s in {Completing, Completed}
            && job'.w.started == job.w.started && job'.w.retries == job.w.retries
  {}

  /** An attempt without faults whose code returned `value`, and the turn after it. */
  ghost predicate Publishes(cfg: Config, p: Prog, job: Job, value: Value, turn: Event) {
    var once := Happens(cfg, p, job, turn);
    if Supported(value) then once.w.rec.s == once.saved == Completed && once.sent == job.sent + [value]
    else once.w.rec.s == Completing && once.sent == job.sent && PublishesNothing(cfg, p, once, turn)
  }

  ghost predicate PublishesNothing(cfg: Config, p: Prog, job: Job, turn: Event) {
    var job' := Happens(cfg, p, job, turn);
    job'.w.rec.s == job'.saved == Completed && job'.sent == job.sent + [Undefined]
  }

  /**
   * A fault-free attempt whose code returns, with a result queue, after any history. A supported value is
   * published at once. For a refused one the status is already `completing` when serialization throws, so
   * the next turn publishes what is stored, which is nothing.
   */
  lemma PublishedPayload(cfg: Config, p: Prog, events: seq<Event>, schedule: Schedule, value: Value)
    requires cfg.publishes && Life(cfg, p, events).w.rec.s !in {Completing, Cancelled}
    requires (forall n :: schedule(n).fault.None?) && RunOf(cfg, p, Life(cfg, p, events), schedule).0 == Returned(value)
    ensures Publishes(cfg, p, Life(cfg, p, events), value, RunAttempt(schedule, false))
  {
    var job, o := Life(cfg, p, events), Known(RunOf(cfg, p, Life(cfg, p, events), schedule).1.first);
    RunFrame(cfg, p, job, schedule);
    LifeIsGood(cfg, p, events, o);
    PublishedTurn(cfg, p, job, schedule, value, o);
  }

  lemma PublishedTurn(cfg: Config, p: Prog, job: Job, schedule: Schedule, value: Value, o: Oracle)
    requires cfg.publishes && job.w.rec.s !in {Completing, Cancelled} && Good(cfg, p, job, o)
    requires (forall n :: schedule(n).fault.None?) && RunOf(cfg, p, job, schedule).0 == Returned(value)
    requires Extends(o, RunOf(cfg, p, job, schedule).1.first)
    ensures Publishes(cfg, p, job, value, RunAttempt(schedule, false))
  {
    RunIsGood(cfg, p, job, schedule, o);
    FaultlessAttempt(cfg, p, job, schedule, value);
    var r := Attempt(cfg, p, job, schedule);
    ConcludedAfter(cfg, job, value, r, false);
    assert Happens(cfg, p, job, RunAttempt(schedule, false)) == r.1;
    if !Supported(value) {
      RefusedPublishesNothing(cfg, p, r.1, schedule);
    }
  }

  lemma RefusedPublishesNothing(cfg: Config, p: Prog, job: Job, schedule: Schedule)
    requires job.w.rec.s == Completing && job.w.rec.r == None && forall n :: schedule(n).fault.None?
    ensures PublishesNothing(cfg, p, job, RunAttempt(schedule, false))
  {
    FaultlessFinalize(job, schedule);
  }

  /** The shortest such life: a workflow that returns a function completes, and `undefined` is published. */
  lemma RefusedResultIsPublishedAsUndefined(cfg: Config, schedule: Schedule)
    requires cfg.publishes && forall n :: schedule(n).fault.None?
    ensures var turn := RunAttempt(schedule, false);
            var job := Life(cfg, Return(Opaque), [turn, turn]);
            job.w.rec.s == job.saved == Completed && job.sent == [Undefined]
  {
    var p, turn := Return(Opaque), RunAttempt(schedule, false);
    NoEvents(cfg, p);
    ReturnReturns(cfg, schedule, NEW_JOB, Opaque);
    PublishedPayload(cfg, p, [], schedule, Opaque);
    assert Publishes(cfg, p, NEW_JOB, Opaque, turn);
    TwoEvents(cfg, p, turn, turn);
  }

  lemma NoEvents(cfg: Config, p: Prog)
    ensures Life(cfg, p, []) == NEW_JOB
  {}

  lemma ReturnReturns(cfg: Config, schedule: Schedule, job: Job, value: Value)
    requires forall n :: schedule(n).fault.None?
    ensures RunOf(cfg, Return(value), job, schedule) == (Returned(value), Ticked(Begun(job.w)))
  {
    assert Perform(Return(value), [], 0, Begun(job.w), Setup(schedule, false, cfg.defaultRetry)).Continues?;
  }

  lemma TwoEvents(cfg: Config, p: Prog, first: Event, second: Event)
    ensures Life(cfg, p, [first, second]) == Happens(cfg, p, Happens(cfg, p, NEW_JOB, first), second)
  {
    LifeGoesOn(cfg, p, [], first);
    LifeGoesOn(cfg, p, [first], second);
    assert [] + [first] == [first] && [first] + [second] == [first, second];
  }

  // ---- Cancellation

  /** Before any code ran, and only then, a job can be cancelled. */
  lemma CancelOnlyBeforeAnyCode(cfg: Config, p: Prog, events: seq<Event>)
    ensures var job := Life(cfg, p, events);
            && (Happens(cfg, p, job, Cancel) != job <==> job.w.rec.s == Pending)
            && (job.w.rec.s in {Pending, Cancelled} ==>
                  && job.saved == job.w.rec.s && job.w.started == [] && job.w.rec.t == [] && job.w.first == map[]
                  && job.sent == []
                  && job.w.rec.c == map[] && job.w.rec.u == {} && job.w.rec.a == map[] && job.w.rec.ps == map[])
  {
    var w := Life(cfg, p, events).w;
    LifeIsGood(cfg, p, events, Known(w.first));
    if w.rec.t == [] {
      NothingTracedNothingRecorded(cfg, p, w, Known(w.first));
    }
  }

  lemma NothingTracedNothingRecorded(cfg: Config, p: Prog, w: World, o: Oracle)
    requires Agrees(cfg, p, w, o) && w.rec.t == []
    ensures w.rec.c == map[] && w.rec.u == {} && w.rec.a == map[] && w.rec.ps == map[]
  {
    forall k ensures k !in w.rec.c && k !in w.rec.u && k !in w.rec.a {
      assert At(Mem(w), k) == EMPTY by {
        if k.path != [] {
          assert Below([], 0, k);
        }
      }
    }
  }

  /** Nothing that happens to a cancelled job changes it. */
  lemma {:induction false} CancellationIsFinal(cfg: Config, p: Prog, events: seq<Event>, n: nat)
    requires n <= |events| && Life(cfg, p, events[..n]).w.rec.s == Cancelled
    ensures Life(cfg, p, events) == Life(cfg, p, events[..n])
    decreases |events|
  {
    if n == |events| {
      assert events[..n] == events;
    } else {
      var before := events[..|events| - 1];
      assert before[..n] == events[..n];
      CancellationIsFinal(cfg, p, before, n);
      CancelOnlyBeforeAnyCode(cfg, p, before);
    }
  }

  /**
   * A job cancelled while it is pending is cancelled for good, in memory and on disk: whatever happens to it
   * afterwards changes nothing about it, and none of its code is ever started.
   */
  lemma CancelledForGood(cfg: Config, p: Prog, before: seq<Event>, events: seq<Event>)
    requires Life(cfg, p, before).w.rec.s == Pending
    ensures var job := Life(cfg, p, before + [Cancel]);
            && Life(cfg, p, before + [Cancel] + events) == job
            && job.w.rec.s == Cancelled && job.saved == Cancelled
            && job.w.started == [] && job.w.rec.t == [] && job.sent == []
  {
    var cancelled := before + [Cancel];
    LifeGoesOn(cfg, p, before, Cancel);
    CancelOnlyBeforeAnyCode(cfg, p, before);
    assert (cancelled + events)[..|cancelled|] == cancelled;
    CancellationIsFinal(cfg, p, cancelled + events, |cancelled|);
  }
}
