/** What every job keeps through every sequence of attempts, crashes, signals and cancellations. */
module Guarantees {
  import opened Values
  import opened Keys
  import opened JobRecord
  import opened Program
  import opened Frames
  import opened Replay
  import opened Invariants
  import opened StartedBodies
  import opened RetryBudget
  import opened Lifecycle

  // ---- One event

  /** What a delivery does to the cell of each key. */
  lemma AfterDelivered(rec: Record, first: map<Key, Value>, name: string, payload: Value, k: Key)
    requires name in rec.ps
    ensures var m, m', key := MemoryOf(rec, first), MemoryAfter(rec, first, name, payload), rec.ps[name].stepKey;
            && (k == key ==>
                  At(m', k) == Cell(Some(payload), 0, Some(if key in first then first[key] else payload)))
            && (Inside(key.path, k) ==> At(m', k) == Cell(None, 0, At(m, k).first))
            && (k != key && !Inside(key.path, k) ==> At(m', k) == At(m, k))
  {
    var key := rec.ps[name].stepKey;
    var stored := rec.(c := rec.c[key := payload], u := rec.u - {key}, a := rec.a - {key});
    AfterRemoved(stored, RecordFirst(first, key, payload), key, k);
  }

  lemma AfterRemoved(rec: Record, first: map<Key, Value>, key: Key, k: Key)
    ensures At(MemoryOf(RemoveDescendants(rec, key), first), k)
         == if Inside(key.path, k) then Cell(None, 0, At(MemoryOf(rec, first), k).first)
            else At(MemoryOf(rec, first), k)
  {}

  function MemoryOf(rec: Record, first: map<Key, Value>): Memory {
    Memory(rec.c, rec.u, rec.a, rec.ps, first)
  }

  function MemoryAfter(rec: Record, first: map<Key, Value>, name: string, payload: Value): Memory
    requires name in rec.ps
  {
    MemoryOf(DeliverSignal(rec, name, payload), RecordFirst(first, rec.ps[name].stepKey, payload))
  }

  /** A delivered signal is the result of the pending wait. */
  lemma DeliverGood(cfg: Config, p: Prog, job: Job, name: string, payload: Value, o: Oracle)
    requires Good(cfg, p, job, o) && Extends(o, Deliver(job, name, payload).w.first)
    ensures Good(cfg, p, Deliver(job, name, payload), o)
  {
    if name in job.w.rec.ps && Supported(payload) {
      AwaitingIsNotDone(cfg, p, job, name, o);
      DeliverAgrees(cfg, p, job, name, payload, o);
      AgreesIsGood(cfg, p, job, Deliver(job, name, payload), o);
    }
  }

  /** A delivery changes no cell but that of the wait, and forgets nothing. */
  lemma DeliverTouches(cfg: Config, p: Prog, job: Job, name: string, payload: Value, o: Oracle)
    requires Good(cfg, p, job, o) && Extends(o, Deliver(job, name, payload).w.first)
    ensures forall k :: At(Mem(Deliver(job, name, payload).w), k) == At(Mem(job.w), k)
                        || At(Mem(Deliver(job, name, payload).w), k).result.Some?
    ensures Grows(job.w.first, Deliver(job, name, payload).w.first)
  {
    if name in job.w.rec.ps && Supported(payload) {
      AwaitedKey(cfg, p, job, name, o);
      DeliveredCells(job, name, payload, o);
    }
  }

  /** A change of progress alone is good for a job that has handed nothing over. */
  lemma AgreesIsGood(cfg: Config, p: Prog, job: Job, job': Job, o: Oracle)
    requires Good(cfg, p, job, o) && job.w.rec.s in {Running, Failed} && job.sent == [] && Agrees(cfg, p, job'.w, o)
    requires SameVerdict(job.w.rec, job'.w.rec) && job'.sent == [] && job'.saved == job'.w.rec.s
    ensures Good(cfg, p, job', o)
  {}

  lemma AwaitingIsNotDone(cfg: Config, p: Prog, job: Job, name: string, o: Oracle)
    requires Good(cfg, p, job, o) && name in job.w.rec.ps
    ensures !Done(p, job.w, o) && job.w.rec.t != []
    ensures job.w.rec.s in {Running, Failed} && job.sent == []
  {
    PendingIsLast(p, [], 0, Mem(job.w), o, cfg.defaultRetry, job.w.rec.t, name);
    if Done(p, job.w, o) {
      FinishedTrace(p, [], 0, Mem(job.w), o, cfg.defaultRetry, job.w.rec.t);
      assert false;
    }
  }

  lemma DeliverAgrees(cfg: Config, p: Prog, job: Job, name: string, payload: Value, o: Oracle)
    requires Good(cfg, p, job, o) && Extends(o, Deliver(job, name, payload).w.first)
    requires name in job.w.rec.ps && Supported(payload)
    ensures Agrees(cfg, p, Deliver(job, name, payload).w, o)
  {
    var m, m' := Mem(job.w), Mem(Deliver(job, name, payload).w);
    PendingIsLast(p, [], 0, m, o, cfg.defaultRetry, job.w.rec.t, name);
    AwaitedKey(cfg, p, job, name, o);
    DeliveredCells(job, name, payload, o);
    assert m'.ps == map[];
    DeliverOk(p, [], 0, m, m', o, cfg.defaultRetry, job.w.rec.t, name);
  }

  lemma DeliveredCells(job: Job, name: string, payload: Value, o: Oracle)
    requires name in job.w.rec.ps && Supported(payload) && Extends(o, Deliver(job, name, payload).w.first)
    requires var key := job.w.rec.ps[name].stepKey;
             key !in job.w.first && forall k | Inside(key.path, k) :: At(Mem(job.w), k) == EMPTY
    ensures var m, m' := Mem(job.w), Mem(Deliver(job, name, payload).w);
            var key := m.ps[name].stepKey;
            && (forall k :: k != key ==> At(m', k) == At(m, k))
            && At(m', key) == Cell(Some(o(key)), 0, Some(o(key)))
  {
    var key := job.w.rec.ps[name].stepKey;
    assert key in Deliver(job, name, payload).w.first;
    forall k { AfterDelivered(job.w.rec, job.w.first, name, payload, k); }
  }

  lemma AwaitedKey(cfg: Config, p: Prog, job: Job, name: string, o: Oracle)
    requires Good(cfg, p, job, o) && name in job.w.rec.ps
    ensures var key := job.w.rec.ps[name].stepKey;
            key !in job.w.first && forall k | Inside(key.path, k) :: At(Mem(job.w), k) == EMPTY
  {
    var key := job.w.rec.ps[name].stepKey;
    PendingIsLast(p, [], 0, Mem(job.w), o, cfg.defaultRetry, job.w.rec.t, name);
    if key in job.w.first {
      FirstIsCovered(p, [], 0, Mem(job.w), o, cfg.defaultRetry, job.w.rec.t, key);
    }
    NothingInside(Mem(job.w), key);
  }

  lemma NothingInside(m: Memory, key: Key)
    requires Fresh(m, key.path, 0)
    ensures forall k | Inside(key.path, k) :: At(m, k) == EMPTY
  {
    assert forall k :: Inside(key.path, k) ==> Below(key.path, 0, k);
  }

  lemma HappensGood(cfg: Config, p: Prog, job: Job, event: Event, o: Oracle)
    requires Good(cfg, p, job, o) && Extends(o, Happens(cfg, p, job, event).w.first)
    ensures Good(cfg, p, Happens(cfg, p, job, event), o)
  {
    match event
    case RunAttempt(schedule, exhausted) =>
      if job.w.rec.s != Cancelled {
        AttemptGood(cfg, p, job, schedule, o);
        FailedGood(cfg, p, Attempt(cfg, p, job, schedule).1, o);
      }
    case RunUnregistered => FailedGood(cfg, p, job, o);
    case SendSignal(name, payload) => DeliverGood(cfg, p, job, name, payload, o);
    case Cancel => CancelledGood(cfg, p, job, o);
    case Reload => ReloadedGood(cfg, p, job, o);
  }

  lemma CancelledGood(cfg: Config, p: Prog, job: Job, o: Oracle)
    requires Good(cfg, p, job, o)
    ensures Good(cfg, p, Cancellation(job), o)
  {
    assert Mem(Cancellation(job).w) == Mem(job.w);
  }

  /** What an attempt does to memory and logs is what its execution does. */
  lemma AttemptMemory(cfg: Config, p: Prog, job: Job, schedule: Schedule, exhausted: bool, o: Oracle)
    requires Good(cfg, p, job, o) && job.w.rec.s != Cancelled
    requires Extends(o, Attempt(cfg, p, job, schedule).1.w.first)
    ensures var base := if job.w.rec.s == Completing then job.w else RunOf(cfg, p, job, schedule).1;
            && SameProgress(base, Attempt(cfg, p, job, schedule).1.w)
            && SameProgress(base, Happens(cfg, p, job, RunAttempt(schedule, exhausted)).w)
  {
    if job.w.rec.s == Completing {
      FinalizeMemory(cfg, p, job, schedule, o);
    } else {
      AttemptFirst(cfg, p, job, schedule);
      RunAgrees(cfg, p, job, schedule, o);
      var (outcome, w) := RunOf(cfg, p, job, schedule);
      if outcome.Returned? {
        ConcludeMemory(cfg, p, RunningJob(job, w), outcome.value, schedule, o);
      }
    }
    var (outcome, job') := Attempt(cfg, p, job, schedule);
    AfterAttemptMemory(outcome, job', exhausted);
  }

  lemma AfterAttemptMemory(outcome: AttemptOutcome, job: Job, exhausted: bool)
    ensures SameProgress(job.w, AfterAttempt(outcome, job, exhausted).w)
  {}

  /** Same memory, trace and logs. */
  predicate SameProgress(w: World, w': World) {
    Mem(w') == Mem(w) && w'.started == w.started && w'.retries == w.retries && w'.rec.t == w.rec.t
  }

  lemma CompletingKeeps(cfg: Config, p: Prog, w: World, w': World, rec: Record, o: Oracle)
    requires Agrees(cfg, p, w, o) && SameProgress(w, w') && rec == w'.rec.(s := rec.s, r := rec.r, e := rec.e)
    ensures SameProgress(w, w'.(rec := Compacted(rec)))
  {
    assert Mem(w'.(rec := rec)) == Mem(w);
    CompactionIsNoOp(cfg, p, w'.(rec := rec), o);
  }

  lemma FinalizeMemory(cfg: Config, p: Prog, job: Job, schedule: Schedule, o: Oracle)
    requires Agrees(cfg, p, job.w, o)
    ensures SameProgress(job.w, Finalize(job, schedule).1.w)
  {
    var w2 := Ticked(Ticked(job.w));
    CompletingKeeps(cfg, p, job.w, w2, w2.rec.(s := Completed, e := None), o);
  }

  lemma ConcludeMemory(cfg: Config, p: Prog, job: Job, value: Value, schedule: Schedule, o: Oracle)
    requires Agrees(cfg, p, job.w, o)
    ensures SameProgress(job.w, Conclude(cfg, job, value, schedule).1.w)
  {
    var ticked := job.(w := Ticked(job.w));
    assert Agrees(cfg, p, ticked.w, o) by { assert Mem(ticked.w) == Mem(job.w); }
    WithResultMemory(cfg, p, ticked, value, o);
    if cfg.publishes {
      HandOverMemory(cfg, p, WithResult(cfg, ticked, value), value, schedule, o);
    }
  }

  lemma HandOverMemory(cfg: Config, p: Prog, job: Job, value: Value, schedule: Schedule, o: Oracle)
    requires Agrees(cfg, p, job.w, o)
    ensures SameProgress(job.w, HandOver(cfg, job, value, schedule).1.w)
  {
    FinalizeMemory(cfg, p, job, schedule, o);
  }

  lemma WithResultMemory(cfg: Config, p: Prog, job: Job, value: Value, o: Oracle)
    requires Agrees(cfg, p, job.w, o)
    ensures SameProgress(job.w, WithResult(cfg, job, value).w)
    ensures cfg.publishes ==> Agrees(cfg, p, WithResult(cfg, job, value).w, o)
  {
    if cfg.publishes || !Supported(value) {
      assert Mem(WithResult(cfg, job, value).w) == Mem(job.w);
    } else {
      CompletingKeeps(cfg, p, job.w, job.w, job.w.rec.(s := Completed, r := Some(value), e := None), o);
    }
  }

  /** What no event undoes: recorded successes, coverage, the trace and the log of started bodies. */
  ghost predicate Advances(w: World, w': World) {
    && Grows(w.first, w'.first) && w.rec.t <= w'.rec.t && w.started <= w'.started
    && forall k :: Covered(Mem(w), k) ==> Covered(Mem(w'), k)
  }

  lemma HappensAdvances(cfg: Config, p: Prog, job: Job, event: Event, o: Oracle)
    requires Good(cfg, p, job, o) && Extends(o, Happens(cfg, p, job, event).w.first)
    ensures Advances(job.w, Happens(cfg, p, job, event).w)
    ensures StartsUncovered(Mem(job.w), [], 0, job.w, Happens(cfg, p, job, event).w)
  {
    match event
    case RunAttempt(schedule, exhausted) =>
      if job.w.rec.s != Cancelled {
        AttemptAdvances(cfg, p, job, schedule, exhausted, o);
      }
    case RunUnregistered => assert Mem(Happens(cfg, p, job, event).w) == Mem(job.w);
    case SendSignal(name, payload) =>
      DeliverTouches(cfg, p, job, name, payload, o);
      DeliverKeepsCovered(cfg, p, job, name, payload);
    case Cancel => assert Mem(Happens(cfg, p, job, event).w) == Mem(job.w);
    case Reload => assert Mem(Happens(cfg, p, job, event).w) == Mem(job.w);
  }

  lemma DeliverKeepsCovered(cfg: Config, p: Prog, job: Job, name: string, payload: Value)
    requires forall k :: At(Mem(Deliver(job, name, payload).w), k) == At(Mem(job.w), k)
                         || At(Mem(Deliver(job, name, payload).w), k).result.Some?
    ensures forall k :: Covered(Mem(job.w), k) ==> Covered(Mem(Deliver(job, name, payload).w), k)
  {
    var m, m' := Mem(job.w), Mem(Deliver(job, name, payload).w);
    forall k | Covered(m, k) ensures Covered(m', k) {
      var a :| At(m, a).result.Some? && a.path <= k.path;
      assert At(m', a).result.Some?;
    }
  }

  lemma AttemptAdvances(cfg: Config, p: Prog, job: Job, schedule: Schedule, exhausted: bool, o: Oracle)
    requires Good(cfg, p, job, o) && job.w.rec.s != Cancelled
    requires Extends(o, Attempt(cfg, p, job, schedule).1.w.first)
    ensures var w' := Happens(cfg, p, job, RunAttempt(schedule, exhausted)).w;
            Advances(job.w, w') && StartsUncovered(Mem(job.w), [], 0, job.w, w')
  {
    AttemptMemory(cfg, p, job, schedule, exhausted, o);
    if job.w.rec.s != Completing {
      AttemptFirst(cfg, p, job, schedule);
      RunAdvances(cfg, p, job, schedule, o);
    }
  }

  lemma RunAdvances(cfg: Config, p: Prog, job: Job, schedule: Schedule, o: Oracle)
    requires Good(cfg, p, job, o) && Extends(o, RunOf(cfg, p, job, schedule).1.first)
    ensures var w := RunOf(cfg, p, job, schedule).1;
            Advances(job.w, w) && StartsUncovered(Mem(job.w), [], 0, job.w, w)
  {
    var x := Setup(schedule, false, cfg.defaultRetry);
    BegunAgrees(p, job.w, o, cfg.defaultRetry);
    RunFrame(cfg, p, job, schedule);
    ExecStarts(p, [], 0, Begun(job.w), x, o);
    forall k | Covered(Mem(job.w), k) ensures Covered(Mem(RunOf(cfg, p, job, schedule).1), k) {
      ExecKeepsCovered(p, [], 0, Begun(job.w), x, k);
    }
  }

  /** No event lets a job ask for more retries than it gives up for good. */
  lemma HappensBudget(cfg: Config, p: Prog, job: Job, event: Event, o: Oracle, weight: Weight)
    requires Good(cfg, p, job, o) && Extends(o, Happens(cfg, p, job, event).w.first)
    ensures Account(p, [], 0, Happens(cfg, p, job, event).w, o, cfg.defaultRetry, weight)
         <= Account(p, [], 0, job.w, o, cfg.defaultRetry, weight)
  {
    match event
    case RunAttempt(schedule, exhausted) =>
      if job.w.rec.s != Cancelled {
        AttemptBudget(cfg, p, job, schedule, exhausted, o, weight);
      }
    case RunUnregistered => assert Mem(Happens(cfg, p, job, event).w) == Mem(job.w);
    case SendSignal(name, payload) =>
      DeliverTouches(cfg, p, job, name, payload, o);
      BudgetShrinks(p, [], 0, Mem(job.w), Mem(Deliver(job, name, payload).w), o, cfg.defaultRetry, weight);
    case Cancel => assert Mem(Happens(cfg, p, job, event).w) == Mem(job.w);
    case Reload => assert Mem(Happens(cfg, p, job, event).w) == Mem(job.w);
  }

  lemma AttemptBudget(
    cfg: Config, p: Prog, job: Job, schedule: Schedule, exhausted: bool, o: Oracle, weight: Weight)
    requires Good(cfg, p, job, o) && job.w.rec.s != Cancelled
    requires Extends(o, Attempt(cfg, p, job, schedule).1.w.first)
    ensures
      var w, w' := Attempt(cfg, p, job, schedule).1.w, Happens(cfg, p, job, RunAttempt(schedule, exhausted)).w;
      Account(p, [], 0, w', o, cfg.defaultRetry, weight) == Account(p, [], 0, w, o, cfg.defaultRetry, weight)
      <= Account(p, [], 0, job.w, o, cfg.defaultRetry, weight)
  {
    AttemptMemory(cfg, p, job, schedule, exhausted, o);
    AttemptFirst(cfg, p, job, schedule);
    if job.w.rec.s != Completing {
      RunBudget(cfg, p, job, schedule, o, weight);
    }
  }

  lemma RunBudget(cfg: Config, p: Prog, job: Job, schedule: Schedule, o: Oracle, weight: Weight)
    requires Good(cfg, p, job, o) && Extends(o, RunOf(cfg, p, job, schedule).1.first)
    ensures Account(p, [], 0, RunOf(cfg, p, job, schedule).1, o, cfg.defaultRetry, weight)
         <= Account(p, [], 0, job.w, o, cfg.defaultRetry, weight)
  {
    BegunAgrees(p, job.w, o, cfg.defaultRetry);
    ExecBudget(p, [], 0, Begun(job.w), Setup(schedule, false, cfg.defaultRetry), o, weight);
  }

  // ---- Whole lives

  /** One more event. */
  lemma LifeGoesOn(cfg: Config, p: Prog, events: seq<Event>, event: Event)
    ensures Life(cfg, p, events + [event]) == Happens(cfg, p, Life(cfg, p, events), event)
  {
    assert (events + [event])[..|events|] == events;
  }

  /** At every moment of every life the record, the status and the outbox are good. */
  lemma {:induction false} LifeIsGood(cfg: Config, p: Prog, events: seq<Event>, o: Oracle)
    requires Extends(o, Life(cfg, p, events).w.first)
    ensures Good(cfg, p, Life(cfg, p, events), o)
  {
    if events != [] {
      var before, event := events[..|events| - 1], events[|events| - 1];
      LifeGrows(cfg, p, before, event);
      LifeIsGood(cfg, p, before, o);
      HappensGood(cfg, p, Life(cfg, p, before), event, o);
    }
  }

  lemma NewJobIsSound(cfg: Config, p: Prog)
    ensures Sound(cfg, p, NEW_JOB)
  {
    forall o: Oracle | Extends(o, NEW_JOB.w.first) ensures Good(cfg, p, NEW_JOB, o) {
      NewJobIsGood(cfg, p, o);
    }
  }

  /** No event makes a sound job unsound. */
  lemma HappensSound(cfg: Config, p: Prog, job: Job, event: Event)
    requires Sound(cfg, p, job)
    ensures Sound(cfg, p, Happens(cfg, p, job, event))
  {
    HappensGrows(cfg, p, job, event);
    forall o: Oracle | Extends(o, Happens(cfg, p, job, event).w.first)
      ensures Good(cfg, p, Happens(cfg, p, job, event), o)
    {
      assert Extends(o, job.w.first);
      HappensGood(cfg, p, job, event, o);
    }
  }

  /** An oracle that knows everything recorded so far. */
  function Known(first: map<Key, Value>): (o: Oracle)
    ensures Extends(o, first)
  {
    (k: Key) => if k in first then first[k] else Undefined
  }

  /** Recorded successes survive the next event. */
  lemma LifeGrows(cfg: Config, p: Prog, before: seq<Event>, event: Event)
    ensures Grows(Life(cfg, p, before).w.first, Happens(cfg, p, Life(cfg, p, before), event).w.first)
  {
    HappensGrows(cfg, p, Life(cfg, p, before), event);
  }

  lemma HappensGrows(cfg: Config, p: Prog, job: Job, event: Event)
    ensures Grows(job.w.first, Happens(cfg, p, job, event).w.first)
  {
    match event
    case RunAttempt(schedule, exhausted) =>
      AttemptGrows(cfg, p, job, schedule);
      assert AfterAttempt(Attempt(cfg, p, job, schedule).0, Attempt(cfg, p, job, schedule).1, exhausted).w.first
          == Attempt(cfg, p, job, schedule).1.w.first;
    case _ =>
  }

  lemma AttemptGrows(cfg: Config, p: Prog, job: Job, schedule: Schedule)
    ensures Grows(job.w.first, Attempt(cfg, p, job, schedule).1.w.first)
  {
    AttemptFirst(cfg, p, job, schedule);
    RunFrame(cfg, p, job, schedule);
  }

  /** Whatever has happened by moment `n` is never undone later. */
  lemma {:induction false} LifeAdvances(cfg: Config, p: Prog, events: seq<Event>, n: nat, o: Oracle)
    requires n <= |events| && Extends(o, Life(cfg, p, events).w.first)
    ensures Advances(Life(cfg, p, events[..n]).w, Life(cfg, p, events).w)
    decreases |events|
  {
    if n == |events| {
      assert events[..n] == events;
    } else {
      var before, event := events[..|events| - 1], events[|events| - 1];
      LifeGrows(cfg, p, before, event);
      LifeAdvances(cfg, p, before, n, o);
      assert before[..n] == events[..n];
      LifeIsGood(cfg, p, before, o);
      HappensAdvances(cfg, p, Life(cfg, p, before), event, o);
    }
  }

  /**
   * A step whose result, or an ancestor's, is recorded never executes again: every body started after
   * moment `n` belongs to a step that was not covered at moment `n`.
   */
  lemma {:induction false} NoRecordedBodyRunsAgain(cfg: Config, p: Prog, events: seq<Event>, n: nat, j: nat, o: Oracle)
    requires n < |events| && Extends(o, Life(cfg, p, events).w.first)
    requires |Life(cfg, p, events[..n]).w.started| <= j < |Life(cfg, p, events).w.started|
    ensures !Covered(Mem(Life(cfg, p, events[..n]).w), Life(cfg, p, events).w.started[j])
    ensures Life(cfg, p, events).w.started[j] !in Life(cfg, p, events[..n]).w.first
    decreases |events|
  {
    var before := events[..|events| - 1];
    assert before[..n] == events[..n];
    if n < |before| && j < |Life(cfg, p, before).w.started| {
      LifeGrows(cfg, p, before, events[|events| - 1]);
      StartsStay(cfg, p, events, j, o);
      NoRecordedBodyRunsAgain(cfg, p, before, n, j, o);
    } else {
      assert n == |before| ==> before == events[..n];
      NewStartsAreUncovered(cfg, p, events, n, j, o);
      FirstStaysCovered(cfg, p, events[..n], Life(cfg, p, events).w.started[j]);
    }
  }

  /** What was recorded once is covered at every later moment. */
  lemma FirstStaysCovered(cfg: Config, p: Prog, events: seq<Event>, k: Key)
    ensures k in Life(cfg, p, events).w.first ==> Covered(Mem(Life(cfg, p, events).w), k)
  {
    var w := Life(cfg, p, events).w;
    LifeIsGood(cfg, p, events, Known(w.first));
    if k in w.first {
      FirstIsCovered(p, [], 0, Mem(w), Known(w.first), cfg.defaultRetry, w.rec.t, k);
    }
  }

  lemma StartsStay(cfg: Config, p: Prog, events: seq<Event>, j: nat, o: Oracle)
    requires events != [] && Extends(o, Life(cfg, p, events).w.first)
    requires j < |Life(cfg, p, events[..|events| - 1]).w.started|
    ensures j < |Life(cfg, p, events).w.started|
    ensures Life(cfg, p, events).w.started[j] == Life(cfg, p, events[..|events| - 1]).w.started[j]
  {
    var before := events[..|events| - 1];
    LifeGrows(cfg, p, before, events[|events| - 1]);
    LifeIsGood(cfg, p, before, o);
    HappensAdvances(cfg, p, Life(cfg, p, before), events[|events| - 1], o);
  }

  /** What the last event starts was not covered at any earlier moment. */
  lemma NewStartsAreUncovered(cfg: Config, p: Prog, events: seq<Event>, n: nat, j: nat, o: Oracle)
    requires n < |events| && Extends(o, Life(cfg, p, events).w.first)
    requires |Life(cfg, p, events[..|events| - 1]).w.started| <= j < |Life(cfg, p, events).w.started|
    ensures !Covered(Mem(Life(cfg, p, events[..n]).w), Life(cfg, p, events).w.started[j])
  {
    var before := events[..|events| - 1];
    LifeGrows(cfg, p, before, events[|events| - 1]);
    LifeAdvances(cfg, p, before, n, o);
    assert before[..n] == events[..n];
    LifeIsGood(cfg, p, before, o);
    StartIsUncovered(cfg, p, Life(cfg, p, before), events[|events| - 1], j, o);
  }

  lemma StartIsUncovered(cfg: Config, p: Prog, job: Job, event: Event, j: nat, o: Oracle)
    requires Good(cfg, p, job, o) && Extends(o, Happens(cfg, p, job, event).w.first)
    requires |job.w.started| <= j < |Happens(cfg, p, job, event).w.started|
    ensures !Covered(Mem(job.w), Happens(cfg, p, job, event).w.started[j])
  {
    HappensAdvances(cfg, p, job, event, o);
    NotCoveredAtAll(Mem(job.w), Happens(cfg, p, job, event).w.started[j]);
  }

  lemma NotCoveredAtAll(m: Memory, k: Key)
    requires RootUnused(m) && !CoveredWithin(m, [], k)
    ensures !Covered(m, k)
  {}
}
