/** How often an outside step that fails is tried: exact counts of its starts, failures and retry requests. */
module RetryCounts {
  import opened Values
  import opened Keys
  import opened RetryPolicy
  import opened JobRecord
  import opened Program
  import opened Frames
  import opened Replay
  import opened Invariants
  import opened StartedBodies
  import opened RetryBudget
  import opened Lifecycle
  import opened Guarantees
  import opened Origins
  import opened RunLoop
  import opened RunOutcomes

  function Count(k: Key, keys: seq<Key>): nat {
    if keys == [] then 0
    else Count(k, keys[..|keys| - 1]) + if keys[|keys| - 1] == k then 1 else 0
  }

  /** How often a step's body was started, the failures on record for it, and the retries it asked for. */
  datatype Tally = Tally(starts: nat, failures: nat, requests: nat)

  ghost function TallyOf(w: World, k: Key): Tally {
    Tally(Count(k, w.started), GetStepRetryCount(w.rec, k), Spent(OfStep(k), w.retries))
  }

  /** Outside work failed, or returned what cannot be stored. */
  predicate Failing(answer: Choice) {
    answer.fault.Some? || !Supported(answer.value)
  }

  /** The failure counts: it is not marked as final, and the process lives on. */
  predicate Counts(answer: Choice) {
    answer.fault != Some(NonRetryableThrown) && answer.fault != Some(ProcessDied)
  }

  /** One more start, which failed; a failure that counts is recorded and retried while attempts remain. */
  predicate TriedOnce(maxAttempts: nat, tally: Tally, tally': Tally, answer: Choice) {
    && Failing(answer) && tally'.starts == tally.starts + 1
    && if Counts(answer) && tally.failures + 1 < maxAttempts then
         tally'.failures == tally.failures + 1 && tally'.requests == tally.requests + 1
       else
         tally'.failures == tally.failures && tally'.requests == tally.requests
  }

  /** The step was not tried, or once, and failed. */
  ghost predicate Tried(maxAttempts: nat, tally: Tally, tally': Tally, schedule: Schedule, from: nat, to: nat) {
    tally' == tally || exists n :: from <= n < to && TriedOnce(maxAttempts, tally, tally', schedule(n))
  }

  // ---- Executions of other code

  lemma CountOneMore(k: Key, keys: seq<Key>, key: Key)
    ensures Count(k, keys + [key]) == Count(k, keys) + if key == k then 1 else 0
  {
    assert (keys + [key])[..|keys|] == keys;
  }

  lemma CaughtTally(w: World, key: Key, policy: Policy, failure: Failure, k: Key)
    ensures var w' := Caught(w, key, policy, failure).1;
            if k == key && failure != Fault(NonRetryableThrown) && failure != Fault(ProcessDied)
               && GetStepRetryCount(w.rec, k) + 1 < policy.maxAttempts then
              TallyOf(w', k) == Tally(Count(k, w.started), GetStepRetryCount(w.rec, k) + 1,
                                      Spent(OfStep(k), w.retries) + 1)
            else TallyOf(w', k) == TallyOf(w, k)
  {
    var w' := Caught(w, key, policy, failure).1;
    if w' != w {
      assert w'.retries[..|w'.retries| - 1] == w.retries;
    }
  }

  lemma RecordedTally(w: World, key: Key, value: Value, outside: bool, k: Key)
    requires k != key && !Inside(key.path, k)
    ensures TallyOf(Recorded(w, key, value, outside), k) == TallyOf(w, k)
  {
    AfterRecorded(w, key, value, outside, k);
    assert At(Mem(Recorded(w, key, value, outside)), k).failures
        == GetStepRetryCount(SaveStepResult(w.rec, key, value), k);
  }

  /** Code leaves the tally of every step alone that is not part of it. */
  lemma {:induction false} ExecElsewhere(p: Prog, path: seq<nat>, i: nat, w: World, x: Setup, k: Key)
    requires w.cursor <= |w.rec.t| && !Below(path, i, k)
    ensures TallyOf(Exec(p, path, i, w, x).1, k) == TallyOf(w, k)
    decreases p, 2
  {
    var r := Perform(p, path, i, w, x);
    ExecPerforms(p, path, i, w, x);
    SplitBelow(path, i);
    PerformElsewhere(p, path, i, w, x, k);
    if r.Continues? && !p.Return? {
      ExecElsewhere(Next(p, r.result), path, i + 1, r.w, x, k);
    }
  }

  lemma {:induction false} PerformElsewhere(p: Prog, path: seq<nat>, i: nat, w: World, x: Setup, k: Key)
    requires w.cursor <= |w.rec.t| && k.path != path + [i] && !Inside(path + [i], k)
    ensures TallyOf(Perform(p, path, i, w, x).w, k) == TallyOf(w, k)
    decreases p, 1
  {
    PerformWorks(p, path, i, w, x);
    if Works(p, path, i, w, x) {
      EnteredTally(Ticked(w), KeyOf(p, path, i), x.probe, k);
      ProduceElsewhere(p, path, i, EnteredBy(p, path, i, w, x), x.schedule(w.pos).now, x, k);
    } else {
      IdleTally(p, path, i, w, x, k);
    }
  }

  lemma EnteredTally(w: World, key: Key, probe: bool, k: Key)
    requires w.cursor <= |w.rec.t|
    ensures TallyOf(EnterStep(w, key, probe).w, k) == TallyOf(w, k)
  {}

  lemma IdleTally(p: Prog, path: seq<nat>, i: nat, w: World, x: Setup, k: Key)
    requires w.cursor <= |w.rec.t| && !Works(p, path, i, w, x)
    ensures TallyOf(Perform(p, path, i, w, x).w, k) == TallyOf(w, k)
  {
    PerformIdles(p, path, i, w, x);
    if !p.Return? {
      EnteredTally(Ticked(w), KeyOf(p, path, i), x.probe, k);
    }
  }

  lemma {:induction false} ProduceElsewhere(p: Prog, path: seq<nat>, i: nat, w: World, now: int, x: Setup, k: Key)
    requires !p.Return? && w.cursor <= |w.rec.t| && k.path != path + [i] && !Inside(path + [i], k)
    ensures TallyOf(Produce(p, KeyOf(p, path, i), w, now, x).w, k) == TallyOf(w, k)
    decreases p, 0
  {
    var key := KeyOf(p, path, i);
    if p.Wait? {
      AwaitElsewhere(p, key, w, now, k);
    } else {
      var w1 := w.(started := w.started + [key]);
      CountOneMore(k, w.started, key);
      if p.body.Inner? {
        SplitBelow(path, i);
        ExecElsewhere(p.body.code, path + [i], 0, w1, x, k);
      }
      var (outcome, w') := RunBody(p, key, w, x);
      assert TallyOf(w', k) == TallyOf(w, k);
      EndedElsewhere(p, key, outcome, w', x.defaultRetry, k);
    }
  }

  lemma AwaitElsewhere(p: Prog, key: Key, w: World, now: int, k: Key)
    requires p.Wait? && k != key && !Inside(key.path, k)
    ensures TallyOf(AwaitSignal(w, p.signal, p.timeoutMs, key, now).1, k) == TallyOf(w, k)
  {
    RecordedTally(w, key, Null, true, k);
  }

  lemma EndedElsewhere(p: Prog, key: Key, outcome: Outcome, w: World, d: RetryOptions, k: Key)
    requires p.Step? && k != key && !Inside(key.path, k)
    ensures TallyOf(Ended(p, key, outcome, w, d).w, k) == TallyOf(w, k)
  {
    match outcome
    case Returned(value) => RecordedTally(w, key, value, p.body.External?, k);
    case Raised(failure) => CaughtTally(w, key, Resolve(p.retry, d), failure, k);
  }

  // ---- Executions of the step

  function AttemptsAt(leaf: Prog, d: RetryOptions): nat
    requires leaf.Step?
  {
    Resolve(leaf.retry, d).maxAttempts
  }

  lemma TriedSince(
    maxAttempts: nat, tally: Tally, tally': Tally, schedule: Schedule, from: nat, from': nat, to: nat, to': nat)
    requires Tried(maxAttempts, tally, tally', schedule, from', to') && from <= from' && to' <= to
    ensures Tried(maxAttempts, tally, tally', schedule, from, to)
  {}

  /** One execution of the code around it tries an outside step once at most, unless the step gets its result. */
  lemma {:induction false} ExecTries(
    p: Prog, path: seq<nat>, i: nat, w: World, x: Setup, o: Oracle, leaf: Prog, k: Key)
    requires w.cursor <= |w.rec.t| && !x.probe && LeafAt(p, path, i, o, k) == Some(leaf) && leaf.Step?
    requires Ok(p, path, i, Mem(w), o, x.defaultRetry, w.rec.t[w.cursor..])
    requires Extends(o, Exec(p, path, i, w, x).1.first) && !Covered(Mem(Exec(p, path, i, w, x).1), k)
    ensures var w' := Exec(p, path, i, w, x).1;
            Tried(AttemptsAt(leaf, x.defaultRetry), TallyOf(w, k), TallyOf(w', k), x.schedule, w.pos, w'.pos)
    decreases p, 2
  {
    var r := Perform(p, path, i, w, x);
    ExecPerforms(p, path, i, w, x);
    if r.Continues? {
      ExecFrame(Next(p, r.result), path, i + 1, r.w, x);
      PerformOk(p, path, i, w, x, o);
      ThenRestOk(p, path, i, w, r, o, x.defaultRetry);
      DoneIsCovered(p, path, i, w, x, o, leaf, k);
      PerformElsewhere(p, path, i, w, x, k);
      ExecTries(Next(p, r.result), path, i + 1, r.w, x, o, leaf, k);
      var w' := Exec(p, path, i, w, x).1;
      PerformMoves(p, path, i, w, x);
      TriedSince(AttemptsAt(leaf, x.defaultRetry), TallyOf(w, k), TallyOf(w', k), x.schedule, w.pos, r.w.pos,
                 w'.pos, w'.pos);
    } else {
      PerformTries(p, path, i, w, x, o, leaf, k);
    }
  }

  /** Once code has gone on, a step that is still open comes later. */
  lemma DoneIsCovered(p: Prog, path: seq<nat>, i: nat, w: World, x: Setup, o: Oracle, leaf: Prog, k: Key)
    requires w.cursor <= |w.rec.t| && LeafAt(p, path, i, o, k) == Some(leaf) && Perform(p, path, i, w, x).Continues?
    requires PerformedOk(p, path, i, w, Perform(p, path, i, w, x), o, x.defaultRetry)
    requires !Covered(Mem(Exec(p, path, i, w, x).1), k)
    ensures Below(path, i + 1, k) && k.path != path + [i] && !Inside(path + [i], k)
  {
    var r := Perform(p, path, i, w, x);
    ExecPerforms(p, path, i, w, x);
    SplitBelow(path, i);
    if !Below(path, i + 1, k) {
      assert KeyOf(p, path, i).path <= k.path;
      assert Covered(Mem(r.w), k);
      ExecKeepsCovered(Next(p, r.result), path, i + 1, r.w, x, k);
    }
  }

  lemma {:induction false} PerformTries(
    p: Prog, path: seq<nat>, i: nat, w: World, x: Setup, o: Oracle, leaf: Prog, k: Key)
    requires w.cursor <= |w.rec.t| && !x.probe && LeafAt(p, path, i, o, k) == Some(leaf) && leaf.Step?
    requires Ok(p, path, i, Mem(w), o, x.defaultRetry, w.rec.t[w.cursor..])
    requires Extends(o, Perform(p, path, i, w, x).w.first) && !Covered(Mem(Perform(p, path, i, w, x).w), k)
    ensures var w' := Perform(p, path, i, w, x).w;
            Tried(AttemptsAt(leaf, x.defaultRetry), TallyOf(w, k), TallyOf(w', k), x.schedule, w.pos, w'.pos)
    decreases p, 1
  {
    SplitBelow(path, i);
    PerformWorks(p, path, i, w, x);
    if Below(path, i + 1, k) {
      PerformElsewhere(p, path, i, w, x, k);
    } else if Works(p, path, i, w, x) {
      var entered := EnteredBy(p, path, i, w, x);
      EnteredTally(Ticked(w), KeyOf(p, path, i), x.probe, k);
      EnterTicks(Ticked(w), KeyOf(p, path, i), x.probe);
      WorksOk(p, path, i, w, x, o);
      ProduceTries(p, path, i, entered, x.schedule(w.pos).now, x, o, leaf, k);
      var w' := Perform(p, path, i, w, x).w;
      TriedSince(AttemptsAt(leaf, x.defaultRetry), TallyOf(w, k), TallyOf(w', k), x.schedule, w.pos, entered.pos,
                 w'.pos, w'.pos);
    } else {
      IdleTally(p, path, i, w, x, k);
    }
  }

  lemma {:induction false} ProduceTries(
    p: Prog, path: seq<nat>, i: nat, w: World, now: int, x: Setup, o: Oracle, leaf: Prog, k: Key)
    requires !p.Return? && 0 < w.cursor <= |w.rec.t| && !x.probe && !Below(path, i + 1, k)
    requires LeafAt(p, path, i, o, k) == Some(leaf) && leaf.Step?
    requires Ok(p, path, i, Mem(w), o, x.defaultRetry, w.rec.t[w.cursor - 1..])
    requires At(Mem(w), KeyOf(p, path, i)).result.None?
    requires Extends(o, Produce(p, KeyOf(p, path, i), w, now, x).w.first)
    requires !Covered(Mem(Produce(p, KeyOf(p, path, i), w, now, x).w), k)
    ensures var w' := Produce(p, KeyOf(p, path, i), w, now, x).w;
            Tried(AttemptsAt(leaf, x.defaultRetry), TallyOf(w, k), TallyOf(w', k), x.schedule, w.pos, w'.pos)
    decreases p, 0
  {
    var key, w' := KeyOf(p, path, i), Produce(p, KeyOf(p, path, i), w, now, x).w;
    var w1 := w.(started := w.started + [key]);
    CountOneMore(k, w.started, key);
    if p.body.External? {
      OutsideTries(p, k, w, now, x);
    } else {
      var inner := Exec(p.body.code, path + [i], 0, w1, x).1;
      assert w.rec.t[w.cursor - 1..][1..] == w1.rec.t[w1.cursor..];
      InnerProduces(p, path, i, w, now, x);
      OpenAfterBody(p, path, i, w, now, x, k);
      ExecTries(p.body.code, path + [i], 0, w1, x, o, leaf, k);
      assert TallyOf(w1, k) == TallyOf(w, k);
    }
  }

  /** A step still open after its enclosing step's body was open at the end of that body, which failed. */
  lemma OpenAfterBody(p: Prog, path: seq<nat>, i: nat, w: World, now: int, x: Setup, k: Key)
    requires p.Step? && p.body.Inner? && w.cursor <= |w.rec.t| && Inside(path + [i], k)
    requires !Covered(Mem(Produce(p, KeyOf(p, path, i), w, now, x).w), k)
    ensures var inner := Exec(p.body.code, path + [i], 0, w.(started := w.started + [KeyOf(p, path, i)]), x).1;
            && !Covered(Mem(inner), k)
            && TallyOf(Produce(p, KeyOf(p, path, i), w, now, x).w, k) == TallyOf(inner, k)
  {
    var key, r := KeyOf(p, path, i), Produce(p, KeyOf(p, path, i), w, now, x);
    var (outcome, inner) := RunBody(p, key, w, x);
    if outcome.Returned? {
      AfterRecorded(inner, key, outcome.value, false, key);
      assert false;
    } else {
      CaughtTally(inner, key, Resolve(p.retry, x.defaultRetry), outcome.failure, k);
      if Covered(Mem(inner), k) {
        SameResultsCovered(Mem(inner), Mem(r.w), k);
      }
    }
  }

  /** An outside step that is left without a result was tried, and what it answered was a failure. */
  lemma OutsideTries(p: Prog, key: Key, w: World, now: int, x: Setup)
    requires p.Step? && p.body.External? && w.cursor <= |w.rec.t|
    requires !Covered(Mem(Produce(p, key, w, now, x).w), key)
    ensures var w' := Produce(p, key, w, now, x).w;
            Tried(AttemptsAt(p, x.defaultRetry), TallyOf(w, key), TallyOf(w', key), x.schedule, w.pos, w'.pos)
  {
    var answer, r := x.schedule(w.pos), Produce(p, key, w, now, x);
    if Failing(answer) {
      FailingStep(p, key, w, now, x, AttemptsAt(p, x.defaultRetry));
      assert TriedOnce(AttemptsAt(p, x.defaultRetry), TallyOf(w, key), TallyOf(r.w, key), answer);
    } else {
      AfterRecorded(RunBody(p, key, w, x).1, key, answer.value, true, key);
      assert false;
    }
  }

  /** What becomes of an outside step whose work failed. */
  lemma FailingStep(p: Prog, key: Key, w: World, now: int, x: Setup, maxAttempts: nat)
    requires p.Step? && p.body.External? && w.cursor <= |w.rec.t|
    requires Failing(x.schedule(w.pos)) && maxAttempts == Resolve(p.retry, x.defaultRetry).maxAttempts
    ensures var r, answer := Produce(p, key, w, now, x), x.schedule(w.pos);
            && r.Stops? && r.w.pos == w.pos + 1 && r.w.rec == w.rec.(a := r.w.rec.a)
            && TriedOnce(maxAttempts, TallyOf(w, key), TallyOf(r.w, key), answer)
            && if Counts(answer) && GetStepRetryCount(w.rec, key) + 1 < maxAttempts then r.failure.RetryRequested?
               else r.failure == if answer.fault.Some? then Fault(answer.fault.value) else Unserializable
  {
    var (outcome, w1) := RunBody(p, key, w, x);
    CountOneMore(key, w.started, key);
    CaughtTally(w1, key, Resolve(p.retry, x.defaultRetry), outcome.failure, key);
  }

  // ---- Whole lives

  /** No answer ends the process or is marked as final; it may well be a failure. */
  ghost predicate NothingFinal(event: Event) {
    event.RunAttempt? ==> forall n :: Counts(event.schedule(n))
  }

  ghost predicate TriedBy(maxAttempts: nat, tally: Tally, tally': Tally, event: Event, from: nat, to: nat) {
    tally' == tally || (event.RunAttempt? && Tried(maxAttempts, tally, tally', event.schedule, from, to))
  }

  lemma SameCellSameTally(w: World, w': World, k: Key)
    requires At(Mem(w'), k) == At(Mem(w), k) && w'.started == w.started && w'.retries == w.retries
    ensures TallyOf(w', k) == TallyOf(w, k)
  {}

  /** Only attempts try a step, each of them once at most. */
  lemma HappensTries(cfg: Config, p: Prog, job: Job, event: Event, o: Oracle, leaf: Prog, k: Key)
    requires Good(cfg, p, job, o) && LeafAt(p, [], 0, o, k) == Some(leaf) && leaf.Step?
    requires Extends(o, Happens(cfg, p, job, event).w.first) && !Covered(Mem(Happens(cfg, p, job, event).w), k)
    ensures var w' := Happens(cfg, p, job, event).w;
            TriedBy(AttemptsAt(leaf, cfg.defaultRetry), TallyOf(job.w, k), TallyOf(w', k), event, job.w.pos, w'.pos)
  {
    match event
    case RunAttempt(schedule, exhausted) =>
      if job.w.rec.s != Cancelled {
        AttemptTries(cfg, p, job, schedule, exhausted, o, leaf, k);
      }
    case SendSignal(name, payload) =>
      DeliverTouches(cfg, p, job, name, payload, o);
      var w' := Deliver(job, name, payload).w;
      assert !Covered(Mem(w'), k) ==> At(Mem(w'), k).result.None?;
      SameCellSameTally(job.w, w', k);
    case _ => SameCellSameTally(job.w, Happens(cfg, p, job, event).w, k);
  }

  lemma AttemptTries(
    cfg: Config, p: Prog, job: Job, schedule: Schedule, exhausted: bool, o: Oracle, leaf: Prog, k: Key)
    requires Good(cfg, p, job, o) && job.w.rec.s != Cancelled
    requires LeafAt(p, [], 0, o, k) == Some(leaf) && leaf.Step?
    requires Extends(o, Happens(cfg, p, job, RunAttempt(schedule, exhausted)).w.first)
    requires !Covered(Mem(Happens(cfg, p, job, RunAttempt(schedule, exhausted)).w), k)
    ensures var w' := Happens(cfg, p, job, RunAttempt(schedule, exhausted)).w;
            Tried(AttemptsAt(leaf, cfg.defaultRetry), TallyOf(job.w, k), TallyOf(w', k), schedule, job.w.pos, w'.pos)
  {
    var w' := Happens(cfg, p, job, RunAttempt(schedule, exhausted)).w;
    AttemptFirst(cfg, p, job, schedule);
    AttemptMemory(cfg, p, job, schedule, exhausted, o);
    if job.w.rec.s == Completing {
      SameCellSameTally(job.w, w', k);
    } else {
      var w1 := RunOf(cfg, p, job, schedule).1;
      BegunAgrees(p, job.w, o, cfg.defaultRetry);
      ExecTries(p, [], 0, Begun(job.w), Setup(schedule, false, cfg.defaultRetry), o, leaf, k);
      SameCellSameTally(job.w, Begun(job.w), k);
      SameCellSameTally(w1, w', k);
      AttemptPos(cfg, p, job, schedule, exhausted);
      TriedSince(AttemptsAt(leaf, cfg.defaultRetry), TallyOf(job.w, k), TallyOf(w', k), schedule, job.w.pos,
                 job.w.pos, w'.pos, w1.pos);
    }
  }

  /** Every failure on record was retried; and all failures are on record, up to the attempts there are. */
  predicate Exact(maxAttempts: nat, tally: Tally, nothingFinal: bool) {
    && tally.requests == tally.failures <= tally.starts && tally.failures < maxAttempts
    && (nothingFinal ==> tally.failures == if tally.starts < maxAttempts then tally.starts else maxAttempts - 1)
  }

  lemma ExactNext(maxAttempts: nat, tally: Tally, tally': Tally, event: Event, from: nat, to: nat, nothingFinal: bool)
    requires Exact(maxAttempts, tally, nothingFinal) && TriedBy(maxAttempts, tally, tally', event, from, to)
    ensures Exact(maxAttempts, tally', nothingFinal && NothingFinal(event))
  {
    if tally' != tally {
      var n :| from <= n < to && TriedOnce(maxAttempts, tally, tally', event.schedule(n));
    }
  }

  /**
   * As long as an outside step has no result, it has asked for exactly as many retries as failures are on
   * record for it. If nothing in this life is final, both are the number of its starts, up to one less than its
   * attempts: each of the first starts is followed by a retry, and none after them.
   */
  lemma {:induction false} RetriesAreExact(
    cfg: Config, p: Prog, events: seq<Event>, o: Oracle, leaf: Prog, k: Key)
    requires Extends(o, Life(cfg, p, events).w.first) && LeafAt(p, [], 0, o, k) == Some(leaf) && leaf.Step?
    requires !Covered(Mem(Life(cfg, p, events).w), k)
    ensures Exact(Resolve(leaf.retry, cfg.defaultRetry).maxAttempts, TallyOf(Life(cfg, p, events).w, k),
                  forall event | event in events :: NothingFinal(event))
    decreases |events|
  {
    if events != [] {
      var before, event := events[..|events| - 1], events[|events| - 1];
      OpenBefore(cfg, p, events, before, event, o, k);
      RetriesAreExact(cfg, p, before, o, leaf, k);
      LifeIsGood(cfg, p, before, o);
      var job := Life(cfg, p, before);
      HappensTries(cfg, p, job, event, o, leaf, k);
      var w' := Happens(cfg, p, job, event).w;
      ExactNext(AttemptsAt(leaf, cfg.defaultRetry), TallyOf(job.w, k), TallyOf(w', k), event, job.w.pos, w'.pos,
                forall e | e in before :: NothingFinal(e));
    }
  }

  lemma OpenBefore(
    cfg: Config, p: Prog, events: seq<Event>, before: seq<Event>, event: Event, o: Oracle, k: Key)
    requires events != [] && before == events[..|events| - 1] && event == events[|events| - 1]
    requires Extends(o, Life(cfg, p, events).w.first) && !Covered(Mem(Life(cfg, p, events).w), k)
    ensures Life(cfg, p, events) == Happens(cfg, p, Life(cfg, p, before), event)
    ensures Extends(o, Life(cfg, p, before).w.first) && !Covered(Mem(Life(cfg, p, before).w), k)
  {
    LifeGrows(cfg, p, before, event);
    LifeAdvances(cfg, p, events, |before|, o);
  }

  // ---- A run whose first step always fails

  /** From `from` on workflow code is never at fault, and outside work always is. */
  ghost predicate WorkAlwaysFails(schedule: Schedule, from: nat) {
    forall n: nat | n >= from ::
      schedule(n).fault == if (n - from) % 2 == 0 then None else Some(ErrorThrown)
  }

  /** The step at `key` is the first of the workflow, and has no result. */
  predicate AtFirstStep(job: Job, key: Key) {
    RunsCode(job) && !HasStep(job.w.rec, key) && (job.w.rec.t == [] || job.w.rec.t[0] == key)
  }

  /** An attempt from `job` started the body once more; its failure was retried, or the error left the step. */
  ghost predicate StepFailed(job: Job, key: Key, maxAttempts: nat, answer: Choice, failure: Failure, job': Job) {
    && job'.w.pos == job.w.pos + 2 && AtFirstStep(job', key) && job'.sent == job.sent
    && TriedOnce(maxAttempts, TallyOf(job.w, key), TallyOf(job'.w, key), answer)
    && if GetStepRetryCount(job.w.rec, key) + 1 < maxAttempts then failure.RetryRequested?
       else failure == Fault(ErrorThrown)
  }

  lemma FirstStepFails(cfg: Config, p: Prog, job: Job, schedule: Schedule, key: Key, maxAttempts: nat)
    requires p.Step? && p.body.External? && key == KeyOf(p, [], 0) && AtFirstStep(job, key)
    requires WorkAlwaysFails(schedule, job.w.pos) && maxAttempts == Resolve(p.retry, cfg.defaultRetry).maxAttempts
    ensures var (outcome, job') := Attempt(cfg, p, job, schedule);
            outcome.Throws? && StepFailed(job, key, maxAttempts, schedule(job.w.pos + 1), outcome.failure, job')
  {
    var x := Setup(schedule, false, cfg.defaultRetry);
    var entered := FirstStepEntered(cfg, p, job, schedule, key);
    FailingStep(p, key, entered, schedule(job.w.pos).now, x, maxAttempts);
    StoppedInFirstStep(cfg, p, job, schedule, key, entered);
  }

  lemma FirstStepEntered(cfg: Config, p: Prog, job: Job, schedule: Schedule, key: Key) returns (entered: World)
    requires p.Step? && key == KeyOf(p, [], 0) && AtFirstStep(job, key) && schedule(job.w.pos).fault.None?
    ensures var x := Setup(schedule, false, cfg.defaultRetry);
            Works(p, [], 0, Begun(job.w), x) && entered == EnteredBy(p, [], 0, Begun(job.w), x)
    ensures entered.pos == job.w.pos + 1 && TallyOf(entered, key) == TallyOf(job.w, key)
    ensures entered.rec == job.w.rec.(s := Running, e := None, t := entered.rec.t) && entered.rec.t[0] == key
  {
    var x := Setup(schedule, false, cfg.defaultRetry);
    PerformWorks(p, [], 0, Begun(job.w), x);
    entered := EnteredBy(p, [], 0, Begun(job.w), x);
  }

  lemma StoppedInFirstStep(cfg: Config, p: Prog, job: Job, schedule: Schedule, key: Key, entered: World)
    requires p.Step? && key == KeyOf(p, [], 0) && RunsCode(job)
    requires var x := Setup(schedule, false, cfg.defaultRetry);
             && Works(p, [], 0, Begun(job.w), x) && entered == EnteredBy(p, [], 0, Begun(job.w), x)
             && Produce(p, key, entered, schedule(job.w.pos).now, x).Stops?
    ensures var r := Produce(p, key, entered, schedule(job.w.pos).now, Setup(schedule, false, cfg.defaultRetry));
            Attempt(cfg, p, job, schedule) == (Throws(r.failure), RunningJob(job, r.w))
  {
    var x := Setup(schedule, false, cfg.defaultRetry);
    ExecPerforms(p, [], 0, Begun(job.w), x);
    PerformWorks(p, [], 0, Begun(job.w), x);
  }

  function Min(a: int, b: int): int {
    if a < b then a else b
  }

  /**
   * The loop after `n` turns: `n` starts of the body and as many retries as attempts allow, less one. After
   * that the error leaves the step, and uses up the attempts of the workflow.
   */
  ghost predicate StepFailedSoOften(
    start: Job, key: Key, maxAttempts: nat, workflowRetry: Policy, schedule: Schedule, n: nat, st: RunState)
  {
    var tally, tally' := TallyOf(start.w, key), TallyOf(st.job.w, key);
    && tally'.starts == tally.starts + n && tally'.failures == Min(n, maxAttempts - 1)
    && tally'.requests == tally.requests + Min(n, maxAttempts - 1) && st.job.sent == start.sent
    && if n < maxAttempts - 1 + workflowRetry.maxAttempts then
         && st.Going? && st.failedAttempts == n - Min(n, maxAttempts - 1) && AtFirstStep(st.job, key)
         && WorkAlwaysFails(schedule, st.job.w.pos)
       else st.Over? && st.result == Rejected && st.job.w.rec.s == st.job.saved == Failed
  }

  /**
   * A workflow whose first step does outside work that always fails: its body is started once for each attempt
   * of the step, each but the last followed by a retry; its error then leaves it, and is met again in every
   * attempt the workflow has left. Then the run is rejected, and the job failed.
   */
  lemma FailingStepUsesAllAttempts(
    cfg: Config, p: Prog, schedule: Schedule, workflowRetry: Policy, job: Job, key: Key, maxAttempts: nat, n: nat)
    requires p.Step? && p.body.External? && key == KeyOf(p, [], 0) && AtFirstStep(job, key)
    requires GetStepRetryCount(job.w.rec, key) == 0 && WorkAlwaysFails(schedule, job.w.pos)
    requires maxAttempts == Resolve(p.retry, cfg.defaultRetry).maxAttempts && workflowRetry.maxAttempts >= 1
    requires n <= maxAttempts - 1 + workflowRetry.maxAttempts
    ensures StepFailedSoOften(
              job, key, maxAttempts, workflowRetry, schedule, n, Turns(cfg, p, schedule, workflowRetry, job, n))
  {
    var body, turns := LoopBody(cfg, p, schedule, workflowRetry), maxAttempts - 1 + workflowRetry.maxAttempts;
    var inv := (m: nat, st: RunState) =>
      m <= turns ==> StepFailedSoOften(job, key, maxAttempts, workflowRetry, schedule, m, st);
    forall m: nat, st: RunState | inv(m, st) ensures inv(m + 1, if st.Over? then st else body(st)) {
      if m < turns {
        FailingTurn(cfg, p, schedule, workflowRetry, job, st, key, maxAttempts, m, m + 1);
      }
    }
    IterateInvariant(body, Going(job, 0, 0), n, inv);
  }

  lemma FailingTurn(
    cfg: Config, p: Prog, schedule: Schedule, workflowRetry: Policy, job: Job, st: RunState, key: Key,
    maxAttempts: nat, m: nat, n: nat)
    requires p.Step? && p.body.External? && key == KeyOf(p, [], 0) && n == m + 1
    requires maxAttempts == Resolve(p.retry, cfg.defaultRetry).maxAttempts && workflowRetry.maxAttempts >= 1
    requires m < maxAttempts - 1 + workflowRetry.maxAttempts
    requires StepFailedSoOften(job, key, maxAttempts, workflowRetry, schedule, m, st)
    ensures StepFailedSoOften(
              job, key, maxAttempts, workflowRetry, schedule, n, Turn(cfg, p, schedule, workflowRetry, st))
  {
    var (outcome, job') := Attempt(cfg, p, st.job, schedule);
    FirstStepFails(cfg, p, st.job, schedule, key, maxAttempts);
    TurnFollows(cfg, p, schedule, workflowRetry, st);
    FailureCounts(job, key, maxAttempts, workflowRetry, schedule, m, n, st, outcome.failure, job',
                  Turn(cfg, p, schedule, workflowRetry, st));
  }

  lemma FailureCounts(
    start: Job, key: Key, maxAttempts: nat, workflowRetry: Policy, schedule: Schedule, m: nat, n: nat,
    st: RunState, failure: Failure, job: Job, st': RunState)
    requires n == m + 1 <= maxAttempts - 1 + workflowRetry.maxAttempts && workflowRetry.maxAttempts >= 1
    requires StepFailedSoOften(start, key, maxAttempts, workflowRetry, schedule, m, st)
    requires WorkAlwaysFails(schedule, st.job.w.pos) && Follows(workflowRetry, st, failure, job, st')
    requires StepFailed(st.job, key, maxAttempts, schedule(st.job.w.pos + 1), failure, job)
    ensures StepFailedSoOften(start, key, maxAttempts, workflowRetry, schedule, n, st')
  {
    TwoReadingsOn(schedule, st.job.w.pos);
  }

  lemma TwoReadingsOn(schedule: Schedule, from: nat)
    requires WorkAlwaysFails(schedule, from)
    ensures WorkAlwaysFails(schedule, from + 2)
  {}
}
