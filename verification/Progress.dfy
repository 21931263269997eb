/** Unfinished jobs get done: an attempt that nothing stands in the way of completes. */
module Progress {
  import opened Values
  import opened JobRecord
  import opened Program
  import opened Frames
  import opened Replay
  import opened Lifecycle
  import opened Guarantees
  import opened Theorems

  /** No waits, and every result can be stored. */
  ghost predicate Unobstructed(p: Prog, path: seq<nat>, i: nat, o: Oracle) {
    p.Return? ||
    (&& p.Step? && Supported(ResultOf(p, path, i, o))
     && (p.body.Inner? ==> Unobstructed(p.body.code, path + [i], 0, o))
     && Unobstructed(Next(p, ResultOf(p, path, i, o)), path, i + 1, o))
  }

  /** Nothing fails, and outside work gives what can be stored. */
  ghost predicate Smooth(schedule: Schedule) {
    forall n :: schedule(n).fault.None? && Supported(schedule(n).value)
  }

  /** Whatever is recorded already, the program runs to its end. */
  lemma {:induction false} ExecReturns(p: Prog, path: seq<nat>, i: nat, w: World, x: Setup, o: Oracle)
    requires w.cursor <= |w.rec.t| && !x.probe && Smooth(x.schedule) && Unobstructed(p, path, i, o)
    requires Ok(p, path, i, Mem(w), o, x.defaultRetry, w.rec.t[w.cursor..])
    requires Extends(o, Exec(p, path, i, w, x).1.first)
    ensures Exec(p, path, i, w, x).0.Returned?
    decreases p, 1
  {
    var r := Perform(p, path, i, w, x);
    PerformFrame(p, path, i, w, x);
    if !p.Return? {
      if r.Continues? {
        ExecFrame(Next(p, r.result), path, i + 1, r.w, x);
      }
      PerformContinues(p, path, i, w, x, o);
      PerformOk(p, path, i, w, x, o);
      ThenRestOk(p, path, i, w, r, o, x.defaultRetry);
      ExecReturns(Next(p, r.result), path, i + 1, r.w, x, o);
    }
  }

  lemma {:induction false} PerformContinues(p: Prog, path: seq<nat>, i: nat, w: World, x: Setup, o: Oracle)
    requires w.cursor <= |w.rec.t| && !x.probe && Smooth(x.schedule) && Unobstructed(p, path, i, o) && p.Step?
    requires Ok(p, path, i, Mem(w), o, x.defaultRetry, w.rec.t[w.cursor..])
    requires Extends(o, Perform(p, path, i, w, x).w.first)
    ensures Perform(p, path, i, w, x).Continues?
    decreases p, 0
  {
    PerformWorks(p, path, i, w, x);
    if Works(p, path, i, w, x) {
      WorksOk(p, path, i, w, x, o);
      ProduceContinues(p, path, i, EnteredBy(p, path, i, w, x), x.schedule(w.pos).now, x, o);
    } else {
      EnterOk(p, path, i, Ticked(w), o, x.defaultRetry);
      PerformIdles(p, path, i, w, x);
    }
  }

  lemma {:induction false} ProduceContinues(p: Prog, path: seq<nat>, i: nat, w: World, now: int, x: Setup, o: Oracle)
    requires 0 < w.cursor <= |w.rec.t| && !x.probe && Smooth(x.schedule) && Unobstructed(p, path, i, o) && p.Step?
    requires Ok(p, path, i, Mem(w), o, x.defaultRetry, w.rec.t[w.cursor - 1..])
    requires !HasStep(w.rec, KeyOf(p, path, i))
    requires Extends(o, Produce(p, KeyOf(p, path, i), w, now, x).w.first)
    ensures Produce(p, KeyOf(p, path, i), w, now, x).Continues?
    decreases p.body, 3
  {
    if p.body.Inner? {
      assert w.rec.t[w.cursor - 1..][1..] == w.rec.t[w.cursor..];
      BodyReturns(p, path, i, w, now, x, o);
    }
  }

  lemma {:induction false} BodyReturns(p: Prog, path: seq<nat>, i: nat, w: World, now: int, x: Setup, o: Oracle)
    requires w.cursor <= |w.rec.t| && !x.probe && Smooth(x.schedule) && Unobstructed(p, path, i, o)
    requires p.Step? && p.body.Inner? && Ok(p.body.code, path + [i], 0, Mem(w), o, x.defaultRetry, w.rec.t[w.cursor..])
    requires Extends(o, Produce(p, KeyOf(p, path, i), w, now, x).w.first)
    ensures Produce(p, KeyOf(p, path, i), w, now, x).Continues?
    decreases p.body, 2
  {
    var key := KeyOf(p, path, i);
    var w1 := w.(started := w.started + [key]);
    var r := Exec(p.body.code, path + [i], 0, w1, x);
    assert r.1 == RunBody(p, key, w, x).1;
    assert Produce(p, key, w, now, x).w.first == r.1.first;
    ExecReturns(p.body.code, path + [i], 0, w1, x, o);
    ExecOk(p.body.code, path + [i], 0, w1, x, o);
    assert RunBody(p, key, w, x).0 == Returned(ResultOf(p, path, i, o));
  }

  /** After any history short of cancellation, an attempt that nothing stands in the way of completes. */
  lemma SmoothAttemptCompletes(cfg: Config, p: Prog, events: seq<Event>, schedule: Schedule, o: Oracle)
    requires Life(cfg, p, events).w.rec.s != Cancelled && Smooth(schedule)
    requires Extends(o, Attempt(cfg, p, Life(cfg, p, events), schedule).1.w.first)
    requires Unobstructed(p, [], 0, o) && Supported(Evaluate(p, [], 0, o))
    ensures var (outcome, job) := Attempt(cfg, p, Life(cfg, p, events), schedule);
            && outcome == Completes(Evaluate(p, [], 0, o))
            && job.w.rec.s == job.saved == Completed && job.w.rec.r == Some(Evaluate(p, [], 0, o))
  {
    var job := Life(cfg, p, events);
    AttemptGrows(cfg, p, job, schedule);
    LifeIsGood(cfg, p, events, o);
    AttemptGood(cfg, p, job, schedule, o);
    if job.w.rec.s != Completing {
      AttemptFirst(cfg, p, job, schedule);
      RunReturns(cfg, p, job, schedule, o);
      FaultlessAttempt(cfg, p, job, schedule, Evaluate(p, [], 0, o));
    }
  }

  lemma RunReturns(cfg: Config, p: Prog, job: Job, schedule: Schedule, o: Oracle)
    requires Good(cfg, p, job, o) && Smooth(schedule) && Unobstructed(p, [], 0, o)
    requires Extends(o, RunOf(cfg, p, job, schedule).1.first)
    ensures var (outcome, w) := RunOf(cfg, p, job, schedule);
            outcome == Returned(Evaluate(p, [], 0, o)) && w.cursor == |w.rec.t|
  {
    BegunAgrees(p, job.w, o, cfg.defaultRetry);
    ExecReturns(p, [], 0, Begun(job.w), Setup(schedule, false, cfg.defaultRetry), o);
    RunAgrees(cfg, p, job, schedule, o);
  }
}
