/** Every job that is not cancelled can still be completed, by attempts and by the signals it waits for. */
module Continuation {
  import opened Values
  import opened Keys
  import opened JobRecord
  import opened Program
  import opened Frames
  import opened Replay
  import opened Invariants
  import opened Lifecycle
  import opened Guarantees
  import opened Theorems

  /** Whatever the program or code in it returns can be stored. */
  ghost predicate Storable(p: Prog) {
    if p.Return? then Supported(p.value)
    else
      && (p.Step? && p.body.Inner? ==> Storable(p.body.code))
      && Storable(p.otherwise) && forall v | v in p.next :: Storable(p.next[v])
  }

  lemma NextIsStorable(p: Prog, result: Value)
    requires Storable(p) && !p.Return?
    ensures Storable(Next(p, result))
  {}

  lemma {:induction false} StorableEvaluates(p: Prog, path: seq<nat>, i: nat, o: Oracle)
    requires Storable(p)
    ensures Supported(Evaluate(p, path, i, o))
    decreases p
  {
    if !p.Return? {
      NextIsStorable(p, ResultOf(p, path, i, o));
      StorableEvaluates(Next(p, ResultOf(p, path, i, o)), path, i + 1, o);
    }
  }

  /** Nothing fails, and outside work gives `null`. */
  ghost predicate Quiet(schedule: Schedule) {
    forall n :: schedule(n).fault.None? && schedule(n).value == Null
  }

  /** What is recorded first is `null`. */
  ghost predicate OnlyNulls(w: World, w': World) {
    forall k | k in w'.first && k !in w.first :: w'.first[k] == Null
  }

  lemma {:induction false} ExecRecordsNulls(p: Prog, path: seq<nat>, i: nat, w: World, x: Setup)
    requires w.cursor <= |w.rec.t| && Quiet(x.schedule)
    ensures OnlyNulls(w, Exec(p, path, i, w, x).1)
    decreases p, 2
  {
    var r := Perform(p, path, i, w, x);
    PerformRecordsNulls(p, path, i, w, x);
    ExecPerforms(p, path, i, w, x);
    if r.Continues? && !p.Return? {
      ExecRecordsNulls(Next(p, r.result), path, i + 1, r.w, x);
      PerformFrame(p, path, i, w, x);
      ExecFrame(Next(p, r.result), path, i + 1, r.w, x);
    }
  }

  lemma {:induction false} PerformRecordsNulls(p: Prog, path: seq<nat>, i: nat, w: World, x: Setup)
    requires w.cursor <= |w.rec.t| && Quiet(x.schedule)
    ensures OnlyNulls(w, Perform(p, path, i, w, x).w)
    decreases p, 1
  {
    PerformWorks(p, path, i, w, x);
    if Works(p, path, i, w, x) {
      ProduceRecordsNulls(p, path, i, EnteredBy(p, path, i, w, x), x.schedule(w.pos).now, x);
    }
  }

  lemma {:induction false} ProduceRecordsNulls(p: Prog, path: seq<nat>, i: nat, w: World, now: int, x: Setup)
    requires !p.Return? && w.cursor <= |w.rec.t| && Quiet(x.schedule)
    ensures OnlyNulls(w, Produce(p, KeyOf(p, path, i), w, now, x).w)
    decreases p, 0
  {
    if p.Step? && p.body.Inner? {
      var key := KeyOf(p, path, i);
      var w1 := w.(started := w.started + [key]);
      ExecRecordsNulls(p.body.code, path + [i], 0, w1, x);
      assert RunBody(p, key, w, x).1 == Exec(p.body.code, path + [i], 0, w1, x).1;
    }
  }

  // ---- One quiet attempt

  /** The code asks to be run again, and waits for a signal. */
  ghost predicate Awaits(failure: Failure, w: World) {
    (failure.SignalWaitRequested? || failure.RetryRequested?) && w.rec.ps != map[]
  }

  /** Without faults, code returns or waits for a signal. */
  lemma {:induction false} ExecReturnsOrAwaits(p: Prog, path: seq<nat>, i: nat, w: World, x: Setup, o: Oracle)
    requires w.cursor <= |w.rec.t| && !x.probe && Quiet(x.schedule) && Storable(p)
    requires Ok(p, path, i, Mem(w), o, x.defaultRetry, w.rec.t[w.cursor..])
    requires Extends(o, Exec(p, path, i, w, x).1.first)
    ensures var (outcome, w') := Exec(p, path, i, w, x); outcome.Raised? ==> Awaits(outcome.failure, w')
    decreases p, 2
  {
    var r := Perform(p, path, i, w, x);
    PerformFrame(p, path, i, w, x);
    ExecPerforms(p, path, i, w, x);
    if r.Continues? && !p.Return? {
      ExecFrame(Next(p, r.result), path, i + 1, r.w, x);
      PerformOk(p, path, i, w, x, o);
      ThenRestOk(p, path, i, w, r, o, x.defaultRetry);
      NextIsStorable(p, r.result);
      ExecReturnsOrAwaits(Next(p, r.result), path, i + 1, r.w, x, o);
    } else {
      PerformContinuesOrAwaits(p, path, i, w, x, o);
    }
  }

  lemma {:induction false} PerformContinuesOrAwaits(p: Prog, path: seq<nat>, i: nat, w: World, x: Setup, o: Oracle)
    requires w.cursor <= |w.rec.t| && !x.probe && Quiet(x.schedule) && Storable(p)
    requires Ok(p, path, i, Mem(w), o, x.defaultRetry, w.rec.t[w.cursor..])
    requires Extends(o, Perform(p, path, i, w, x).w.first)
    ensures var r := Perform(p, path, i, w, x); r.Stops? ==> Awaits(r.failure, r.w)
    decreases p, 1
  {
    PerformWorks(p, path, i, w, x);
    if Works(p, path, i, w, x) {
      WorksOk(p, path, i, w, x, o);
      ProduceContinuesOrAwaits(p, path, i, EnteredBy(p, path, i, w, x), x.schedule(w.pos).now, x, o);
    } else {
      PerformIdles(p, path, i, w, x);
      if !p.Return? {
        EnterOk(p, path, i, Ticked(w), o, x.defaultRetry);
      }
    }
  }

  lemma {:induction false} ProduceContinuesOrAwaits(
    p: Prog, path: seq<nat>, i: nat, w: World, now: int, x: Setup, o: Oracle)
    requires !p.Return? && 0 < w.cursor <= |w.rec.t| && !x.probe && Quiet(x.schedule) && Storable(p)
    requires Ok(p, path, i, Mem(w), o, x.defaultRetry, w.rec.t[w.cursor - 1..])
    requires At(Mem(w), KeyOf(p, path, i)).result.None?
    requires Extends(o, Produce(p, KeyOf(p, path, i), w, now, x).w.first)
    ensures var r := Produce(p, KeyOf(p, path, i), w, now, x); r.Stops? ==> Awaits(r.failure, r.w)
    decreases p, 0
  {
    var key := KeyOf(p, path, i);
    if p.Wait? {
      AwaitAwaits(w, p.signal, p.timeoutMs, key, now);
    } else if p.body.Inner? {
      var w1 := w.(started := w.started + [key]);
      var r := Exec(p.body.code, path + [i], 0, w1, x);
      assert w.rec.t[w.cursor - 1..][1..] == w1.rec.t[w1.cursor..];
      assert RunBody(p, key, w, x).1 == r.1 && Produce(p, key, w, now, x).w.first == r.1.first;
      ExecReturnsOrAwaits(p.body.code, path + [i], 0, w1, x, o);
      ExecOk(p.body.code, path + [i], 0, w1, x, o);
      StorableEvaluates(p.body.code, path + [i], 0, o);
      if r.0.Raised? {
        CaughtAwaits(r.1, key, p, x, r.0.failure);
      }
    }
  }

  lemma AwaitAwaits(w: World, signal: string, timeoutMs: Option<nat>, key: Key, now: int)
    ensures var (failure, w') := AwaitSignal(w, signal, timeoutMs, key, now);
            failure.Some? ==> Awaits(failure.value, w')
  {
    var (failure, w') := AwaitSignal(w, signal, timeoutMs, key, now);
    assert failure.Some? ==> signal in w'.rec.ps;
  }

  lemma CaughtAwaits(w: World, key: Key, p: Prog, x: Setup, failure: Failure)
    requires p.Step? && Awaits(failure, w)
    ensures var r := Ended(p, key, Raised(failure), w, x.defaultRetry); r.Stops? && Awaits(r.failure, r.w)
  {}

  // ---- Rounds: an attempt, and the signal it waits for

  function Turn(schedule: Schedule): Event {
    RunAttempt(schedule, false)
  }

  /** The job is done, in memory and in the queue, with the program's value. */
  ghost predicate IsComplete(p: Prog, job: Job, o: Oracle) {
    job.w.rec.s == job.saved == Completed && job.w.rec.r == Some(Evaluate(p, [], 0, o))
  }

  /** `o` gives `null` wherever nothing is recorded yet. */
  ghost predicate NullElsewhere(o: Oracle, first: map<Key, Value>) {
    Extends(o, first) && forall k | k !in first :: o(k) == Null
  }

  lemma TurnRecordsNulls(cfg: Config, p: Prog, schedule: Schedule, job: Job, o: Oracle)
    requires Quiet(schedule) && NullElsewhere(o, job.w.first)
    ensures NullElsewhere(o, Attempt(cfg, p, job, schedule).1.w.first)
  {
    AttemptFirst(cfg, p, job, schedule);
    RunFrame(cfg, p, job, schedule);
    ExecRecordsNulls(p, [], 0, Begun(job.w), Setup(schedule, false, cfg.defaultRetry));
  }

  /** A quiet attempt completes the job or leaves it waiting for a signal. */
  lemma TurnCompletesOrAwaits(cfg: Config, p: Prog, schedule: Schedule, job: Job, o: Oracle)
    requires Quiet(schedule) && Storable(p)
    requires Good(cfg, p, job, o) && job.w.rec.s != Cancelled && NullElsewhere(o, job.w.first)
    ensures var after := Happens(cfg, p, job, Turn(schedule));
            && Good(cfg, p, after, o) && NullElsewhere(o, after.w.first) && after.w.rec.s != Cancelled
            && Grows(job.w.first, after.w.first) && (IsComplete(p, after, o) || after.w.rec.ps != map[])
  {
    TurnRecordsNulls(cfg, p, schedule, job, o);
    StorableEvaluates(p, [], 0, o);
    AttemptGood(cfg, p, job, schedule, o);
    AttemptGrows(cfg, p, job, schedule);
    if job.w.rec.s == Completing {
      FaultlessFinalize(job, schedule);
    } else {
      RunCompletesOrAwaits(cfg, p, schedule, job, o);
    }
  }

  lemma RunCompletesOrAwaits(cfg: Config, p: Prog, schedule: Schedule, job: Job, o: Oracle)
    requires Quiet(schedule) && Storable(p) && Good(cfg, p, job, o) && job.w.rec.s !in {Cancelled, Completing}
    requires Extends(o, Attempt(cfg, p, job, schedule).1.w.first) && Supported(Evaluate(p, [], 0, o))
    ensures var r := Attempt(cfg, p, job, schedule);
            && Happens(cfg, p, job, Turn(schedule)) == r.1 && (IsComplete(p, r.1, o) || r.1.w.rec.ps != map[])
  {
    AttemptFirst(cfg, p, job, schedule);
    RunReturnsOrAwaits(cfg, p, schedule, job, o);
    if RunOf(cfg, p, job, schedule).0.Returned? {
      FaultlessAttempt(cfg, p, job, schedule, Evaluate(p, [], 0, o));
      ConcludedAfter(cfg, job, Evaluate(p, [], 0, o), Attempt(cfg, p, job, schedule), false);
    }
  }

  lemma RunReturnsOrAwaits(cfg: Config, p: Prog, schedule: Schedule, job: Job, o: Oracle)
    requires Quiet(schedule) && Storable(p) && Good(cfg, p, job, o)
    requires Extends(o, RunOf(cfg, p, job, schedule).1.first)
    ensures var (outcome, w) := RunOf(cfg, p, job, schedule);
            && (outcome.Raised? ==> Awaits(outcome.failure, w))
            && (outcome.Returned? ==> outcome.value == Evaluate(p, [], 0, o) && w.cursor == |w.rec.t|)
  {
    BegunAgrees(p, job.w, o, cfg.defaultRetry);
    ExecReturnsOrAwaits(p, [], 0, Begun(job.w), Setup(schedule, false, cfg.defaultRetry), o);
    RunAgrees(cfg, p, job, schedule, o);
  }

  /** How many of these steps have never had a result. */
  function Missing(keys: seq<Key>, first: map<Key, Value>): nat {
    if keys == [] then 0 else (if keys[0] in first then 0 else 1) + Missing(keys[1..], first)
  }

  lemma {:induction false} MissingShrinks(keys: seq<Key>, first: map<Key, Value>, first': map<Key, Value>)
    requires Grows(first, first')
    ensures Missing(keys, first') <= Missing(keys, first)
    ensures (exists k :: k in keys && k !in first && k in first') ==> Missing(keys, first') < Missing(keys, first)
  {
    if keys != [] {
      MissingShrinks(keys[1..], first, first');
      assert keys == [keys[0]] + keys[1..];
    }
  }

  /** The signal a job waits for gives a step its first result. */
  lemma SignalAdvances(cfg: Config, p: Prog, job: Job, name: string, o: Oracle)
    requires Good(cfg, p, job, o) && NullElsewhere(o, job.w.first) && name in job.w.rec.ps
    ensures var after := Deliver(job, name, Null);
            && Good(cfg, p, after, o) && NullElsewhere(o, after.w.first)
            && Missing(Preorder(p, [], 0, o), after.w.first) < Missing(Preorder(p, [], 0, o), job.w.first)
  {
    var after := Deliver(job, name, Null);
    AwaitedKey(cfg, p, job, name, o);
    NullIsKnown(job, name, o);
    DeliverGood(cfg, p, job, name, Null, o);
    AwaitedIsInPreorder(cfg, p, job, name, o);
    MissingShrinks(Preorder(p, [], 0, o), job.w.first, after.w.first);
  }

  lemma NullIsKnown(job: Job, name: string, o: Oracle)
    requires name in job.w.rec.ps && NullElsewhere(o, job.w.first)
    ensures var first := Deliver(job, name, Null).w.first;
            && NullElsewhere(o, first) && Grows(job.w.first, first) && job.w.rec.ps[name].stepKey in first
  {}

  lemma AwaitedIsInPreorder(cfg: Config, p: Prog, job: Job, name: string, o: Oracle)
    requires Good(cfg, p, job, o) && name in job.w.rec.ps
    ensures job.w.rec.ps[name].stepKey in Preorder(p, [], 0, o)
  {
    PendingIsLast(p, [], 0, Mem(job.w), o, cfg.defaultRetry, job.w.rec.t, name);
    TraceOfGoodJob(cfg, p, job, o);
    var t := job.w.rec.t;
    assert Preorder(p, [], 0, o)[|t| - 1] == t[|t| - 1];
  }

  // ---- Rounds until the end

  /** A last quiet attempt, or one and the signal it waits for, and what comes then. */
  datatype Plan = Finish | Round(name: string, rest: Plan)

  function EventsOf(schedule: Schedule, plan: Plan): seq<Event> {
    match plan
    case Finish => [Turn(schedule)]
    case Round(name, rest) => [Turn(schedule), SendSignal(name, Null)] + EventsOf(schedule, rest)
  }

  /** The job after an attempt and this signal. */
  ghost function Signalled(cfg: Config, p: Prog, schedule: Schedule, job: Job, name: string): Job {
    Deliver(Happens(cfg, p, job, Turn(schedule)), name, Null)
  }

  ghost function EndOf(cfg: Config, p: Prog, schedule: Schedule, job: Job, plan: Plan): Job
    decreases plan
  {
    match plan
    case Finish => Happens(cfg, p, job, Turn(schedule))
    case Round(name, rest) => EndOf(cfg, p, schedule, Signalled(cfg, p, schedule, job, name), rest)
  }

  /** How many signals a plan sends. */
  function Signals(plan: Plan): nat {
    if plan.Finish? then 0 else 1 + Signals(plan.rest)
  }

  lemma {:induction false} PlanIsLife(cfg: Config, p: Prog, schedule: Schedule, before: seq<Event>, plan: Plan)
    ensures Life(cfg, p, before + EventsOf(schedule, plan)) == EndOf(cfg, p, schedule, Life(cfg, p, before), plan)
    decreases plan
  {
    match plan
    case Finish => LifeGoesOn(cfg, p, before, Turn(schedule));
    case Round(name, rest) =>
      PlanIsLife(cfg, p, schedule, before + [Turn(schedule)] + [SendSignal(name, Null)], rest);
      SignalledLife(cfg, p, schedule, before, name);
      TwoAndTheRest(before, Turn(schedule), SendSignal(name, Null), EventsOf(schedule, rest));
  }

  lemma TwoAndTheRest(before: seq<Event>, first: Event, second: Event, rest: seq<Event>)
    ensures before + [first] + [second] + rest == before + ([first, second] + rest)
  {}

  lemma SignalledLife(cfg: Config, p: Prog, schedule: Schedule, before: seq<Event>, name: string)
    ensures Life(cfg, p, before + [Turn(schedule)] + [SendSignal(name, Null)])
         == Signalled(cfg, p, schedule, Life(cfg, p, before), name)
  {
    LifeGoesOn(cfg, p, before, Turn(schedule));
    LifeGoesOn(cfg, p, before + [Turn(schedule)], SendSignal(name, Null));
  }

  ghost predicate CompletedBy(cfg: Config, p: Prog, schedule: Schedule, job: Job, plan: Plan, o: Oracle) {
    var end := EndOf(cfg, p, schedule, job, plan);
    NullElsewhere(o, end.w.first) && IsComplete(p, end, o)
  }

  lemma {:induction false} PlanCompletes(cfg: Config, p: Prog, schedule: Schedule, job: Job, o: Oracle)
    returns (plan: Plan)
    requires Quiet(schedule) && Storable(p)
    requires Good(cfg, p, job, o) && job.w.rec.s != Cancelled && NullElsewhere(o, job.w.first)
    ensures Signals(plan) <= Missing(Preorder(p, [], 0, o), job.w.first)
    ensures CompletedBy(cfg, p, schedule, job, plan, o)
    decreases Missing(Preorder(p, [], 0, o), job.w.first)
  {
    var name := NextSignal(cfg, p, schedule, job, o);
    if name.None? {
      plan := Finish;
    } else {
      OneRound(cfg, p, schedule, job, name.value, o);
      var rest := PlanCompletes(cfg, p, schedule, Signalled(cfg, p, schedule, job, name.value), o);
      plan := Round(name.value, rest);
      RoundCompletes(cfg, p, schedule, job, name.value, rest, o);
    }
  }

  lemma RoundCompletes(cfg: Config, p: Prog, schedule: Schedule, job: Job, name: string, rest: Plan, o: Oracle)
    requires CompletedBy(cfg, p, schedule, Signalled(cfg, p, schedule, job, name), rest, o)
    ensures CompletedBy(cfg, p, schedule, job, Round(name, rest), o)
  {}

  lemma NextSignal(cfg: Config, p: Prog, schedule: Schedule, job: Job, o: Oracle) returns (name: Option<string>)
    requires Quiet(schedule) && Storable(p)
    requires Good(cfg, p, job, o) && job.w.rec.s != Cancelled && NullElsewhere(o, job.w.first)
    ensures var after := Happens(cfg, p, job, Turn(schedule));
            if name.Some? then name.value in after.w.rec.ps
            else NullElsewhere(o, after.w.first) && IsComplete(p, after, o)
  {
    var after := Happens(cfg, p, job, Turn(schedule));
    TurnCompletesOrAwaits(cfg, p, schedule, job, o);
    if IsComplete(p, after, o) {
      name := None;
    } else {
      var awaited :| awaited in after.w.rec.ps;
      name := Some(awaited);
    }
  }

  lemma OneRound(cfg: Config, p: Prog, schedule: Schedule, job: Job, name: string, o: Oracle)
    requires Quiet(schedule) && Storable(p)
    requires Good(cfg, p, job, o) && job.w.rec.s != Cancelled && NullElsewhere(o, job.w.first)
    requires name in Happens(cfg, p, job, Turn(schedule)).w.rec.ps
    ensures var next := Signalled(cfg, p, schedule, job, name);
            && Good(cfg, p, next, o) && NullElsewhere(o, next.w.first) && next.w.rec.s != Cancelled
            && Missing(Preorder(p, [], 0, o), next.w.first) < Missing(Preorder(p, [], 0, o), job.w.first)
  {
    var after := Happens(cfg, p, job, Turn(schedule));
    TurnCompletesOrAwaits(cfg, p, schedule, job, o);
    MissingShrinks(Preorder(p, [], 0, o), job.w.first, after.w.first);
    SignalAdvances(cfg, p, after, name, o);
  }

  /** An oracle that gives `null` wherever nothing is recorded. */
  function Nulls(first: map<Key, Value>): Oracle {
    (k: Key) => if k in first then first[k] else Null
  }

  /**
   * Any job that is not cancelled, of a program whose results can be stored, has a continuation of attempts,
   * with one signal after each but the last, that completes it with the program's value.
   */
  lemma EveryJobCanComplete(cfg: Config, p: Prog, schedule: Schedule, events: seq<Event>) returns (plan: Plan)
    requires Quiet(schedule) && Storable(p) && Life(cfg, p, events).w.rec.s != Cancelled
    ensures var o, end := Nulls(Life(cfg, p, events).w.first), Life(cfg, p, events + EventsOf(schedule, plan));
            && Signals(plan) <= Missing(Preorder(p, [], 0, o), Life(cfg, p, events).w.first)
            && Extends(o, end.w.first) && IsComplete(p, end, o)
  {
    var o := Nulls(Life(cfg, p, events).w.first);
    LifeIsGood(cfg, p, events, o);
    plan := PlanCompletes(cfg, p, schedule, Life(cfg, p, events), o);
    PlanIsLife(cfg, p, schedule, events, plan);
  }
}
