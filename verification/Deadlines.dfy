/** How long waits wait: the deadline of each is its own timeout, counted from when it was first reached. */
module Deadlines {
  import opened Values
  import opened Keys
  import opened RetryPolicy
  import opened JobRecord
  import opened Program
  import opened Frames
  import opened Replay
  import opened Lifecycle
  import opened Guarantees
  import opened Origins
  import opened RunLoop
  import opened RunOutcomes

  // ---- Where deadlines come from

  predicate NewSignal(w: World, w': World, name: string) {
    name in w'.rec.ps && (name in w.rec.ps ==> w'.rec.ps[name] != w.rec.ps[name])
  }

  /** The wait is one of `p`'s for this name, and its timeout counts from `now`. */
  ghost predicate TimedBy(
    p: Prog, path: seq<nat>, i: nat, o: Oracle, pending: PendingSignal, name: string, now: int)
  {
    var leaf := LeafAt(p, path, i, o, pending.stepKey);
    && leaf.Some? && leaf.value.Wait? && leaf.value.signal == name
    && pending.expiresAt == if leaf.value.timeoutMs.Some? then Some(now + leaf.value.timeoutMs.value) else None
  }

  /** It counts from one of these readings of the clock. */
  ghost predicate Timed(
    p: Prog, path: seq<nat>, i: nat, o: Oracle, pending: PendingSignal, name: string, schedule: Schedule,
    from: nat, to: nat)
  {
    && Below(path, i, pending.stepKey)
    && exists n :: from <= n < to && TimedBy(p, path, i, o, pending, name, schedule(n).now)
  }

  lemma LaterTimed(
    p: Prog, path: seq<nat>, i: nat, o: Oracle, pending: PendingSignal, name: string, schedule: Schedule,
    from: nat, from': nat, to: nat)
    requires !p.Return? && from <= from'
    requires Timed(Next(p, ResultOf(p, path, i, o)), path, i + 1, o, pending, name, schedule, from', to)
    ensures Timed(p, path, i, o, pending, name, schedule, from, to)
  {
    SplitBelow(path, i);
    var q := Next(p, ResultOf(p, path, i, o));
    var n :| from' <= n < to && TimedBy(q, path, i + 1, o, pending, name, schedule(n).now);
    assert LeafAt(p, path, i, o, pending.stepKey) == LeafAt(q, path, i + 1, o, pending.stepKey);
    assert TimedBy(p, path, i, o, pending, name, schedule(n).now);
  }

  lemma InnerTimed(
    p: Prog, path: seq<nat>, i: nat, o: Oracle, pending: PendingSignal, name: string, schedule: Schedule,
    from: nat, from': nat, to: nat)
    requires p.Step? && p.body.Inner? && from <= from'
    requires Timed(p.body.code, path + [i], 0, o, pending, name, schedule, from', to)
    ensures Timed(p, path, i, o, pending, name, schedule, from, to)
  {
    SplitBelow(path, i);
    var n :| from' <= n < to && TimedBy(p.body.code, path + [i], 0, o, pending, name, schedule(n).now);
    assert LeafAt(p, path, i, o, pending.stepKey) == LeafAt(p.body.code, path + [i], 0, o, pending.stepKey);
    assert TimedBy(p, path, i, o, pending, name, schedule(n).now);
  }

  /** A wait an execution starts is timed by its clock. */
  lemma {:induction false} ExecTimes(p: Prog, path: seq<nat>, i: nat, w: World, x: Setup, o: Oracle, name: string)
    requires w.cursor <= |w.rec.t| && !x.probe
    requires Ok(p, path, i, Mem(w), o, x.defaultRetry, w.rec.t[w.cursor..])
    requires Extends(o, Exec(p, path, i, w, x).1.first)
    requires NewSignal(w, Exec(p, path, i, w, x).1, name)
    ensures var w' := Exec(p, path, i, w, x).1; Timed(p, path, i, o, w'.rec.ps[name], name, x.schedule, w.pos, w'.pos)
    decreases p, 2
  {
    var r := Perform(p, path, i, w, x);
    ExecPerforms(p, path, i, w, x);
    PerformMoves(p, path, i, w, x);
    if r.Continues? && !p.Return? {
      ExecFrame(Next(p, r.result), path, i + 1, r.w, x);
      PerformOk(p, path, i, w, x, o);
      ThenRestOk(p, path, i, w, r, o, x.defaultRetry);
      ExecTimes(Next(p, r.result), path, i + 1, r.w, x, o, name);
      var w' := Exec(p, path, i, w, x).1;
      LaterTimed(p, path, i, o, w'.rec.ps[name], name, x.schedule, w.pos, r.w.pos, w'.pos);
    } else {
      PerformTimes(p, path, i, w, x, o, name);
    }
  }

  lemma {:induction false} PerformTimes(p: Prog, path: seq<nat>, i: nat, w: World, x: Setup, o: Oracle, name: string)
    requires w.cursor <= |w.rec.t| && !x.probe
    requires Ok(p, path, i, Mem(w), o, x.defaultRetry, w.rec.t[w.cursor..])
    requires Extends(o, Perform(p, path, i, w, x).w.first)
    requires NewSignal(w, Perform(p, path, i, w, x).w, name)
    ensures var w' := Perform(p, path, i, w, x).w;
            Timed(p, path, i, o, w'.rec.ps[name], name, x.schedule, w.pos, w'.pos)
    decreases p, 1
  {
    PerformWorks(p, path, i, w, x);
    if Works(p, path, i, w, x) {
      EnterTicks(Ticked(w), KeyOf(p, path, i), x.probe);
      WorksOk(p, path, i, w, x, o);
      ProduceTimes(p, path, i, EnteredBy(p, path, i, w, x), w.pos, x, o, name);
    } else {
      IdleMoves(p, path, i, w, x);
      assert false;
    }
  }

  lemma {:induction false} ProduceTimes(
    p: Prog, path: seq<nat>, i: nat, w: World, from: nat, x: Setup, o: Oracle, name: string)
    requires !p.Return? && 0 < w.cursor <= |w.rec.t| && !x.probe && w.pos == from + 1
    requires Ok(p, path, i, Mem(w), o, x.defaultRetry, w.rec.t[w.cursor - 1..])
    requires At(Mem(w), KeyOf(p, path, i)).result.None?
    requires Extends(o, Produce(p, KeyOf(p, path, i), w, x.schedule(from).now, x).w.first)
    requires NewSignal(w, Produce(p, KeyOf(p, path, i), w, x.schedule(from).now, x).w, name)
    ensures var w' := Produce(p, KeyOf(p, path, i), w, x.schedule(from).now, x).w;
            Timed(p, path, i, o, w'.rec.ps[name], name, x.schedule, from, w'.pos)
    decreases p, 0
  {
    var key, w' := KeyOf(p, path, i), Produce(p, KeyOf(p, path, i), w, x.schedule(from).now, x).w;
    if p.Wait? {
      AwaitTimes(p, path, i, w, from, x.schedule, o, name);
    } else if p.body.Inner? {
      var w1 := w.(started := w.started + [key]);
      assert w.rec.t[w.cursor - 1..][1..] == w1.rec.t[w1.cursor..];
      InnerProduces(p, path, i, w, x.schedule(from).now, x);
      ExecTimes(p.body.code, path + [i], 0, w1, x, o, name);
      InnerTimed(p, path, i, o, w'.rec.ps[name], name, x.schedule, from, w.pos, w'.pos);
    }
  }

  /** The wait that `p` begins with is started. */
  lemma AwaitTimes(
    p: Prog, path: seq<nat>, i: nat, w: World, from: nat, schedule: Schedule, o: Oracle, name: string)
    requires p.Wait? && w.pos == from + 1
    requires NewSignal(w, AwaitSignal(w, p.signal, p.timeoutMs, KeyOf(p, path, i), schedule(from).now).1, name)
    ensures var w' := AwaitSignal(w, p.signal, p.timeoutMs, KeyOf(p, path, i), schedule(from).now).1;
            Timed(p, path, i, o, w'.rec.ps[name], name, schedule, from, w'.pos)
  {
    SplitBelow(path, i);
    var w' := AwaitSignal(w, p.signal, p.timeoutMs, KeyOf(p, path, i), schedule(from).now).1;
    assert LeafAt(p, path, i, o, KeyOf(p, path, i)) == Some(p);
    assert TimedBy(p, path, i, o, w'.rec.ps[name], name, schedule(from).now);
  }

  lemma AttemptTimes(
    cfg: Config, p: Prog, job: Job, schedule: Schedule, exhausted: bool, o: Oracle, name: string)
    requires Good(cfg, p, job, o) && Extends(o, Happens(cfg, p, job, RunAttempt(schedule, exhausted)).w.first)
    requires NewSignal(job.w, Happens(cfg, p, job, RunAttempt(schedule, exhausted)).w, name)
    ensures var w' := Happens(cfg, p, job, RunAttempt(schedule, exhausted)).w;
            Timed(p, [], 0, o, w'.rec.ps[name], name, schedule, job.w.pos, w'.pos)
  {
    AttemptFirst(cfg, p, job, schedule);
    AttemptMemory(cfg, p, job, schedule, exhausted, o);
    AttemptPos(cfg, p, job, schedule, exhausted);
    BegunAgrees(p, job.w, o, cfg.defaultRetry);
    ExecTimes(p, [], 0, Begun(job.w), Setup(schedule, false, cfg.defaultRetry), o, name);
  }

  lemma HappensTimes(cfg: Config, p: Prog, job: Job, event: Event, o: Oracle, name: string)
    requires Good(cfg, p, job, o) && Extends(o, Happens(cfg, p, job, event).w.first)
    requires NewSignal(job.w, Happens(cfg, p, job, event).w, name)
    ensures var w' := Happens(cfg, p, job, event).w;
            event.RunAttempt? && Timed(p, [], 0, o, w'.rec.ps[name], name, event.schedule, job.w.pos, w'.pos)
  {
    match event
    case RunAttempt(schedule, exhausted) => AttemptTimes(cfg, p, job, schedule, exhausted, o, name);
    case _ => assert false;
  }

  /**
   * Every pending wait was started by an attempt: it is a wait of the program for that name, and its deadline
   * is exactly its timeout after what the clock said then, or none if it has no timeout.
   */
  lemma WaitsAreTimed(cfg: Config, p: Prog, events: seq<Event>, o: Oracle, name: string)
    returns (before: seq<Event>, event: Event, n: nat)
    requires Extends(o, Life(cfg, p, events).w.first) && name in Life(cfg, p, events).w.rec.ps
    ensures before + [event] <= events && event.RunAttempt?
    ensures Life(cfg, p, before).w.pos <= n < Life(cfg, p, before + [event]).w.pos
    ensures TimedBy(p, [], 0, o, Life(cfg, p, events).w.rec.ps[name], name, event.schedule(n).now)
  {
    var pending := Life(cfg, p, events).w.rec.ps[name];
    before, event := StartOfWait(cfg, p, events, name, pending);
    StartIsTimed(cfg, p, events, before, event, o, name, pending);
    n := ReadingOfStart(p, o, pending, name, event.schedule, Life(cfg, p, before).w.pos,
                        Life(cfg, p, before + [event]).w.pos);
  }

  ghost predicate IsPending(job: Job, name: string, pending: PendingSignal) {
    name in job.w.rec.ps && job.w.rec.ps[name] == pending
  }

  lemma StartOfWait(cfg: Config, p: Prog, events: seq<Event>, name: string, pending: PendingSignal)
    returns (before: seq<Event>, event: Event)
    requires IsPending(Life(cfg, p, events), name, pending)
    ensures before + [event] <= events
    ensures !IsPending(Life(cfg, p, before), name, pending)
    ensures IsPending(Life(cfg, p, before + [event]), name, pending)
  {
    var waits := (moment: seq<Event>) => IsPending(Life(cfg, p, moment), name, pending);
    assert Life(cfg, p, []) == NEW_JOB;
    before, event := Moment(waits, events);
  }

  lemma StartIsTimed(
    cfg: Config, p: Prog, events: seq<Event>, before: seq<Event>, event: Event, o: Oracle, name: string,
    pending: PendingSignal)
    requires before + [event] <= events && Extends(o, Life(cfg, p, events).w.first)
    requires !IsPending(Life(cfg, p, before), name, pending)
    requires IsPending(Life(cfg, p, before + [event]), name, pending)
    ensures event.RunAttempt?
    ensures Timed(p, [], 0, o, pending, name, event.schedule, Life(cfg, p, before).w.pos,
                  Life(cfg, p, before + [event]).w.pos)
  {
    KnownBefore(cfg, p, events, before + [event], o);
    KnownBefore(cfg, p, events, before, o);
    LifeIsGood(cfg, p, before, o);
    LifeGoesOn(cfg, p, before, event);
    HappensTimes(cfg, p, Life(cfg, p, before), event, o, name);
  }

  /** What is known at the end extends what was known before. */
  lemma KnownBefore(cfg: Config, p: Prog, events: seq<Event>, until: seq<Event>, o: Oracle)
    requires until <= events && Extends(o, Life(cfg, p, events).w.first)
    ensures Extends(o, Life(cfg, p, until).w.first)
  {
    assert until == events[..|until|];
    LifeAdvances(cfg, p, events, |until|, o);
  }

  lemma ReadingOfStart(
    p: Prog, o: Oracle, pending: PendingSignal, name: string, schedule: Schedule, from: nat, to: nat)
    returns (n: nat)
    requires Timed(p, [], 0, o, pending, name, schedule, from, to)
    ensures from <= n < to && TimedBy(p, [], 0, o, pending, name, schedule(n).now)
  {
    n :| from <= n < to && TimedBy(p, [], 0, o, pending, name, schedule(n).now);
  }

  /** Two readings of the clock, in an attempt after `early` and in a later one, are `timeoutMs` or more apart. */
  ghost predicate WaitedFor(
    cfg: Config, p: Prog, timeoutMs: Option<nat>, early: seq<Event>, start: Event, n: nat, before: seq<Event>,
    schedule: Schedule, m: nat)
  {
    && early + [start] <= before && start.RunAttempt?
    && Life(cfg, p, early).w.pos <= n < Life(cfg, p, early + [start]).w.pos && Life(cfg, p, before).w.pos <= m
    && timeoutMs.Some? && schedule(m).now >= start.schedule(n).now + timeoutMs.value
  }

  /**
   * A wait has its result from its signal, or it is `null` and the wait has a timeout that was waited for:
   * the attempt that gave it up read a clock at least that far after the one the wait was started by.
   */
  lemma NullNeedsItsTimeout(cfg: Config, p: Prog, events: seq<Event>, o: Oracle, leaf: Prog, k: Key)
    returns (before: seq<Event>, event: Event, early: seq<Event>, start: Event, n: nat, m: nat)
    requires Extends(o, Life(cfg, p, events).w.first) && k in Life(cfg, p, events).w.first
    requires LeafAt(p, [], 0, o, k) == Some(leaf) && leaf.Wait?
    ensures before + [event] <= events
    ensures match event
            case SendSignal(name, payload) => name == leaf.signal && Life(cfg, p, events).w.first[k] == payload
            case RunAttempt(schedule, _) =>
              Life(cfg, p, events).w.first[k] == Null
              && WaitedFor(cfg, p, leaf.timeoutMs, early, start, n, before, schedule, m)
            case _ => false
  {
    before, event := FirstResultsAreEarned(cfg, p, events, o, leaf, k);
    early, start, n, m := [], event, 0, 0;
    if event.RunAttempt? {
      KnownBefore(cfg, p, events, before, o);
      early, start, n, m := LapseWaited(
        cfg, p, before, o, leaf, k, event.schedule, Life(cfg, p, before + [event]).w.pos);
    }
  }

  lemma LapseWaited(
    cfg: Config, p: Prog, before: seq<Event>, o: Oracle, leaf: Prog, k: Key, schedule: Schedule, to: nat)
    returns (early: seq<Event>, start: Event, n: nat, m: nat)
    requires Extends(o, Life(cfg, p, before).w.first) && LeafAt(p, [], 0, o, k) == Some(leaf) && leaf.Wait?
    requires Lapsed(Life(cfg, p, before).w.rec.ps, k, schedule, Life(cfg, p, before).w.pos, to)
    ensures WaitedFor(cfg, p, leaf.timeoutMs, early, start, n, before, schedule, m)
  {
    var name;
    name, m := LapseOf(Life(cfg, p, before).w.rec.ps, k, schedule, Life(cfg, p, before).w.pos, to);
    early, start, n := WaitsAreTimed(cfg, p, before, o, name);
  }

  lemma LapseOf(ps: map<string, PendingSignal>, k: Key, schedule: Schedule, from: nat, to: nat)
    returns (name: string, n: nat)
    requires Lapsed(ps, k, schedule, from, to)
    ensures name in ps && ps[name].stepKey == k && from <= n < to && Reached(ps[name].expiresAt, schedule(n).now)
  {
    name, n :| name in ps && ps[name].stepKey == k && from <= n < to && Reached(ps[name].expiresAt, schedule(n).now);
  }

  // ---- Before the deadline

  /** The clock is never at the deadline. */
  ghost predicate TooEarly(expiresAt: Option<int>, schedule: Schedule) {
    forall n :: !Reached(expiresAt, schedule(n).now)
  }

  ghost predicate Faultless(schedule: Schedule) {
    forall n :: schedule(n).fault.None?
  }

  /** Nothing is resolved or awaited anew, and without faults the code asks for the signal, or to be run again. */
  ghost predicate AwaitsAgain(w: World, failure: Failure, w': World, name: string, schedule: Schedule)
    requires name in w.rec.ps
  {
    && w'.rec.ps == w.rec.ps && w'.first == w.first
    && (Faultless(schedule) ==>
          failure == SignalWaitRequested(name, w.rec.ps[name].expiresAt) || failure.RetryRequested?)
  }

  lemma {:induction false} ExecAwaitsAgain(
    p: Prog, path: seq<nat>, i: nat, w: World, x: Setup, o: Oracle, name: string)
    requires w.cursor <= |w.rec.t| && !x.probe
    requires Ok(p, path, i, Mem(w), o, x.defaultRetry, w.rec.t[w.cursor..])
    requires name in w.rec.ps && TooEarly(w.rec.ps[name].expiresAt, x.schedule)
    requires Extends(o, w.first)
    ensures var (outcome, w') := Exec(p, path, i, w, x);
            outcome.Raised? && AwaitsAgain(w, outcome.failure, w', name, x.schedule)
    decreases p, 2
  {
    var r := Perform(p, path, i, w, x);
    ExecPerforms(p, path, i, w, x);
    PerformAwaitsAgain(p, path, i, w, x, o, name);
    if r.Continues? {
      PerformOk(p, path, i, w, x, o);
      ThenRestOk(p, path, i, w, r, o, x.defaultRetry);
      ExecAwaitsAgain(Next(p, r.result), path, i + 1, r.w, x, o, name);
    }
  }

  lemma {:induction false} PerformAwaitsAgain(
    p: Prog, path: seq<nat>, i: nat, w: World, x: Setup, o: Oracle, name: string)
    requires w.cursor <= |w.rec.t| && !x.probe
    requires Ok(p, path, i, Mem(w), o, x.defaultRetry, w.rec.t[w.cursor..])
    requires name in w.rec.ps && TooEarly(w.rec.ps[name].expiresAt, x.schedule)
    requires Extends(o, w.first)
    ensures var r := Perform(p, path, i, w, x);
            && !p.Return? && r.w.rec.ps == w.rec.ps && r.w.first == w.first
            && (r.Stops? ==> AwaitsAgain(w, r.failure, r.w, name, x.schedule))
    decreases p, 1
  {
    PerformWorks(p, path, i, w, x);
    if Works(p, path, i, w, x) {
      EnterTicks(Ticked(w), KeyOf(p, path, i), x.probe);
      WorksOk(p, path, i, w, x, o);
      ProduceAwaitsAgain(p, path, i, EnteredBy(p, path, i, w, x), x.schedule(w.pos).now, w.pos, x, o, name);
    } else {
      IdleMoves(p, path, i, w, x);
      IdleRaisesFaults(p, path, i, w, x, o);
    }
  }

  lemma IdleRaisesFaults(p: Prog, path: seq<nat>, i: nat, w: World, x: Setup, o: Oracle)
    requires w.cursor <= |w.rec.t| && !x.probe && !Works(p, path, i, w, x)
    requires Ok(p, path, i, Mem(w), o, x.defaultRetry, w.rec.t[w.cursor..])
    ensures Perform(p, path, i, w, x).Stops? ==> x.schedule(w.pos).fault.Some?
  {
    PerformIdles(p, path, i, w, x);
    if !p.Return? {
      EnterOk(p, path, i, Ticked(w), o, x.defaultRetry);
    }
  }

  lemma {:induction false} ProduceAwaitsAgain(
    p: Prog, path: seq<nat>, i: nat, w: World, now: int, n: nat, x: Setup, o: Oracle, name: string)
    requires !p.Return? && 0 < w.cursor <= |w.rec.t| && !x.probe && now == x.schedule(n).now
    requires Ok(p, path, i, Mem(w), o, x.defaultRetry, w.rec.t[w.cursor - 1..])
    requires At(Mem(w), KeyOf(p, path, i)).result.None?
    requires name in w.rec.ps && TooEarly(w.rec.ps[name].expiresAt, x.schedule)
    requires Extends(o, w.first)
    ensures var r := Produce(p, KeyOf(p, path, i), w, now, x);
            r.Stops? && AwaitsAgain(w, r.failure, r.w, name, x.schedule)
    decreases p, 0
  {
    var key := KeyOf(p, path, i);
    if p.Wait? {
      AwaitedTail(p, path, i, w, o, x.defaultRetry);
      assert name == p.signal && !Reached(w.rec.ps[name].expiresAt, x.schedule(n).now);
    } else {
      assert p.body.Inner?;
      var w1 := w.(started := w.started + [key]);
      assert w.rec.t[w.cursor - 1..][1..] == w1.rec.t[w1.cursor..];
      InnerProduces(p, path, i, w, now, x);
      ExecAwaitsAgain(p.body.code, path + [i], 0, w1, x, o, name);
      assert RunBody(p, key, w, x).1 == Exec(p.body.code, path + [i], 0, w1, x).1;
    }
  }

  lemma AttemptAwaitsAgain(cfg: Config, p: Prog, job: Job, schedule: Schedule, o: Oracle, name: string)
    requires Good(cfg, p, job, o) && Extends(o, job.w.first)
    requires name in job.w.rec.ps && TooEarly(job.w.rec.ps[name].expiresAt, schedule)
    ensures var (outcome, job') := Attempt(cfg, p, job, schedule);
            && outcome.Throws? && AwaitsAgain(job.w, outcome.failure, job'.w, name, schedule)
            && job.w.rec.s in {Running, Failed}
  {
    AwaitingIsNotDone(cfg, p, job, name, o);
    BegunAgrees(p, job.w, o, cfg.defaultRetry);
    ExecAwaitsAgain(p, [], 0, Begun(job.w), Setup(schedule, false, cfg.defaultRetry), o, name);
  }

  /** The wait `job` is parked for is still pending; if the run is over, it did not resolve. */
  ghost predicate StillAwaits(cfg: Config, p: Prog, job: Job, name: string, schedule: Schedule, o: Oracle, st: RunState)
    requires name in job.w.rec.ps
  {
    && Good(cfg, p, st.job, o) && st.job.w.first == job.w.first && st.job.w.rec.ps == job.w.rec.ps
    && (st.Over? ==>
          && !st.result.Resolved?
          && (Faultless(schedule) ==> st.result == Parked(job.w.rec.ps[name].expiresAt, Some(name))))
  }

  lemma EarlyTurnAwaitsAgain(
    cfg: Config, p: Prog, schedule: Schedule, workflowRetry: Policy, job: Job, st: RunState, o: Oracle, name: string)
    requires name in job.w.rec.ps && TooEarly(job.w.rec.ps[name].expiresAt, schedule) && Extends(o, job.w.first)
    requires st.Going? && StillAwaits(cfg, p, job, name, schedule, o, st)
    ensures StillAwaits(cfg, p, job, name, schedule, o, Turn(cfg, p, schedule, workflowRetry, st))
  {
    var (outcome, job') := Attempt(cfg, p, st.job, schedule);
    AttemptAwaitsAgain(cfg, p, st.job, schedule, o, name);
    TurnFollows(cfg, p, schedule, workflowRetry, st);
    var st' := Turn(cfg, p, schedule, workflowRetry, st);
    AwaitingFollows(workflowRetry, st, outcome.failure, job', st', name, schedule);
    ThrowingTurnGood(cfg, p, schedule, workflowRetry, st, o);
  }

  lemma AwaitingFollows(
    workflowRetry: Policy, st: RunState, failure: Failure, job: Job, st': RunState, name: string, schedule: Schedule)
    requires st.Going? && Follows(workflowRetry, st, failure, job, st')
    requires name in st.job.w.rec.ps && AwaitsAgain(st.job.w, failure, job.w, name, schedule)
    ensures st'.job.w.first == st.job.w.first && st'.job.w.rec.ps == st.job.w.rec.ps
    ensures st'.Over? ==>
              && !st'.result.Resolved?
              && (Faultless(schedule) ==> st'.result == Parked(st.job.w.rec.ps[name].expiresAt, Some(name)))
  {}

  lemma ThrowingTurnGood(
    cfg: Config, p: Prog, schedule: Schedule, workflowRetry: Policy, st: RunState, o: Oracle)
    requires st.Going? && Good(cfg, p, st.job, o) && Extends(o, Attempt(cfg, p, st.job, schedule).1.w.first)
    requires Attempt(cfg, p, st.job, schedule).0.Throws?
    ensures Good(cfg, p, Turn(cfg, p, schedule, workflowRetry, st).job, o)
  {
    AttemptGood(cfg, p, st.job, schedule, o);
    FailedGood(cfg, p, Attempt(cfg, p, st.job, schedule).1, o);
  }

  /**
   * A run whose clock never reaches the deadline of the pending wait resolves nothing: the wait stays pending
   * with the same deadline, and without faults the run parks for that signal again, to that deadline.
   */
  lemma {:induction false} EarlyRunAwaitsAgain(
    cfg: Config, p: Prog, schedule: Schedule, workflowRetry: Policy, job: Job, n: nat, o: Oracle, name: string)
    requires Good(cfg, p, job, o) && Extends(o, job.w.first)
    requires name in job.w.rec.ps && TooEarly(job.w.rec.ps[name].expiresAt, schedule)
    ensures StillAwaits(cfg, p, job, name, schedule, o, Turns(cfg, p, schedule, workflowRetry, job, n))
  {
    if n == 0 {
      FirstTurn(cfg, p, schedule, workflowRetry, job);
    } else {
      EarlyRunAwaitsAgain(cfg, p, schedule, workflowRetry, job, n - 1, o, name);
      NextTurn(cfg, p, schedule, workflowRetry, job, n);
      var st := Turns(cfg, p, schedule, workflowRetry, job, n - 1);
      if st.Going? {
        EarlyTurnAwaitsAgain(cfg, p, schedule, workflowRetry, job, st, o, name);
      }
    }
  }

  /** How a run ended that came before the deadline of what its job waits for. */
  ghost predicate ParksUntilDeadline(schedule: Schedule, start: Job, end: RunResult, after: Job) {
    forall name | name in start.w.rec.ps && TooEarly(start.w.rec.ps[name].expiresAt, schedule) ::
      && !end.Resolved? && after.w.rec.ps == start.w.rec.ps && after.w.first == start.w.first
      && (Faultless(schedule) ==> end == Parked(start.w.rec.ps[name].expiresAt, Some(name)))
  }

  lemma RunsParkUntilDeadline(cfg: Config, p: Prog, schedule: Schedule, workflowRetry: Policy, start: Job, n: nat)
    requires Sound(cfg, p, start) && Turns(cfg, p, schedule, workflowRetry, start, n).Over?
    ensures var st := Turns(cfg, p, schedule, workflowRetry, start, n);
            ParksUntilDeadline(schedule, start, st.result, st.job)
  {
    var st, o := Turns(cfg, p, schedule, workflowRetry, start, n), Known(start.w.first);
    forall name | name in start.w.rec.ps && TooEarly(start.w.rec.ps[name].expiresAt, schedule)
      ensures StillAwaits(cfg, p, start, name, schedule, o, st)
    {
      EarlyRunAwaitsAgain(cfg, p, schedule, workflowRetry, start, n, o, name);
    }
  }
}
