/** Where first results come from: what outside work returned, a delivered signal, or a deadline that has passed. */
module Origins {
  import opened Values
  import opened Keys
  import opened RetryPolicy
  import opened JobRecord
  import opened Program
  import opened Frames
  import opened Replay
  import opened Lifecycle
  import opened Guarantees

  /** The outside step or wait of `p` whose key is `k`. */
  ghost function LeafAt(p: Prog, path: seq<nat>, i: nat, o: Oracle, k: Key): (leaf: Option<Prog>)
    ensures leaf.Some? ==> leaf.value.Wait? || (leaf.value.Step? && leaf.value.body.External?)
  {
    if p.Return? then None
    else if Below(path, i + 1, k) then LeafAt(Next(p, ResultOf(p, path, i, o)), path, i + 1, o, k)
    else if p.Step? && p.body.Inner? then
      if Inside(path + [i], k) then LeafAt(p.body.code, path + [i], 0, o, k) else None
    else if k == KeyOf(p, path, i) then Some(p) else None
  }

  predicate Reached(expiresAt: Option<int>, now: int) {
    expiresAt.Some? && now >= expiresAt.value
  }

  /** The wait at `k` was pending, and one of these readings of the clock had reached its deadline. */
  ghost predicate Lapsed(ps: map<string, PendingSignal>, k: Key, schedule: Schedule, from: nat, to: nat) {
    exists name, n ::
      name in ps && ps[name].stepKey == k && from <= n < to && Reached(ps[name].expiresAt, schedule(n).now)
  }

  /** Outside work that was read returned `value`, which can be stored. */
  ghost predicate Read(value: Value, schedule: Schedule, from: nat, to: nat) {
    exists n :: from <= n < to && schedule(n).fault.None? && schedule(n).value == value && Supported(value)
  }

  /** A wait gets `null`, after its deadline; a step what outside work returned, without a fault. */
  ghost predicate Earned(
    leaf: Prog, ps: map<string, PendingSignal>, k: Key, value: Value, schedule: Schedule, from: nat, to: nat) {
    if leaf.Wait? then value == Null && Lapsed(ps, k, schedule, from, to) else Read(value, schedule, from, to)
  }

  /** `w'` has a first result for `k`, and it was earned from `from` on. */
  ghost predicate Earns(leaf: Prog, w: World, w': World, k: Key, schedule: Schedule, from: nat) {
    k in w'.first && Earned(leaf, w.rec.ps, k, w'.first[k], schedule, from, w'.pos)
  }

  // ---- One execution

  predicate FewerSignals(ps: map<string, PendingSignal>, ps': map<string, PendingSignal>) {
    forall name | name in ps' :: name in ps && ps'[name] == ps[name]
  }

  /** Time goes on; and code that goes on has started no wait. */
  lemma {:induction false} ExecMoves(p: Prog, path: seq<nat>, i: nat, w: World, x: Setup)
    requires w.cursor <= |w.rec.t|
    ensures var (outcome, w') := Exec(p, path, i, w, x);
            w.pos <= w'.pos && (outcome.Returned? ==> FewerSignals(w.rec.ps, w'.rec.ps))
    decreases p, 2
  {
    var r := Perform(p, path, i, w, x);
    PerformMoves(p, path, i, w, x);
    ExecPerforms(p, path, i, w, x);
    if r.Continues? && !p.Return? {
      ExecMoves(Next(p, r.result), path, i + 1, r.w, x);
    }
  }

  lemma {:induction false} PerformMoves(p: Prog, path: seq<nat>, i: nat, w: World, x: Setup)
    requires w.cursor <= |w.rec.t|
    ensures var r := Perform(p, path, i, w, x);
            w.pos < r.w.pos && (r.Continues? ==> FewerSignals(w.rec.ps, r.w.rec.ps))
    decreases p, 1
  {
    PerformWorks(p, path, i, w, x);
    if Works(p, path, i, w, x) {
      EnterTicks(Ticked(w), KeyOf(p, path, i), x.probe);
      ProduceMoves(p, path, i, EnteredBy(p, path, i, w, x), x.schedule(w.pos).now, x);
    } else {
      IdleMoves(p, path, i, w, x);
    }
  }

  lemma EnterTicks(w: World, key: Key, probe: bool)
    requires w.cursor <= |w.rec.t|
    ensures var w' := EnterStep(w, key, probe).w; w'.pos == w.pos && w'.rec.ps == w.rec.ps && w'.first == w.first
  {}

  /** An operation that has nothing to produce only takes time. */
  lemma IdleMoves(p: Prog, path: seq<nat>, i: nat, w: World, x: Setup)
    requires w.cursor <= |w.rec.t| && !Works(p, path, i, w, x)
    ensures var w' := Perform(p, path, i, w, x).w;
            w'.pos == w.pos + 1 && w'.rec.ps == w.rec.ps && w'.first == w.first
  {
    PerformIdles(p, path, i, w, x);
    if !p.Return? {
      EnterTicks(Ticked(w), KeyOf(p, path, i), x.probe);
    }
  }

  lemma {:induction false} ProduceMoves(p: Prog, path: seq<nat>, i: nat, w: World, now: int, x: Setup)
    requires !p.Return? && w.cursor <= |w.rec.t|
    ensures var r := Produce(p, KeyOf(p, path, i), w, now, x);
            w.pos <= r.w.pos && (r.Continues? ==> FewerSignals(w.rec.ps, r.w.rec.ps))
    decreases p, 0
  {
    if p.Step? && p.body.Inner? {
      var key := KeyOf(p, path, i);
      var w1 := w.(started := w.started + [key]);
      ExecMoves(p.body.code, path + [i], 0, w1, x);
      assert RunBody(p, key, w, x).1 == Exec(p.body.code, path + [i], 0, w1, x).1;
    }
  }

  lemma EarnedBefore(
    leaf: Prog, ps: map<string, PendingSignal>, ps': map<string, PendingSignal>, k: Key, value: Value,
    schedule: Schedule, from: nat, from': nat, to: nat, to': nat)
    requires Earned(leaf, ps', k, value, schedule, from', to') && FewerSignals(ps, ps') && from <= from' && to' <= to
    ensures Earned(leaf, ps, k, value, schedule, from, to)
  {
    if leaf.Wait? {
      var name, n :| name in ps' && ps'[name].stepKey == k && from' <= n < to'
                     && Reached(ps'[name].expiresAt, schedule(n).now);
      assert name in ps && ps[name] == ps'[name];
    }
  }

  /** Time going on takes nothing away. */
  lemma StillEarns(leaf: Prog, w: World, w1: World, w': World, k: Key, schedule: Schedule, from: nat)
    requires Earns(leaf, w, w1, k, schedule, from) && Grows(w1.first, w'.first) && w1.pos <= w'.pos
    ensures Earns(leaf, w, w', k, schedule, from)
  {
    EarnedBefore(leaf, w.rec.ps, w.rec.ps, k, w'.first[k], schedule, from, from, w'.pos, w1.pos);
  }

  /** What an execution records first for an outside step or a wait, it has earned. */
  lemma {:induction false} ExecEarns(
    p: Prog, path: seq<nat>, i: nat, w: World, x: Setup, o: Oracle, leaf: Prog, k: Key)
    requires w.cursor <= |w.rec.t| && !x.probe && LeafAt(p, path, i, o, k) == Some(leaf)
    requires Ok(p, path, i, Mem(w), o, x.defaultRetry, w.rec.t[w.cursor..])
    requires Extends(o, Exec(p, path, i, w, x).1.first)
    requires k !in w.first && k in Exec(p, path, i, w, x).1.first
    ensures Earns(leaf, w, Exec(p, path, i, w, x).1, k, x.schedule, w.pos)
    decreases p, 2
  {
    var r := Perform(p, path, i, w, x);
    PerformFrame(p, path, i, w, x);
    ExecPerforms(p, path, i, w, x);
    if r.Continues? && !p.Return? {
      ExecFrame(Next(p, r.result), path, i + 1, r.w, x);
      PerformOk(p, path, i, w, x, o);
      ThenRestOk(p, path, i, w, r, o, x.defaultRetry);
      if k in r.w.first {
        PerformEarns(p, path, i, w, x, o, leaf, k);
        ExecMoves(Next(p, r.result), path, i + 1, r.w, x);
        StillEarns(leaf, w, r.w, Exec(p, path, i, w, x).1, k, x.schedule, w.pos);
      } else {
        LaterEarns(p, path, i, w, x, o, leaf, k);
      }
    } else {
      PerformEarns(p, path, i, w, x, o, leaf, k);
    }
  }

  /** The result comes after the first operation. */
  lemma {:induction false} LaterEarns(
    p: Prog, path: seq<nat>, i: nat, w: World, x: Setup, o: Oracle, leaf: Prog, k: Key)
    requires w.cursor <= |w.rec.t| && !x.probe && LeafAt(p, path, i, o, k) == Some(leaf)
    requires var r := Perform(p, path, i, w, x);
             && r.Continues? && r.result == ResultOf(p, path, i, o) && k !in r.w.first
             && Ok(Next(p, r.result), path, i + 1, Mem(r.w), o, x.defaultRetry, r.w.rec.t[r.w.cursor..])
             && Extends(o, Exec(Next(p, r.result), path, i + 1, r.w, x).1.first)
             && k in Exec(Next(p, r.result), path, i + 1, r.w, x).1.first
    ensures var r := Perform(p, path, i, w, x);
            Earns(leaf, w, Exec(Next(p, r.result), path, i + 1, r.w, x).1, k, x.schedule, w.pos)
    decreases p, 1, 1
  {
    var r := Perform(p, path, i, w, x);
    var w' := Exec(Next(p, r.result), path, i + 1, r.w, x).1;
    ExecFrame(Next(p, r.result), path, i + 1, r.w, x);
    NewIsBelow(Mem(r.w), Mem(w'), path, i + 1, k);
    ExecEarns(Next(p, r.result), path, i + 1, r.w, x, o, leaf, k);
    PerformMoves(p, path, i, w, x);
    EarnedBefore(leaf, w.rec.ps, r.w.rec.ps, k, w'.first[k], x.schedule, w.pos, r.w.pos, w'.pos, w'.pos);
  }

  lemma NewIsBelow(m: Memory, m': Memory, path: seq<nat>, i: nat, k: Key)
    requires Untouched(m, m', path, i) && k !in m.first && k in m'.first
    ensures Below(path, i, k)
  {
    assert At(m, k).first != At(m', k).first;
  }

  lemma {:induction false} PerformEarns(
    p: Prog, path: seq<nat>, i: nat, w: World, x: Setup, o: Oracle, leaf: Prog, k: Key)
    requires w.cursor <= |w.rec.t| && !x.probe && LeafAt(p, path, i, o, k) == Some(leaf)
    requires Ok(p, path, i, Mem(w), o, x.defaultRetry, w.rec.t[w.cursor..])
    requires Extends(o, Perform(p, path, i, w, x).w.first)
    requires k !in w.first && k in Perform(p, path, i, w, x).w.first
    ensures Earns(leaf, w, Perform(p, path, i, w, x).w, k, x.schedule, w.pos)
    decreases p, 1, 0
  {
    PerformWorks(p, path, i, w, x);
    if Works(p, path, i, w, x) {
      EnterTicks(Ticked(w), KeyOf(p, path, i), x.probe);
      WorksOk(p, path, i, w, x, o);
      ProduceEarns(p, path, i, EnteredBy(p, path, i, w, x), w.pos, x, o, leaf, k);
    }
  }

  lemma {:induction false} ProduceEarns(
    p: Prog, path: seq<nat>, i: nat, w: World, from: nat, x: Setup, o: Oracle, leaf: Prog, k: Key)
    requires !p.Return? && 0 < w.cursor <= |w.rec.t| && !x.probe && w.pos == from + 1
    requires LeafAt(p, path, i, o, k) == Some(leaf)
    requires Ok(p, path, i, Mem(w), o, x.defaultRetry, w.rec.t[w.cursor - 1..])
    requires At(Mem(w), KeyOf(p, path, i)).result.None?
    requires Extends(o, Produce(p, KeyOf(p, path, i), w, x.schedule(from).now, x).w.first)
    requires k !in w.first && k in Produce(p, KeyOf(p, path, i), w, x.schedule(from).now, x).w.first
    ensures Earns(leaf, w, Produce(p, KeyOf(p, path, i), w, x.schedule(from).now, x).w, k, x.schedule, from)
    decreases p, 0
  {
    var key, w' := KeyOf(p, path, i), Produce(p, KeyOf(p, path, i), w, x.schedule(from).now, x).w;
    ProduceFrame(p, path, i, key, w, x.schedule(from).now, x);
    NewIsNotLater(Mem(w), Mem(w'), path, i, k);
    if p.Wait? {
      AwaitedTail(p, path, i, w, o, x.defaultRetry);
      AwaitEarns(p, key, w, from, x.schedule, k);
    } else if p.body.External? {
      OutsideEarns(p, key, w, from, x, k);
    } else {
      var w1 := w.(started := w.started + [key]);
      assert w.rec.t[w.cursor - 1..][1..] == w1.rec.t[w1.cursor..];
      InnerProduces(p, path, i, w, x.schedule(from).now, x);
      ExecEarns(p.body.code, path + [i], 0, w1, x, o, leaf, k);
      EarnedBefore(leaf, w.rec.ps, w1.rec.ps, k, w'.first[k], x.schedule, from, w.pos, w'.pos, w'.pos);
    }
  }

  /** Recording what code returned, or reacting to its failure, adds no first result or signal and takes no time. */
  lemma InnerProduces(p: Prog, path: seq<nat>, i: nat, w: World, now: int, x: Setup)
    requires p.Step? && p.body.Inner? && w.cursor <= |w.rec.t|
    ensures var w', w'' := Exec(p.body.code, path + [i], 0, w.(started := w.started + [KeyOf(p, path, i)]), x).1,
                           Produce(p, KeyOf(p, path, i), w, now, x).w;
            w''.first == w'.first && w''.pos == w'.pos && w''.rec.ps == w'.rec.ps
  {
    var key := KeyOf(p, path, i);
    assert RunBody(p, key, w, x).1 == Exec(p.body.code, path + [i], 0, w.(started := w.started + [key]), x).1;
  }

  lemma NewIsNotLater(m: Memory, m': Memory, path: seq<nat>, i: nat, k: Key)
    requires SameBelow(m, m', path, i + 1) && k !in m.first && k in m'.first
    ensures !Below(path, i + 1, k)
  {
    assert At(m, k).first != At(m', k).first;
  }

  lemma AwaitEarns(p: Prog, key: Key, w: World, from: nat, schedule: Schedule, k: Key)
    requires p.Wait? && OnlyWaitsFor(Mem(w), p.signal, key) && w.pos == from + 1
    requires k !in w.first && k in AwaitSignal(w, p.signal, p.timeoutMs, key, schedule(from).now).1.first
    ensures Earns(p, w, AwaitSignal(w, p.signal, p.timeoutMs, key, schedule(from).now).1, k, schedule, from)
  {
    assert p.signal in w.rec.ps && k == key;
    assert Reached(w.rec.ps[p.signal].expiresAt, schedule(from).now);
  }

  /** An outside step that got a result read it. */
  lemma OutsideEarns(p: Prog, key: Key, w: World, from: nat, x: Setup, k: Key)
    requires p.Step? && p.body.External? && w.cursor <= |w.rec.t| && w.pos == from + 1
    requires k !in w.first && k in Produce(p, key, w, x.schedule(from).now, x).w.first
    ensures Earns(p, w, Produce(p, key, w, x.schedule(from).now, x).w, k, x.schedule, from)
  {
    assert x.schedule(w.pos).fault.None? && Supported(x.schedule(w.pos).value);
  }

  // ---- Whole lives

  lemma AttemptPos(cfg: Config, p: Prog, job: Job, schedule: Schedule, exhausted: bool)
    requires job.w.rec.s !in {Completing, Cancelled}
    ensures RunOf(cfg, p, job, schedule).1.pos <= Happens(cfg, p, job, RunAttempt(schedule, exhausted)).w.pos
  {
    var (outcome, w) := RunOf(cfg, p, job, schedule);
    if outcome.Returned? {
      ConcludePos(cfg, RunningJob(job, w), outcome.value, schedule);
    }
  }

  lemma ConcludePos(cfg: Config, job: Job, value: Value, schedule: Schedule)
    ensures job.w.pos <= Conclude(cfg, job, value, schedule).1.w.pos
  {}

  /** A signal is pending for one of the program's waits, under the name it waits for. */
  lemma {:induction false} PendingLeaf(
    p: Prog, path: seq<nat>, i: nat, m: Memory, o: Oracle, d: RetryOptions, tail: seq<Key>, name: string)
    requires Ok(p, path, i, m, o, d, tail) && name in m.ps
    ensures Below(path, i, m.ps[name].stepKey)
    ensures var leaf := LeafAt(p, path, i, o, m.ps[name].stepKey);
            leaf.Some? && leaf.value.Wait? && leaf.value.signal == name
    decreases p
  {
    SplitBelow(path, i);
    var key := KeyOf(p, path, i);
    if At(m, key).result.Some? {
      PendingLeaf(
        Next(p, ResultOf(p, path, i, o)), path, i + 1, m, o, d, tail[1 + |Block(p, path, i, o)|..], name);
    } else if p.Step? {
      PendingLeaf(p.body.code, path + [i], 0, m, o, d, tail[1..], name);
    }
  }

  /** What gives `leaf`, at `k`, its result: its signal, or an attempt that earns it. */
  ghost predicate Resolves(leaf: Prog, job: Job, event: Event, after: Job, k: Key) {
    && k !in job.w.first && k in after.w.first
    && match event
       case SendSignal(name, payload) =>
         leaf.Wait? && leaf.signal == name && name in job.w.rec.ps && job.w.rec.ps[name].stepKey == k
         && after.w.first[k] == payload
       case RunAttempt(schedule, _) => Earns(leaf, job.w, after.w, k, schedule, job.w.pos)
       case _ => false
  }

  lemma HappensResolves(cfg: Config, p: Prog, job: Job, event: Event, o: Oracle, leaf: Prog, k: Key)
    requires Good(cfg, p, job, o) && LeafAt(p, [], 0, o, k) == Some(leaf)
    requires Extends(o, Happens(cfg, p, job, event).w.first)
    requires k !in job.w.first && k in Happens(cfg, p, job, event).w.first
    ensures Resolves(leaf, job, event, Happens(cfg, p, job, event), k)
  {
    match event
    case RunAttempt(schedule, exhausted) =>
      AttemptEarns(cfg, p, job, schedule, exhausted, o, leaf, k);
    case SendSignal(name, payload) =>
      PendingLeaf(p, [], 0, Mem(job.w), o, cfg.defaultRetry, job.w.rec.t, name);
    case _ =>
  }

  lemma AttemptEarns(
    cfg: Config, p: Prog, job: Job, schedule: Schedule, exhausted: bool, o: Oracle, leaf: Prog, k: Key)
    requires Good(cfg, p, job, o) && LeafAt(p, [], 0, o, k) == Some(leaf)
    requires Extends(o, Happens(cfg, p, job, RunAttempt(schedule, exhausted)).w.first)
    requires k !in job.w.first && k in Happens(cfg, p, job, RunAttempt(schedule, exhausted)).w.first
    ensures Earns(leaf, job.w, Happens(cfg, p, job, RunAttempt(schedule, exhausted)).w, k, schedule, job.w.pos)
  {
    AttemptFirst(cfg, p, job, schedule);
    AttemptPos(cfg, p, job, schedule, exhausted);
    BegunAgrees(p, job.w, o, cfg.defaultRetry);
    ExecEarns(p, [], 0, Begun(job.w), Setup(schedule, false, cfg.defaultRetry), o, leaf, k);
    StillEarns(
      leaf, job.w, RunOf(cfg, p, job, schedule).1, Happens(cfg, p, job, RunAttempt(schedule, exhausted)).w, k,
      schedule, job.w.pos);
  }

  /**
   * Every outside step and every wait that has a result got it by one event. A step: an attempt read it as
   * what outside work returned without a fault. A wait: a signal awaited under its key was delivered, and the
   * result is its payload; or an attempt found the wait pending with a deadline that its clock had reached,
   * and the result is `null`. What it got then it has for good.
   */
  lemma FirstResultsAreEarned(cfg: Config, p: Prog, events: seq<Event>, o: Oracle, leaf: Prog, k: Key)
    returns (before: seq<Event>, event: Event)
    requires Extends(o, Life(cfg, p, events).w.first) && LeafAt(p, [], 0, o, k) == Some(leaf)
    requires k in Life(cfg, p, events).w.first
    ensures before + [event] <= events
    ensures Resolves(leaf, Life(cfg, p, before), event, Life(cfg, p, before + [event]), k)
    ensures Life(cfg, p, before + [event]).w.first[k] == Life(cfg, p, events).w.first[k]
  {
    before, event := FirstMoment(cfg, p, events, k);
    KnownSince(cfg, p, events, before + [event], o, k);
    MomentResolves(cfg, p, before, event, o, leaf, k);
  }

  /** So the result of an outside step is what its work returned, in an attempt in which it did not fail. */
  lemma OutsideStepsRead(cfg: Config, p: Prog, events: seq<Event>, o: Oracle, k: Key)
    returns (before: seq<Event>, event: Event, n: nat)
    requires Extends(o, Life(cfg, p, events).w.first) && k in Life(cfg, p, events).w.first
    requires LeafAt(p, [], 0, o, k).Some? && LeafAt(p, [], 0, o, k).value.Step?
    ensures before + [event] <= events && event.RunAttempt? && Life(cfg, p, before).w.pos <= n
    ensures event.schedule(n).fault == None && event.schedule(n).value == Life(cfg, p, events).w.first[k]
  {
    before, event := FirstResultsAreEarned(cfg, p, events, o, LeafAt(p, [], 0, o, k).value, k);
    n := ReadingOf(Life(cfg, p, events).w.first[k], event.schedule, Life(cfg, p, before).w.pos,
                   Life(cfg, p, before + [event]).w.pos);
  }

  lemma ReadingOf(value: Value, schedule: Schedule, from: nat, to: nat) returns (n: nat)
    requires Read(value, schedule, from, to)
    ensures from <= n < to && schedule(n).fault == None && schedule(n).value == value
  {
    n :| from <= n < to && schedule(n).fault.None? && schedule(n).value == value;
  }

  /** A first result is the same at every later moment. */
  lemma KnownSince(cfg: Config, p: Prog, events: seq<Event>, until: seq<Event>, o: Oracle, k: Key)
    requires until <= events && Extends(o, Life(cfg, p, events).w.first) && k in Life(cfg, p, until).w.first
    ensures k in Life(cfg, p, events).w.first && Life(cfg, p, until).w.first[k] == Life(cfg, p, events).w.first[k]
    ensures Extends(o, Life(cfg, p, until).w.first)
  {
    assert until == events[..|until|];
    LifeAdvances(cfg, p, events, |until|, o);
  }

  lemma MomentResolves(cfg: Config, p: Prog, before: seq<Event>, event: Event, o: Oracle, leaf: Prog, k: Key)
    requires Extends(o, Life(cfg, p, before + [event]).w.first) && LeafAt(p, [], 0, o, k) == Some(leaf)
    requires k !in Life(cfg, p, before).w.first && k in Life(cfg, p, before + [event]).w.first
    ensures Resolves(leaf, Life(cfg, p, before), event, Life(cfg, p, before + [event]), k)
  {
    LifeGoesOn(cfg, p, before, event);
    LifeGrows(cfg, p, before, event);
    LifeIsGood(cfg, p, before, o);
    HappensResolves(cfg, p, Life(cfg, p, before), event, o, leaf, k);
  }

  /** The event by which `k` got its first result. */
  lemma FirstMoment(cfg: Config, p: Prog, events: seq<Event>, k: Key) returns (before: seq<Event>, event: Event)
    requires k in Life(cfg, p, events).w.first
    ensures before + [event] <= events
    ensures k !in Life(cfg, p, before).w.first && k in Life(cfg, p, before + [event]).w.first
  {
    var known := (moment: seq<Event>) => k in Life(cfg, p, moment).w.first;
    assert Life(cfg, p, []) == NEW_JOB;
    before, event := Moment(known, events);
  }

  /** What does not hold at first and holds now came to hold by one event. */
  lemma {:induction false} Moment(holds: seq<Event> -> bool, events: seq<Event>)
    returns (before: seq<Event>, event: Event)
    requires !holds([]) && holds(events)
    ensures before + [event] <= events && !holds(before) && holds(before + [event])
  {
    var init := events[..|events| - 1];
    if holds(init) {
      before, event := Moment(holds, init);
    } else {
      before, event := init, events[|events| - 1];
      assert before + [event] == events;
    }
  }
}
