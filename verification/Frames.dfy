/** Which cells of the record an execution may touch, whatever the record holds. */
module Frames {
  import opened Values
  import opened Keys
  import opened RetryPolicy
  import opened JobRecord
  import opened Program

  /** The part of the world replay reads, apart from the trace. */
  datatype Memory = Memory(
    c: map<Key, Value>, u: set<Key>, a: map<Key, nat>, ps: map<string, PendingSignal>, first: map<Key, Value>)

  function Mem(w: World): Memory {
    Memory(w.rec.c, w.rec.u, w.rec.a, w.rec.ps, w.first)
  }

  /** All that is known about one key: its result, its failed attempts, its first recorded success. */
  datatype Cell = Cell(result: Option<Value>, failures: nat, first: Option<Value>)

  const EMPTY := Cell(None, 0, None)

  function At(m: Memory, k: Key): Cell {
    Cell(if k in m.u then Some(Undefined) else if k in m.c then Some(m.c[k]) else None,
         if k in m.a then m.a[k] else 0,
         if k in m.first then Some(m.first[k]) else None)
  }

  /** Only cells of the frame at `path`, from child `i` on, differ. */
  ghost predicate Untouched(m: Memory, m': Memory, path: seq<nat>, i: nat) {
    forall k :: !Below(path, i, k) ==> At(m', k) == At(m, k)
  }

  ghost predicate SameBelow(m: Memory, m': Memory, path: seq<nat>, i: nat) {
    forall k :: Below(path, i, k) ==> At(m', k) == At(m, k)
  }

  ghost predicate Grows(first: map<Key, Value>, first': map<Key, Value>) {
    forall k | k in first :: k in first' && first'[k] == first[k]
  }

  /** Logs and trace are only appended to. */
  ghost predicate Appends(w: World, w': World) {
    && w.rec.t <= w'.rec.t && w.cursor <= w'.cursor && w.started <= w'.started && w.retries <= w'.retries
    && Grows(w.first, w'.first)
  }

  lemma AfterRecorded(w: World, key: Key, value: Value, outside: bool, k: Key)
    ensures At(Mem(Recorded(w, key, value, outside)), k)
         == if k == key then
              Cell(Some(value), 0, if outside && key !in w.first then Some(value) else At(Mem(w), key).first)
            else if Inside(key.path, k) then Cell(None, 0, At(Mem(w), k).first)
            else At(Mem(w), k)
  {}

  lemma AfterCaught(w: World, key: Key, policy: Policy, failure: Failure, k: Key)
    ensures At(Mem(Caught(w, key, policy, failure).1), k)
         == if k == key && Caught(w, key, policy, failure).0.RetryRequested? && Caught(w, key, policy, failure).1 != w
            then At(Mem(w), key).(failures := At(Mem(w), key).failures + 1)
            else At(Mem(w), k)
  {}

  lemma CaughtFrame(w: World, key: Key, policy: Policy, failure: Failure)
    ensures SameBelow(Mem(w), Mem(Caught(w, key, policy, failure).1), key.path, 0)
    ensures At(Mem(Caught(w, key, policy, failure).1), key).result == At(Mem(w), key).result
  {
    forall k { AfterCaught(w, key, policy, failure, k); }
  }

  lemma RecordedFrame(w: World, key: Key, value: Value, outside: bool, path: seq<nat>, i: nat)
    requires key.path == path + [i]
    ensures Untouched(Mem(w), Mem(Recorded(w, key, value, outside)), path, i)
    ensures SameBelow(Mem(w), Mem(Recorded(w, key, value, outside)), path, i + 1)
  {
    SplitBelow(path, i);
    forall k { AfterRecorded(w, key, value, outside, k); }
  }

  lemma AwaitFrame(w: World, p: Prog, key: Key, now: int, path: seq<nat>, i: nat)
    requires p.Wait? && key.path == path + [i]
    ensures Untouched(Mem(w), Mem(AwaitSignal(w, p.signal, p.timeoutMs, key, now).1), path, i)
    ensures SameBelow(Mem(w), Mem(AwaitSignal(w, p.signal, p.timeoutMs, key, now).1), path, i + 1)
    ensures Appends(w, AwaitSignal(w, p.signal, p.timeoutMs, key, now).1)
  {
    var (failure, w') := AwaitSignal(w, p.signal, p.timeoutMs, key, now);
    if failure.None? {
      RecordedFrame(w, key, Null, true, path, i);
      SameCells(Mem(Recorded(w, key, Null, true)), Mem(w'));
    } else {
      SameCells(Mem(w), Mem(w'));
    }
  }

  /** Pending signals are not part of any cell. */
  lemma SameCells(m: Memory, m': Memory)
    requires m' == m.(ps := m'.ps)
    ensures forall k :: At(m', k) == At(m, k)
  {}

  lemma UntouchedLater(m: Memory, m': Memory, m'': Memory, path: seq<nat>, i: nat)
    requires Untouched(m, m', path, i) && Untouched(m', m'', path, i + 1)
    ensures Untouched(m, m'', path, i)
  {
    forall k | !Below(path, i, k) ensures At(m'', k) == At(m, k) {
      assert At(m', k) == At(m, k);
    }
  }

  /** An execution changes nothing outside its own part of the tree, and forgets nothing. */
  lemma {:induction false} ExecFrame(p: Prog, path: seq<nat>, i: nat, w: World, x: Setup)
    requires w.cursor <= |w.rec.t|
    ensures Untouched(Mem(w), Mem(Exec(p, path, i, w, x).1), path, i)
    ensures Appends(w, Exec(p, path, i, w, x).1)
    decreases p, 2
  {
    PerformFrame(p, path, i, w, x);
    var progress := Perform(p, path, i, w, x);
    if progress.Continues? && !p.Return? {
      var q := Next(p, progress.result);
      ExecFrame(q, path, i + 1, progress.w, x);
      UntouchedLater(Mem(w), Mem(progress.w), Mem(Exec(q, path, i + 1, progress.w, x).1), path, i);
    }
  }

  /** The operation has to produce a result: nothing failed before it, and none is recorded. */
  predicate Works(p: Prog, path: seq<nat>, i: nat, w: World, x: Setup)
    requires w.cursor <= |w.rec.t|
  {
    && x.schedule(w.pos).fault.None? && !p.Return?
    && EnterStep(Ticked(w), KeyOf(p, path, i), x.probe).Entered? && !HasStep(w.rec, KeyOf(p, path, i))
  }

  function EnteredBy(p: Prog, path: seq<nat>, i: nat, w: World, x: Setup): (w': World)
    requires !p.Return? && w.cursor <= |w.rec.t|
    ensures w'.cursor <= |w'.rec.t|
  {
    EnterStep(Ticked(w), KeyOf(p, path, i), x.probe).w
  }

  /** Trace and cursor aside, nothing is different. */
  ghost predicate OnlyTraces(w: World, w': World) {
    && w' == w.(rec := w.rec.(t := w'.rec.t), cursor := w'.cursor, pos := w'.pos)
    && w.rec.t <= w'.rec.t && w.cursor <= w'.cursor && Mem(w') == Mem(w)
  }

  lemma ExecPerforms(p: Prog, path: seq<nat>, i: nat, w: World, x: Setup)
    requires w.cursor <= |w.rec.t|
    ensures Exec(p, path, i, w, x)
         == match Perform(p, path, i, w, x)
            case Stops(failure, w') => (Raised(failure), w')
            case Continues(result, w') =>
              if p.Return? then (Returned(result), w') else Exec(Next(p, result), path, i + 1, w', x)
  {}

  lemma PerformWorks(p: Prog, path: seq<nat>, i: nat, w: World, x: Setup)
    requires w.cursor <= |w.rec.t|
    ensures Works(p, path, i, w, x) ==>
              && OnlyTraces(w, EnteredBy(p, path, i, w, x))
              && Perform(p, path, i, w, x)
                 == Produce(p, KeyOf(p, path, i), EnteredBy(p, path, i, w, x), x.schedule(w.pos).now, x)
    ensures !Works(p, path, i, w, x) ==> OnlyTraces(w, Perform(p, path, i, w, x).w)
  {
    if !p.Return? {
      EnterOnlyTraces(Ticked(w), KeyOf(p, path, i), x.probe);
    }
  }

  /** What an operation with nothing to produce comes to: a failure, the end, or a result that is read. */
  function IdleOutcome(p: Prog, path: seq<nat>, i: nat, w: World, x: Setup): Progress
    requires w.cursor <= |w.rec.t| && !Works(p, path, i, w, x)
  {
    var choice := x.schedule(w.pos);
    if choice.fault.Some? then Stops(Fault(choice.fault.value), Ticked(w))
    else if p.Return? then Continues(p.value, Ticked(w))
    else ReadOutcome(EnterStep(Ticked(w), KeyOf(p, path, i), x.probe), KeyOf(p, path, i))
  }

  function ReadOutcome(entry: Entry, key: Key): Progress
    requires entry.w.cursor <= |entry.w.rec.t| && (entry.Entered? ==> HasStep(entry.w.rec, key))
  {
    match entry
    case Refused(failure, w) => Stops(failure, w)
    case Entered(w) => Continues(GetStepResult(w.rec, key), w.(cursor := Skip(w.rec.t, key.path, w.cursor)))
  }

  lemma PerformIdles(p: Prog, path: seq<nat>, i: nat, w: World, x: Setup)
    requires w.cursor <= |w.rec.t| && !Works(p, path, i, w, x)
    ensures Perform(p, path, i, w, x) == IdleOutcome(p, path, i, w, x)
  {}

  lemma EnterOnlyTraces(w: World, key: Key, probe: bool)
    requires w.cursor <= |w.rec.t|
    ensures OnlyTraces(w, EnterStep(w, key, probe).w)
    ensures HasStep(EnterStep(w, key, probe).w.rec, key) == HasStep(w.rec, key)
  {}

  lemma {:induction false} PerformFrame(p: Prog, path: seq<nat>, i: nat, w: World, x: Setup)
    requires w.cursor <= |w.rec.t|
    ensures Untouched(Mem(w), Mem(Perform(p, path, i, w, x).w), path, i)
    ensures SameBelow(Mem(w), Mem(Perform(p, path, i, w, x).w), path, i + 1)
    ensures Appends(w, Perform(p, path, i, w, x).w)
    decreases p, 1
  {
    PerformWorks(p, path, i, w, x);
    if Works(p, path, i, w, x) {
      ProduceFrame(p, path, i, KeyOf(p, path, i), EnteredBy(p, path, i, w, x), x.schedule(w.pos).now, x);
    }
  }

  lemma {:induction false} ProduceFrame(p: Prog, path: seq<nat>, i: nat, key: Key, w: World, now: int, x: Setup)
    requires !p.Return? && w.cursor <= |w.rec.t| && key.path == path + [i]
    ensures Untouched(Mem(w), Mem(Produce(p, key, w, now, x).w), path, i)
    ensures SameBelow(Mem(w), Mem(Produce(p, key, w, now, x).w), path, i + 1)
    ensures Appends(w, Produce(p, key, w, now, x).w)
    decreases p, 0
  {
    SplitBelow(path, i);
    if p.Wait? {
      AwaitFrame(w, p, key, now, path, i);
    } else {
      RunBodyFrame(p, key, w, x);
      var (outcome, w') := RunBody(p, key, w, x);
      EndedFrame(p, path, i, key, outcome, w', x.defaultRetry);
    }
  }

  lemma EndedFrame(p: Prog, path: seq<nat>, i: nat, key: Key, outcome: Outcome, w: World, d: RetryOptions)
    requires p.Step? && key.path == path + [i]
    ensures Untouched(Mem(w), Mem(Ended(p, key, outcome, w, d).w), path, i)
    ensures SameBelow(Mem(w), Mem(Ended(p, key, outcome, w, d).w), path, i + 1)
    ensures Appends(w, Ended(p, key, outcome, w, d).w)
  {
    SplitBelow(path, i);
    match outcome
    case Returned(value) => RecordedFrame(w, key, value, p.body.External?, path, i);
    case Raised(failure) =>
      forall k { AfterCaught(w, key, Resolve(p.retry, d), failure, k); }
  }

  lemma {:induction false} RunBodyFrame(p: Prog, key: Key, w: World, x: Setup)
    requires p.Step? && w.cursor <= |w.rec.t|
    ensures Untouched(Mem(w), Mem(RunBody(p, key, w, x).1), key.path, 0)
    ensures Appends(w, RunBody(p, key, w, x).1)
    decreases p.body
  {
    match p.body
    case External =>
    case Inner(code) => ExecFrame(code, key.path, 0, w.(started := w.started + [key]), x);
  }

  /** Result keys and undefined-keys are disjoint; counters count at least one failure. */
  ghost predicate Tidy(rec: Record) {
    rec.c.Keys !! rec.u && forall k | k in rec.a :: rec.a[k] > 0
  }

  predicate SameVerdict(rec: Record, rec': Record) {
    rec'.s == rec.s && rec'.r == rec.r && rec'.e == rec.e
  }

  /** Every execution keeps the record tidy, whatever it holds, and leaves status, result and error alone. */
  lemma {:induction false} ExecTidy(p: Prog, path: seq<nat>, i: nat, w: World, x: Setup)
    requires w.cursor <= |w.rec.t|
    ensures KeepsTidy(w, Exec(p, path, i, w, x).1)
    decreases p, 2
  {
    PerformTidy(p, path, i, w, x);
    var r := Perform(p, path, i, w, x);
    if r.Continues? && !p.Return? {
      ExecTidy(Next(p, r.result), path, i + 1, r.w, x);
    }
  }

  ghost predicate KeepsTidy(w: World, w': World) {
    SameVerdict(w.rec, w'.rec) && (Tidy(w.rec) ==> Tidy(w'.rec))
  }

  lemma {:induction false} PerformTidy(p: Prog, path: seq<nat>, i: nat, w: World, x: Setup)
    requires w.cursor <= |w.rec.t|
    ensures KeepsTidy(w, Perform(p, path, i, w, x).w)
    decreases p, 1
  {
    PerformWorks(p, path, i, w, x);
    if Works(p, path, i, w, x) {
      TracingKeepsTidy(w, EnteredBy(p, path, i, w, x));
      ProduceTidy(p, KeyOf(p, path, i), EnteredBy(p, path, i, w, x), x.schedule(w.pos).now, x);
    } else {
      TracingKeepsTidy(w, Perform(p, path, i, w, x).w);
    }
  }

  lemma TracingKeepsTidy(w: World, w': World)
    requires OnlyTraces(w, w')
    ensures KeepsTidy(w, w')
  {}

  lemma {:induction false} ProduceTidy(p: Prog, key: Key, w: World, now: int, x: Setup)
    requires !p.Return? && w.cursor <= |w.rec.t|
    ensures KeepsTidy(w, Produce(p, key, w, now, x).w)
    decreases p, 0
  {
    if p.Wait? {
      AwaitTidy(w, p.signal, p.timeoutMs, key, now);
    } else {
      if p.body.Inner? {
        ExecTidy(p.body.code, key.path, 0, w.(started := w.started + [key]), x);
      }
      var (outcome, w') := RunBody(p, key, w, x);
      assert KeepsTidy(w, w');
      match outcome
      case Returned(value) => RecordedTidy(w', key, value, p.body.External?);
      case Raised(failure) => CaughtTidy(w', key, Resolve(p.retry, x.defaultRetry), failure);
    }
  }

  lemma RecordedTidy(w: World, key: Key, value: Value, outside: bool)
    ensures KeepsTidy(w, Recorded(w, key, value, outside))
  {}

  lemma CaughtTidy(w: World, key: Key, policy: Policy, failure: Failure)
    ensures KeepsTidy(w, Caught(w, key, policy, failure).1)
  {}

  lemma AwaitTidy(w: World, signal: string, timeoutMs: Option<nat>, key: Key, now: int)
    ensures KeepsTidy(w, AwaitSignal(w, signal, timeoutMs, key, now).1)
  {
    RecordedTidy(w, key, Null, true);
  }
}
