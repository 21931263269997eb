/**
 * Compaction and replay on records of any origin: whatever nests in the cache, dropping the results under
 * a cached ancestor changes nothing a run does, as long as the trace pins the recorded steps.
 */
module Compaction {
  import opened Values
  import opened Keys
  import opened RetryPolicy
  import opened JobRecord
  import opened Program
  import opened Frames
  import TraceShape

  /** Every step with a result is traced, and no two traced steps share a path. */
  ghost predicate Pinned(rec: Record) {
    && (forall k | HasStep(rec, k) :: k in rec.t)
    && (forall a, b | 0 <= a < b < |rec.t| :: rec.t[a].path != rec.t[b].path)
  }

  /** `m'` may lack what `m` holds for `k`, if it holds a result for an ancestor of `k`. */
  ghost predicate Mirrored(m: Memory, m': Memory, k: Key) {
    At(m', k) == At(m, k) || (At(m', k) == Cell(None, 0, At(m, k).first) && UnderResult(m', k))
  }

  ghost predicate UnderResult(m: Memory, k: Key) {
    exists a :: At(m, a).result.Some? && Inside(a.path, k)
  }

  ghost predicate Mirrors(m: Memory, m': Memory) {
    forall k :: Mirrored(m, m', k)
  }

  /** The same worlds up to results and counters under cached ancestors. */
  ghost predicate Twins(w: World, v: World) {
    v == w.(rec := w.rec.(c := v.rec.c, u := v.rec.u, a := v.rec.a)) && Mirrors(Mem(w), Mem(v))
  }

  /** Neither the step at `path` nor an ancestor of it holds a result. */
  ghost predicate Clear(rec: Record, path: seq<nat>) {
    forall k | HasStep(rec, k) :: !(k.path <= path)
  }

  /** The trace has not yet come to child `i` of the frame at `path`. */
  ghost predicate Ahead(v: World, path: seq<nat>, i: nat)
    requires v.cursor <= |v.rec.t|
  {
    forall j | 0 <= j < v.cursor :: !Below(path, i, v.rec.t[j])
  }

  /** What was consumed from `v` to `v'` is at or under `path`. */
  ghost predicate ConsumesUnder(v: World, v': World, path: seq<nat>)
    requires v'.cursor <= |v'.rec.t|
  {
    v.rec.t <= v'.rec.t && forall j | v.cursor <= j < v'.cursor :: path <= v'.rec.t[j].path
  }

  ghost predicate ConsumesBelow(v: World, v': World, path: seq<nat>, i: nat)
    requires v'.cursor <= |v'.rec.t|
  {
    v.rec.t <= v'.rec.t && forall j | v.cursor <= j < v'.cursor :: Below(path, i, v'.rec.t[j])
  }

  /** Where no ancestor holds a result, twins know the same. */
  lemma ClearCells(w: World, v: World, path: seq<nat>, key: Key)
    requires Twins(w, v) && Clear(v.rec, path) && |key.path| == |path| + 1 && path < key.path
    ensures At(Mem(v), key) == At(Mem(w), key)
    ensures HasStep(v.rec, key) == HasStep(w.rec, key) && GetStepRetryCount(v.rec, key) == GetStepRetryCount(w.rec, key)
    ensures HasStep(v.rec, key) ==> GetStepResult(v.rec, key) == GetStepResult(w.rec, key)
  {
    assert Mirrored(Mem(w), Mem(v), key);
    forall a: Key | Inside(a.path, key) ensures At(Mem(v), a).result.None? {
      assert a.path == key.path[..|a.path|] && path == key.path[..|path|];
      assert a.path <= path;
    }
  }

  lemma RecordedTwins(w: World, v: World, key: Key, value: Value, outside: bool)
    requires Twins(w, v) && Pinned(v.rec) && key in v.rec.t
    ensures var w', v' := Recorded(w, key, value, outside), Recorded(v, key, value, outside);
            Twins(w', v') && Pinned(v'.rec)
  {
    forall k ensures Mirrored(Mem(Recorded(w, key, value, outside)), Mem(Recorded(v, key, value, outside)), k) {
      AfterRecorded(w, key, value, outside, k);
      AfterRecorded(v, key, value, outside, k);
      assert Mirrored(Mem(w), Mem(v), k);
      if k != key && !Inside(key.path, k) {
        UnderResultAfterRecorded(v, key, value, outside, k);
      }
    }
    RecordedIsPinned(v, key, value, outside);
  }

  lemma UnderResultAfterRecorded(v: World, key: Key, value: Value, outside: bool, k: Key)
    requires !Inside(key.path, k)
    ensures UnderResult(Mem(v), k) ==> UnderResult(Mem(Recorded(v, key, value, outside)), k)
  {
    if UnderResult(Mem(v), k) {
      var a :| At(Mem(v), a).result.Some? && Inside(a.path, k);
      AfterRecorded(v, key, value, outside, a);
      assert At(Mem(Recorded(v, key, value, outside)), a).result.Some?;
    }
  }

  lemma RecordedIsPinned(v: World, key: Key, value: Value, outside: bool)
    requires Pinned(v.rec) && key in v.rec.t
    ensures Pinned(Recorded(v, key, value, outside).rec)
  {
    var v' := Recorded(v, key, value, outside);
    forall k | HasStep(v'.rec, k) ensures k in v'.rec.t {
      AfterRecorded(v, key, value, outside, k);
      assert At(Mem(v'), k).result.Some?;
      assert k == key || At(Mem(v), k).result.Some?;
    }
  }

  lemma CaughtTwins(w: World, v: World, path: seq<nat>, key: Key, policy: Policy, failure: Failure)
    requires Twins(w, v) && Pinned(v.rec) && Clear(v.rec, path) && |key.path| == |path| + 1 && path < key.path
    ensures var (f, w') := Caught(w, key, policy, failure);
            var (f', v') := Caught(v, key, policy, failure);
            f' == f && Twins(w', v') && Pinned(v'.rec)
  {
    ClearCells(w, v, path, key);
    var w', v' := Caught(w, key, policy, failure).1, Caught(v, key, policy, failure).1;
    forall k ensures Mirrored(Mem(w'), Mem(v'), k) {
      assert Mirrored(Mem(w), Mem(v), k);
      AfterCaught(w, key, policy, failure, k);
      AfterCaught(v, key, policy, failure, k);
      StaysUnderResult(Mem(v), Mem(v'), k);
    }
    assert forall k :: HasStep(v'.rec, k) == HasStep(v.rec, k);
  }

  lemma StaysUnderResult(m: Memory, m': Memory, k: Key)
    requires m'.c == m.c && m'.u == m.u
    ensures UnderResult(m, k) ==> UnderResult(m', k)
  {
    if UnderResult(m, k) {
      var a :| At(m, a).result.Some? && Inside(a.path, k);
      assert At(m', a).result.Some?;
    }
  }

  /** Only `ps` differs. */
  lemma SignalsAside(w: World, v: World, w': World, v': World)
    requires Twins(w, v) && Pinned(v.rec)
    requires w' == w.(rec := w.rec.(ps := w'.rec.ps)) && v' == v.(rec := v.rec.(ps := w'.rec.ps))
    ensures Twins(w', v') && Pinned(v'.rec)
  {
    assert forall k :: HasStep(v'.rec, k) == HasStep(v.rec, k);
    SameCells(Mem(w), Mem(w'));
    SameCells(Mem(v), Mem(v'));
    forall k ensures Mirrored(Mem(w'), Mem(v'), k) {
      assert Mirrored(Mem(w), Mem(v), k);
      StaysUnderResult(Mem(v), Mem(v'), k);
    }
  }

  lemma AwaitTwins(w: World, v: World, signal: string, timeoutMs: Option<nat>, key: Key, now: int)
    requires Twins(w, v) && Pinned(v.rec) && key in v.rec.t
    ensures var (f, w') := AwaitSignal(w, signal, timeoutMs, key, now);
            var (f', v') := AwaitSignal(v, signal, timeoutMs, key, now);
            f' == f && Twins(w', v') && Pinned(v'.rec) && v'.rec.t == v.rec.t && v'.cursor == v.cursor
  {
    var (f, w') := AwaitSignal(w, signal, timeoutMs, key, now);
    var (f', v') := AwaitSignal(v, signal, timeoutMs, key, now);
    if f.None? {
      RecordedTwins(w, v, key, Null, true);
      SignalsAside(Recorded(w, key, Null, true), Recorded(v, key, Null, true), w', v');
    } else {
      SignalsAside(w, v, w', v');
    }
  }

  /** Results outside child `i`'s part stay what they were. */
  lemma StaysClear(v: World, v': World, path: seq<nat>, i: nat)
    requires Clear(v.rec, path) && Untouched(Mem(v), Mem(v'), path, i)
    ensures Clear(v'.rec, path)
  {
    forall k: Key | k.path <= path ensures !HasStep(v'.rec, k) {
      assert At(Mem(v'), k) == At(Mem(v), k);
    }
  }

  ghost predicate Ready(w: World, v: World, path: seq<nat>, i: nat) {
    Twins(w, v) && v.cursor <= |v.rec.t| && Pinned(v.rec) && Clear(v.rec, path) && Ahead(v, path, i)
  }

  /** Twins run alike. */
  lemma {:induction false} ExecTwins(p: Prog, path: seq<nat>, i: nat, w: World, v: World, x: Setup)
    requires Ready(w, v, path, i)
    ensures var r, r' := Exec(p, path, i, w, x), Exec(p, path, i, v, x);
            r'.0 == r.0 && Twins(r.1, r'.1) && Pinned(r'.1.rec) && ConsumesBelow(v, r'.1, path, i)
    decreases p, 2
  {
    PerformTwins(p, path, i, w, v, x);
    PerformFrame(p, path, i, v, x);
    var r, r' := Perform(p, path, i, w, x), Perform(p, path, i, v, x);
    if r.Continues? && !p.Return? {
      StaysClear(v, r'.w, path, i);
      MovesOn(v, r'.w, path, i);
      ExecTwins(Next(p, r.result), path, i + 1, r.w, r'.w, x);
      ConsumedInTurn(v, r'.w, Exec(Next(p, r.result), path, i + 1, r'.w, x).1, path, i);
    } else {
      forall j | v.cursor <= j < r'.w.cursor ensures Below(path, i, r'.w.rec.t[j]) {
        assert path + [i] <= r'.w.rec.t[j].path;
      }
    }
  }

  lemma MovesOn(v: World, v': World, path: seq<nat>, i: nat)
    requires v.cursor <= |v.rec.t| && v'.cursor <= |v'.rec.t| && Ahead(v, path, i) && ConsumesUnder(v, v', path + [i])
    ensures Ahead(v', path, i + 1)
  {
    forall j | 0 <= j < v'.cursor ensures !Below(path, i + 1, v'.rec.t[j]) {
      if j < v.cursor {
        assert v'.rec.t[j] == v.rec.t[j];
      } else {
        assert path + [i] <= v'.rec.t[j].path;
        assert v'.rec.t[j].path[|path|] == (path + [i])[|path|];
      }
    }
  }

  lemma ConsumedInTurn(v: World, v1: World, v2: World, path: seq<nat>, i: nat)
    requires v1.cursor <= |v1.rec.t| && v2.cursor <= |v2.rec.t|
    requires ConsumesUnder(v, v1, path + [i]) && ConsumesBelow(v1, v2, path, i + 1)
    ensures ConsumesBelow(v, v2, path, i)
  {
    forall j | v.cursor <= j < v2.cursor ensures Below(path, i, v2.rec.t[j]) {
      if j < v1.cursor {
        assert path + [i] <= v1.rec.t[j].path == v2.rec.t[j].path;
        assert v2.rec.t[j].path[|path|] == (path + [i])[|path|] == i;
        assert v2.rec.t[j].path[..|path|] == (path + [i])[..|path|] == path;
      }
    }
  }

  lemma {:induction false} PerformTwins(p: Prog, path: seq<nat>, i: nat, w: World, v: World, x: Setup)
    requires Ready(w, v, path, i)
    ensures var r, r' := Perform(p, path, i, w, x), Perform(p, path, i, v, x);
            Alike(r, r') && ConsumesUnder(v, r'.w, path + [i])
    decreases p, 1
  {
    if Works(p, path, i, v, x) {
      var e, e', now := EnteredBy(p, path, i, w, x), EnteredBy(p, path, i, v, x), x.schedule(w.pos).now;
      WorkTwins(p, path, i, w, v, x);
      PerformWorks(p, path, i, w, x);
      PerformWorks(p, path, i, v, x);
      ProduceTwins(p, path, i, e, e', now, x);
      ConsumesThen(v, e', Produce(p, KeyOf(p, path, i), e', now, x).w, path + [i]);
    } else {
      IdleTwins(p, path, i, w, v, x);
    }
  }

  /** Twins that have work to do enter the step alike. */
  lemma WorkTwins(p: Prog, path: seq<nat>, i: nat, w: World, v: World, x: Setup)
    requires Ready(w, v, path, i) && Works(p, path, i, v, x)
    ensures var e, e', key := EnteredBy(p, path, i, w, x), EnteredBy(p, path, i, v, x), KeyOf(p, path, i);
            && Works(p, path, i, w, x) && Twins(e, e') && Pinned(e'.rec) && Clear(e'.rec, path)
            && Stands(e', path, i, key) && !HasStep(e'.rec, key) && ConsumesUnder(v, e', path + [i])
  {
    TickedTwins(w, v, path, i);
    ClearCells(w, v, path, KeyOf(p, path, i));
    EnterTwins(Ticked(w), Ticked(v), path, KeyOf(p, path, i), x.probe);
    EnterStands(Ticked(v), path, i, KeyOf(p, path, i), x.probe);
    EnterOnlyTraces(Ticked(v), KeyOf(p, path, i), x.probe);
  }

  lemma TickedTwins(w: World, v: World, path: seq<nat>, i: nat)
    requires Ready(w, v, path, i)
    ensures Ready(Ticked(w), Ticked(v), path, i)
  {
    assert Mem(Ticked(w)) == Mem(w) && Mem(Ticked(v)) == Mem(v);
  }

  /** Twins with none fail, end, are refused or read a result alike. */
  lemma IdleTwins(p: Prog, path: seq<nat>, i: nat, w: World, v: World, x: Setup)
    requires Ready(w, v, path, i) && !Works(p, path, i, v, x)
    ensures var r, r' := Perform(p, path, i, w, x), Perform(p, path, i, v, x);
            Alike(r, r') && ConsumesUnder(v, r'.w, path + [i])
  {
    TickedTwins(w, v, path, i);
    if x.schedule(w.pos).fault.None? && !p.Return? {
      SameEntryTwins(p, path, i, w, v, x);
    } else {
      PerformIdles(p, path, i, w, x);
      PerformIdles(p, path, i, v, x);
    }
  }

  lemma SameEntryTwins(p: Prog, path: seq<nat>, i: nat, w: World, v: World, x: Setup)
    requires Ready(w, v, path, i) && Ready(Ticked(w), Ticked(v), path, i) && !Works(p, path, i, v, x)
    requires x.schedule(w.pos).fault.None? && !p.Return?
    ensures var r, r' := Perform(p, path, i, w, x), Perform(p, path, i, v, x);
            Alike(r, r') && ConsumesUnder(v, r'.w, path + [i])
  {
    var key := KeyOf(p, path, i);
    var e, e' := EnterStep(Ticked(w), key, x.probe), EnterStep(Ticked(v), key, x.probe);
    ClearCells(w, v, path, key);
    EnterTwins(Ticked(w), Ticked(v), path, key, x.probe);
    EnterStands(Ticked(v), path, i, key, x.probe);
    PerformIdles(p, path, i, w, x);
    PerformIdles(p, path, i, v, x);
    EnterOnlyTraces(Ticked(v), key, x.probe);
    ReadTwins(e, e', v, path + [i], key);
  }

  lemma ReadTwins(e: Entry, e': Entry, v: World, path: seq<nat>, key: Key)
    requires e.w.cursor <= |e.w.rec.t| && e'.w.cursor <= |e'.w.rec.t| && key.path == path
    requires e.Entered? == e'.Entered? && (e.Refused? ==> e'.failure == e.failure)
    requires Twins(e.w, e'.w) && Pinned(e'.w.rec) && ConsumesUnder(v, e'.w, path)
    requires e.Entered? ==> HasStep(e.w.rec, key) && HasStep(e'.w.rec, key)
    requires e.Entered? ==> GetStepResult(e'.w.rec, key) == GetStepResult(e.w.rec, key)
    ensures Alike(ReadOutcome(e, key), ReadOutcome(e', key)) && ConsumesUnder(v, ReadOutcome(e', key).w, path)
  {
    if e.Entered? {
      var end := Skip(e'.w.rec.t, path, e'.w.cursor);
      SkippedTwins(e.w, e'.w, path, end);
      ConsumesThen(v, e'.w, e'.w.(cursor := end), path);
    }
  }

  lemma ConsumesThen(v: World, v1: World, v2: World, path: seq<nat>)
    requires v1.cursor <= |v1.rec.t| && v2.cursor <= |v2.rec.t|
    requires ConsumesUnder(v, v1, path) && ConsumesUnder(v1, v2, path)
    ensures ConsumesUnder(v, v2, path)
  {}

  lemma SkippedTwins(w: World, v: World, path: seq<nat>, end: nat)
    requires Twins(w, v) && v.cursor <= end <= |v.rec.t| && forall j | v.cursor <= j < end :: Inside(path, v.rec.t[j])
    ensures Twins(w.(cursor := end), v.(cursor := end)) && ConsumesUnder(v, v.(cursor := end), path)
  {
    assert Mem(w.(cursor := end)) == Mem(w) && Mem(v.(cursor := end)) == Mem(v);
  }

  ghost predicate Alike(r: Progress, r': Progress) {
    && r.Continues? == r'.Continues? && (if r.Continues? then r'.result == r.result else r'.failure == r.failure)
    && Twins(r.w, r'.w) && Pinned(r'.w.rec)
  }

  /** Twins enter a step alike. */
  lemma EnterTwins(w: World, v: World, path: seq<nat>, key: Key, probe: bool)
    requires Twins(w, v) && v.cursor <= |v.rec.t| && Clear(v.rec, path) && |key.path| == |path| + 1 && path < key.path
    ensures var e, e' := EnterStep(w, key, probe), EnterStep(v, key, probe);
            && e.Entered? == e'.Entered? && (e.Refused? ==> e'.failure == e.failure)
            && Twins(e.w, e'.w) && HasStep(e'.w.rec, key) == HasStep(e.w.rec, key)
            && (HasStep(e.w.rec, key) ==> GetStepResult(e'.w.rec, key) == GetStepResult(e.w.rec, key))
  {
    ClearCells(w, v, path, key);
    assert Mem(EnterStep(w, key, probe).w) == Mem(w) && Mem(EnterStep(v, key, probe).w) == Mem(v);
  }

  /** The step at child `i` of the frame at `path` is the last one consumed. */
  ghost predicate Stands(v: World, path: seq<nat>, i: nat, key: Key) {
    0 < v.cursor <= |v.rec.t| && v.rec.t[v.cursor - 1] == key && Ahead(v, path + [i], 0)
  }

  lemma EnterStands(v: World, path: seq<nat>, i: nat, key: Key, probe: bool)
    requires v.cursor <= |v.rec.t| && Pinned(v.rec) && Clear(v.rec, path) && Ahead(v, path, i) && key.path == path + [i]
    ensures var e := EnterStep(v, key, probe);
            && Pinned(e.w.rec) && Clear(e.w.rec, path) && ConsumesUnder(v, e.w, path + [i])
            && (e.Entered? ==> Stands(e.w, path, i, key))
  {
    var e := EnterStep(v, key, probe);
    assert forall k :: HasStep(e.w.rec, k) == HasStep(v.rec, k);
    EnteredIsPinned(v, path, i, key);
    if e.Entered? {
      StandsAhead(v, e.w, path, i, key);
    }
  }

  lemma EnteredIsPinned(v: World, path: seq<nat>, i: nat, key: Key)
    requires v.cursor <= |v.rec.t| && Pinned(v.rec) && Ahead(v, path, i) && key.path == path + [i]
    ensures v.cursor == |v.rec.t| ==> Pinned(v.rec.(t := v.rec.t + [key]))
  {
    assert Below(path, i, key);
    assert forall k :: HasStep(v.rec.(t := v.rec.t + [key]), k) == HasStep(v.rec, k);
  }

  lemma StandsAhead(v: World, v': World, path: seq<nat>, i: nat, key: Key)
    requires v.cursor + 1 == v'.cursor <= |v'.rec.t| && v.rec.t <= v'.rec.t && v.cursor <= |v.rec.t|
    requires v'.rec.t[v.cursor] == key && key.path == path + [i] && Ahead(v, path, i)
    ensures Ahead(v', path + [i], 0)
  {
    SplitBelow(path, i);
    forall j | 0 <= j < v'.cursor ensures !Below(path + [i], 0, v'.rec.t[j]) {
      if j < v.cursor {
        assert v'.rec.t[j] == v.rec.t[j] && !Below(path, i, v.rec.t[j]);
      }
    }
  }

  lemma {:induction false} ProduceTwins(p: Prog, path: seq<nat>, i: nat, w: World, v: World, now: int, x: Setup)
    requires !p.Return? && Twins(w, v) && Pinned(v.rec) && Clear(v.rec, path)
    requires Stands(v, path, i, KeyOf(p, path, i)) && !HasStep(v.rec, KeyOf(p, path, i))
    ensures var r, r' := Produce(p, KeyOf(p, path, i), w, now, x), Produce(p, KeyOf(p, path, i), v, now, x);
            Alike(r, r') && ConsumesUnder(v, r'.w, path + [i])
    decreases p, 0
  {
    if p.Wait? {
      AwaitTwins(w, v, p.signal, p.timeoutMs, KeyOf(p, path, i), now);
    } else {
      RunBodyTwins(p, path, i, w, v, x);
      StepTwins(p, path, i, w, v, now, x);
    }
  }

  lemma StepTwins(p: Prog, path: seq<nat>, i: nat, w: World, v: World, now: int, x: Setup)
    requires p.Step? && w.cursor <= |w.rec.t| && Clear(v.rec, path) && Stands(v, path, i, KeyOf(p, path, i))
    requires var r, r' := RunBody(p, KeyOf(p, path, i), w, x), RunBody(p, KeyOf(p, path, i), v, x);
             r'.0 == r.0 && Twins(r.1, r'.1) && Pinned(r'.1.rec) && ConsumesUnder(v, r'.1, path + [i])
    ensures var r, r' := Produce(p, KeyOf(p, path, i), w, now, x), Produce(p, KeyOf(p, path, i), v, now, x);
            Alike(r, r') && ConsumesUnder(v, r'.w, path + [i])
  {
    var key, v' := KeyOf(p, path, i), RunBody(p, KeyOf(p, path, i), v, x).1;
    RunBodyFrame(p, key, v, x);
    ClearAfterBody(v, v', path, i, key);
    assert v'.rec.t[v.cursor - 1] == key;
    EndedTwins(p, path, i, RunBody(p, key, w, x).1, v', RunBody(p, key, w, x).0, x.defaultRetry);
  }

  /** Twins react alike to the outcome of a body. */
  lemma EndedTwins(p: Prog, path: seq<nat>, i: nat, w: World, v: World, outcome: Outcome, d: RetryOptions)
    requires p.Step? && Twins(w, v) && Pinned(v.rec) && Clear(v.rec, path) && KeyOf(p, path, i) in v.rec.t
    ensures Alike(Ended(p, KeyOf(p, path, i), outcome, w, d), Ended(p, KeyOf(p, path, i), outcome, v, d))
    ensures Ended(p, KeyOf(p, path, i), outcome, v, d).w.cursor == v.cursor
    ensures Ended(p, KeyOf(p, path, i), outcome, v, d).w.rec.t == v.rec.t
  {
    var key := KeyOf(p, path, i);
    if outcome.Returned? {
      RecordedTwins(w, v, key, outcome.value, p.body.External?);
    } else {
      CaughtTwins(w, v, path, key, Resolve(p.retry, d), outcome.failure);
    }
  }

  lemma ClearAfterBody(v: World, v': World, path: seq<nat>, i: nat, key: Key)
    requires Clear(v.rec, path) && key.path == path + [i] && Untouched(Mem(v), Mem(v'), key.path, 0)
    ensures Clear(v'.rec, path)
  {
    SplitBelow(path, i);
    StaysClear(v, v', path, i);
  }

  lemma {:induction false} RunBodyTwins(p: Prog, path: seq<nat>, i: nat, w: World, v: World, x: Setup)
    requires p.Step? && Twins(w, v) && Pinned(v.rec) && Clear(v.rec, path)
    requires Stands(v, path, i, KeyOf(p, path, i)) && !HasStep(v.rec, KeyOf(p, path, i))
    ensures var r, r' := RunBody(p, KeyOf(p, path, i), w, x), RunBody(p, KeyOf(p, path, i), v, x);
            r'.0 == r.0 && Twins(r.1, r'.1) && Pinned(r'.1.rec) && ConsumesUnder(v, r'.1, path + [i])
    decreases p.body
  {
    var key := KeyOf(p, path, i);
    var w1, v1 := w.(started := w.started + [key]), v.(started := v.started + [key]);
    assert Mem(w1) == Mem(w) && Mem(v1) == Mem(v);
    match p.body
    case External => assert Mem(Ticked(w1)) == Mem(w) && Mem(Ticked(v1)) == Mem(v);
    case Inner(code) =>
      OwnPathIsClear(v, path, i, key);
      ExecTwins(code, path + [i], 0, w1, v1, x);
  }

  lemma OwnPathIsClear(v: World, path: seq<nat>, i: nat, key: Key)
    requires Pinned(v.rec) && Clear(v.rec, path) && key.path == path + [i] && key in v.rec.t && !HasStep(v.rec, key)
    ensures Clear(v.rec, path + [i])
  {
    forall k: Key | k.path <= path + [i] ensures !HasStep(v.rec, k) {
      if k.path == path + [i] {
        assert k in v.rec.t ==> k == key;
      } else {
        assert k.path <= path;
      }
    }
  }

  lemma CompactedTwins(w: World)
    ensures Twins(w, w.(rec := Compacted(w.rec)))
  {
    var v := w.(rec := Compacted(w.rec));
    forall k ensures Mirrored(Mem(w), Mem(v), k) {
      if HasCachedAncestor(w.rec, k) {
        var top := TopmostCachedAncestor(w.rec, k);
        assert At(Mem(v), top).result.Some?;
      }
    }
  }

  /**
   * A run on the compacted record ends as a run on the record itself, with the same trace, logs and pending
   * signals, and with no result the other has not.
   */
  ghost predicate RunsAlike(p: Prog, w: World, x: Setup) {
    var r := Exec(p, [], 0, w.(cursor := 0), x);
    var r' := Exec(p, [], 0, w.(cursor := 0, rec := Compacted(w.rec)), x);
    && r'.0 == r.0
    && r'.1 == r.1.(rec := r.1.rec.(c := r'.1.rec.c, u := r'.1.rec.u, a := r'.1.rec.a))
    && forall k | HasStep(r'.1.rec, k) :: HasStep(r.1.rec, k) && GetStepResult(r'.1.rec, k) == GetStepResult(r.1.rec, k)
  }

  lemma CompactionKeepsEveryRun(p: Prog, w: World, x: Setup)
    requires Pinned(w.rec) && (forall k | HasStep(w.rec, k) :: k.path != [])
    ensures RunsAlike(p, w, x)
  {
    var start := w.(cursor := 0);
    CompactedTwins(start);
    ExecTwins(p, [], 0, start, start.(rec := Compacted(w.rec)), x);
    TwinResults(Exec(p, [], 0, start, x).1, Exec(p, [], 0, start.(rec := Compacted(w.rec)), x).1);
  }

  /** What the leaner twin holds, the other holds too. */
  lemma TwinResults(w: World, v: World)
    requires Twins(w, v)
    ensures forall k | HasStep(v.rec, k) :: HasStep(w.rec, k) && GetStepResult(v.rec, k) == GetStepResult(w.rec, k)
  {
    forall k | HasStep(v.rec, k) ensures HasStep(w.rec, k) && GetStepResult(v.rec, k) == GetStepResult(w.rec, k) {
      assert Mirrored(Mem(w), Mem(v), k);
      assert At(Mem(v), k).result.Some?;
    }
  }

  // ---- The records clients leave behind

  /** What clients do to a record besides tracing steps. They know no keys but those of steps they entered. */
  datatype StoreOp =
    | Save(key: Key, result: Value)
    | Count(key: Key)
    | Await(name: string, key: Key, expiresAt: Option<int>)
    | Clear(name: string)
    | Deliver(name: string, payload: Value)
    | Compact
    | Conclude(s: Status, r: Option<Value>, e: Option<string>)

  ghost function Stored(rec: Record, op: StoreOp): Record {
    match op
    case Save(key, result) => if key in rec.t then SaveStepResult(rec, key, result) else rec
    case Count(key) => if key in rec.t then IncrementStepRetryCount(rec, key) else rec
    case Await(name, key, expiresAt) => if key in rec.t then SavePendingSignal(rec, name, key, expiresAt) else rec
    case Clear(name) => ClearPendingSignal(rec, name)
    case Deliver(name, payload) => if name in rec.ps then DeliverSignal(rec, name, payload) else rec
    case Compact => Compacted(rec)
    case Conclude(s, r, e) => rec.(s := s, r := r, e := e)
  }

  datatype Act = Opens(name: string) | Closes | Stores(op: StoreOp) | StartsOver

  ghost function AsOp(st: TraceShape.Client, act: Act): TraceShape.Op {
    match act
    case Opens(name) => TraceShape.Open(name)
    case Closes => TraceShape.Close
    case Stores(op) => TraceShape.Change(Stored(st.rec, op))
    case StartsOver => TraceShape.Restart
  }

  /** A client's stack and record after all this, from the start of a job. */
  ghost function After(acts: seq<Act>): (st: TraceShape.Client)
    ensures st.frames != [] && st.cursor <= |st.rec.t|
  {
    if acts == [] then TraceShape.Clients([])
    else
      var st := After(acts[..|acts| - 1]);
      TraceShape.ApplyIsSafe(st, AsOp(st, acts[|acts| - 1]));
      TraceShape.Apply(st, AsOp(st, acts[|acts| - 1]))
  }

  /** Whatever holds a result or is awaited is traced. */
  ghost predicate KnownToTrace(rec: Record) {
    && (forall k | HasStep(rec, k) :: k in rec.t)
    && (forall name | name in rec.ps :: rec.ps[name].stepKey in rec.t)
  }

  lemma StoredIsKnown(rec: Record, op: StoreOp)
    requires KnownToTrace(rec)
    ensures KnownToTrace(Stored(rec, op)) && Stored(rec, op).t == rec.t
  {}

  lemma {:induction false} ClientsAreKnown(acts: seq<Act>)
    ensures TraceShape.Invariant(After(acts)) && KnownToTrace(After(acts).rec)
  {
    if acts == [] {
      TraceShape.TracesAreWellShaped([], 0);
    } else {
      var st, act := After(acts[..|acts| - 1]), acts[|acts| - 1];
      ClientsAreKnown(acts[..|acts| - 1]);
      TraceShape.ApplyKeeps(st, AsOp(st, act));
      if act.Stores? {
        StoredIsKnown(st.rec, act.op);
      } else {
        TracingKeepsKnown(st.rec, After(acts).rec);
      }
    }
  }

  lemma TracingKeepsKnown(rec: Record, rec': Record)
    requires KnownToTrace(rec) && rec.t <= rec'.t && rec' == rec.(t := rec'.t)
    ensures KnownToTrace(rec')
  {
    forall k | k in rec.t ensures k in rec'.t {
      var j :| 0 <= j < |rec.t| && rec.t[j] == k;
      assert rec'.t[j] == k;
    }
  }

  lemma ClientsArePinned(acts: seq<Act>)
    ensures Pinned(After(acts).rec) && forall k | k in After(acts).rec.t :: k.path != []
  {
    var t := After(acts).rec.t;
    ClientsAreKnown(acts);
    forall a, b | 0 <= a < b < |t| ensures t[a].path != t[b].path {
      TraceShape.BeforeIsIrreflexive(t[b].path);
      assert TraceShape.Before(t[a].path, t[b].path);
    }
    forall k | k in t ensures k.path != [] {
      var b :| 0 <= b < |t| && t[b] == k;
      assert TraceShape.HasParent(t, b);
    }
  }

  /**
   * Whatever record clients have left behind, deterministic or not, compacting it changes nothing any
   * program does next under any schedule.
   */
  lemma CompactionChangesNoReplay(acts: seq<Act>, p: Prog, w: World, x: Setup)
    requires w.rec == After(acts).rec
    ensures RunsAlike(p, w, x)
  {
    ClientsArePinned(acts);
    CompactionKeepsEveryRun(p, w, x);
  }

  // ---- Why the trace is needed

  const OUTER := Key([0], "y")
  const LEAF := Key([0, 0], "leaf")

  /** `x` holds a result at a path where the trace has `y`, and `leaf` inside it holds one. */
  ghost predicate Unpinned(rec: Record) {
    rec.t == [OUTER, LEAF] && HasStep(rec, Key([0], "x")) && HasStep(rec, LEAF) && !HasStep(rec, OUTER)
  }

  /** A program that calls `y`, which calls `leaf`, whatever they return. */
  ghost predicate CallsLeaf(p: Prog) {
    && p.Step? && p.name == "y" && p.next == imap[] && p.otherwise == Return(Null) && p.body.Inner?
    && IsLeaf(p.body.code)
  }

  ghost predicate IsLeaf(code: Prog) {
    code.Step? && code.name == "leaf" && code.next == imap[] && code.otherwise == Return(Null) && code.body.External?
  }

  ghost predicate Quiet(x: Setup) {
    !x.probe && forall n :: x.schedule(n).fault.None? && Supported(x.schedule(n).value)
  }

  lemma UnpinnedExample() returns (rec: Record, p: Prog)
    ensures Unpinned(rec) && CallsLeaf(p)
  {
    rec := INITIAL.(c := map[Key([0], "x") := Null, LEAF := Bool(false)], t := [OUTER, LEAF]);
    var plain := RetryOptions(None, None, None, None);
    p := Step("y", plain, Inner(Step("leaf", plain, External, imap[], Return(Null))), imap[], Return(Null));
  }

  /**
   * On arbitrary records, which no client leaves behind, the claim is false: a run on such a record reads what
   * `leaf` returned, one on the compacted record calls it again.
   */
  lemma UnpinnedCompactionRepeatsWork(rec: Record, p: Prog, x: Setup)
    requires Unpinned(rec) && CallsLeaf(p) && Quiet(x)
    ensures var w := World(rec, 0, 0, map[], [], []);
            && Exec(p, [], 0, w, x).1.started == [OUTER]
            && Exec(p, [], 0, w.(rec := Compacted(rec)), x).1.started == [OUTER, LEAF]
  {
    var w := World(rec, 0, 0, map[], [], []);
    assert HasCachedAncestor(rec, LEAF) by { assert Inside([0], LEAF); }
    UnpinnedRun(p, w, x);
    UnpinnedRun(p, w.(rec := Compacted(rec)), x);
  }

  /** The body of `leaf` starts unless it holds a result. */
  lemma UnpinnedRun(p: Prog, w: World, x: Setup)
    requires CallsLeaf(p) && Quiet(x)
    requires w.cursor == 0 && w.started == [] && w.rec.t == [OUTER, LEAF] && !HasStep(w.rec, OUTER)
    ensures Exec(p, [], 0, w, x).1.started == if HasStep(w.rec, LEAF) then [OUTER] else [OUTER, LEAF]
  {
    assert KeyOf(p, [], 0) == OUTER;
    PerformWorks(p, [], 0, w, x);
    var entered := EnteredBy(p, [], 0, w, x);
    var begun := entered.(started := entered.started + [OUTER]);
    LeafRun(p.body.code, begun, x);
    assert RunBody(p, OUTER, entered, x) == Exec(p.body.code, [0], 0, begun, x);
    var w' := Perform(p, [], 0, w, x).w;
    ExecPerforms(p, [], 0, w, x);
    ReturnRuns(Null, [], 1, w', x);
  }

  lemma LeafRun(code: Prog, w: World, x: Setup)
    requires IsLeaf(code) && Quiet(x) && w.cursor == 1 && w.rec.t == [OUTER, LEAF]
    ensures var (outcome, w') := Exec(code, [0], 0, w, x);
            && outcome == Returned(Null)
            && w'.started == if HasStep(w.rec, LEAF) then w.started else w.started + [LEAF]
  {
    assert KeyOf(code, [0], 0) == LEAF;
    if HasStep(w.rec, LEAF) {
      PerformIdles(code, [0], 0, w, x);
    } else {
      PerformWorks(code, [0], 0, w, x);
    }
    var r := Perform(code, [0], 0, w, x);
    assert r.Continues?;
    ExecPerforms(code, [0], 0, w, x);
    ReturnRuns(Null, [0], 1, r.w, x);
  }

  lemma ReturnRuns(value: Value, path: seq<nat>, i: nat, w: World, x: Setup)
    requires w.cursor <= |w.rec.t| && x.schedule(w.pos).fault.None?
    ensures Exec(Return(value), path, i, w, x) == (Returned(value), Ticked(w))
  {
    ExecPerforms(Return(value), path, i, w, x);
  }
}
