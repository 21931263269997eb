/** Which step bodies an execution starts: never one whose result, or an ancestor's, is recorded. */
module StartedBodies {
  import opened Values
  import opened Keys
  import opened RetryPolicy
  import opened Program
  import opened Frames
  import opened Replay
  import opened Invariants

  /** Results are only dropped under an ancestor's result, whatever the record holds. */
  lemma {:induction false} ExecKeepsCovered(p: Prog, path: seq<nat>, i: nat, w: World, x: Setup, k: Key)
    requires w.cursor <= |w.rec.t| && Covered(Mem(w), k)
    ensures Covered(Mem(Exec(p, path, i, w, x).1), k)
    decreases p, 2
  {
    PerformKeepsCovered(p, path, i, w, x, k);
    var r := Perform(p, path, i, w, x);
    if r.Continues? && !p.Return? {
      ExecKeepsCovered(Next(p, r.result), path, i + 1, r.w, x, k);
    }
  }

  lemma {:induction false} PerformKeepsCovered(p: Prog, path: seq<nat>, i: nat, w: World, x: Setup, k: Key)
    requires w.cursor <= |w.rec.t| && Covered(Mem(w), k)
    ensures Covered(Mem(Perform(p, path, i, w, x).w), k)
    decreases p, 1
  {
    PerformWorks(p, path, i, w, x);
    if Works(p, path, i, w, x) {
      ProduceKeepsCovered(p, path, i, EnteredBy(p, path, i, w, x), x.schedule(w.pos).now, x, k);
    }
  }

  lemma RecordedKeepsCovered(w: World, key: Key, value: Value, outside: bool, k: Key)
    requires Covered(Mem(w), k)
    ensures Covered(Mem(Recorded(w, key, value, outside)), k)
  {
    var a :| At(Mem(w), a).result.Some? && a.path <= k.path;
    AfterRecorded(w, key, value, outside, a);
    AfterRecorded(w, key, value, outside, key);
    if a != key && Inside(key.path, a) {
      assert key.path <= k.path;
    }
  }

  lemma AwaitKeepsCovered(w: World, p: Prog, key: Key, now: int, k: Key)
    requires p.Wait? && Covered(Mem(w), k)
    ensures Covered(Mem(AwaitSignal(w, p.signal, p.timeoutMs, key, now).1), k)
  {
    var (failure, w') := AwaitSignal(w, p.signal, p.timeoutMs, key, now);
    if failure.None? {
      RecordedKeepsCovered(w, key, Null, true, k);
      SameResultsCovered(Mem(Recorded(w, key, Null, true)), Mem(w'), k);
    } else {
      SameResultsCovered(Mem(w), Mem(w'), k);
    }
  }

  lemma {:induction false} ProduceKeepsCovered(
    p: Prog, path: seq<nat>, i: nat, w: World, now: int, x: Setup, k: Key)
    requires !p.Return? && w.cursor <= |w.rec.t| && Covered(Mem(w), k)
    ensures Covered(Mem(Produce(p, KeyOf(p, path, i), w, now, x).w), k)
    decreases p, 0
  {
    var key, r := KeyOf(p, path, i), Produce(p, KeyOf(p, path, i), w, now, x);
    if p.Wait? {
      AwaitKeepsCovered(w, p, key, now, k);
    } else {
      RunBodyKeepsCovered(p, key, w, x, k);
      var (outcome, w') := RunBody(p, key, w, x);
      if outcome.Returned? {
        RecordedKeepsCovered(w', key, outcome.value, p.body.External?, k);
      } else {
        SameResultsCovered(Mem(w'), Mem(r.w), k);
      }
    }
  }

  lemma {:induction false} RunBodyKeepsCovered(p: Prog, key: Key, w: World, x: Setup, k: Key)
    requires p.Step? && w.cursor <= |w.rec.t| && Covered(Mem(w), k)
    ensures Covered(Mem(RunBody(p, key, w, x).1), k)
    decreases p.body
  {
    if p.body.Inner? {
      assert Mem(w.(started := w.started + [key])) == Mem(w);
      ExecKeepsCovered(p.body.code, key.path, 0, w.(started := w.started + [key]), x, k);
    } else {
      assert Mem(RunBody(p, key, w, x).1) == Mem(w);
    }
  }

  lemma SameResultsCovered(m: Memory, m': Memory, k: Key)
    requires Covered(m, k) && m'.c == m.c && m'.u == m.u
    ensures Covered(m', k)
  {
    var a :| At(m, a).result.Some? && a.path <= k.path;
    assert At(m', a).result == At(m, a).result;
  }

  /** Bodies started from `w` to `w'` belong to different steps, none of which was covered in `m`. */
  ghost predicate StartsUncovered(m: Memory, path: seq<nat>, i: nat, w: World, w': World) {
    && w.started <= w'.started
    && (forall n | |w.started| <= n < |w'.started| ::
          Below(path, i, w'.started[n]) && !CoveredWithin(m, path, w'.started[n]))
    && (forall n, n' | |w.started| <= n < n' < |w'.started| :: w'.started[n] != w'.started[n'])
  }

  lemma {:induction false} ExecStarts(p: Prog, path: seq<nat>, i: nat, w: World, x: Setup, o: Oracle)
    requires w.cursor <= |w.rec.t| && !x.probe
    requires Ok(p, path, i, Mem(w), o, x.defaultRetry, w.rec.t[w.cursor..])
    requires Extends(o, Exec(p, path, i, w, x).1.first)
    ensures StartsUncovered(Mem(w), path, i, w, Exec(p, path, i, w, x).1)
    decreases p, 2
  {
    var r := Perform(p, path, i, w, x);
    PerformFrame(p, path, i, w, x);
    if r.Continues? && !p.Return? {
      ExecFrame(Next(p, r.result), path, i + 1, r.w, x);
      PerformOk(p, path, i, w, x, o);
      PerformStarts(p, path, i, w, x, o);
      ThenRestOk(p, path, i, w, r, o, x.defaultRetry);
      ExecStarts(Next(p, r.result), path, i + 1, r.w, x, o);
      LaterStarts(Mem(w), path, i, w, r.w, Exec(Next(p, r.result), path, i + 1, r.w, x).1);
    } else {
      PerformStarts(p, path, i, w, x, o);
      SplitBelow(path, i);
    }
  }

  /** The step at child `i` and the steps after it start different bodies. */
  lemma LaterStarts(m: Memory, path: seq<nat>, i: nat, w: World, w1: World, w': World)
    requires w.started <= w1.started && SameBelow(m, Mem(w1), path, i + 1)
    requires StartsUncovered(Mem(w1), path, i + 1, w1, w')
    requires StartsUncovered(m, path, i, w, w1)
    requires forall n | |w.started| <= n < |w1.started| :: !Below(path, i + 1, w1.started[n])
    ensures StartsUncovered(m, path, i, w, w')
  {
    forall n | |w1.started| <= n < |w'.started| ensures !CoveredWithin(m, path, w'.started[n]) {
      var k := w'.started[n];
      forall a: Key | path < a.path <= k.path ensures At(m, a) == At(Mem(w1), a) {
        assert a.path[|path|] == k.path[|path|];
      }
    }
    forall n | |w.started| <= n < |w1.started| ensures w'.started[n] == w1.started[n] {}
  }

  lemma {:induction false} PerformStarts(p: Prog, path: seq<nat>, i: nat, w: World, x: Setup, o: Oracle)
    requires w.cursor <= |w.rec.t| && !x.probe
    requires Ok(p, path, i, Mem(w), o, x.defaultRetry, w.rec.t[w.cursor..])
    requires Extends(o, Perform(p, path, i, w, x).w.first)
    ensures var w' := Perform(p, path, i, w, x).w;
            && StartsUncovered(Mem(w), path, i, w, w')
            && forall n | |w.started| <= n < |w'.started| :: !Below(path, i + 1, w'.started[n])
    decreases p, 1
  {
    PerformWorks(p, path, i, w, x);
    if Works(p, path, i, w, x) {
      WorksOk(p, path, i, w, x, o);
      if p.Step? {
        ProduceStarts(p, path, i, EnteredBy(p, path, i, w, x), x.schedule(w.pos).now, x, o);
      }
    }
  }

  lemma {:induction false} ProduceStarts(p: Prog, path: seq<nat>, i: nat, w: World, now: int, x: Setup, o: Oracle)
    requires p.Step? && 0 < w.cursor <= |w.rec.t| && !x.probe
    requires Ok(p, path, i, Mem(w), o, x.defaultRetry, w.rec.t[w.cursor - 1..])
    requires At(Mem(w), KeyOf(p, path, i)).result.None?
    requires Extends(o, Produce(p, KeyOf(p, path, i), w, now, x).w.first)
    ensures var w' := Produce(p, KeyOf(p, path, i), w, now, x).w;
            && StartsUncovered(Mem(w), path, i, w, w')
            && forall n | |w.started| <= n < |w'.started| :: !Below(path, i + 1, w'.started[n])
    decreases p, 0
  {
    var key, w' := KeyOf(p, path, i), Produce(p, KeyOf(p, path, i), w, now, x).w;
    var w1 := w.(started := w.started + [key]);
    OwnStart(p, path, i, Mem(w), o, x.defaultRetry, w.rec.t[w.cursor - 1..]);
    if p.body.Inner? {
      assert w.rec.t[w.cursor - 1..][1..] == w1.rec.t[w1.cursor..];
      var r := Exec(p.body.code, path + [i], 0, w1, x);
      assert r.1 == RunBody(p, key, w, x).1;
      assert w'.first == r.1.first && w'.started == r.1.started;
      ExecStarts(p.body.code, path + [i], 0, w1, x, o);
      InnerStarts(Mem(w), path, i, key, w, r.1);
    } else {
      SplitBelow(path, i);
      assert w'.started == w1.started;
    }
  }

  lemma OwnStart(p: Prog, path: seq<nat>, i: nat, m: Memory, o: Oracle, d: RetryOptions, tail: seq<Key>)
    requires !p.Return? && tail != [] && Ok(p, path, i, m, o, d, tail) && At(m, KeyOf(p, path, i)).result.None?
    ensures forall a: Key | a.path == path + [i] :: At(m, a).result.None?
    ensures !CoveredWithin(m, path, KeyOf(p, path, i))
  {
    forall a: Key | path < a.path <= path + [i] ensures At(m, a).result.None? {
      assert a.path == path + [i];
    }
  }

  lemma InnerStarts(m: Memory, path: seq<nat>, i: nat, key: Key, w: World, w': World)
    requires key.path == path + [i] && !CoveredWithin(m, path, key)
    requires forall a: Key | a.path == path + [i] :: At(m, a).result.None?
    requires StartsUncovered(m, path + [i], 0, w.(started := w.started + [key]), w')
    ensures StartsUncovered(m, path, i, w, w')
    ensures forall n | |w.started| <= n < |w'.started| :: !Below(path, i + 1, w'.started[n])
  {
    SplitBelow(path, i);
    assert w'.started[|w.started|] == key;
    forall n | |w.started| < n < |w'.started|
      ensures !CoveredWithin(m, path, w'.started[n]) && Inside(path + [i], w'.started[n])
    {
      var k := w'.started[n];
      forall a: Key | path < a.path <= k.path ensures At(m, a).result.None? {
        if |a.path| == |path| + 1 {
          assert a.path == path + [i];
        } else {
          assert path + [i] < a.path;
        }
      }
    }
  }
}
