/** What an agreeing record looks like: trace, cache and pending signals. */
module Invariants {
  import opened Values
  import opened Keys
  import opened RetryPolicy
  import opened JobRecord
  import opened Program
  import opened Frames
  import opened Replay

  /** `k`, or an ancestor of it inside the frame at `path`, holds a result. */
  ghost predicate CoveredWithin(m: Memory, path: seq<nat>, k: Key) {
    exists a :: At(m, a).result.Some? && path < a.path <= k.path
  }

  ghost predicate Covered(m: Memory, k: Key) {
    exists a :: At(m, a).result.Some? && a.path <= k.path
  }

  /** The trace from a closed step on: its key, its block, and a rest that agrees with what follows. */
  lemma ClosedHead(p: Prog, path: seq<nat>, i: nat, m: Memory, o: Oracle, d: RetryOptions, tail: seq<Key>)
    requires !p.Return? && Ok(p, path, i, m, o, d, tail) && At(m, KeyOf(p, path, i)).result.Some?
    ensures var block := Block(p, path, i, o);
            && 1 + |block| <= |tail| && tail[0] == KeyOf(p, path, i) && tail[1..1 + |block|] == block
            && At(m, KeyOf(p, path, i)).result == Some(ResultOf(p, path, i, o))
            && Ok(Next(p, ResultOf(p, path, i, o)), path, i + 1, m, o, d, tail[1 + |block|..])
  {
    assert tail != [] by { assert Below(path, i, KeyOf(p, path, i)); }
    assert tail[1..1 + |Block(p, path, i, o)|] == tail[1..][..|Block(p, path, i, o)|];
  }

  /** A replay that finds a step holding its result moves the cursor past the step's block. */
  lemma ClosedIsSkipped(
    p: Prog, path: seq<nat>, i: nat, m: Memory, o: Oracle, d: RetryOptions, t: seq<Key>, cursor: nat)
    requires !p.Return? && cursor <= |t| && Ok(p, path, i, m, o, d, t[cursor..])
    requires At(m, KeyOf(p, path, i)).result.Some?
    ensures var end := cursor + 1 + |Block(p, path, i, o)|;
            && end <= |t| && t[cursor] == KeyOf(p, path, i)
            && At(m, KeyOf(p, path, i)).result == Some(ResultOf(p, path, i, o))
            && Skip(t, path + [i], cursor + 1) == end
  {
    ClosedHead(p, path, i, m, o, d, t[cursor..]);
    SkipOk(p, path, i, m, o, d, t, cursor);
  }

  lemma ExtendPrefix(head: seq<Key>, a: seq<Key>, b: seq<Key>)
    requires a <= b
    ensures head + a <= head + b
  {}

  /** The trace is a prefix of the preorder key list of the whole execution. */
  lemma {:induction false} TraceIsPrefix(
    p: Prog, path: seq<nat>, i: nat, m: Memory, o: Oracle, d: RetryOptions, tail: seq<Key>)
    requires Ok(p, path, i, m, o, d, tail)
    ensures tail <= Preorder(p, path, i, o)
    decreases p
  {
    if !p.Return? && tail != [] {
      var key, q := KeyOf(p, path, i), Next(p, ResultOf(p, path, i, o));
      var later := Preorder(q, path, i + 1, o);
      if At(m, key).result.Some? {
        var rest := SplitClosed(p, path, i, m, o, d, tail);
        TraceIsPrefix(q, path, i + 1, m, o, d, rest);
        ExtendPrefix([key] + Block(p, path, i, o), rest, later);
      } else if p.Step? && p.body.Inner? {
        TraceIsPrefix(p.body.code, path + [i], 0, m, o, d, tail[1..]);
        ExtendPrefix([key], tail[1..], Block(p, path, i, o));
        assert tail == [key] + tail[1..];
      }
    }
  }

  lemma SplitClosed(p: Prog, path: seq<nat>, i: nat, m: Memory, o: Oracle, d: RetryOptions, tail: seq<Key>)
    returns (rest: seq<Key>)
    requires !p.Return? && Ok(p, path, i, m, o, d, tail) && At(m, KeyOf(p, path, i)).result.Some?
    ensures tail == [KeyOf(p, path, i)] + Block(p, path, i, o) + rest
    ensures Ok(Next(p, ResultOf(p, path, i, o)), path, i + 1, m, o, d, rest)
  {
    ClosedHead(p, path, i, m, o, d, tail);
    var end := 1 + |Block(p, path, i, o)|;
    rest := tail[end..];
    assert tail == [tail[0]] + tail[1..end] + rest;
  }

  /** A finished program has traced its whole preorder. */
  lemma {:induction false} FinishedTrace(
    p: Prog, path: seq<nat>, i: nat, m: Memory, o: Oracle, d: RetryOptions, tail: seq<Key>)
    requires Ok(p, path, i, m, o, d, tail) && Finished(p, path, i, m, o)
    ensures tail == Preorder(p, path, i, o) && m.ps == map[]
    decreases p
  {
    if !p.Return? {
      var rest := SplitClosed(p, path, i, m, o, d, tail);
      FinishedTrace(Next(p, ResultOf(p, path, i, o)), path, i + 1, m, o, d, rest);
    }
  }

  /** Only traced steps hold results or failure counts. */
  lemma {:induction false} RecordedIsTraced(
    p: Prog, path: seq<nat>, i: nat, m: Memory, o: Oracle, d: RetryOptions, tail: seq<Key>, k: Key)
    requires Ok(p, path, i, m, o, d, tail)
    requires Below(path, i, k) && (At(m, k).result.Some? || At(m, k).failures > 0)
    ensures k in tail
    decreases p
  {
    SplitBelow(path, i);
    assert !p.Return? && tail != [];
    var key, block := KeyOf(p, path, i), Block(p, path, i, o);
    if k != key {
      if At(m, key).result.Some? {
        RecordedIsTraced(Next(p, ResultOf(p, path, i, o)), path, i + 1, m, o, d, tail[1 + |block|..], k);
      } else {
        RecordedIsTraced(p.body.code, path + [i], 0, m, o, d, tail[1..], k);
      }
    }
  }

  /** Nothing recorded, result or failure count, lies under a step that holds a result. */
  lemma {:induction false} ResultsDoNotNest(
    p: Prog, path: seq<nat>, i: nat, m: Memory, o: Oracle, d: RetryOptions, tail: seq<Key>, k: Key, k': Key)
    requires Ok(p, path, i, m, o, d, tail)
    requires Below(path, i, k) && At(m, k).result.Some?
    requires Below(path, i, k') && (At(m, k').result.Some? || At(m, k').failures > 0)
    ensures !Inside(k.path, k')
    decreases p
  {
    SplitBelow(path, i);
    assert !p.Return? && tail != [];
    var key, block := KeyOf(p, path, i), Block(p, path, i, o);
    if At(m, key).result.Some? {
      if Below(path, i + 1, k) && Below(path, i + 1, k') {
        ResultsDoNotNest(Next(p, ResultOf(p, path, i, o)), path, i + 1, m, o, d, tail[1 + |block|..], k, k');
      } else if k.path == path + [i] {
        assert k == key;
        assert !Inside(k.path, k');
      } else {
        assert forall q: Key | Inside(k.path, q) :: q.path[|path|] == k.path[|path|];
      }
    } else if k' != key {
      ResultsDoNotNest(p.body.code, path + [i], 0, m, o, d, tail[1..], k, k');
    }
  }

  /** A recorded outside result is the first one that was ever recorded. */
  lemma {:induction false} ResultIsFirst(
    p: Prog, path: seq<nat>, i: nat, m: Memory, o: Oracle, d: RetryOptions, tail: seq<Key>, k: Key)
    requires Ok(p, path, i, m, o, d, tail)
    requires Below(path, i, k) && At(m, k).result.Some? && At(m, k).first.Some?
    ensures At(m, k).result == At(m, k).first
    decreases p
  {
    SplitBelow(path, i);
    assert !p.Return? && tail != [];
    var key, block := KeyOf(p, path, i), Block(p, path, i, o);
    if At(m, key).result.Some? {
      if Below(path, i + 1, k) {
        ResultIsFirst(Next(p, ResultOf(p, path, i, o)), path, i + 1, m, o, d, tail[1 + |block|..], k);
      } else {
        assert k == key;
      }
    } else {
      ResultIsFirst(p.body.code, path + [i], 0, m, o, d, tail[1..], k);
    }
  }

  /** Two records that agree with the same evaluation hold the same result for a step, if both hold one. */
  lemma {:induction false} ResultIsDetermined(
    p: Prog, path: seq<nat>, i: nat, m: Memory, m': Memory, o: Oracle, d: RetryOptions, tail: seq<Key>, tail': seq<Key>,
    k: Key)
    requires Ok(p, path, i, m, o, d, tail) && Ok(p, path, i, m', o, d, tail')
    requires Below(path, i, k) && At(m, k).result.Some? && At(m', k).result.Some?
    ensures At(m', k).result == At(m, k).result
    decreases p
  {
    SplitBelow(path, i);
    assert !p.Return? && tail != [] && tail' != [];
    var key, block := KeyOf(p, path, i), Block(p, path, i, o);
    if Below(path, i + 1, k) {
      assert At(m, key).result.Some? && At(m', key).result.Some?;
      ResultIsDetermined(
        Next(p, ResultOf(p, path, i, o)), path, i + 1, m, m', o, d, tail[1 + |block|..], tail'[1 + |block|..], k);
    } else if k.path != path + [i] {
      ResultIsDetermined(p.body.code, path + [i], 0, m, m', o, d, tail[1..], tail'[1..], k);
    } else {
      assert k == key;
    }
  }

  /** What was once recorded stays covered: by its own result or by an ancestor's. */
  lemma {:induction false} FirstIsCovered(
    p: Prog, path: seq<nat>, i: nat, m: Memory, o: Oracle, d: RetryOptions, tail: seq<Key>, k: Key)
    requires Ok(p, path, i, m, o, d, tail)
    requires Below(path, i, k) && At(m, k).first.Some?
    ensures CoveredWithin(m, path, k)
    decreases p
  {
    SplitBelow(path, i);
    assert !p.Return? && tail != [];
    var key, block := KeyOf(p, path, i), Block(p, path, i, o);
    if At(m, key).result.Some? {
      if Below(path, i + 1, k) {
        FirstIsCovered(Next(p, ResultOf(p, path, i, o)), path, i + 1, m, o, d, tail[1 + |block|..], k);
      } else {
        assert key.path <= k.path;
      }
    } else {
      FirstIsCovered(p.body.code, path + [i], 0, m, o, d, tail[1..], k);
      var a :| At(m, a).result.Some? && path + [i] < a.path <= k.path;
      assert path < a.path;
    }
  }

  /** At most one signal is awaited; its wait is the last traced step, and neither it nor an ancestor has a result. */
  lemma {:induction false} PendingIsLast(
    p: Prog, path: seq<nat>, i: nat, m: Memory, o: Oracle, d: RetryOptions, tail: seq<Key>, signal: string)
    requires Ok(p, path, i, m, o, d, tail) && signal in m.ps
    ensures m.ps.Keys == {signal} && tail != []
    ensures var key := m.ps[signal].stepKey;
            && key == tail[|tail| - 1] && key.name == SignalStepName(signal)
            && At(m, key).result.None? && Below(path, i, key) && !CoveredWithin(m, path, key)
            && Fresh(m, key.path, 0)
    decreases p
  {
    var key := KeyOf(p, path, i);
    if At(m, key).result.Some? {
      SplitBelow(path, i);
      var rest := tail[1 + |Block(p, path, i, o)|..];
      PendingIsLast(Next(p, ResultOf(p, path, i, o)), path, i + 1, m, o, d, rest, signal);
    } else if p.Step? {
      SplitBelow(path, i);
      PendingIsLast(p.body.code, path + [i], 0, m, o, d, tail[1..], signal);
      UncoveredFurtherUp(m, path, i, key, m.ps[signal].stepKey);
    } else {
      forall a: Key | path < a.path <= key.path ensures At(m, a).result.None? {
        assert a.path == key.path;
      }
    }
  }

  lemma UncoveredFurtherUp(m: Memory, path: seq<nat>, i: nat, key: Key, k: Key)
    requires key.path == path + [i] && Alone(m, key) && At(m, key).result.None?
    requires Inside(path + [i], k) && !CoveredWithin(m, path + [i], k)
    ensures !CoveredWithin(m, path, k)
  {
    forall a: Key | path < a.path <= k.path ensures At(m, a).result.None? {
      if |a.path| == |path| + 1 {
        assert a.path == path + [i];
      } else {
        assert path + [i] < a.path;
      }
    }
  }

  lemma StaysClosed(p: Prog, path: seq<nat>, i: nat, m: Memory, m': Memory, o: Oracle, later: Key)
    requires !p.Return? && Closed(p, path, i, m, o) && Alone(m, KeyOf(p, path, i)) && Below(path, i + 1, later)
    requires forall k :: k != later ==> At(m', k) == At(m, k)
    ensures Closed(p, path, i, m', o) && Alone(m', KeyOf(p, path, i))
  {
    SplitBelow(path, i);
  }

  /** A pending wait that is given a result fits in with everything recorded around it. */
  lemma {:induction false} DeliverOk(
    p: Prog, path: seq<nat>, i: nat, m: Memory, m': Memory, o: Oracle, d: RetryOptions, tail: seq<Key>, signal: string)
    requires Ok(p, path, i, m, o, d, tail) && signal in m.ps && m'.ps == map[]
    requires var key := m.ps[signal].stepKey;
             && (forall k :: k != key ==> At(m', k) == At(m, k))
             && At(m', key) == Cell(Some(o(key)), 0, Some(o(key)))
    ensures Ok(p, path, i, m', o, d, tail)
    decreases p
  {
    SplitBelow(path, i);
    PendingIsLast(p, path, i, m, o, d, tail, signal);
    var key := KeyOf(p, path, i);
    if At(m, key).result.Some? {
      var q, rest := Next(p, ResultOf(p, path, i, o)), tail[1 + |Block(p, path, i, o)|..];
      PendingIsLast(q, path, i + 1, m, o, d, rest, signal);
      DeliverOk(q, path, i + 1, m, m', o, d, rest, signal);
      StaysClosed(p, path, i, m, m', o, m.ps[signal].stepKey);
    } else if p.Step? {
      PendingIsLast(p.body.code, path + [i], 0, m, o, d, tail[1..], signal);
      DeliverOk(p.body.code, path + [i], 0, m, m', o, d, tail[1..], signal);
    } else {
      assert Closed(p, path, i, m', o);
    }
  }

  /**
   * Running a finished program again is pure replay, in a probe as in a run: nothing is recorded, no body
   * starts, and unless user code fails the value is the evaluator's and the trace is consumed to its end.
   */
  lemma {:induction false} FinishedReplays(p: Prog, path: seq<nat>, i: nat, w: World, x: Setup, o: Oracle)
    requires Replayable(p, path, i, w, o, x.defaultRetry)
    ensures PureReplay(p, path, i, w, x, Exec(p, path, i, w, x), o)
    decreases p
  {
    if x.schedule(w.pos).fault.None? && !p.Return? {
      var end := ClosedStepReplays(p, path, i, w, x, o);
      FinishedReplays(Next(p, ResultOf(p, path, i, o)), path, i + 1, Ticked(w).(cursor := end), x, o);
      PureReplayLater(p, path, i, w, x, o, end);
    } else if p.Return? {
      assert w.rec.t[w.cursor..] == [];
    }
  }

  /** The record is that of `p` run to its end. */
  ghost predicate Replayable(p: Prog, path: seq<nat>, i: nat, w: World, o: Oracle, d: RetryOptions) {
    w.cursor <= |w.rec.t| && Ok(p, path, i, Mem(w), o, d, w.rec.t[w.cursor..]) && Finished(p, path, i, Mem(w), o)
  }

  lemma ClosedStepReplays(p: Prog, path: seq<nat>, i: nat, w: World, x: Setup, o: Oracle) returns (end: nat)
    requires Replayable(p, path, i, w, o, x.defaultRetry) && x.schedule(w.pos).fault.None? && !p.Return?
    ensures end <= |w.rec.t|
    ensures Perform(p, path, i, w, x) == Continues(ResultOf(p, path, i, o), Ticked(w).(cursor := end))
    ensures Replayable(
              Next(p, ResultOf(p, path, i, o)), path, i + 1, Ticked(w).(cursor := end), o, x.defaultRetry)
  {
    end := w.cursor + 1 + |Block(p, path, i, o)|;
    ClosedIsSkipped(p, path, i, Mem(w), o, x.defaultRetry, w.rec.t, w.cursor);
    PerformContinues(p, path, i, w, x, ResultOf(p, path, i, o), end);
    assert w.rec.t[w.cursor..][1 + |Block(p, path, i, o)|..] == w.rec.t[end..];
  }

  /** Nothing but the cursor and the schedule moves; only a fault of the schedule can stop it. */
  ghost predicate PureReplay(
    p: Prog, path: seq<nat>, i: nat, w: World, x: Setup, r: (Outcome, World), o: Oracle)
  {
    && r.1 == w.(cursor := r.1.cursor, pos := r.1.pos)
    && (r.0.Returned? ==> r.0.value == Evaluate(p, path, i, o) && r.1.cursor == |w.rec.t|)
    && (r.0.Raised? ==> r.1.pos > 0 && r.0.failure.Fault? && x.schedule(r.1.pos - 1).fault.Some?)
  }

  lemma PureReplayLater(p: Prog, path: seq<nat>, i: nat, w: World, x: Setup, o: Oracle, end: nat)
    requires !p.Return? && w.cursor <= |w.rec.t| && end <= |w.rec.t|
    requires Perform(p, path, i, w, x) == Continues(ResultOf(p, path, i, o), Ticked(w).(cursor := end))
    requires var q, w1 := Next(p, ResultOf(p, path, i, o)), Ticked(w).(cursor := end);
             PureReplay(q, path, i + 1, w1, x, Exec(q, path, i + 1, w1, x), o)
    ensures PureReplay(p, path, i, w, x, Exec(p, path, i, w, x), o)
  {
    var q, w1 := Next(p, ResultOf(p, path, i, o)), Ticked(w).(cursor := end);
    assert Exec(p, path, i, w, x) == Exec(q, path, i + 1, w1, x);
  }

  lemma PerformContinues(p: Prog, path: seq<nat>, i: nat, w: World, x: Setup, result: Value, end: nat)
    requires w.cursor < |w.rec.t| && x.schedule(w.pos).fault.None? && !p.Return?
    requires w.rec.t[w.cursor] == KeyOf(p, path, i) && At(Mem(w), KeyOf(p, path, i)).result == Some(result)
    requires Skip(w.rec.t, path + [i], w.cursor + 1) == end
    ensures Perform(p, path, i, w, x) == Continues(result, Ticked(w).(cursor := end))
  {
    PerformSkips(p, path, i, w, x);
  }

  /** A recorded step that is the next traced one is passed over with its subtree, in a probe as in a run. */
  lemma PerformSkips(p: Prog, path: seq<nat>, i: nat, w: World, x: Setup)
    requires w.cursor < |w.rec.t| && x.schedule(w.pos).fault.None? && !p.Return?
    requires w.rec.t[w.cursor] == KeyOf(p, path, i) && HasStep(w.rec, KeyOf(p, path, i))
    ensures Perform(p, path, i, w, x)
         == Continues(GetStepResult(w.rec, KeyOf(p, path, i)),
                      Ticked(w).(cursor := Skip(w.rec.t, path + [i], w.cursor + 1)))
  {
    assert EnterStep(Ticked(w), KeyOf(p, path, i), x.probe) == Entered(Ticked(w).(cursor := w.cursor + 1));
  }
}
