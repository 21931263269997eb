/** Replay refines direct evaluation: the invariant of the record, and what every execution keeps of it. */
module Replay {
  import opened Values
  import opened Keys
  import opened RetryPolicy
  import opened JobRecord
  import opened Program
  import opened Frames

  ghost predicate Fresh(m: Memory, path: seq<nat>, i: nat) {
    forall k :: Below(path, i, k) ==> At(m, k) == EMPTY
  }

  /** No other name is in use at this path. */
  ghost predicate Alone(m: Memory, key: Key) {
    forall k: Key :: k.path == key.path && k != key ==> At(m, k) == EMPTY
  }

  /** The results and counters inside `path` are gone. */
  ghost predicate Superseded(m: Memory, path: seq<nat>) {
    forall k :: Inside(path, k) ==> At(m, k).result.None? && At(m, k).failures == 0
  }

  /**
   * The record agrees with evaluating `p` under `o`: `tail`, the rest of the trace, is what a run of `p`
   * enters up to some point; up to there every step holds its result, and beyond it nothing is recorded.
   */
  ghost predicate Ok(p: Prog, path: seq<nat>, i: nat, m: Memory, o: Oracle, d: RetryOptions, tail: seq<Key>)
    decreases p, 2
  {
    if p.Return? || tail == [] then tail == [] && Fresh(m, path, i) && m.ps == map[]
    else
      var key := KeyOf(p, path, i);
      && tail[0] == key && Alone(m, key)
      && if At(m, key).result.Some? then
           Closed(p, path, i, m, o) && Block(p, path, i, o) <= tail[1..]
           && Ok(Next(p, ResultOf(p, path, i, o)), path, i + 1, m, o, d, tail[1 + |Block(p, path, i, o)|..])
         else
           Fresh(m, path, i + 1) && At(m, key).first.None? && Open(p, path, i, m, o, d, tail)
  }

  /** The step `p` begins with is done and holds the result evaluation gives it. */
  ghost predicate Closed(p: Prog, path: seq<nat>, i: nat, m: Memory, o: Oracle)
    requires !p.Return?
  {
    var cell := At(m, KeyOf(p, path, i));
    && cell.result == Some(ResultOf(p, path, i, o)) && cell.failures == 0
    && cell.first == (if p.Wait? || p.body.External? then cell.result else None)
    && Superseded(m, path + [i])
  }

  /** The step `p` begins with is entered but has no result. */
  ghost predicate Open(p: Prog, path: seq<nat>, i: nat, m: Memory, o: Oracle, d: RetryOptions, tail: seq<Key>)
    requires !p.Return? && tail != []
    decreases p, 1
  {
    var key := KeyOf(p, path, i);
    if p.Wait? then |tail| == 1 && Fresh(m, path + [i], 0) && At(m, key).failures == 0 && OnlyWaitsFor(m, p.signal, key)
    else
      && At(m, key).failures < Resolve(p.retry, d).maxAttempts
      && match p.body
         case External => |tail| == 1 && Fresh(m, path + [i], 0) && m.ps == map[]
         case Inner(code) => Ok(code, path + [i], 0, m, o, d, tail[1..])
  }

  predicate OnlyWaitsFor(m: Memory, signal: string, key: Key) {
    m.ps == map[] || (m.ps.Keys == {signal} && m.ps[signal].stepKey == key)
  }

  /** Every step of `p` holds its result. */
  ghost predicate Finished(p: Prog, path: seq<nat>, i: nat, m: Memory, o: Oracle) {
    p.Return?
    || (At(m, KeyOf(p, path, i)).result.Some? && Finished(Next(p, ResultOf(p, path, i, o)), path, i + 1, m, o))
  }

  /** `Ok` looks at nothing but the cells of its own part of the tree and the pending signals. */
  lemma {:induction false} OkFrame(
    p: Prog, path: seq<nat>, i: nat, m: Memory, m': Memory, o: Oracle, d: RetryOptions, tail: seq<Key>)
    requires Ok(p, path, i, m, o, d, tail)
    requires SameBelow(m, m', path, i) && m'.ps == m.ps
    ensures Ok(p, path, i, m', o, d, tail)
    decreases p
  {
    SplitBelow(path, i);
    if !p.Return? && tail != [] {
      var key := KeyOf(p, path, i);
      if At(m, key).result.Some? {
        OkFrame(Next(p, ResultOf(p, path, i, o)), path, i + 1, m, m', o, d, tail[1 + |Block(p, path, i, o)|..]);
      } else if p.Step? && p.body.Inner? {
        OkFrame(p.body.code, path + [i], 0, m, m', o, d, tail[1..]);
      }
    }
  }

  lemma {:induction false} PreorderIsBelow(p: Prog, path: seq<nat>, i: nat, o: Oracle)
    ensures forall k | k in Preorder(p, path, i, o) :: Below(path, i, k)
    ensures !p.Return? ==> forall k | k in Block(p, path, i, o) :: Inside(path + [i], k)
    decreases p
  {
    if !p.Return? {
      SplitBelow(path, i);
      PreorderIsBelow(Next(p, ResultOf(p, path, i, o)), path, i + 1, o);
      if p.Step? && p.body.Inner? {
        PreorderIsBelow(p.body.code, path + [i], 0, o);
      }
    }
  }

  /** Skipping runs over exactly the given block when what follows is outside. */
  lemma {:induction false} SkipBlock(t: seq<Key>, path: seq<nat>, cursor: nat, end: nat)
    requires cursor <= end <= |t|
    requires forall j | cursor <= j < end :: Inside(path, t[j])
    requires end < |t| ==> !Inside(path, t[end])
    ensures Skip(t, path, cursor) == end
    decreases end - cursor
  {
    if cursor < end {
      SkipBlock(t, path, cursor + 1, end);
    }
  }

  /** Entering the next step never conflicts. */
  lemma EnterOk(p: Prog, path: seq<nat>, i: nat, w: World, o: Oracle, d: RetryOptions)
    requires !p.Return? && w.cursor <= |w.rec.t|
    requires Ok(p, path, i, Mem(w), o, d, w.rec.t[w.cursor..])
    ensures var entry := EnterStep(w, KeyOf(p, path, i), false);
            && entry.Entered? && Mem(entry.w) == Mem(w)
            && entry.w.cursor == w.cursor + 1 && w.rec.t <= entry.w.rec.t
            && entry.w.rec.t[w.cursor] == KeyOf(p, path, i)
            && Ok(p, path, i, Mem(entry.w), o, d, entry.w.rec.t[entry.w.cursor - 1..])
  {
    var key := KeyOf(p, path, i);
    if w.cursor == |w.rec.t| {
      assert (w.rec.t + [key])[w.cursor..] == [key];
      SplitBelow(path, i);
    } else {
      assert w.rec.t[w.cursor..][0] == w.rec.t[w.cursor];
    }
  }

  /** A step with a result is skipped together with exactly its own block of the trace. */
  lemma SkipOk(p: Prog, path: seq<nat>, i: nat, m: Memory, o: Oracle, d: RetryOptions, t: seq<Key>, cursor: nat)
    requires !p.Return? && cursor < |t| && Ok(p, path, i, m, o, d, t[cursor..])
    requires At(m, KeyOf(p, path, i)).result.Some?
    ensures Skip(t, path + [i], cursor + 1) == cursor + 1 + |Block(p, path, i, o)|
  {
    var block := Block(p, path, i, o);
    var q := Next(p, ResultOf(p, path, i, o));
    var end := cursor + 1 + |block|;
    PreorderIsBelow(p, path, i, o);
    assert t[cursor..][1..] == t[cursor + 1..];
    forall j | cursor + 1 <= j < end ensures Inside(path + [i], t[j]) {
      assert t[j] == block[j - cursor - 1];
    }
    assert t[cursor..][1 + |block|..] == t[end..];
    if end < |t| {
      assert !q.Return? && t[end] == KeyOf(q, path, i + 1);
      assert t[end].path[|path|] == i + 1;
    }
    SkipBlock(t, path + [i], cursor + 1, end);
  }

  /** Neither a replay conflict nor a nondeterminism error. */
  predicate Honest(failure: Failure) {
    !failure.ReplayConflict? && !failure.NonDeterminism?
  }

  /** After an operation that continues, the rest of the trace agrees with the rest of the program. */
  lemma ThenRestOk(p: Prog, path: seq<nat>, i: nat, w: World, r: Progress, o: Oracle, d: RetryOptions)
    requires w.cursor <= |w.rec.t| && r.Continues? && !p.Return? && PerformedOk(p, path, i, w, r, o, d)
    ensures r.w.cursor <= |r.w.rec.t| && r.result == ResultOf(p, path, i, o)
    ensures Ok(Next(p, r.result), path, i + 1, Mem(r.w), o, d, r.w.rec.t[r.w.cursor..])
  {
    var n := |Block(p, path, i, o)|;
    assert r.w.rec.t[w.cursor..][1 + n..] == r.w.rec.t[r.w.cursor..];
    assert r.w.rec.t[w.cursor..] != [] by { SplitBelow(path, i); }
  }

  /** What holds after an entered step gave its result, or failed to get one. */
  ghost predicate ProducedOk(p: Prog, path: seq<nat>, i: nat, w: World, r: Progress, o: Oracle, d: RetryOptions)
    requires !p.Return? && 0 < w.cursor
  {
    && w.cursor <= |r.w.rec.t|
    && Ok(p, path, i, Mem(r.w), o, d, r.w.rec.t[w.cursor - 1..])
    && (r.Stops? ==> Honest(r.failure))
    && (r.Continues? ==>
          && At(Mem(r.w), KeyOf(p, path, i)).result.Some? && r.result == ResultOf(p, path, i, o)
          && r.w.cursor == w.cursor + |Block(p, path, i, o)| <= |r.w.rec.t|)
  }

  lemma SkippedOk(p: Prog, path: seq<nat>, i: nat, w: World, o: Oracle, d: RetryOptions)
    requires !p.Return? && 0 < w.cursor <= |w.rec.t| && HasStep(w.rec, KeyOf(p, path, i))
    requires Ok(p, path, i, Mem(w), o, d, w.rec.t[w.cursor - 1..])
    ensures var skipped := w.(cursor := Skip(w.rec.t, path + [i], w.cursor));
            ProducedOk(p, path, i, w, Continues(GetStepResult(w.rec, KeyOf(p, path, i)), skipped), o, d)
  {
    assert At(Mem(w), KeyOf(p, path, i)).result == Some(GetStepResult(w.rec, KeyOf(p, path, i)));
    SkipOk(p, path, i, Mem(w), o, d, w.rec.t, w.cursor - 1);
  }

  /** One operation keeps the invariant, raises no false alarm and continues with the evaluator's result. */
  lemma {:induction false} PerformOk(p: Prog, path: seq<nat>, i: nat, w: World, x: Setup, o: Oracle)
    requires w.cursor <= |w.rec.t| && !x.probe
    requires Ok(p, path, i, Mem(w), o, x.defaultRetry, w.rec.t[w.cursor..])
    requires Extends(o, Perform(p, path, i, w, x).w.first)
    ensures PerformedOk(p, path, i, w, Perform(p, path, i, w, x), o, x.defaultRetry)
    decreases p, 1
  {
    if x.schedule(w.pos).fault.Some? || p.Return? {
      IdleOk(p, path, i, w, Perform(p, path, i, w, x), o, x.defaultRetry);
    } else if Works(p, path, i, w, x) {
      var entered := EnteredBy(p, path, i, w, x);
      PerformWorks(p, path, i, w, x);
      WorksOk(p, path, i, w, x, o);
      ProduceOk(p, path, i, entered, x.schedule(w.pos).now, x, o);
      PerformedOnceProduced(p, path, i, w, entered, Perform(p, path, i, w, x), o, x.defaultRetry);
    } else {
      ReadOk(p, path, i, w, x, o);
    }
  }

  /** What holds when an entered step has to produce its result. */
  lemma WorksOk(p: Prog, path: seq<nat>, i: nat, w: World, x: Setup, o: Oracle)
    requires w.cursor <= |w.rec.t| && !x.probe && Ok(p, path, i, Mem(w), o, x.defaultRetry, w.rec.t[w.cursor..])
    requires Works(p, path, i, w, x)
    ensures var entered := EnteredBy(p, path, i, w, x);
            && entered.cursor == w.cursor + 1 <= |entered.rec.t|
            && At(Mem(entered), KeyOf(p, path, i)).result.None?
            && Ok(p, path, i, Mem(entered), o, x.defaultRetry, entered.rec.t[entered.cursor - 1..])
  {
    EnterOk(p, path, i, Ticked(w), o, x.defaultRetry);
  }

  /** A step whose result is read rather than produced. */
  lemma ReadOk(p: Prog, path: seq<nat>, i: nat, w: World, x: Setup, o: Oracle)
    requires w.cursor <= |w.rec.t| && !x.probe && Ok(p, path, i, Mem(w), o, x.defaultRetry, w.rec.t[w.cursor..])
    requires x.schedule(w.pos).fault.None? && !p.Return? && !Works(p, path, i, w, x)
    ensures PerformedOk(p, path, i, w, Perform(p, path, i, w, x), o, x.defaultRetry)
  {
    var entered, key := EnteredBy(p, path, i, w, x), KeyOf(p, path, i);
    EnterOk(p, path, i, Ticked(w), o, x.defaultRetry);
    assert HasStep(entered.rec, key);
    var skipped := entered.(cursor := Skip(entered.rec.t, path + [i], entered.cursor));
    var r := Continues(GetStepResult(entered.rec, key), skipped);
    assert Perform(p, path, i, w, x) == r;
    SkippedOk(p, path, i, entered, o, x.defaultRetry);
    PerformedOnceProduced(p, path, i, w, entered, r, o, x.defaultRetry);
  }

  /** User code failed before the operation, or there is none left. */
  lemma IdleOk(p: Prog, path: seq<nat>, i: nat, w: World, r: Progress, o: Oracle, d: RetryOptions)
    requires w.cursor <= |w.rec.t| && Ok(p, path, i, Mem(w), o, d, w.rec.t[w.cursor..])
    requires r.w == Ticked(w) && (r.Stops? ==> Honest(r.failure)) && (r.Continues? ==> p.Return? && r.result == p.value)
    ensures PerformedOk(p, path, i, w, r, o, d)
  {
    assert Mem(Ticked(w)) == Mem(w);
    if p.Return? {
      assert w.rec.t[w.cursor..] == [];
    }
  }

  lemma PerformedOnceProduced(
    p: Prog, path: seq<nat>, i: nat, w: World, entered: World, r: Progress, o: Oracle, d: RetryOptions)
    requires !p.Return? && entered.cursor == w.cursor + 1 && ProducedOk(p, path, i, entered, r, o, d)
    ensures PerformedOk(p, path, i, w, r, o, d)
  {}

  ghost predicate PerformedOk(p: Prog, path: seq<nat>, i: nat, w: World, r: Progress, o: Oracle, d: RetryOptions) {
    && w.cursor <= |r.w.rec.t|
    && Ok(p, path, i, Mem(r.w), o, d, r.w.rec.t[w.cursor..])
    && (r.Stops? ==> Honest(r.failure))
    && (r.Continues? && !p.Return? ==>
          && At(Mem(r.w), KeyOf(p, path, i)).result.Some? && r.result == ResultOf(p, path, i, o)
          && r.w.cursor == w.cursor + 1 + |Block(p, path, i, o)| <= |r.w.rec.t|)
    && (r.Continues? && p.Return? ==> r.result == p.value && r.w.cursor == w.cursor == |r.w.rec.t|)
  }

  lemma {:induction false} ProduceOk(p: Prog, path: seq<nat>, i: nat, w: World, now: int, x: Setup, o: Oracle)
    requires !p.Return? && 0 < w.cursor <= |w.rec.t| && !x.probe
    requires Ok(p, path, i, Mem(w), o, x.defaultRetry, w.rec.t[w.cursor - 1..])
    requires At(Mem(w), KeyOf(p, path, i)).result.None?
    requires Extends(o, Produce(p, KeyOf(p, path, i), w, now, x).w.first)
    ensures ProducedOk(p, path, i, w, Produce(p, KeyOf(p, path, i), w, now, x), o, x.defaultRetry)
    decreases p, 0
  {
    if p.Wait? {
      AwaitOk(p, path, i, w, now, x, o);
    } else if p.body.External? {
      ExternalOk(p, path, i, w, now, x, o);
    } else {
      InnerOk(p, path, i, w, now, x, o);
    }
  }

  /** An open step that gets its result becomes a closed one. */
  lemma CloseOk(p: Prog, path: seq<nat>, i: nat, w: World, value: Value, o: Oracle, d: RetryOptions)
    requires !p.Return? && value == ResultOf(p, path, i, o)
    requires Alone(Mem(w), KeyOf(p, path, i)) && Fresh(Mem(w), path, i + 1) && At(Mem(w), KeyOf(p, path, i)).first.None?
    ensures var m := Mem(Recorded(w, KeyOf(p, path, i), value, p.Wait? || p.body.External?)).(ps := map[]);
            && Ok(p, path, i, m, o, d, [KeyOf(p, path, i)] + Block(p, path, i, o))
            && At(m, KeyOf(p, path, i)).result == Some(value)
  {
    var key, outside := KeyOf(p, path, i), p.Wait? || p.body.External?;
    RecordedCells(w, key, value, outside, path, i);
    ClosedIsOk(p, path, i, Mem(Recorded(w, key, value, outside)).(ps := map[]), o, d);
  }

  lemma RecordedCells(w: World, key: Key, value: Value, outside: bool, path: seq<nat>, i: nat)
    requires key.path == path + [i] && Alone(Mem(w), key) && Fresh(Mem(w), path, i + 1) && At(Mem(w), key).first.None?
    ensures var m := Mem(Recorded(w, key, value, outside)).(ps := map[]);
            && At(m, key) == Cell(Some(value), 0, if outside then Some(value) else None)
            && Superseded(m, path + [i]) && Fresh(m, path, i + 1) && Alone(m, key)
  {
    SplitBelow(path, i);
    SameCells(Mem(Recorded(w, key, value, outside)), Mem(Recorded(w, key, value, outside)).(ps := map[]));
    forall k { AfterRecorded(w, key, value, outside, k); }
  }

  lemma ClosedIsOk(p: Prog, path: seq<nat>, i: nat, m: Memory, o: Oracle, d: RetryOptions)
    requires !p.Return? && Closed(p, path, i, m, o)
    requires Fresh(m, path, i + 1) && Alone(m, KeyOf(p, path, i)) && m.ps == map[]
    ensures Ok(p, path, i, m, o, d, [KeyOf(p, path, i)] + Block(p, path, i, o))
  {
    var block, q := Block(p, path, i, o), Next(p, ResultOf(p, path, i, o));
    var tail := [KeyOf(p, path, i)] + block;
    assert tail[1..] == block && tail[1 + |block|..] == [];
    assert Ok(q, path, i + 1, m, o, d, []);
  }

  /** The result of an entered step is recorded, with its block traced and nothing awaited. */
  lemma RecordOk(p: Prog, path: seq<nat>, i: nat, w: World, w': World, value: Value, o: Oracle, d: RetryOptions)
    requires !p.Return? && value == ResultOf(p, path, i, o) && 0 < w.cursor <= |w'.rec.t|
    requires Alone(Mem(w'), KeyOf(p, path, i)) && Fresh(Mem(w'), path, i + 1)
    requires At(Mem(w'), KeyOf(p, path, i)).first.None? && w'.rec.ps == map[]
    requires w'.cursor == |w'.rec.t| && w'.rec.t[w.cursor - 1..] == [KeyOf(p, path, i)] + Block(p, path, i, o)
    ensures ProducedOk(p, path, i, w,
              Continues(value, Recorded(w', KeyOf(p, path, i), value, p.Wait? || p.body.External?)), o, d)
  {
    var w'' := Recorded(w', KeyOf(p, path, i), value, p.Wait? || p.body.External?);
    CloseOk(p, path, i, w', value, o, d);
    assert Mem(w'').(ps := map[]) == Mem(w'');
  }

  /** Catching a failure leaves the step open, with a failure more if a retry is asked for. */
  lemma CatchOk(p: Prog, path: seq<nat>, i: nat, w: World, failure: Failure, o: Oracle, d: RetryOptions, tail: seq<Key>)
    requires p.Step? && tail != [] && Ok(p, path, i, Mem(w), o, d, tail) && At(Mem(w), KeyOf(p, path, i)).result.None?
    requires Honest(failure)
    ensures var caught := Caught(w, KeyOf(p, path, i), Resolve(p.retry, d), failure);
            && Ok(p, path, i, Mem(caught.1), o, d, tail)
            && Honest(caught.0)
  {
    var key, policy := KeyOf(p, path, i), Resolve(p.retry, d);
    var m, m' := Mem(w), Mem(Caught(w, key, policy, failure).1);
    SplitBelow(path, i);
    forall k { AfterCaught(w, key, policy, failure, k); }
    if p.body.Inner? {
      OkFrame(p.body.code, path + [i], 0, m, m', o, d, tail[1..]);
    } else {
      assert Fresh(m', path + [i], 0);
    }
    assert Fresh(m', path, i + 1) && Alone(m', key);
  }

  lemma ExternalOk(p: Prog, path: seq<nat>, i: nat, w: World, now: int, x: Setup, o: Oracle)
    requires p.Step? && p.body.External? && 0 < w.cursor <= |w.rec.t|
    requires Ok(p, path, i, Mem(w), o, x.defaultRetry, w.rec.t[w.cursor - 1..])
    requires At(Mem(w), KeyOf(p, path, i)).result.None?
    requires Extends(o, Produce(p, KeyOf(p, path, i), w, now, x).w.first)
    ensures ProducedOk(p, path, i, w, Produce(p, KeyOf(p, path, i), w, now, x), o, x.defaultRetry)
  {
    var key := KeyOf(p, path, i);
    var (outcome, w') := RunBody(p, key, w, x);
    assert Mem(w') == Mem(w);
    AwaitedTail(p, path, i, w, o, x.defaultRetry);
    match outcome
    case Returned(value) =>
      assert key in Produce(p, key, w, now, x).w.first;
      RecordOk(p, path, i, w, w', value, o, x.defaultRetry);
    case Raised(failure) =>
      CatchOk(p, path, i, w', failure, o, x.defaultRetry, w.rec.t[w.cursor - 1..]);
  }

  /** An open step without code of its own is the last one traced. */
  lemma AwaitedTail(p: Prog, path: seq<nat>, i: nat, w: World, o: Oracle, d: RetryOptions)
    requires p.Wait? || (p.Step? && p.body.External?)
    requires 0 < w.cursor <= |w.rec.t| && Ok(p, path, i, Mem(w), o, d, w.rec.t[w.cursor - 1..])
    requires At(Mem(w), KeyOf(p, path, i)).result.None?
    ensures var m, key := Mem(w), KeyOf(p, path, i);
            && w.cursor == |w.rec.t| && w.rec.t[w.cursor - 1..] == [key] + Block(p, path, i, o)
            && Alone(m, key) && Fresh(m, path, i + 1) && Fresh(m, path + [i], 0) && At(m, key).first.None?
            && (if p.Wait? then At(m, key).failures == 0 && OnlyWaitsFor(m, p.signal, key) else m.ps == map[])
  {
    assert |w.rec.t[w.cursor - 1..]| == 1;
  }

  lemma AwaitOk(p: Prog, path: seq<nat>, i: nat, w: World, now: int, x: Setup, o: Oracle)
    requires p.Wait? && 0 < w.cursor <= |w.rec.t|
    requires Ok(p, path, i, Mem(w), o, x.defaultRetry, w.rec.t[w.cursor - 1..])
    requires At(Mem(w), KeyOf(p, path, i)).result.None?
    requires Extends(o, Produce(p, KeyOf(p, path, i), w, now, x).w.first)
    ensures ProducedOk(p, path, i, w, Produce(p, KeyOf(p, path, i), w, now, x), o, x.defaultRetry)
  {
    var r := Produce(p, KeyOf(p, path, i), w, now, x);
    AwaitedTail(p, path, i, w, o, x.defaultRetry);
    if r.Continues? {
      ExpiryOk(p, path, i, w, r.w, o, x.defaultRetry);
    } else {
      StillAwaitedOk(p, path, i, w, r.w, o, x.defaultRetry);
    }
  }

  lemma ExpiryOk(p: Prog, path: seq<nat>, i: nat, w: World, w': World, o: Oracle, d: RetryOptions)
    requires p.Wait? && 0 < w.cursor == |w.rec.t|
    requires w.rec.t[w.cursor - 1..] == [KeyOf(p, path, i)] + Block(p, path, i, o)
    requires Alone(Mem(w), KeyOf(p, path, i)) && Fresh(Mem(w), path, i + 1) && At(Mem(w), KeyOf(p, path, i)).first.None?
    requires var resolved := Recorded(w, KeyOf(p, path, i), Null, true);
             w' == resolved.(rec := resolved.rec.(ps := map[]))
    requires Extends(o, w'.first)
    ensures ProducedOk(p, path, i, w, Continues(Null, w'), o, d)
  {
    var key := KeyOf(p, path, i);
    assert key in w'.first;
    CloseOk(p, path, i, w, Null, o, d);
    assert Mem(Recorded(w, key, Null, true)).(ps := map[]) == Mem(w');
  }

  lemma StillAwaitedOk(p: Prog, path: seq<nat>, i: nat, w: World, w': World, o: Oracle, d: RetryOptions)
    requires p.Wait? && 0 < w.cursor == |w.rec.t| && w.rec.t[w.cursor - 1..] == [KeyOf(p, path, i)]
    requires At(Mem(w), KeyOf(p, path, i)) == EMPTY && Alone(Mem(w), KeyOf(p, path, i))
    requires Fresh(Mem(w), path, i + 1) && Fresh(Mem(w), path + [i], 0)
    requires w' == w.(rec := w.rec.(ps := w'.rec.ps)) && OnlyWaitsFor(Mem(w'), p.signal, KeyOf(p, path, i))
    ensures Ok(p, path, i, Mem(w'), o, d, w'.rec.t[w.cursor - 1..])
  {
    SameCells(Mem(w), Mem(w'));
  }

  lemma {:induction false} InnerOk(p: Prog, path: seq<nat>, i: nat, w: World, now: int, x: Setup, o: Oracle)
    requires p.Step? && p.body.Inner? && 0 < w.cursor <= |w.rec.t| && !x.probe
    requires Ok(p, path, i, Mem(w), o, x.defaultRetry, w.rec.t[w.cursor - 1..])
    requires At(Mem(w), KeyOf(p, path, i)).result.None?
    requires Extends(o, Produce(p, KeyOf(p, path, i), w, now, x).w.first)
    ensures ProducedOk(p, path, i, w, Produce(p, KeyOf(p, path, i), w, now, x), o, x.defaultRetry)
    decreases p.body, 3
  {
    var w1 := w.(started := w.started + [KeyOf(p, path, i)]);
    var r := Exec(p.body.code, path + [i], 0, w1, x);
    assert w.rec.t[w.cursor - 1..][1..] == w1.rec.t[w1.cursor..];
    assert Produce(p, KeyOf(p, path, i), w, now, x).w.first == r.1.first;
    ExecOk(p.body.code, path + [i], 0, w1, x, o);
    ExecFrame(p.body.code, path + [i], 0, w1, x);
    EndedBodyOk(p, path, i, w, r, o, x.defaultRetry);
  }

  lemma EndedBodyOk(p: Prog, path: seq<nat>, i: nat, w: World, r: (Outcome, World), o: Oracle, d: RetryOptions)
    requires p.Step? && p.body.Inner? && 0 < w.cursor <= |w.rec.t| && w.rec.t <= r.1.rec.t
    requires Ok(p, path, i, Mem(w), o, d, w.rec.t[w.cursor - 1..]) && At(Mem(w), KeyOf(p, path, i)).result.None?
    requires Untouched(Mem(w), Mem(r.1), path + [i], 0)
    requires ExecutedOk(p.body.code, path + [i], 0, w, r, o, d)
    ensures Stored(r.0).Returned? ==>
              var value := Stored(r.0).value;
              ProducedOk(p, path, i, w, Continues(value, Recorded(r.1, KeyOf(p, path, i), value, false)), o, d)
    ensures Stored(r.0).Raised? ==>
              var (rethrown, w') := Caught(r.1, KeyOf(p, path, i), Resolve(p.retry, d), Stored(r.0).failure);
              ProducedOk(p, path, i, w, Stops(rethrown, w'), o, d)
  {
    match Stored(r.0)
    case Returned(value) => BodyReturnedOk(p, path, i, w, r.1, value, o, d);
    case Raised(failure) => BodyRaisedOk(p, path, i, w, r.1, failure, o, d);
  }

  /** While the body of an open step ran, nothing of the step itself or after it was touched. */
  lemma BodyLeavesStepOpen(p: Prog, path: seq<nat>, i: nat, w: World, w': World, o: Oracle, d: RetryOptions)
    requires p.Step? && p.body.Inner? && 0 < w.cursor <= |w.rec.t| && w.rec.t <= w'.rec.t
    requires Ok(p, path, i, Mem(w), o, d, w.rec.t[w.cursor - 1..]) && At(Mem(w), KeyOf(p, path, i)).result.None?
    requires Untouched(Mem(w), Mem(w'), path + [i], 0)
    ensures var m, key := Mem(w'), KeyOf(p, path, i);
            && Fresh(m, path, i + 1) && Alone(m, key) && At(m, key) == At(Mem(w), key)
            && w'.rec.t[w.cursor - 1] == key
            && w'.rec.t[w.cursor - 1..][1..] == w'.rec.t[w.cursor..]
  {
    SplitBelow(path, i);
    assert w.rec.t[w.cursor - 1..][0] == w.rec.t[w.cursor - 1];
  }

  lemma BodyReturnedOk(p: Prog, path: seq<nat>, i: nat, w: World, w': World, value: Value, o: Oracle, d: RetryOptions)
    requires p.Step? && p.body.Inner? && 0 < w.cursor <= |w.rec.t| && w.rec.t <= w'.rec.t
    requires Ok(p, path, i, Mem(w), o, d, w.rec.t[w.cursor - 1..]) && At(Mem(w), KeyOf(p, path, i)).result.None?
    requires Untouched(Mem(w), Mem(w'), path + [i], 0)
    requires ExecutedOk(p.body.code, path + [i], 0, w, (Returned(value), w'), o, d)
    ensures ProducedOk(p, path, i, w, Continues(value, Recorded(w', KeyOf(p, path, i), value, false)), o, d)
  {
    BodyLeavesStepOpen(p, path, i, w, w', o, d);
    assert w.rec.t[..w.cursor] == w.rec.t[..w.cursor - 1] + [KeyOf(p, path, i)];
    RecordOk(p, path, i, w, w', value, o, d);
  }

  lemma BodyRaisedOk(p: Prog, path: seq<nat>, i: nat, w: World, w': World, failure: Failure, o: Oracle, d: RetryOptions)
    requires p.Step? && p.body.Inner? && 0 < w.cursor <= |w.rec.t| && w.rec.t <= w'.rec.t
    requires Ok(p, path, i, Mem(w), o, d, w.rec.t[w.cursor - 1..]) && At(Mem(w), KeyOf(p, path, i)).result.None?
    requires Untouched(Mem(w), Mem(w'), path + [i], 0)
    requires Ok(p.body.code, path + [i], 0, Mem(w'), o, d, w'.rec.t[w.cursor..]) && Honest(failure)
    ensures var (rethrown, w'') := Caught(w', KeyOf(p, path, i), Resolve(p.retry, d), failure);
            ProducedOk(p, path, i, w, Stops(rethrown, w''), o, d)
  {
    BodyLeavesStepOpen(p, path, i, w, w', o, d);
    CatchOk(p, path, i, w', failure, o, d, w'.rec.t[w.cursor - 1..]);
  }

  lemma ClosedStays(p: Prog, path: seq<nat>, i: nat, m: Memory, m': Memory, o: Oracle)
    requires !p.Return? && Closed(p, path, i, m, o) && Alone(m, KeyOf(p, path, i)) && Untouched(m, m', path, i + 1)
    ensures Closed(p, path, i, m', o) && Alone(m', KeyOf(p, path, i))
  {
    SplitBelow(path, i);
  }

  /** The stretch from `cursor` to `end` and the rest, in a longer trace. */
  lemma TailOfExtension(t: seq<Key>, t': seq<Key>, cursor: nat, block: seq<Key>, end: nat)
    requires cursor < |t| && t <= t' && block <= t[cursor..][1..] && end == cursor + 1 + |block|
    ensures t'[cursor..][0] == t[cursor..][0] && block <= t'[cursor..][1..]
    ensures t'[cursor..][1 + |block|..] == t'[end..]
  {
    assert t[cursor..][1..][..|block|] == t[cursor + 1..cursor + 1 + |block|];
    assert t'[cursor..][1..][..|block|] == t'[cursor + 1..cursor + 1 + |block|];
  }

  /** A trace from a closed step on: its key, its block, and a rest that agrees with what follows. */
  ghost predicate Headed(p: Prog, path: seq<nat>, i: nat, m: Memory, o: Oracle, d: RetryOptions, tail: seq<Key>)
    requires !p.Return?
  {
    && tail != [] && tail[0] == KeyOf(p, path, i) && Block(p, path, i, o) <= tail[1..]
    && Ok(Next(p, ResultOf(p, path, i, o)), path, i + 1, m, o, d, tail[1 + |Block(p, path, i, o)|..])
  }

  lemma HeadedIsOk(p: Prog, path: seq<nat>, i: nat, m: Memory, o: Oracle, d: RetryOptions, tail: seq<Key>)
    requires !p.Return? && At(m, KeyOf(p, path, i)).result.Some? && tail != []
    ensures Ok(p, path, i, m, o, d, tail)
            <==> Headed(p, path, i, m, o, d, tail) && Closed(p, path, i, m, o) && Alone(m, KeyOf(p, path, i))
  {}

  lemma ClosedThenOk(p: Prog, path: seq<nat>, i: nat, m: Memory, m': Memory, o: Oracle, d: RetryOptions,
                     t: seq<Key>, t': seq<Key>, cursor: nat, end: nat)
    requires !p.Return? && cursor < |t| && t <= t' && Headed(p, path, i, m, o, d, t[cursor..])
    requires Closed(p, path, i, m, o) && Alone(m, KeyOf(p, path, i)) && Untouched(m, m', path, i + 1)
    requires end == cursor + 1 + |Block(p, path, i, o)| <= |t'|
    requires Ok(Next(p, ResultOf(p, path, i, o)), path, i + 1, m', o, d, t'[end..])
    ensures Ok(p, path, i, m', o, d, t'[cursor..])
  {
    TailOfExtension(t, t', cursor, Block(p, path, i, o), end);
    ClosedStays(p, path, i, m, m', o);
    HeadedIsOk(p, path, i, m', o, d, t'[cursor..]);
  }

  lemma {:induction false} ExecRestOk(p: Prog, path: seq<nat>, i: nat, w: World, x: Setup, o: Oracle)
    requires w.cursor <= |w.rec.t| && !x.probe && !p.Return? && Perform(p, path, i, w, x).Continues?
    requires Ok(p, path, i, Mem(w), o, x.defaultRetry, w.rec.t[w.cursor..])
    requires Extends(o, Exec(p, path, i, w, x).1.first)
    ensures ExecutedOk(p, path, i, w, Exec(p, path, i, w, x), o, x.defaultRetry)
    decreases p, 2, 0
  {
    var r := Perform(p, path, i, w, x);
    PerformFrame(p, path, i, w, x);
    ExecFrame(Next(p, r.result), path, i + 1, r.w, x);
    PerformOk(p, path, i, w, x, o);
    ThenRestOk(p, path, i, w, r, o, x.defaultRetry);
    ExecOk(Next(p, r.result), path, i + 1, r.w, x, o);
    RestExecutedOk(p, path, i, w, r.w, Exec(Next(p, r.result), path, i + 1, r.w, x), o, x.defaultRetry);
  }

  /** Two stretches of a growing trace make one. */
  lemma Rejoin(t: seq<Key>, t1: seq<Key>, t': seq<Key>, from: nat, end: nat, own: seq<Key>, rest: seq<Key>)
    requires t <= t1 <= t' && from <= |t| && end <= |t1|
    requires t1[..end] == t1[..from] + own && t' == t1[..end] + rest
    ensures t' == t[..from] + (own + rest)
  {
    assert t1[..from] == t[..from];
    assert (t[..from] + own) + rest == t[..from] + (own + rest);
  }

  lemma LaterStepsKeepCell(m: Memory, m': Memory, path: seq<nat>, i: nat, key: Key)
    requires Untouched(m, m', path, i + 1) && key.path == path + [i]
    ensures At(m', key) == At(m, key)
  {
    SplitBelow(path, i);
  }

  lemma RestExecutedOk(
    p: Prog, path: seq<nat>, i: nat, w: World, w1: World, r: (Outcome, World), o: Oracle, d: RetryOptions)
    requires !p.Return? && w.cursor <= |w.rec.t| && w.rec.t <= w1.rec.t <= r.1.rec.t
    requires Ok(p, path, i, Mem(w1), o, d, w1.rec.t[w.cursor..]) && At(Mem(w1), KeyOf(p, path, i)).result.Some?
    requires w1.cursor == w.cursor + 1 + |Block(p, path, i, o)| <= |w1.rec.t|
    requires Untouched(Mem(w1), Mem(r.1), path, i + 1)
    requires ExecutedOk(Next(p, ResultOf(p, path, i, o)), path, i + 1, w1, r, o, d)
    ensures ExecutedOk(p, path, i, w, r, o, d)
  {
    RestOk(p, path, i, Mem(w1), Mem(r.1), o, d, w1.rec.t, r.1.rec.t, w.cursor, w1.cursor);
    if r.0.Returned? {
      RestReturnedOk(p, path, i, Mem(w1), o, d, w.rec.t, w1.rec.t, r.1.rec.t, w.cursor, w1.cursor);
      RestFinished(p, path, i, Mem(w1), Mem(r.1), o);
    }
  }

  lemma RestFinished(p: Prog, path: seq<nat>, i: nat, m: Memory, m': Memory, o: Oracle)
    requires !p.Return? && At(m, KeyOf(p, path, i)).result.Some? && Untouched(m, m', path, i + 1)
    requires Finished(Next(p, ResultOf(p, path, i, o)), path, i + 1, m', o)
    ensures Finished(p, path, i, m', o)
  {
    LaterStepsKeepCell(m, m', path, i, KeyOf(p, path, i));
  }

  lemma RestOk(p: Prog, path: seq<nat>, i: nat, m: Memory, m': Memory, o: Oracle, d: RetryOptions,
               t: seq<Key>, t': seq<Key>, cursor: nat, end: nat)
    requires !p.Return? && cursor < |t| && t <= t' && Ok(p, path, i, m, o, d, t[cursor..])
    requires At(m, KeyOf(p, path, i)).result.Some? && Untouched(m, m', path, i + 1)
    requires end == cursor + 1 + |Block(p, path, i, o)| <= |t'|
    requires Ok(Next(p, ResultOf(p, path, i, o)), path, i + 1, m', o, d, t'[end..])
    ensures Ok(p, path, i, m', o, d, t'[cursor..])
  {
    HeadedIsOk(p, path, i, m, o, d, t[cursor..]);
    ClosedThenOk(p, path, i, m, m', o, d, t, t', cursor, end);
  }

  /** The trace of a step that holds its result, and of the code after it, is the preorder of both. */
  lemma RestReturnedOk(p: Prog, path: seq<nat>, i: nat, m: Memory, o: Oracle, d: RetryOptions,
                       t: seq<Key>, t1: seq<Key>, t': seq<Key>, cursor: nat, end: nat)
    requires !p.Return? && cursor <= |t| && t <= t1 <= t' && Ok(p, path, i, m, o, d, t1[cursor..])
    requires At(m, KeyOf(p, path, i)).result.Some? && end == cursor + 1 + |Block(p, path, i, o)| <= |t1|
    requires t' == t1[..end] + Preorder(Next(p, ResultOf(p, path, i, o)), path, i + 1, o)
    ensures t' == t[..cursor] + Preorder(p, path, i, o)
  {
    var own := [KeyOf(p, path, i)] + Block(p, path, i, o);
    OwnStretch(p, path, i, m, o, d, t1, cursor);
    Rejoin(t, t1, t', cursor, end, own, Preorder(Next(p, ResultOf(p, path, i, o)), path, i + 1, o));
  }

  /** A step that holds its result is traced with its block. */
  lemma OwnStretch(p: Prog, path: seq<nat>, i: nat, m: Memory, o: Oracle, d: RetryOptions, t: seq<Key>, cursor: nat)
    requires !p.Return? && cursor <= |t| && Ok(p, path, i, m, o, d, t[cursor..])
    requires At(m, KeyOf(p, path, i)).result.Some?
    ensures var end := cursor + 1 + |Block(p, path, i, o)|;
            end <= |t| && t[..end] == t[..cursor] + ([KeyOf(p, path, i)] + Block(p, path, i, o))
  {
    assert t[cursor..] != [] by { SplitBelow(path, i); }
    Stretch(t, cursor, KeyOf(p, path, i), Block(p, path, i, o));
  }

  lemma Stretch(t: seq<Key>, cursor: nat, key: Key, block: seq<Key>)
    requires cursor < |t| && t[cursor..][0] == key && block <= t[cursor..][1..]
    ensures cursor + 1 + |block| <= |t| && t[..cursor + 1 + |block|] == t[..cursor] + ([key] + block)
  {
    assert t[cursor..][1..] == t[cursor + 1..];
  }

  ghost predicate ExecutedOk(
    p: Prog, path: seq<nat>, i: nat, w: World, r: (Outcome, World), o: Oracle, d: RetryOptions)
    requires w.cursor <= |w.rec.t|
  {
    var (outcome, w') := r;
    && w.cursor <= |w'.rec.t|
    && Ok(p, path, i, Mem(w'), o, d, w'.rec.t[w.cursor..])
    && (outcome.Raised? ==> Honest(outcome.failure))
    && (outcome.Returned? ==>
          && outcome.value == Evaluate(p, path, i, o)
          && w'.rec.t == w.rec.t[..w.cursor] + Preorder(p, path, i, o)
          && w'.cursor == |w'.rec.t| && w'.rec.ps == map[]
          && Finished(p, path, i, Mem(w'), o))
  }

  /**
   * Whatever the schedule does, running a program from an agreeing record leaves an agreeing record and
   * raises no false alarm; if it returns, it returns what direct evaluation returns, the trace is the
   * program's preorder key list, and it is consumed to its end.
   */
  lemma {:induction false} ExecOk(p: Prog, path: seq<nat>, i: nat, w: World, x: Setup, o: Oracle)
    requires w.cursor <= |w.rec.t| && !x.probe
    requires Ok(p, path, i, Mem(w), o, x.defaultRetry, w.rec.t[w.cursor..])
    requires Extends(o, Exec(p, path, i, w, x).1.first)
    ensures ExecutedOk(p, path, i, w, Exec(p, path, i, w, x), o, x.defaultRetry)
    decreases p, 2, 1
  {
    var r := Perform(p, path, i, w, x);
    PerformFrame(p, path, i, w, x);
    ExecFrame(p, path, i, w, x);
    if r.Continues? && !p.Return? {
      ExecRestOk(p, path, i, w, x, o);
    } else {
      PerformOk(p, path, i, w, x, o);
    }
  }
}
