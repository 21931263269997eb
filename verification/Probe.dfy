/** The determinism probe: a strict, read-only replay of a completed job. */
module Probe {
  import opened Values
  import opened Keys
  import opened RetryPolicy
  import opened JobRecord
  import opened Program
  import opened Frames
  import opened Invariants
  import opened Lifecycle
  import opened Guarantees

  function ProbeRun(q: Prog, w: World, schedule: Schedule, d: RetryOptions): (Outcome, World) {
    Exec(q, [], 0, w.(cursor := 0), Setup(schedule, true, d))
  }

  /** The replay returns, consumes the trace to its end and gives the stored result. */
  predicate Accepts(q: Prog, w: World, schedule: Schedule, d: RetryOptions) {
    var (outcome, w') := ProbeRun(q, w, schedule, d);
    && outcome.Returned? && w'.cursor == |w'.rec.t|
    && Supported(outcome.value) && w'.rec.r == Some(outcome.value)
  }

  /** Whatever the workflow and whatever the record, a probe starts no step body and changes nothing. */
  lemma {:induction false} ProbeIsReadOnly(q: Prog, path: seq<nat>, i: nat, w: World, x: Setup)
    requires w.cursor <= |w.rec.t| && x.probe
    ensures var w' := Exec(q, path, i, w, x).1;
            w' == w.(cursor := w'.cursor, pos := w'.pos)
    decreases q
  {
    var r := Perform(q, path, i, w, x);
    if r.Continues? && !q.Return? {
      assert r.w == w.(cursor := r.w.cursor, pos := r.w.pos);
      ProbeIsReadOnly(Next(q, r.result), path, i + 1, r.w, x);
    }
  }

  /** Entry `j` of the trace is the key of a step of the frame at `path` that holds a result, or is inside one. */
  ghost predicate AccountedFor(rec: Record, path: seq<nat>, from: nat, j: nat)
    requires j < |rec.t|
  {
    exists e :: from <= e <= j && HasStep(rec, rec.t[e]) && |rec.t[e].path| == |path| + 1 && path < rec.t[e].path
                && (e == j || Inside(rec.t[e].path, rec.t[j]))
  }

  /** What a probe of any workflow consumes are cached steps of its frame and what lies inside them. */
  lemma {:induction false} ProbeConsumes(q: Prog, path: seq<nat>, i: nat, w: World, x: Setup)
    requires w.cursor <= |w.rec.t| && x.probe && Exec(q, path, i, w, x).0.Returned?
    ensures Exec(q, path, i, w, x).1.rec == w.rec
    ensures forall j | w.cursor <= j < Exec(q, path, i, w, x).1.cursor :: AccountedFor(w.rec, path, w.cursor, j)
    decreases q
  {
    ProbeIsReadOnly(q, path, i, w, x);
    var r := Perform(q, path, i, w, x);
    if !q.Return? {
      var key, c := KeyOf(q, path, i), w.cursor;
      assert c < |w.rec.t| && w.rec.t[c] == key && HasStep(w.rec, key);
      assert r.w == w.(cursor := Skip(w.rec.t, key.path, c + 1), pos := r.w.pos);
      forall j | c <= j < r.w.cursor ensures AccountedFor(w.rec, path, c, j) {
        assert HasStep(w.rec, w.rec.t[c]);
      }
      ProbeConsumes(Next(q, r.result), path, i + 1, r.w, x);
      forall j | r.w.cursor <= j < Exec(q, path, i, w, x).1.cursor ensures AccountedFor(w.rec, path, c, j) {
        assert AccountedFor(w.rec, path, r.w.cursor, j);
      }
    }
  }

  // ---- What acceptance means

  /** The keys `q` enters when every step gives its recorded result, up to the first that has none. */
  function Entered(q: Prog, path: seq<nat>, i: nat, rec: Record): seq<Key> {
    if q.Return? then []
    else
      var key := KeyOf(q, path, i);
      [key] + if HasStep(rec, key) then Entered(Next(q, GetStepResult(rec, key)), path, i + 1, rec) else []
  }

  /** The value `q` comes to that way. */
  function ReplayValue(q: Prog, path: seq<nat>, i: nat, rec: Record): Option<Value> {
    if q.Return? then Some(q.value)
    else
      var key := KeyOf(q, path, i);
      if HasStep(rec, key) then ReplayValue(Next(q, GetStepResult(rec, key)), path, i + 1, rec) else None
  }

  /** The cursor after these keys, each with what is traced inside it, if that is how the trace goes on. */
  function Consume(t: seq<Key>, keys: seq<Key>, cursor: nat): (end: Option<nat>)
    requires cursor <= |t|
    ensures end.Some? ==> cursor <= end.value <= |t|
    decreases keys
  {
    if keys == [] then Some(cursor)
    else if cursor < |t| && t[cursor] == keys[0] then Consume(t, keys[1..], Skip(t, keys[0].path, cursor + 1))
    else None
  }

  /** The trace is `keys` and what lies inside them, and the value is the stored one. */
  predicate Matches(q: Prog, rec: Record) {
    var value := ReplayValue(q, [], 0, rec);
    && Consume(rec.t, Entered(q, [], 0, rec), 0) == Some(|rec.t|)
    && value.Some? && Supported(value.value) && rec.r == value
  }

  /** Where the replay of `q` ends, if nothing stands in its way. */
  ghost function Ends(q: Prog, path: seq<nat>, i: nat, w: World): Option<(Value, nat)>
    requires w.cursor <= |w.rec.t|
  {
    var value, end := ReplayValue(q, path, i, w.rec), Consume(w.rec.t, Entered(q, path, i, w.rec), w.cursor);
    if value.Some? && end.Some? then Some((value.value, end.value)) else None
  }

  /** The next traced step is the one `q` begins with, and it holds a result. */
  predicate FindsStep(q: Prog, path: seq<nat>, i: nat, w: World)
    requires !q.Return?
  {
    w.cursor < |w.rec.t| && w.rec.t[w.cursor] == KeyOf(q, path, i) && HasStep(w.rec, KeyOf(q, path, i))
  }

  /** The world once that step is passed over. */
  function Passed(q: Prog, path: seq<nat>, i: nat, w: World): World
    requires !q.Return? && FindsStep(q, path, i, w)
  {
    Ticked(w).(cursor := Skip(w.rec.t, path + [i], w.cursor + 1))
  }

  lemma EndsLater(q: Prog, path: seq<nat>, i: nat, w: World)
    requires !q.Return? && w.cursor <= |w.rec.t|
    ensures Ends(q, path, i, w)
         == if FindsStep(q, path, i, w) then
              Ends(Next(q, GetStepResult(w.rec, KeyOf(q, path, i))), path, i + 1, Passed(q, path, i, w))
            else None
  {
    var key, keys := KeyOf(q, path, i), Entered(q, path, i, w.rec);
    assert keys[0] == key;
    if HasStep(w.rec, key) {
      assert keys[1..] == Entered(Next(q, GetStepResult(w.rec, key)), path, i + 1, w.rec);
    }
  }

  lemma ProbePerforms(q: Prog, path: seq<nat>, i: nat, w: World, x: Setup)
    requires !q.Return? && w.cursor <= |w.rec.t| && x.probe
    ensures x.schedule(w.pos).fault.None? && FindsStep(q, path, i, w) ==>
              Perform(q, path, i, w, x) == Continues(GetStepResult(w.rec, KeyOf(q, path, i)), Passed(q, path, i, w))
    ensures x.schedule(w.pos).fault.Some? || !FindsStep(q, path, i, w) ==> Perform(q, path, i, w, x).Stops?
  {
    if x.schedule(w.pos).fault.None? && FindsStep(q, path, i, w) {
      PerformSkips(q, path, i, w, x);
    }
  }

  lemma {:induction false} ProbeEnds(q: Prog, path: seq<nat>, i: nat, w: World, x: Setup)
    requires w.cursor <= |w.rec.t| && x.probe
    ensures var (outcome, w') := Exec(q, path, i, w, x);
            && (outcome.Returned? ==> Ends(q, path, i, w) == Some((outcome.value, w'.cursor)))
            && ((forall n :: x.schedule(n).fault.None?) && Ends(q, path, i, w).Some? ==> outcome.Returned?)
    decreases q
  {
    if !q.Return? {
      EndsLater(q, path, i, w);
      ProbePerforms(q, path, i, w, x);
      if x.schedule(w.pos).fault.None? && FindsStep(q, path, i, w) {
        ProbeEnds(Next(q, GetStepResult(w.rec, KeyOf(q, path, i))), path, i + 1, Passed(q, path, i, w), x);
      }
    }
  }

  /**
   * A probe of any workflow on any record accepts only if the keys the workflow enters, each with what is
   * traced inside it, are exactly the trace, and its value is the stored one. Without faults that is enough.
   */
  lemma AcceptsExactly(q: Prog, w: World, schedule: Schedule, d: RetryOptions)
    ensures Accepts(q, w, schedule, d) ==> Matches(q, w.rec)
    ensures (forall n :: schedule(n).fault.None?) ==> (Accepts(q, w, schedule, d) <==> Matches(q, w.rec))
  {
    var x, start := Setup(schedule, true, d), w.(cursor := 0);
    ProbeEnds(q, [], 0, start, x);
    ProbeIsReadOnly(q, [], 0, start, x);
  }

  /** The entries from `from` to `to` whose paths have length `n`. */
  function AtDepth(t: seq<Key>, from: nat, to: nat, n: nat): seq<Key>
    requires from <= to <= |t|
    decreases |t| - from
  {
    if from == to then [] else (if |t[from].path| == n then [t[from]] else []) + AtDepth(t, from + 1, to, n)
  }

  /** A subtree has nothing at its root's own depth. */
  lemma {:induction false} SkippedDepth(t: seq<Key>, from: nat, mid: nat, to: nat, path: seq<nat>)
    requires from <= mid <= to <= |t| && forall j | from <= j < mid :: Inside(path, t[j])
    ensures AtDepth(t, from, to, |path|) == AtDepth(t, mid, to, |path|)
    decreases mid - from
  {
    if from < mid {
      SkippedDepth(t, from + 1, mid, to, path);
    }
  }

  lemma {:induction false} EnteredAreAtDepth(q: Prog, path: seq<nat>, i: nat, rec: Record, cursor: nat, end: nat)
    requires cursor <= |rec.t| && Consume(rec.t, Entered(q, path, i, rec), cursor) == Some(end)
    ensures Entered(q, path, i, rec) == AtDepth(rec.t, cursor, end, |path| + 1)
    decreases q
  {
    if !q.Return? {
      var key, keys := KeyOf(q, path, i), Entered(q, path, i, rec);
      var next := Skip(rec.t, key.path, cursor + 1);
      assert keys[0] == key && Consume(rec.t, keys[1..], next) == Some(end);
      SkippedDepth(rec.t, cursor + 1, next, end, key.path);
      if HasStep(rec, key) {
        assert keys[1..] == Entered(Next(q, GetStepResult(rec, key)), path, i + 1, rec);
        EnteredAreAtDepth(Next(q, GetStepResult(rec, key)), path, i + 1, rec, next, end);
      } else {
        assert keys[1..] == [];
      }
    }
  }

  /**
   * If a probe accepts, the keys the workflow enters are the trace's top level, in order, and every other
   * entry lies inside one of them that holds a result.
   */
  lemma AcceptedTrace(q: Prog, w: World, schedule: Schedule, d: RetryOptions)
    requires Accepts(q, w, schedule, d)
    ensures Entered(q, [], 0, w.rec) == AtDepth(w.rec.t, 0, |w.rec.t|, 1)
    ensures forall j | 0 <= j < |w.rec.t| :: AccountedFor(w.rec, [], 0, j)
  {
    AcceptsExactly(q, w, schedule, d);
    MatchingTopLevel(q, w.rec);
    ProbeConsumes(q, [], 0, w.(cursor := 0), Setup(schedule, true, d));
  }

  lemma MatchingTopLevel(q: Prog, rec: Record)
    requires Matches(q, rec)
    ensures Entered(q, [], 0, rec) == AtDepth(rec.t, 0, |rec.t|, 1)
  {
    EnteredAreAtDepth(q, [], 0, rec, 0, |rec.t|);
  }

  /** What is stored of a good, completed job matches its workflow exactly if the value can be stored. */
  lemma GoodCompletionMatches(cfg: Config, p: Prog, job: Job, o: Oracle)
    requires Good(cfg, p, job, o) && job.w.rec.s == Completed
    ensures Matches(p, job.w.rec) <==> Supported(Evaluate(p, [], 0, o))
  {
    var schedule := (n: nat) => Choice(None, Null, 0);
    var start := job.w.(cursor := 0);
    assert Mem(start) == Mem(job.w) && start.rec.t[0..] == job.w.rec.t;
    FinishedReplays(p, [], 0, start, Setup(schedule, true, cfg.defaultRetry), o);
    AcceptsExactly(p, job.w, schedule, cfg.defaultRetry);
  }

  /** The probe accepts a completed workflow, whatever its job went through, exactly if its value can be stored. */
  lemma HonestCompletionIsAccepted(cfg: Config, p: Prog, events: seq<Event>, schedule: Schedule, o: Oracle)
    requires Life(cfg, p, events).w.rec.s == Completed && forall n :: schedule(n).fault.None?
    requires Extends(o, Life(cfg, p, events).w.first)
    ensures Accepts(p, Life(cfg, p, events).w, schedule, cfg.defaultRetry) <==> Supported(Evaluate(p, [], 0, o))
  {
    LifeIsGood(cfg, p, events, o);
    GoodCompletionMatches(cfg, p, Life(cfg, p, events), o);
    AcceptsExactly(p, Life(cfg, p, events).w, schedule, cfg.defaultRetry);
  }
}
