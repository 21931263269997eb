/**
 * Retry accounting. Give every possible retry request a weight; then what a job has spent on requests
 * plus what its open steps can still ask for never grows, whatever happens to the job.
 */
module RetryBudget {
  import opened Values
  import opened Keys
  import opened RetryPolicy
  import opened Program
  import opened Frames
  import opened Replay

  type Weight = RetryRequest -> nat

  /** One request, one unit: counts requests. */
  function Each(): Weight {
    (r: RetryRequest) => 1
  }

  function OfStep(k: Key): Weight {
    (r: RetryRequest) => if r.key == k then 1 else 0
  }

  /** The delay the request asks for. */
  function Delay(): Weight {
    (r: RetryRequest) => DelayMs(r.policy, r.failedAttempts)
  }

  function Spent(weight: Weight, retries: seq<RetryRequest>): nat {
    if retries == [] then 0
    else Spent(weight, retries[..|retries| - 1]) + weight(retries[|retries| - 1])
  }

  /** What one step can still ask for after so many failures. */
  function Left(weight: Weight, key: Key, policy: Policy, failures: nat): nat
    decreases policy.maxAttempts - failures
  {
    if failures + 1 >= policy.maxAttempts then 0
    else weight(RetryRequest(key, policy, failures + 1)) + Left(weight, key, policy, failures + 1)
  }

  /** What the steps of `p` without a result, their own or an ancestor's, can still ask for. */
  ghost function Budget(
    p: Prog, path: seq<nat>, i: nat, m: Memory, o: Oracle, d: RetryOptions, weight: Weight): nat
    decreases p, 1
  {
    if p.Return? then 0
    else
      OwnBudget(p, path, i, m, o, d, weight)
      + Budget(Next(p, ResultOf(p, path, i, o)), path, i + 1, m, o, d, weight)
  }

  ghost function OwnBudget(
    p: Prog, path: seq<nat>, i: nat, m: Memory, o: Oracle, d: RetryOptions, weight: Weight): nat
    requires !p.Return?
    decreases p, 0
  {
    var cell := At(m, KeyOf(p, path, i));
    if cell.result.Some? || p.Wait? then 0
    else
      Left(weight, KeyOf(p, path, i), Resolve(p.retry, d), cell.failures)
      + if p.body.Inner? then Budget(p.body.code, path + [i], 0, m, o, d, weight) else 0
  }

  lemma {:induction false} BudgetFrame(
    p: Prog, path: seq<nat>, i: nat, m: Memory, m': Memory, o: Oracle, d: RetryOptions, weight: Weight)
    requires SameBelow(m, m', path, i)
    ensures Budget(p, path, i, m', o, d, weight) == Budget(p, path, i, m, o, d, weight)
    decreases p
  {
    SplitBelow(path, i);
    if !p.Return? {
      BudgetFrame(Next(p, ResultOf(p, path, i, o)), path, i + 1, m, m', o, d, weight);
      if p.Step? && p.body.Inner? {
        BudgetFrame(p.body.code, path + [i], 0, m, m', o, d, weight);
      }
    }
  }

  /** Giving results to steps from outside uses up budget, if anything. */
  lemma {:induction false} BudgetShrinks(
    p: Prog, path: seq<nat>, i: nat, m: Memory, m': Memory, o: Oracle, d: RetryOptions, weight: Weight)
    requires forall k :: At(m', k) == At(m, k) || At(m', k).result.Some?
    ensures Budget(p, path, i, m', o, d, weight) <= Budget(p, path, i, m, o, d, weight)
    decreases p
  {
    if !p.Return? {
      BudgetShrinks(Next(p, ResultOf(p, path, i, o)), path, i + 1, m, m', o, d, weight);
      if p.Step? && p.body.Inner? {
        BudgetShrinks(p.body.code, path + [i], 0, m, m', o, d, weight);
      }
    }
  }

  /** Spent and left together. */
  ghost function Account(p: Prog, path: seq<nat>, i: nat, w: World, o: Oracle, d: RetryOptions, weight: Weight): nat {
    Spent(weight, w.retries) + Budget(p, path, i, Mem(w), o, d, weight)
  }

  /** No schedule lets an execution spend more than the budget it uses up. */
  lemma {:induction false} ExecBudget(p: Prog, path: seq<nat>, i: nat, w: World, x: Setup, o: Oracle, weight: Weight)
    requires w.cursor <= |w.rec.t| && !x.probe
    requires Ok(p, path, i, Mem(w), o, x.defaultRetry, w.rec.t[w.cursor..])
    requires Extends(o, Exec(p, path, i, w, x).1.first)
    ensures Account(p, path, i, Exec(p, path, i, w, x).1, o, x.defaultRetry, weight)
         <= Account(p, path, i, w, o, x.defaultRetry, weight)
    decreases p, 2
  {
    var r := Perform(p, path, i, w, x);
    FirstBudget(p, path, i, w, x, o, weight);
    if r.Continues? && !p.Return? {
      PerformOk(p, path, i, w, x, o);
      ThenRestOk(p, path, i, w, r, o, x.defaultRetry);
      LaterBudget(p, path, i, r.w, x, r.result, o, weight);
    }
  }

  lemma {:induction false} LaterBudget(
    p: Prog, path: seq<nat>, i: nat, w: World, x: Setup, result: Value, o: Oracle, weight: Weight)
    requires !p.Return? && result == ResultOf(p, path, i, o) && w.cursor <= |w.rec.t| && !x.probe
    requires At(Mem(w), KeyOf(p, path, i)).result.Some?
    requires Ok(Next(p, result), path, i + 1, Mem(w), o, x.defaultRetry, w.rec.t[w.cursor..])
    requires Extends(o, Exec(Next(p, result), path, i + 1, w, x).1.first)
    ensures Account(p, path, i, Exec(Next(p, result), path, i + 1, w, x).1, o, x.defaultRetry, weight)
         <= Account(p, path, i, w, o, x.defaultRetry, weight)
    decreases p, 1, 2
  {
    ExecFrame(Next(p, result), path, i + 1, w, x);
    ExecBudget(Next(p, result), path, i + 1, w, x, o, weight);
    ClosedThenBudget(p, path, i, w, Exec(Next(p, result), path, i + 1, w, x).1, o, x.defaultRetry, weight);
  }

  lemma {:induction false} FirstBudget(p: Prog, path: seq<nat>, i: nat, w: World, x: Setup, o: Oracle, weight: Weight)
    requires w.cursor <= |w.rec.t| && !x.probe
    requires Ok(p, path, i, Mem(w), o, x.defaultRetry, w.rec.t[w.cursor..])
    requires Extends(o, Exec(p, path, i, w, x).1.first)
    ensures Extends(o, Perform(p, path, i, w, x).w.first) && w.rec.t <= Perform(p, path, i, w, x).w.rec.t
    ensures Account(p, path, i, Perform(p, path, i, w, x).w, o, x.defaultRetry, weight)
         <= Account(p, path, i, w, o, x.defaultRetry, weight)
    decreases p, 1, 1
  {
    var r := Perform(p, path, i, w, x);
    PerformFrame(p, path, i, w, x);
    if r.Continues? && !p.Return? {
      ExecFrame(Next(p, r.result), path, i + 1, r.w, x);
    }
    PerformBudget(p, path, i, w, x, o, weight);
  }

  lemma ClosedThenBudget(
    p: Prog, path: seq<nat>, i: nat, w: World, w': World, o: Oracle, d: RetryOptions, weight: Weight)
    requires !p.Return? && At(Mem(w), KeyOf(p, path, i)).result.Some? && Untouched(Mem(w), Mem(w'), path, i + 1)
    requires Account(Next(p, ResultOf(p, path, i, o)), path, i + 1, w', o, d, weight)
          <= Account(Next(p, ResultOf(p, path, i, o)), path, i + 1, w, o, d, weight)
    ensures Account(p, path, i, w', o, d, weight) <= Account(p, path, i, w, o, d, weight)
  {
    var q := Next(p, ResultOf(p, path, i, o));
    LaterStepsKeepCell(Mem(w), Mem(w'), path, i, KeyOf(p, path, i));
    assert Budget(p, path, i, Mem(w), o, d, weight) == Budget(q, path, i + 1, Mem(w), o, d, weight);
    assert Budget(p, path, i, Mem(w'), o, d, weight) == Budget(q, path, i + 1, Mem(w'), o, d, weight);
  }

  lemma {:induction false} PerformBudget(p: Prog, path: seq<nat>, i: nat, w: World, x: Setup, o: Oracle, weight: Weight)
    requires w.cursor <= |w.rec.t| && !x.probe
    requires Ok(p, path, i, Mem(w), o, x.defaultRetry, w.rec.t[w.cursor..])
    requires Extends(o, Perform(p, path, i, w, x).w.first)
    ensures Account(p, path, i, Perform(p, path, i, w, x).w, o, x.defaultRetry, weight)
         <= Account(p, path, i, w, o, x.defaultRetry, weight)
    decreases p, 1, 0
  {
    PerformWorks(p, path, i, w, x);
    if Works(p, path, i, w, x) {
      WorksOk(p, path, i, w, x, o);
      ProduceBudget(p, path, i, EnteredBy(p, path, i, w, x), x.schedule(w.pos).now, x, o, weight);
    }
  }

  /** A caught failure moves one request from what is left to what is spent. */
  lemma CaughtBudget(w: World, key: Key, policy: Policy, failure: Failure, weight: Weight)
    ensures
      var w' := Caught(w, key, policy, failure).1;
      Spent(weight, w'.retries) + Left(weight, key, policy, At(Mem(w'), key).failures)
      == Spent(weight, w.retries) + Left(weight, key, policy, At(Mem(w), key).failures)
  {
    var w' := Caught(w, key, policy, failure).1;
    if w' != w {
      assert w'.retries[..|w'.retries| - 1] == w.retries;
    }
  }

  lemma {:induction false} ProduceBudget(
    p: Prog, path: seq<nat>, i: nat, w: World, now: int, x: Setup, o: Oracle, weight: Weight)
    requires !p.Return? && 0 < w.cursor <= |w.rec.t| && !x.probe
    requires Ok(p, path, i, Mem(w), o, x.defaultRetry, w.rec.t[w.cursor - 1..])
    requires At(Mem(w), KeyOf(p, path, i)).result.None?
    requires Extends(o, Produce(p, KeyOf(p, path, i), w, now, x).w.first)
    ensures Account(p, path, i, Produce(p, KeyOf(p, path, i), w, now, x).w, o, x.defaultRetry, weight)
         <= Account(p, path, i, w, o, x.defaultRetry, weight)
    decreases p, 0, 1
  {
    var key, r := KeyOf(p, path, i), Produce(p, KeyOf(p, path, i), w, now, x);
    ProduceFrame(p, path, i, key, w, now, x);
    BudgetFrame(Next(p, ResultOf(p, path, i, o)), path, i + 1, Mem(w), Mem(r.w), o, x.defaultRetry, weight);
    if p.Step? {
      RunBodyBudget(p, path, i, w, x, o, weight);
      ProduceOwnBudget(p, path, i, w, now, x, o, weight);
    } else {
      AwaitOwnBudget(p, path, i, w, now, o, x.defaultRetry, weight);
    }
    AccountIsSum(p, path, i, w, o, x.defaultRetry, weight);
    AccountIsSum(p, path, i, r.w, o, x.defaultRetry, weight);
  }

  lemma AccountIsSum(p: Prog, path: seq<nat>, i: nat, w: World, o: Oracle, d: RetryOptions, weight: Weight)
    requires !p.Return?
    ensures Account(p, path, i, w, o, d, weight)
         == OwnAccount(p, path, i, w, o, d, weight)
            + Budget(Next(p, ResultOf(p, path, i, o)), path, i + 1, Mem(w), o, d, weight)
  {}

  lemma AwaitOwnBudget(p: Prog, path: seq<nat>, i: nat, w: World, now: int, o: Oracle, d: RetryOptions, weight: Weight)
    requires p.Wait?
    ensures OwnAccount(p, path, i, AwaitSignal(w, p.signal, p.timeoutMs, KeyOf(p, path, i), now).1, o, d, weight)
         == OwnAccount(p, path, i, w, o, d, weight)
  {}

  ghost function OwnAccount(p: Prog, path: seq<nat>, i: nat, w: World, o: Oracle, d: RetryOptions, weight: Weight): nat
    requires !p.Return?
  {
    Spent(weight, w.retries) + OwnBudget(p, path, i, Mem(w), o, d, weight)
  }

  /** What the step itself and the code in it can still ask for, once its body has run. */
  lemma ProduceOwnBudget(
    p: Prog, path: seq<nat>, i: nat, w: World, now: int, x: Setup, o: Oracle, weight: Weight)
    requires p.Step? && w.cursor <= |w.rec.t|
    requires var w' := RunBody(p, KeyOf(p, path, i), w, x).1;
             && At(Mem(w'), KeyOf(p, path, i)).result.None?
             && OwnAccount(p, path, i, w', o, x.defaultRetry, weight)
                <= OwnAccount(p, path, i, w, o, x.defaultRetry, weight)
    ensures OwnAccount(p, path, i, Produce(p, KeyOf(p, path, i), w, now, x).w, o, x.defaultRetry, weight)
         <= OwnAccount(p, path, i, w, o, x.defaultRetry, weight)
  {
    var (outcome, w') := RunBody(p, KeyOf(p, path, i), w, x);
    match outcome
    case Returned(value) => ReturnedBudget(p, path, i, w', value, p.body.External?, o, x.defaultRetry, weight);
    case Raised(failure) => RaisedBudget(p, path, i, w', failure, o, x.defaultRetry, weight);
  }

  lemma {:induction false} RunBodyBudget(p: Prog, path: seq<nat>, i: nat, w: World, x: Setup, o: Oracle, weight: Weight)
    requires p.Step? && 0 < w.cursor <= |w.rec.t| && !x.probe
    requires Ok(p, path, i, Mem(w), o, x.defaultRetry, w.rec.t[w.cursor - 1..])
    requires At(Mem(w), KeyOf(p, path, i)).result.None?
    requires Extends(o, RunBody(p, KeyOf(p, path, i), w, x).1.first)
    ensures OwnAccount(p, path, i, RunBody(p, KeyOf(p, path, i), w, x).1, o, x.defaultRetry, weight)
         <= OwnAccount(p, path, i, w, o, x.defaultRetry, weight)
    ensures At(Mem(RunBody(p, KeyOf(p, path, i), w, x).1), KeyOf(p, path, i)).result.None?
    decreases p.body, 3
  {
    var key := KeyOf(p, path, i);
    RunBodyFrame(p, key, w, x);
    var w' := RunBody(p, key, w, x).1;
    assert At(Mem(w'), key) == At(Mem(w), key);
    if p.body.Inner? {
      var w1 := w.(started := w.started + [key]);
      assert w.rec.t[w.cursor - 1..][1..] == w1.rec.t[w1.cursor..];
      ExecBudget(p.body.code, path + [i], 0, w1, x, o, weight);
    } else {
      assert Mem(w') == Mem(w);
    }
  }

  /** A step with a result asks for nothing more. */
  lemma ReturnedBudget(
    p: Prog, path: seq<nat>, i: nat, w: World, value: Value, outside: bool, o: Oracle, d: RetryOptions, weight: Weight)
    requires !p.Return?
    ensures OwnAccount(p, path, i, Recorded(w, KeyOf(p, path, i), value, outside), o, d, weight)
         <= OwnAccount(p, path, i, w, o, d, weight)
  {
    AfterRecorded(w, KeyOf(p, path, i), value, outside, KeyOf(p, path, i));
  }

  lemma RaisedBudget(
    p: Prog, path: seq<nat>, i: nat, w: World, failure: Failure, o: Oracle, d: RetryOptions, weight: Weight)
    requires p.Step? && At(Mem(w), KeyOf(p, path, i)).result.None?
    ensures OwnAccount(p, path, i, Caught(w, KeyOf(p, path, i), Resolve(p.retry, d), failure).1, o, d, weight)
         == OwnAccount(p, path, i, w, o, d, weight)
  {
    var key, policy := KeyOf(p, path, i), Resolve(p.retry, d);
    var w' := Caught(w, key, policy, failure).1;
    CaughtBudget(w, key, policy, failure, weight);
    CaughtFrame(w, key, policy, failure);
    if p.body.Inner? {
      BudgetFrame(p.body.code, path + [i], 0, Mem(w), Mem(w'), o, d, weight);
    }
  }

  /** A retry request that leaves an execution is the last one logged. */
  lemma {:induction false} RaisedRequestIsLogged(p: Prog, path: seq<nat>, i: nat, w: World, x: Setup)
    requires w.cursor <= |w.rec.t|
    ensures LogsRequest(w, Exec(p, path, i, w, x).1, Exec(p, path, i, w, x).0)
    decreases p, 1
  {
    var r := Perform(p, path, i, w, x);
    PerformFrame(p, path, i, w, x);
    ExecPerforms(p, path, i, w, x);
    if r.Continues? && !p.Return? {
      RaisedRequestIsLogged(Next(p, r.result), path, i + 1, r.w, x);
    } else {
      PerformWorks(p, path, i, w, x);
      if Works(p, path, i, w, x) {
        ProduceLogsRequest(p, path, i, EnteredBy(p, path, i, w, x), x.schedule(w.pos).now, x);
      }
    }
  }

  lemma {:induction false} ProduceLogsRequest(p: Prog, path: seq<nat>, i: nat, w: World, now: int, x: Setup)
    requires !p.Return? && w.cursor <= |w.rec.t|
    ensures var r := Produce(p, KeyOf(p, path, i), w, now, x);
            r.Stops? ==> LogsRequest(w, r.w, Raised(r.failure))
    decreases p, 0
  {
    if p.Step? {
      var key := KeyOf(p, path, i);
      RunBodyFrame(p, key, w, x);
      if p.body.Inner? {
        RaisedRequestIsLogged(p.body.code, path + [i], 0, w.(started := w.started + [key]), x);
      }
      var (outcome, w') := RunBody(p, key, w, x);
      assert LogsRequest(w, w', outcome);
      if outcome.Raised? {
        CaughtLogsRequest(w, w', key, Resolve(p.retry, x.defaultRetry), outcome.failure);
      }
    }
  }

  lemma CaughtLogsRequest(w: World, w': World, key: Key, policy: Policy, failure: Failure)
    requires w.retries <= w'.retries && LogsRequest(w, w', Raised(failure))
    ensures var (rethrown, w'') := Caught(w', key, policy, failure);
            LogsRequest(w, w'', Raised(rethrown))
  {}

  predicate LogsRequest(w: World, w': World, outcome: Outcome) {
    outcome.Raised? && outcome.failure.RetryRequested? ==>
      |w'.retries| > |w.retries| && w'.retries[|w'.retries| - 1] == outcome.failure.request
  }

  // ---- What the budget amounts to

  /** The attempts allowed to step `k`, one if `p` has no such step. */
  ghost function AttemptsOf(p: Prog, path: seq<nat>, i: nat, o: Oracle, d: RetryOptions, k: Key): (n: int)
    ensures n >= 1
    decreases p, 1
  {
    if p.Return? then 1
    else if Below(path, i + 1, k) then AttemptsOf(Next(p, ResultOf(p, path, i, o)), path, i + 1, o, d, k)
    else if p.Step? && k == KeyOf(p, path, i) then Resolve(p.retry, d).maxAttempts
    else if p.Step? && p.body.Inner? && Inside(path + [i], k) then AttemptsOf(p.body.code, path + [i], 0, o, d, k)
    else 1
  }

  /** The failures counted for a step leave it at least one attempt. */
  lemma {:induction false} FailuresWithinAttempts(
    p: Prog, path: seq<nat>, i: nat, m: Memory, o: Oracle, d: RetryOptions, tail: seq<Key>, k: Key)
    requires Ok(p, path, i, m, o, d, tail) && Below(path, i, k)
    ensures At(m, k).failures < AttemptsOf(p, path, i, o, d, k)
    decreases p
  {
    SplitBelow(path, i);
    if !p.Return? && tail != [] {
      var key, block := KeyOf(p, path, i), Block(p, path, i, o);
      if At(m, key).result.Some? && Below(path, i + 1, k) {
        FailuresWithinAttempts(Next(p, ResultOf(p, path, i, o)), path, i + 1, m, o, d, tail[1 + |block|..], k);
      } else if At(m, key).result.None? && p.Step? && p.body.Inner? && Inside(path + [i], k) {
        FailuresWithinAttempts(p.body.code, path + [i], 0, m, o, d, tail[1..], k);
      }
    }
  }

  lemma {:induction false} LeftOfOtherStep(k: Key, key: Key, policy: Policy, failures: nat)
    ensures Left(OfStep(k), key, policy, failures)
         == if key == k && failures + 1 < policy.maxAttempts then policy.maxAttempts - 1 - failures else 0
    decreases policy.maxAttempts - failures
  {
    if failures + 1 < policy.maxAttempts {
      LeftOfOtherStep(k, key, policy, failures + 1);
    }
  }

  /** The budget for requests of one step is at most its attempts less one. */
  lemma {:induction false} BudgetOfStep(p: Prog, path: seq<nat>, i: nat, m: Memory, o: Oracle, d: RetryOptions, k: Key)
    ensures Below(path, i, k) ==> Budget(p, path, i, m, o, d, OfStep(k)) < AttemptsOf(p, path, i, o, d, k)
    ensures !Below(path, i, k) ==> Budget(p, path, i, m, o, d, OfStep(k)) == 0
    decreases p
  {
    SplitBelow(path, i);
    if !p.Return? {
      BudgetOfStep(Next(p, ResultOf(p, path, i, o)), path, i + 1, m, o, d, k);
      if p.Step? {
        LeftOfOtherStep(k, KeyOf(p, path, i), Resolve(p.retry, d), At(m, KeyOf(p, path, i)).failures);
        if p.body.Inner? {
          BudgetOfStep(p.body.code, path + [i], 0, m, o, d, k);
        }
      }
    }
  }

  /** All a step can ever ask to wait for is the closed form of its strategy. */
  lemma {:induction false} LeftDelay(key: Key, policy: Policy, failures: nat)
    requires 1 <= failures + 1 <= policy.maxAttempts
    ensures Left(Delay(), key, policy, failures) + TotalDelay(policy.baseMs, policy.strategy, failures + 1)
         == TotalDelay(policy.baseMs, policy.strategy, policy.maxAttempts)
    decreases policy.maxAttempts - failures
  {
    if failures + 1 < policy.maxAttempts {
      LeftDelay(key, policy, failures + 1);
    }
  }
}
