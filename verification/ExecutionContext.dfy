/** The execution context: a stack of step frames and a cursor into the trace. */
module ExecutionContext {
  import opened Values
  import opened Keys
  import opened RetryPolicy
  import opened JobRecord
  import opened Program
  import opened StateStore

  /** Everything outside the engine: user work, faults and the clock, with the logs the proofs speak of. */
  class Environment {
    const schedule: nat -> Choice
    var pos: nat
    ghost var first: map<Key, Value>
    ghost var started: seq<Key>
    ghost var retries: seq<RetryRequest>

    constructor (schedule: nat -> Choice)
      ensures this.schedule == schedule && pos == 0 && first == map[] && started == [] && retries == []
    {
      this.schedule := schedule;
      pos := 0;
      first, started, retries := map[], [], [];
    }

    method Next() returns (choice: Choice)
      modifies this`pos
      ensures choice == schedule(old(pos)) && pos == old(pos) + 1
    {
      choice := schedule(pos);
      pos := pos + 1;
    }
  }

  datatype StepFrame = StepFrame(path: seq<nat>, nextChildIndex: nat)

  /** `StepInvocation`, or the error `enterStep` threw. */
  datatype Invocation = Invoked(key: Key, cachedResult: Option<Value>) | NotEntered(failure: Failure)

  datatype Progressed = Gave(value: Value) | Threw(failure: Failure)

  class WorkflowExecutionContext {
    const store: WorkflowStateStore
    const env: Environment
    const defaultRetry: RetryOptions
    const requireCachedSteps: bool
    var frames: seq<StepFrame>
    var traceCursor: nat

    constructor (store: WorkflowStateStore, env: Environment, defaultRetry: RetryOptions, requireCachedSteps: bool)
      ensures this.store == store && this.env == env
      ensures this.defaultRetry == defaultRetry && this.requireCachedSteps == requireCachedSteps
      ensures frames == [StepFrame([], 0)] && traceCursor == 0
    {
      this.store, this.env := store, env;
      this.defaultRetry, this.requireCachedSteps := defaultRetry, requireCachedSteps;
      frames, traceCursor := [StepFrame([], 0)], 0;
    }

    ghost predicate Valid()
      reads this, store.job.state
    {
      frames != [] && traceCursor <= |store.Rec().t| && store.strictTrace == requireCachedSteps
    }

    ghost function View(): World
      reads this, env, store.job.state
    {
      World(store.Rec(), traceCursor, env.pos, env.first, env.started, env.retries)
    }

    ghost function Options(): Setup {
      Setup(env.schedule, requireCachedSteps, defaultRetry)
    }

    function Top(): StepFrame
      requires frames != []
      reads this
    {
      frames[|frames| - 1]
    }

    /** The stack with the current frame's child counter at `n`. */
    function AtChild(n: nat): seq<StepFrame>
      requires frames != []
      reads this
    {
      frames[..|frames| - 1] + [StepFrame(Top().path, n)]
    }

    /** The step at the cursor is the traced one, or a new one where the trace may grow; a probe wants its result. */
    predicate Accepts(key: Key)
      requires traceCursor <= |store.Rec().t|
      reads this, store.job.state
    {
      if traceCursor == |store.Rec().t| then !requireCachedSteps
      else store.Rec().t[traceCursor] == key && (HasStep(store.Rec(), key) || !requireCachedSteps)
    }

    /** Another step is traced where this one is entered. */
    predicate Conflicts(key: Key)
      requires traceCursor <= |store.Rec().t|
      reads this, store.job.state
    {
      traceCursor < |store.Rec().t| && store.Rec().t[traceCursor] != key
    }

    method SkipCachedDescendants(path: seq<nat>)
      requires Valid()
      modifies this`traceCursor
      ensures Valid() && traceCursor == Skip(store.Rec().t, path, old(traceCursor))
    {
      while true
        invariant Valid() && Skip(store.Rec().t, path, traceCursor) == Skip(store.Rec().t, path, old(traceCursor))
        decreases |store.Rec().t| - traceCursor
      {
        var nextStepKey := store.GetTraceStepKey(traceCursor);
        if nextStepKey.None? || !Inside(path, nextStepKey.value) {
          return;
        }
        traceCursor := traceCursor + 1;
      }
    }

    method EnterStep(stepName: string) returns (invocation: Invocation)
      requires Valid()
      modifies this, store.job.state, store.job
      ensures Valid() && store.KeepsQueue()
      ensures
        var path := old(Top()).path + [old(Top()).nextChildIndex];
        var key := Key(path, stepName);
        match Program.EnterStep(old(View()), key, requireCachedSteps)
        case Refused(failure, w) =>
          invocation == NotEntered(failure) && View() == w
          && (!requireCachedSteps ==> frames == old(AtChild(Top().nextChildIndex + 1)))
        case Entered(w) =>
          && frames == old(AtChild(Top().nextChildIndex + 1)) + [StepFrame(path, 0)]
          && if HasStep(w.rec, key) then
               invocation == Invoked(key, Some(GetStepResult(w.rec, key)))
               && View() == w.(cursor := Skip(w.rec.t, path, w.cursor))
             else invocation == Invoked(key, None) && View() == w
      ensures var key := Key(old(Top()).path + [old(Top()).nextChildIndex], stepName);
              && (invocation.NotEntered? <==> !old(Accepts(key)))
              && (invocation.NotEntered? ==>
                    invocation.failure == if old(Conflicts(key)) then ReplayConflict else NonDeterminism)
    {
      var parent := Top();
      var path := parent.path + [parent.nextChildIndex];
      frames := AtChild(parent.nextChildIndex + 1);

      var key := Key(path, stepName);
      var check := store.BeginStep(traceCursor, key);
      if check != Accepted {
        return NotEntered(if check == Unexpected then NonDeterminism else ReplayConflict);
      }
      traceCursor := traceCursor + 1;
      frames := frames + [StepFrame(path, 0)];
      invocation := LookUp(path, key);
    }

    /** The recorded result, with the step's block skipped. */
    method LookUp(path: seq<nat>, key: Key) returns (invocation: Invocation)
      requires Valid()
      modifies this`traceCursor
      ensures Valid()
      ensures invocation == if HasStep(store.Rec(), key) then Invoked(key, Some(GetStepResult(store.Rec(), key)))
                            else if requireCachedSteps then NotEntered(NonDeterminism) else Invoked(key, None)
      ensures traceCursor
           == if HasStep(store.Rec(), key) then Skip(store.Rec().t, path, old(traceCursor)) else old(traceCursor)
    {
      if HasStep(store.Rec(), key) {
        SkipCachedDescendants(path);
        return Invoked(key, Some(GetStepResult(store.Rec(), key)));
      }
      if requireCachedSteps {
        return NotEntered(NonDeterminism);
      }
      return Invoked(key, None);
    }

    method ResetCurrentStepChildren()
      requires frames != []
      modifies this`frames
      ensures frames == old(AtChild(0))
    {
      frames := AtChild(0);
    }

    method ExitStep()
      requires frames != []
      modifies this`frames
      ensures frames == if |old(frames)| == 1 then old(frames) else old(frames[..|frames| - 1])
    {
      if |frames| == 1 {
        return;
      }
      frames := frames[..|frames| - 1];
    }

    /** The result of the wait, or the error that parks the job. Saving and clearing on expiry count as one. */
    method WaitForSignal(signalName: string, timeoutMs: Option<nat>, now: int) returns (r: Progressed)
      requires Valid()
      modifies this, store.job.state, store.job, env
      ensures Valid() && store.KeepsQueue()
      ensures (r.Gave? || !requireCachedSteps) ==> frames == old(AtChild(Top().nextChildIndex + 1))
      ensures
        var key := Key(old(Top()).path + [old(Top()).nextChildIndex], SignalStepName(signalName));
        match Program.EnterStep(old(View()), key, requireCachedSteps)
        case Refused(failure, w) => r == Threw(failure) && View() == w
        case Entered(w) =>
          if HasStep(w.rec, key) then
            r == Gave(GetStepResult(w.rec, key)) && View() == w.(cursor := Skip(w.rec.t, key.path, w.cursor))
          else
            var (failure, w') := AwaitSignal(w, signalName, timeoutMs, key, now);
            r == (if failure.Some? then Threw(failure.value) else Gave(Null)) && View() == w'
    {
      var invocation := EnterStep(SignalStepName(signalName));
      if invocation.NotEntered? {
        return Threw(invocation.failure);
      }
      if invocation.cachedResult.Some? {
        ExitStep();
        return Gave(invocation.cachedResult.value);
      }
      r := AwaitEntered(signalName, timeoutMs, invocation.key, now);
      ExitStep();
    }

    /** The wait is over without a signal. */
    method Expire(signalName: string, key: Key)
      requires Valid()
      modifies store.job.state, store.job, env`first
      ensures Valid() && store.KeepsQueue() && traceCursor == old(traceCursor)
      ensures View() == old(Recorded(View(), key, Null, true)).(rec := store.Rec())
      ensures store.Rec() == ClearPendingSignal(old(Recorded(View(), key, Null, true)).rec, signalName)
      ensures Resulted(old(store.Rec()), store.Rec(), key, Null)
      ensures store.Rec().ps == old(store.Rec()).ps - {signalName}
    {
      var ok := store.SaveStepResult(key, Null);
      store.ClearPendingSignal(signalName);
      env.first := RecordFirst(env.first, key, Null);
    }

    /** The wait at `key`, entered and not recorded: one of expiry, a wait already pending, or a new one. */
    method AwaitEntered(signalName: string, timeoutMs: Option<nat>, key: Key, now: int) returns (r: Progressed)
      requires Valid()
      modifies store.job.state, store.job, env`first
      ensures Valid() && store.KeepsQueue()
      ensures
        var (failure, w) := AwaitSignal(old(View()), signalName, timeoutMs, key, now);
        r == (if failure.Some? then Threw(failure.value) else Gave(Null)) && View() == w
      ensures signalName !in old(store.Rec()).ps ==>
                var deadline := if timeoutMs.Some? then Some(now + timeoutMs.value) else None;
                && r == Threw(SignalWaitRequested(signalName, deadline)) && env.first == old(env.first)
                && store.Rec()
                   == old(store.Rec()).(ps := old(store.Rec()).ps[signalName := PendingSignal(key, deadline)])
      ensures signalName in old(store.Rec()).ps ==>
                var deadline := old(store.Rec()).ps[signalName].expiresAt;
                if deadline.Some? && now >= deadline.value then
                  && r == Gave(Null) && Resulted(old(store.Rec()), store.Rec(), key, Null)
                  && store.Rec().ps == old(store.Rec()).ps - {signalName}
                else
                  && r == Threw(SignalWaitRequested(signalName, deadline)) && env.first == old(env.first)
                  && store.Rec() == old(store.Rec())
    {
      if signalName in store.Rec().ps {
        var expiresAt := store.Rec().ps[signalName].expiresAt;
        if expiresAt.Some? && now >= expiresAt.value {
          Expire(signalName, key);
          return Gave(Null);
        }
        return Threw(SignalWaitRequested(signalName, expiresAt));
      }
      var expiresAt := if timeoutMs.Some? then Some(now + timeoutMs.value) else None;
      store.SavePendingSignal(signalName, key, expiresAt);
      return Threw(SignalWaitRequested(signalName, expiresAt));
    }
  }
}
