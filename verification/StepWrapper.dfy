/** The `@Step` wrapper, and workflow code that calls it. */
module StepWrapper {
  import opened Values
  import opened Keys
  import opened RetryPolicy
  import opened JobRecord
  import opened Program
  import opened Frames
  import opened ExecutionContext

  /** The stack is back to what it was, up to the child counter of the current frame. */
  ghost predicate SameStack(frames: seq<StepFrame>, frames': seq<StepFrame>) {
    && |frames'| == |frames| > 0 && frames'[..|frames| - 1] == frames[..|frames| - 1]
    && frames'[|frames| - 1].path == frames[|frames| - 1].path
  }

  /** One operation of the program: everything `Perform` does once user code has not failed before it. */
  ghost function Operate(p: Prog, path: seq<nat>, i: nat, w: World, now: int, x: Setup): Progress
    requires !p.Return? && w.cursor <= |w.rec.t|
  {
    match EnterStep(w, KeyOf(p, path, i), x.probe)
    case Refused(failure, w') => Stops(failure, w')
    case Entered(w') =>
      if HasStep(w'.rec, KeyOf(p, path, i)) then
        Continues(GetStepResult(w'.rec, KeyOf(p, path, i)), w'.(cursor := Skip(w'.rec.t, path + [i], w'.cursor)))
      else Produce(p, KeyOf(p, path, i), w', now, x)
  }

  /** A result and a world, as the specification gives them. */
  ghost function AsProgress(r: Progressed, w: World): Progress {
    match r
    case Gave(value) => Continues(value, w)
    case Threw(failure) => Stops(failure, w)
  }

  /** Nothing is recorded or counted, and no body starts. */
  twostate predicate NothingHappens(ctx: WorkflowExecutionContext)
    reads ctx, ctx.store.job.state, ctx.env
  {
    && ctx.store.Rec() == old(ctx.store.Rec()).(t := ctx.store.Rec().t) && ctx.env.first == old(ctx.env.first)
    && ctx.env.started == old(ctx.env.started) && ctx.env.retries == old(ctx.env.retries)
  }

  /**
   * What the outside world answers an outside step at `key`: a value that can be stored is the result, and
   * the first one if there was none; an error, or any other value, makes the step fail and leave no result.
   */
  twostate predicate FollowsAnswer(ctx: WorkflowExecutionContext, key: Key, answer: Choice, r: Progressed)
    reads ctx, ctx.store.job.state, ctx.env
  {
    if answer.fault.None? && Supported(answer.value) then
      && r == Gave(answer.value)
      && HasStep(ctx.store.Rec(), key) && GetStepResult(ctx.store.Rec(), key) == answer.value
      && ctx.env.first
         == (if key in old(ctx.env.first) then old(ctx.env.first) else old(ctx.env.first)[key := answer.value])
    else
      r.Threw? && !HasStep(ctx.store.Rec(), key) && ctx.env.first == old(ctx.env.first)
  }

  /** Workflow code: calls steps and waits for signals, and continues with what they give. */
  method RunCode(p: Prog, ctx: WorkflowExecutionContext) returns (outcome: Outcome)
    requires ctx.Valid()
    modifies ctx, ctx.store.job.state, ctx.store.job, ctx.env
    ensures ctx.Valid() && ctx.store.KeepsQueue()
    ensures outcome.Returned? || !ctx.requireCachedSteps ==> SameStack(old(ctx.frames), ctx.frames)
    ensures (outcome, ctx.View())
         == Exec(p, old(ctx.Top().path), old(ctx.Top().nextChildIndex), old(ctx.View()), ctx.Options())
    decreases p, 3
  {
    ghost var path, i, w := ctx.Top().path, ctx.Top().nextChildIndex, ctx.View();
    var r := RunOperation(p, ctx);
    ExecGoesOn(p, path, i, w, r, ctx.View(), ctx.Options());
    if r.Threw? {
      return Raised(r.failure);
    }
    if p.Return? {
      return Returned(r.value);
    }
    outcome := RunCode(Next(p, r.value), ctx);
  }

  lemma ExecGoesOn(p: Prog, path: seq<nat>, i: nat, w: World, r: Progressed, after: World, x: Setup)
    requires w.cursor <= |w.rec.t| && AsProgress(r, after) == Perform(p, path, i, w, x)
    ensures after.cursor <= |after.rec.t|
    ensures Exec(p, path, i, w, x)
         == if r.Threw? then (Raised(r.failure), after)
            else if p.Return? then (Returned(r.value), after)
            else Exec(Next(p, r.value), path, i + 1, after, x)
  {
    ExecPerforms(p, path, i, w, x);
  }

  method RunOperation(p: Prog, ctx: WorkflowExecutionContext) returns (r: Progressed)
    requires ctx.Valid()
    modifies ctx, ctx.store.job.state, ctx.store.job, ctx.env
    ensures ctx.Valid() && ctx.store.KeepsQueue()
    ensures (r.Gave? || !ctx.requireCachedSteps) && !p.Return? ==>
              SameStack(old(ctx.frames), ctx.frames)
              && (r.Gave? ==> ctx.Top().nextChildIndex == old(ctx.Top().nextChildIndex) + 1)
    ensures p.Return? ==> ctx.frames == old(ctx.frames)
    ensures var fault := old(ctx.env.schedule(ctx.env.pos)).fault;
            && (fault.Some? ==> r == Threw(Fault(fault.value)) && NothingHappens(ctx))
            && (fault.None? && p.Return? ==> r == Gave(p.value) && NothingHappens(ctx))
    ensures AsProgress(r, ctx.View())
         == Perform(p, old(ctx.Top().path), old(ctx.Top().nextChildIndex), old(ctx.View()), ctx.Options())
    decreases p, 2
  {
    var choice := ctx.env.Next();
    if choice.fault.Some? {
      return Threw(Fault(choice.fault.value));
    }
    if p.Return? {
      return Gave(p.value);
    }
    assert ctx.View() == Ticked(old(ctx.View()));
    PerformOperates(p, ctx.Top().path, ctx.Top().nextChildIndex, old(ctx.View()), ctx.Options());
    if p.Wait? {
      r := CallWait(p, choice.now, ctx);
    } else {
      r := DozerStepWrapper(p, choice.now, ctx);
    }
  }

  lemma PerformOperates(p: Prog, path: seq<nat>, i: nat, w: World, x: Setup)
    requires w.cursor <= |w.rec.t| && !p.Return? && x.schedule(w.pos).fault.None?
    ensures Perform(p, path, i, w, x) == Operate(p, path, i, Ticked(w), x.schedule(w.pos).now, x)
  {}

  /** `this.waitForSignal(...)` */
  method CallWait(p: Prog, now: int, ctx: WorkflowExecutionContext) returns (r: Progressed)
    requires p.Wait? && ctx.Valid()
    modifies ctx, ctx.store.job.state, ctx.store.job, ctx.env
    ensures ctx.Valid() && ctx.store.KeepsQueue()
    ensures r.Gave? || !ctx.requireCachedSteps ==> ctx.frames == old(ctx.AtChild(ctx.Top().nextChildIndex + 1))
    ensures AsProgress(r, ctx.View())
         == Operate(p, old(ctx.Top().path), old(ctx.Top().nextChildIndex), old(ctx.View()), now, ctx.Options())
    decreases p, 1
  {
    r := ctx.WaitForSignal(p.signal, p.timeoutMs, now);
  }

  /** Returns the recorded result if there is one; otherwise runs the body, records or retries. */
  method DozerStepWrapper(p: Prog, ghost now: int, ctx: WorkflowExecutionContext) returns (r: Progressed)
    requires p.Step? && ctx.Valid()
    modifies ctx, ctx.store.job.state, ctx.store.job, ctx.env
    ensures ctx.Valid() && ctx.store.KeepsQueue()
    ensures r.Gave? || !ctx.requireCachedSteps ==> ctx.frames == old(ctx.AtChild(ctx.Top().nextChildIndex + 1))
    ensures AsProgress(r, ctx.View())
         == Operate(p, old(ctx.Top().path), old(ctx.Top().nextChildIndex), old(ctx.View()), now, ctx.Options())
    ensures var key := Key(old(ctx.Top().path + [ctx.Top().nextChildIndex]), p.name);
            if !old(ctx.Accepts(key)) then r.Threw? && NothingHappens(ctx)
            else if old(HasStep(ctx.store.Rec(), key)) then
              r == Gave(old(GetStepResult(ctx.store.Rec(), key))) && NothingHappens(ctx)
            else
              && old(ctx.env.started) + [key] <= ctx.env.started
              && (p.body.External? ==> FollowsAnswer(ctx, key, old(ctx.env.schedule(ctx.env.pos)), r))
    decreases p, 1
  {
    var invocation := ctx.EnterStep(p.name);
    if invocation.NotEntered? {
      return Threw(invocation.failure);
    }
    if invocation.cachedResult.Some? {
      ctx.ExitStep();
      return Gave(invocation.cachedResult.value);
    }
    r := ExecuteStep(p, now, invocation.key, ctx);
    ctx.ExitStep();
  }

  /** The `try` and `catch` blocks. */
  method ExecuteStep(p: Prog, ghost now: int, key: Key, ctx: WorkflowExecutionContext) returns (r: Progressed)
    requires p.Step? && ctx.Valid() && ctx.Top() == StepFrame(key.path, 0)
    modifies ctx, ctx.store.job.state, ctx.store.job, ctx.env
    ensures ctx.Valid() && ctx.store.KeepsQueue()
    ensures r.Gave? || !ctx.requireCachedSteps ==> SameStack(old(ctx.frames), ctx.frames)
    ensures AsProgress(r, ctx.View()) == Produce(p, key, old(ctx.View()), now, ctx.Options())
    ensures old(ctx.env.started) + [key] <= ctx.env.started
    ensures p.body.External? && !old(HasStep(ctx.store.Rec(), key)) ==>
              FollowsAnswer(ctx, key, old(ctx.env.schedule(ctx.env.pos)), r)
    decreases p, 0
  {
    ctx.ResetCurrentStepChildren();
    var outcome := CallBody(p, key, ctx);
    r := CompleteStep(p, key, outcome, ctx);
  }

  /** Records what the body returned, or reacts to what it threw. */
  method CompleteStep(p: Prog, key: Key, outcome: Outcome, ctx: WorkflowExecutionContext) returns (r: Progressed)
    requires p.Step? && ctx.Valid()
    modifies ctx.store.job.state, ctx.store.job, ctx.env
    ensures ctx.Valid() && ctx.store.KeepsQueue() && ctx.env.pos == old(ctx.env.pos)
    ensures AsProgress(r, ctx.View()) == Ended(p, key, Stored(outcome), old(ctx.View()), ctx.defaultRetry)
    ensures ctx.env.started == old(ctx.env.started)
    ensures if outcome.Returned? && Supported(outcome.value) then
              && r == Gave(outcome.value) && Resulted(old(ctx.store.Rec()), ctx.store.Rec(), key, outcome.value)
            else
              && r.Threw? && ctx.store.Rec() == old(ctx.store.Rec()).(a := ctx.store.Rec().a)
              && ctx.env.first == old(ctx.env.first)
    ensures p.body.External? && outcome.Returned? && Supported(outcome.value) && key !in old(ctx.env.first) ==>
              ctx.env.first == old(ctx.env.first)[key := outcome.value]
    ensures key in old(ctx.env.first) ==> ctx.env.first == old(ctx.env.first)
  {
    var policy := Resolve(p.retry, ctx.defaultRetry);
    if outcome.Raised? {
      r := Catch(key, policy, outcome.failure, ctx);
      return;
    }
    var ok := ctx.store.SaveStepResult(key, outcome.value);
    if !ok {
      r := Catch(key, policy, Unserializable, ctx);
      return;
    }
    if p.body.External? {
      ctx.env.first := RecordFirst(ctx.env.first, key, outcome.value);
    }
    return Gave(outcome.value);
  }

  /** The `catch` block. */
  method Catch(key: Key, policy: Policy, failure: Failure, ctx: WorkflowExecutionContext) returns (r: Progressed)
    requires ctx.Valid()
    modifies ctx.store.job.state, ctx.store.job, ctx.env`retries
    ensures ctx.Valid() && ctx.store.KeepsQueue()
    ensures var (rethrown, w) := Caught(old(ctx.View()), key, policy, failure);
            r == Threw(rethrown) && ctx.View() == w
    ensures var failures, rec := old(GetStepRetryCount(ctx.store.Rec(), key)), old(ctx.store.Rec());
            if !failure.Fault? || failure.fault !in {NonRetryableThrown, ProcessDied} then
              if failures + 1 < policy.maxAttempts then
                var request := RetryRequest(key, policy, failures + 1);
                && r == Threw(RetryRequested(request)) && ctx.env.retries == old(ctx.env.retries) + [request]
                && ctx.store.Rec() == rec.(a := rec.a[key := failures + 1])
              else r == Threw(failure) && ctx.store.Rec() == rec && ctx.env.retries == old(ctx.env.retries)
            else r == Threw(failure) && ctx.store.Rec() == rec && ctx.env.retries == old(ctx.env.retries)
  {
    if failure == Fault(NonRetryableThrown) || failure == Fault(ProcessDied) {
      return Threw(failure);
    }
    var failedAttempts := GetStepRetryCount(ctx.store.Rec(), key) + 1;
    if failedAttempts < policy.maxAttempts {
      var nextValue := ctx.store.IncrementStepRetryCount(key);
      var request := RetryRequest(key, policy, failedAttempts);
      ctx.env.retries := ctx.env.retries + [request];
      return Threw(RetryRequested(request));
    }
    return Threw(failure);
  }

  /** `method.call(this, ...args)`: outside work, or workflow code in the frame of this step. */
  method CallBody(p: Prog, key: Key, ctx: WorkflowExecutionContext) returns (outcome: Outcome)
    requires p.Step? && ctx.Valid() && ctx.Top() == StepFrame(key.path, 0)
    modifies ctx, ctx.store.job.state, ctx.store.job, ctx.env
    ensures ctx.Valid() && ctx.store.KeepsQueue()
    ensures outcome.Returned? || !ctx.requireCachedSteps ==> SameStack(old(ctx.frames), ctx.frames)
    ensures (Stored(outcome), ctx.View()) == RunBody(p, key, old(ctx.View()), ctx.Options())
    ensures old(ctx.env.started) + [key] <= ctx.env.started
    ensures p.body.External? ==>
              var answer := old(ctx.env.schedule(ctx.env.pos));
              && outcome == (if answer.fault.Some? then Raised(Fault(answer.fault.value)) else Returned(answer.value))
              && ctx.store.Rec() == old(ctx.store.Rec()) && ctx.env.first == old(ctx.env.first)
              && ctx.env.started == old(ctx.env.started) + [key] && ctx.env.pos == old(ctx.env.pos) + 1
    decreases p.body
  {
    ctx.env.started := ctx.env.started + [key];
    match p.body
    case External =>
      var choice := ctx.env.Next();
      outcome := if choice.fault.Some? then Raised(Fault(choice.fault.value)) else Returned(choice.value);
    case Inner(code) =>
      ExecFrame(code, key.path, 0, ctx.View(), ctx.Options());
      outcome := RunCode(code, ctx);
  }
}
