/**
 * Deterministic workflow programs, and what running one against the record does: the replay core
 * (enter, skip, run, save, retry) as a function of the record, a schedule of outside events and the
 * program, beside the direct evaluation that knows nothing of records.
 */
module Program {
  import opened Values
  import opened Keys
  import opened RetryPolicy
  import opened JobRecord

  /** A step either does outside work, or runs workflow code of its own. */
  datatype Body = External | Inner(code: Prog)

  /**
   * What a workflow does next. The code after a step or a wait may depend on its result: `next` maps
   * results to continuations, and `otherwise` is the continuation for every other result.
   */
  datatype Prog =
    | Return(value: Value)
    | Step(name: string, retry: RetryOptions, body: Body, next: imap<Value, Prog>, otherwise: Prog)
    | Wait(signal: string, timeoutMs: Option<nat>, next: imap<Value, Prog>, otherwise: Prog)

  function Next(p: Prog, result: Value): (q: Prog)
    requires !p.Return?
    ensures q < p
  {
    if result in p.next then p.next[result] else p.otherwise
  }

  function SignalStepName(signal: string): string {
    "__signal__:" + signal
  }

  /** The key of the step or wait `p` begins with, as child `i` of the frame at `path`. */
  function KeyOf(p: Prog, path: seq<nat>, i: nat): Key
    requires !p.Return?
  {
    Key(path + [i], if p.Step? then p.name else SignalStepName(p.signal))
  }

  /** What can go wrong outside the engine: user code throws or sleeps, or the process dies. */
  datatype Fault = ErrorThrown | NonRetryableThrown | SleepUntil(wakeUpAt: int) | ProcessDied

  /** One outside event: a fault or none, the value outside work produces, and the clock. */
  datatype Choice = Choice(fault: Option<Fault>, value: Value, now: int)

  datatype Failure =
    | Fault(fault: Fault)
    | SignalWaitRequested(signal: string, expiresAt: Option<int>)
    | RetryRequested(request: RetryRequest)
    | ReplayConflict
    | NonDeterminism
    | Unserializable

  datatype RetryRequest = RetryRequest(key: Key, policy: Policy, failedAttempts: nat)

  datatype Outcome = Returned(value: Value) | Raised(failure: Failure)

  /** `probe` stands for a strict, read-only trace with `requireCachedSteps`. */
  datatype Setup = Setup(schedule: nat -> Choice, probe: bool, defaultRetry: RetryOptions)

  /**
   * The record, the trace cursor, the position in the schedule, and three logs that no code reads:
   * the first recorded success of every outside step or wait, the bodies started, the retries asked for.
   */
  datatype World = World(
    rec: Record, cursor: nat, pos: nat,
    first: map<Key, Value>, started: seq<Key>, retries: seq<RetryRequest>)

  function Ticked(w: World): World {
    w.(pos := w.pos + 1)
  }

  datatype Entry = Entered(w: World) | Refused(failure: Failure, w: World)

  /** `beginStep` followed by the bookkeeping of `enterStep`. */
  function EnterStep(w: World, key: Key, probe: bool): (entry: Entry)
    requires w.cursor <= |w.rec.t|
    ensures entry.w.cursor <= |entry.w.rec.t|
  {
    if w.cursor == |w.rec.t| then
      if probe then Refused(NonDeterminism, w)
      else Entered(w.(cursor := w.cursor + 1, rec := w.rec.(t := w.rec.t + [key])))
    else if w.rec.t[w.cursor] != key then Refused(ReplayConflict, w)
    else
      var w' := w.(cursor := w.cursor + 1);
      if probe && !HasStep(w.rec, key) then Refused(NonDeterminism, w') else Entered(w')
  }

  /** `skipCachedDescendants`: the cursor after the run of trace entries inside `path`. */
  function Skip(t: seq<Key>, path: seq<nat>, cursor: nat): (end: nat)
    requires cursor <= |t|
    ensures cursor <= end <= |t|
    ensures forall j | cursor <= j < end :: Inside(path, t[j])
    ensures end < |t| ==> !Inside(path, t[end])
    decreases |t| - cursor
  {
    if cursor < |t| && Inside(path, t[cursor]) then Skip(t, path, cursor + 1) else cursor
  }

  function RecordFirst(first: map<Key, Value>, key: Key, value: Value): map<Key, Value> {
    if key in first then first else first[key := value]
  }

  /** A result is recorded; outside results are logged the first time. */
  function Recorded(w: World, key: Key, result: Value, outside: bool): World {
    w.(rec := SaveStepResult(w.rec, key, result),
       first := if outside then RecordFirst(w.first, key, result) else w.first)
  }

  /** The `catch` of the step wrapper: retry while attempts remain, otherwise rethrow. */
  function Caught(w: World, key: Key, policy: Policy, failure: Failure): (Failure, World) {
    if failure == Fault(NonRetryableThrown) || failure == Fault(ProcessDied) then (failure, w)
    else
      var failedAttempts := GetStepRetryCount(w.rec, key) + 1;
      if failedAttempts < policy.maxAttempts then
        var request := RetryRequest(key, policy, failedAttempts);
        (RetryRequested(request),
         w.(rec := IncrementStepRetryCount(w.rec, key), retries := w.retries + [request]))
      else (failure, w)
  }

  /** `waitForSignal` once its step is entered and found without a result. */
  function AwaitSignal(w: World, signal: string, timeoutMs: Option<nat>, key: Key, now: int): (Option<Failure>, World) {
    if signal in w.rec.ps then
      var expiresAt := w.rec.ps[signal].expiresAt;
      if expiresAt.Some? && now >= expiresAt.value then
        var w' := Recorded(w, key, Null, true);
        (None, w'.(rec := ClearPendingSignal(w'.rec, signal)))
      else (Some(SignalWaitRequested(signal, expiresAt)), w)
    else
      var expiresAt := if timeoutMs.Some? then Some(now + timeoutMs.value) else None;
      (Some(SignalWaitRequested(signal, expiresAt)),
       w.(rec := SavePendingSignal(w.rec, signal, key, expiresAt)))
  }

  datatype Progress = Stops(failure: Failure, w: World) | Continues(result: Value, w: World)

  /** Runs `p` from child `i` of the frame at `path`. */
  function Exec(p: Prog, path: seq<nat>, i: nat, w: World, x: Setup): (r: (Outcome, World))
    requires w.cursor <= |w.rec.t|
    ensures r.1.cursor <= |r.1.rec.t|
    decreases p, 2
  {
    match Perform(p, path, i, w, x)
    case Stops(failure, w') => (Raised(failure), w')
    case Continues(result, w') =>
      if p.Return? then (Returned(result), w') else Exec(Next(p, result), path, i + 1, w', x)
  }

  /** The one operation `p` begins with. Before it user code may fail. */
  function Perform(p: Prog, path: seq<nat>, i: nat, w: World, x: Setup): (r: Progress)
    requires w.cursor <= |w.rec.t|
    ensures r.w.cursor <= |r.w.rec.t|
    decreases p, 1
  {
    var choice := x.schedule(w.pos);
    var w1 := Ticked(w);
    if choice.fault.Some? then Stops(Fault(choice.fault.value), w1)
    else if p.Return? then Continues(p.value, w1)
    else
      var key := KeyOf(p, path, i);
      match EnterStep(w1, key, x.probe)
      case Refused(failure, w2) => Stops(failure, w2)
      case Entered(w2) =>
        if HasStep(w2.rec, key) then
          Continues(GetStepResult(w2.rec, key), w2.(cursor := Skip(w2.rec.t, key.path, w2.cursor)))
        else Produce(p, key, w2, choice.now, x)
  }

  /** Produces the result of a step or wait that has none yet, and records it. */
  function Produce(p: Prog, key: Key, w: World, now: int, x: Setup): (r: Progress)
    requires !p.Return? && w.cursor <= |w.rec.t|
    ensures r.w.cursor <= |r.w.rec.t|
    decreases p, 0
  {
    if p.Wait? then
      var (failure, w') := AwaitSignal(w, p.signal, p.timeoutMs, key, now);
      if failure.Some? then Stops(failure.value, w') else Continues(Null, w')
    else
      var (outcome, w') := RunBody(p, key, w, x);
      Ended(p, key, outcome, w', x.defaultRetry)
  }

  /** Records the outcome of a step's body, or reacts to its failure. */
  function Ended(p: Prog, key: Key, outcome: Outcome, w: World, d: RetryOptions): Progress
    requires p.Step?
  {
    match outcome
    case Returned(value) => Continues(value, Recorded(w, key, value, p.body.External?))
    case Raised(failure) =>
      var (rethrown, w') := Caught(w, key, Resolve(p.retry, d), failure);
      Stops(rethrown, w')
  }

  /** A result the serializer refuses makes the step fail. */
  function Stored(outcome: Outcome): Outcome {
    if outcome.Returned? && !Supported(outcome.value) then Raised(Unserializable) else outcome
  }

  function RunBody(p: Prog, key: Key, w: World, x: Setup): (r: (Outcome, World))
    requires p.Step? && w.cursor <= |w.rec.t|
    ensures r.1.cursor <= |r.1.rec.t|
    decreases p.body
  {
    var w' := w.(started := w.started + [key]);
    match p.body
    case External =>
      var choice := x.schedule(w.pos);
      (Stored(if choice.fault.Some? then Raised(Fault(choice.fault.value)) else Returned(choice.value)), Ticked(w'))
    case Inner(code) =>
      var (outcome, w'') := Exec(code, key.path, 0, w', x);
      (Stored(outcome), w'')
  }

  // ---- Direct evaluation

  /** Gives every outside step and wait its result. */
  type Oracle = Key -> Value

  ghost predicate Extends(o: Oracle, first: map<Key, Value>) {
    forall k | k in first :: o(k) == first[k]
  }

  /** The result of the step or wait `p` begins with. */
  function ResultOf(p: Prog, path: seq<nat>, i: nat, o: Oracle): Value
    requires !p.Return?
    decreases p, 0
  {
    if p.Step? && p.body.Inner? then Evaluate(p.body.code, path + [i], 0, o) else o(KeyOf(p, path, i))
  }

  /** The value of a workflow. */
  function Evaluate(p: Prog, path: seq<nat>, i: nat, o: Oracle): Value
    decreases p, 1
  {
    if p.Return? then p.value else Evaluate(Next(p, ResultOf(p, path, i, o)), path, i + 1, o)
  }

  /** The keys of the steps inside the step `p` begins with. */
  function Block(p: Prog, path: seq<nat>, i: nat, o: Oracle): seq<Key>
    requires !p.Return?
    decreases p, 0
  {
    if p.Step? && p.body.Inner? then Preorder(p.body.code, path + [i], 0, o) else []
  }

  /** All keys of a workflow in preorder. */
  function Preorder(p: Prog, path: seq<nat>, i: nat, o: Oracle): seq<Key>
    decreases p, 1
  {
    if p.Return? then []
    else [KeyOf(p, path, i)] + Block(p, path, i, o) + Preorder(Next(p, ResultOf(p, path, i, o)), path, i + 1, o)
  }
}
