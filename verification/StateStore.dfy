/** The state store: every operation updates the job's record in place and flushes it. */
module StateStore {
  import opened Values
  import opened Keys
  import opened JobRecord

  /** The state object `d` in the job data; job and stores share it. */
  class CompactWorkflowState {
    var s: Status
    var c: map<Key, Value>
    var u: set<Key>
    var a: map<Key, nat>
    var t: seq<Key>
    var r: Option<Value>
    var e: Option<string>
    var ps: map<string, PendingSignal>

    constructor (rec: Record)
      ensures Rec() == rec
    {
      s, c, u, a, t, r, e, ps := rec.s, rec.c, rec.u, rec.a, rec.t, rec.r, rec.e, rec.ps;
    }

    function Rec(): Record
      reads this
    {
      Record(s, c, u, a, t, r, e, ps)
    }
  }

  class WorkflowJob {
    const id: string
    const state: CompactWorkflowState
    /** What the queue holds; a crash falls back to it. */
    var persisted: Record

    /** The queue holds what is in memory, up to a status set before a result that was refused. */
    ghost predicate InStep()
      reads this, state
    {
      persisted == state.Rec().(s := persisted.s)
    }

    constructor (id: string, rec: Record)
      ensures this.id == id && persisted == rec && state.Rec() == rec && fresh(state) && InStep()
    {
      this.id := id;
      state := new CompactWorkflowState(rec);
      persisted := rec;
    }

    method UpdateData()
      modifies this
      ensures persisted == state.Rec()
    {
      persisted := state.Rec();
    }

    /** Another process reads the job from the queue. */
    method Load()
      modifies state
      ensures state.Rec() == persisted && InStep()
    {
      state.s, state.c, state.u, state.a := persisted.s, persisted.c, persisted.u, persisted.a;
      state.t, state.r, state.e, state.ps := persisted.t, persisted.r, persisted.e, persisted.ps;
    }
  }

  /** `for (const k of Object.keys(m)) if (inside(k)) delete m[k]` */
  method DeleteInside<V>(m: map<Key, V>, path: seq<nat>) returns (m': map<Key, V>)
    ensures m' == map k | k in m && !Inside(path, k) :: m[k]
  {
    m' := m;
    var keys := m.Keys;
    while keys != {}
      invariant keys <= m.Keys
      invariant m' == map k | k in m && (k in keys || !Inside(path, k)) :: m[k]
    {
      var cachedKey :| cachedKey in keys;
      keys := keys - {cachedKey};
      if Inside(path, cachedKey) {
        m' := m' - {cachedKey};
      }
    }
  }

  method DeleteKeysInside(s: set<Key>, path: seq<nat>) returns (s': set<Key>)
    ensures s' == set k | k in s && !Inside(path, k)
  {
    s' := s;
    var keys := s;
    while keys != {}
      invariant keys <= s
      invariant s' == set k | k in s && (k in keys || !Inside(path, k))
    {
      var cachedKey :| cachedKey in keys;
      keys := keys - {cachedKey};
      if Inside(path, cachedKey) {
        s' := s' - {cachedKey};
      }
    }
  }

  /** `keys.sort(...)` by depth. */
  method SortedByDepth(keys: set<Key>) returns (sorted: seq<Key>)
    ensures forall k :: k in sorted <==> k in keys
    ensures forall i, j | 0 <= i < j < |sorted| :: |sorted[i].path| <= |sorted[j].path|
  {
    sorted := [];
    var rest := keys;
    while rest != {}
      invariant rest <= keys && forall k :: k in sorted <==> k in keys - rest
      invariant forall i, j | 0 <= i < j < |sorted| :: |sorted[i].path| <= |sorted[j].path|
      invariant forall k, k' | k in sorted && k' in rest :: |k.path| <= |k'.path|
    {
      var least := Shallowest(rest);
      sorted, rest := sorted + [least], rest - {least};
    }
  }

  method Shallowest(keys: set<Key>) returns (least: Key)
    requires keys != {}
    ensures least in keys && forall k | k in keys :: |least.path| <= |k.path|
  {
    least :| least in keys;
    var rest := keys - {least};
    while rest != {}
      invariant rest <= keys && least in keys
      invariant forall k | k in keys - rest :: |least.path| <= |k.path|
    {
      var k :| k in rest;
      rest := rest - {k};
      if |k.path| < |least.path| {
        least := k;
      }
    }
  }

  /** Only what lies under none of `tops` is left. */
  ghost function WithoutDescendants(rec: Record, tops: set<Key>): Record {
    rec.(c := map k | k in rec.c && !UnderSome(tops, k) :: rec.c[k],
         u := (set k | k in rec.u && !UnderSome(tops, k)),
         a := map k | k in rec.a && !UnderSome(tops, k) :: rec.a[k])
  }

  ghost predicate UnderSome(tops: set<Key>, k: Key) {
    exists top :: top in tops && Inside(top.path, k)
  }

  /** Outcome of comparing an entered step with the trace. */
  datatype TraceCheck = Accepted | Unexpected | Conflicting

  /** `true`, `false` or a `SerializationError`. */
  datatype Delivery = Delivered | NotPending | PayloadRefused

  class WorkflowStateStore {
    const job: WorkflowJob
    const readOnly: bool
    const strictTrace: bool

    constructor (job: WorkflowJob, readOnly: bool, strictTrace: bool)
      ensures this.job == job && this.readOnly == readOnly && this.strictTrace == strictTrace
    {
      this.job, this.readOnly, this.strictTrace := job, readOnly, strictTrace;
    }

    function Rec(): Record
      reads job.state
    {
      job.state.Rec()
    }

    /** After every store operation that writes, the queue holds the state. */
    ghost predicate Flushed()
      reads job, job.state
    {
      readOnly || job.persisted == Rec()
    }

    /** Operations keep the queue in step with the state; a read-only store never writes to it. */
    twostate predicate KeepsQueue()
      reads job, job.state
    {
      (old(Flushed()) ==> Flushed()) && (readOnly ==> job.persisted == old(job.persisted))
    }

    method Flush()
      modifies job
      ensures Flushed() && (readOnly ==> job.persisted == old(job.persisted))
    {
      if !readOnly {
        job.UpdateData();
      }
    }

    method RemoveDescendantStepCache(stepKey: Key)
      modifies job.state
      ensures Rec() == RemoveDescendants(old(Rec()), stepKey)
      ensures forall k | Inside(stepKey.path, k) :: !HasStep(Rec(), k) && GetStepRetryCount(Rec(), k) == 0
      ensures forall k | !Inside(stepKey.path, k) :: SameStep(old(Rec()), Rec(), k)
      ensures SameRest(old(Rec()), Rec()) && Rec().ps == old(Rec()).ps
    {
      job.state.c := DeleteInside(job.state.c, stepKey.path);
      job.state.u := DeleteKeysInside(job.state.u, stepKey.path);
      job.state.a := DeleteInside(job.state.a, stepKey.path);
    }

    /**
     * Walks a list of keys taken before the first deletion, so a key may be gone when its turn comes.
     * Whatever the cache holds, exactly what has no cached proper ancestor survives.
     */
    method CompactDescendantStepCache()
      modifies job.state
      ensures Rec() == Compacted(old(Rec())) && OnlyTopsLeft(old(Rec()), Rec())
    {
      ghost var before := Rec();
      var stepKeys := SortedByDepth(job.state.c.Keys + job.state.u);
      ghost var done: set<Key> := {};
      assert Rec() == WithoutDescendants(before, {});
      for i := 0 to |stepKeys|
        invariant forall k :: k in done <==> k in stepKeys[..i]
        invariant Rec() == WithoutDescendants(before, done)
      {
        var stepKey := stepKeys[i];
        assert stepKey in stepKeys;
        if stepKey in job.state.c || stepKey in job.state.u {
          RemoveDescendantStepCache(stepKey);
        }
        RemovingIsEnough(before, done, stepKey);
        done := done + {stepKey};
        assert stepKeys[..i + 1] == stepKeys[..i] + [stepKey];
      }
      assert stepKeys[..|stepKeys|] == stepKeys;
      AllTops(before, done);
      CompactedRecord(before);
    }

    method SaveStepResult(stepKey: Key, result: Value) returns (ok: bool)
      modifies job.state, job
      ensures ok == Supported(result)
      ensures ok ==> Rec() == JobRecord.SaveStepResult(old(Rec()), stepKey, result) && Flushed()
      ensures ok ==> Resulted(old(Rec()), Rec(), stepKey, result) && Rec().ps == old(Rec()).ps
      ensures KeepsQueue()
      ensures !ok ==> Rec() == old(Rec()) && job.persisted == old(job.persisted)
    {
      if !Supported(result) {
        return false;
      }
      if result.Undefined? {
        job.state.u := job.state.u + {stepKey};
        job.state.c := job.state.c - {stepKey};
      } else {
        job.state.c := job.state.c[stepKey := result];
        job.state.u := job.state.u - {stepKey};
      }
      job.state.a := job.state.a - {stepKey};
      RemoveDescendantStepCache(stepKey);
      SavedStepResult(old(Rec()), stepKey, result);
      Flush();
      return true;
    }

    method IncrementStepRetryCount(stepKey: Key) returns (nextValue: nat)
      modifies job.state, job
      ensures nextValue == GetStepRetryCount(old(Rec()), stepKey) + 1
      ensures Rec() == old(Rec()).(a := old(Rec()).a[stepKey := nextValue]) && Flushed() && KeepsQueue()
    {
      nextValue := GetStepRetryCount(Rec(), stepKey) + 1;
      job.state.a := job.state.a[stepKey := nextValue];
      Flush();
    }

    method SavePendingSignal(signalName: string, stepKey: Key, expiresAt: Option<int>)
      modifies job.state, job
      ensures Rec() == old(Rec()).(ps := old(Rec()).ps[signalName := PendingSignal(stepKey, expiresAt)])
      ensures Flushed() && KeepsQueue()
    {
      job.state.ps := job.state.ps[signalName := PendingSignal(stepKey, expiresAt)];
      Flush();
    }

    method ClearPendingSignal(signalName: string)
      modifies job.state, job
      ensures Rec() == old(Rec()).(ps := old(Rec()).ps - {signalName}) && Flushed() && KeepsQueue()
    {
      job.state.ps := job.state.ps - {signalName};
      Flush();
    }

    /** A delivered result goes to `c` even when it is `undefined`. */
    method PutResult(stepKey: Key, result: Value)
      modifies job.state
      ensures var rec := old(Rec());
              Rec() == RemoveDescendants(
                rec.(c := rec.c[stepKey := result], u := rec.u - {stepKey}, a := rec.a - {stepKey}), stepKey)
    {
      job.state.c := job.state.c[stepKey := result];
      job.state.u := job.state.u - {stepKey};
      job.state.a := job.state.a - {stepKey};
      RemoveDescendantStepCache(stepKey);
    }

    method DeliverSignal(signalName: string, payload: Value) returns (r: Delivery)
      modifies job.state, job
      ensures r.NotPending? <==> signalName !in old(Rec()).ps
      ensures r.Delivered? <==> signalName in old(Rec()).ps && Supported(payload)
      ensures r.Delivered? ==> Rec() == JobRecord.DeliverSignal(old(Rec()), signalName, payload) && Flushed()
      ensures r.Delivered? ==>
                && Resulted(old(Rec()), Rec(), old(Rec()).ps[signalName].stepKey, payload)
                && Rec().ps == old(Rec()).ps - {signalName}
      ensures !r.Delivered? ==> Rec() == old(Rec()) && job.persisted == old(job.persisted)
    {
      if signalName !in job.state.ps {
        return NotPending;
      }
      if !Supported(payload) {
        return PayloadRefused;
      }
      PutResult(job.state.ps[signalName].stepKey, payload);
      job.state.ps := job.state.ps - {signalName};
      DeliveredSignal(old(Rec()), signalName, payload);
      Flush();
      return Delivered;
    }

    /** Extends the trace at its end unless it is strict; elsewhere the step must be the traced one. */
    method BeginStep(traceIndex: nat, stepKey: Key) returns (check: TraceCheck)
      requires traceIndex <= |Rec().t|
      modifies job.state, job
      ensures traceIndex < |old(Rec()).t| ==>
                check == if old(Rec()).t[traceIndex] == stepKey then Accepted else Conflicting
      ensures traceIndex == |old(Rec()).t| ==> check == if strictTrace then Unexpected else Accepted
      ensures var appends := traceIndex == |old(Rec()).t| && !strictTrace;
              && Rec() == (if appends then old(Rec()).(t := old(Rec()).t + [stepKey]) else old(Rec()))
              && (appends ==> Flushed()) && KeepsQueue()
    {
      if traceIndex == |job.state.t| {
        if strictTrace {
          return Unexpected;
        }
        job.state.t := job.state.t + [stepKey];
        Flush();
        return Accepted;
      }
      return if job.state.t[traceIndex] == stepKey then Accepted else Conflicting;
    }

    function GetTraceStepKey(traceIndex: nat): Option<Key>
      reads job.state
    {
      if traceIndex < |Rec().t| then Some(Rec().t[traceIndex]) else None
    }

    method MarkRunning()
      modifies job.state, job
      ensures Rec() == old(Rec()).(s := Running, e := None) && Flushed()
    {
      job.state.s, job.state.e := Running, None;
      Flush();
    }

    /** The status is set before the result is serialized. */
    method MarkCompleted(result: Value) returns (ok: bool)
      modifies job.state, job
      ensures ok == Supported(result)
      ensures ok ==> Rec() == Compacted(old(Rec()).(s := Completed, r := Some(result), e := None)) && Flushed()
      ensures !ok ==> Rec() == old(Rec()).(s := Completed) && job.persisted == old(job.persisted)
    {
      job.state.s := Completed;
      if !Supported(result) {
        return false;
      }
      job.state.r, job.state.e := Some(result), None;
      CompactDescendantStepCache();
      Flush();
      return true;
    }

    method MarkPublishingResult(result: Value) returns (ok: bool)
      modifies job.state, job
      ensures ok == Supported(result)
      ensures ok ==> Rec() == old(Rec()).(s := Completing, r := Some(result), e := None) && Flushed()
      ensures !ok ==> Rec() == old(Rec()).(s := Completing) && job.persisted == old(job.persisted)
    {
      job.state.s := Completing;
      if !Supported(result) {
        return false;
      }
      job.state.r, job.state.e := Some(result), None;
      Flush();
      return true;
    }

    method MarkCompletedFromStoredResult()
      modifies job.state, job
      ensures Rec() == Compacted(old(Rec()).(s := Completed, e := None)) && Flushed()
    {
      job.state.s, job.state.e := Completed, None;
      CompactDescendantStepCache();
      Flush();
    }

    method MarkFailed(message: string)
      modifies job.state, job
      ensures Rec() == old(Rec()).(s := Failed, r := None, e := Some(message)) && Flushed()
    {
      job.state.s, job.state.r, job.state.e := Failed, None, Some(message);
      Flush();
    }

    method MarkCancelled()
      modifies job.state, job
      ensures Rec() == old(Rec()).(s := Cancelled, r := None, e := Some("Workflow cancelled")) && Flushed()
    {
      job.state.s, job.state.r, job.state.e := Cancelled, None, Some("Workflow cancelled");
      Flush();
    }
  }

  /** A key that is already gone has an ancestor among the tops, which covers its descendants too. */
  lemma RemovingIsEnough(before: Record, tops: set<Key>, key: Key)
    requires HasStep(before, key)
    ensures var now := WithoutDescendants(before, tops);
            WithoutDescendants(before, tops + {key}) == if HasStep(now, key) then RemoveDescendants(now, key) else now
  {
    var now := WithoutDescendants(before, tops);
    OneMoreTop(tops, key);
    if HasStep(now, key) {
      RemovedUnder(before, now, tops, tops + {key}, key);
    } else {
      assert UnderSome(tops, key);
      UnderSomeIsInherited(tops, key);
      SameUnder(before, tops, tops + {key});
    }
  }

  lemma OneMoreTop(tops: set<Key>, key: Key)
    ensures forall k :: UnderSome(tops + {key}, k) <==> UnderSome(tops, k) || Inside(key.path, k)
  {
    forall k | Inside(key.path, k) ensures UnderSome(tops + {key}, k) {
      assert key in tops + {key};
    }
    forall k | UnderSome(tops, k) ensures UnderSome(tops + {key}, k) {
      var top :| top in tops && Inside(top.path, k);
      assert top in tops + {key};
    }
  }

  lemma UnderSomeIsInherited(tops: set<Key>, key: Key)
    requires UnderSome(tops, key)
    ensures forall k | Inside(key.path, k) :: UnderSome(tops, k)
  {
    forall k | Inside(key.path, k) ensures UnderSome(tops, k) {
      var top :| top in tops && Inside(top.path, key);
      assert Inside(top.path, k);
    }
  }

  lemma RemovedUnder(before: Record, now: Record, tops: set<Key>, more: set<Key>, key: Key)
    requires now == WithoutDescendants(before, tops)
    requires forall k :: UnderSome(more, k) <==> UnderSome(tops, k) || Inside(key.path, k)
    ensures WithoutDescendants(before, more) == RemoveDescendants(now, key)
  {}

  lemma SameUnder(before: Record, tops: set<Key>, more: set<Key>)
    requires forall k :: UnderSome(more, k) <==> UnderSome(tops, k)
    ensures WithoutDescendants(before, more) == WithoutDescendants(before, tops)
  {}

  lemma AllTops(rec: Record, tops: set<Key>)
    requires forall k :: k in tops <==> HasStep(rec, k)
    ensures WithoutDescendants(rec, tops) == Compacted(rec)
  {
    forall k ensures UnderSome(tops, k) <==> HasCachedAncestor(rec, k) {}
  }
}
