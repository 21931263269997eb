/**
 * The compact record that holds a job's whole progress, and what each store operation does to it.
 * Absent optional fields (`u`, `a`, `ps`) and empty ones mean the same and are both empty here.
 */
module JobRecord {
  import opened Keys
  import opened Values

  datatype Status = Pending | Running | Failed | Completed | Cancelled | Completing

  datatype PendingSignal = PendingSignal(stepKey: Key, expiresAt: Option<int>)

  /**
   * `c` maps a step to its result, as the serializer gives it back; `u` holds the steps that returned
   * `undefined`; `a` counts failed attempts; `t` is the trace of entered steps; `r` and `e` are the
   * final result and the error; `ps` are the pending signals by name.
   */
  datatype Record = Record(
    s: Status, c: map<Key, Value>, u: set<Key>, a: map<Key, nat>, t: seq<Key>,
    r: Option<Value>, e: Option<string>, ps: map<string, PendingSignal>)

  const INITIAL := Record(Pending, map[], {}, map[], [], None, None, map[])

  predicate HasStep(rec: Record, key: Key) {
    key in rec.c || key in rec.u
  }

  function GetStepResult(rec: Record, key: Key): Value
    requires HasStep(rec, key)
  {
    if key in rec.u then Undefined else rec.c[key]
  }

  function GetStepRetryCount(rec: Record, key: Key): nat {
    if key in rec.a then rec.a[key] else 0
  }

  function RemoveDescendants(rec: Record, key: Key): Record {
    rec.(c := map k | k in rec.c && !Inside(key.path, k) :: rec.c[k],
         u := (set k | k in rec.u && !Inside(key.path, k)),
         a := map k | k in rec.a && !Inside(key.path, k) :: rec.a[k])
  }

  function SaveStepResult(rec: Record, key: Key, result: Value): Record {
    var stored := if result.Undefined? then rec.(u := rec.u + {key}, c := rec.c - {key})
                  else rec.(c := rec.c[key := result], u := rec.u - {key});
    RemoveDescendants(stored.(a := rec.a - {key}), key)
  }

  function IncrementStepRetryCount(rec: Record, key: Key): Record {
    rec.(a := rec.a[key := GetStepRetryCount(rec, key) + 1])
  }

  function SavePendingSignal(rec: Record, name: string, key: Key, expiresAt: Option<int>): Record {
    rec.(ps := rec.ps[name := PendingSignal(key, expiresAt)])
  }

  function ClearPendingSignal(rec: Record, name: string): Record {
    rec.(ps := rec.ps - {name})
  }

  /** A delivered payload goes to `c` even when it is `undefined`. */
  function DeliverSignal(rec: Record, name: string, payload: Value): Record
    requires name in rec.ps
  {
    var key := rec.ps[name].stepKey;
    var stored := rec.(c := rec.c[key := payload], u := rec.u - {key}, a := rec.a - {key});
    ClearPendingSignal(RemoveDescendants(stored, key), name)
  }

  ghost predicate HasCachedAncestor(rec: Record, key: Key) {
    exists ancestor :: HasStep(rec, ancestor) && Inside(ancestor.path, key)
  }

  /** What compaction is for: only results with no cached proper ancestor stay. */
  ghost function Compacted(rec: Record): Record {
    rec.(c := map k | k in rec.c && !HasCachedAncestor(rec, k) :: rec.c[k],
         u := (set k | k in rec.u && !HasCachedAncestor(rec, k)),
         a := map k | k in rec.a && !HasCachedAncestor(rec, k) :: rec.a[k])
  }

  function MarkRunning(rec: Record): Record { rec.(s := Running, e := None) }

  ghost function MarkCompleted(rec: Record, result: Value): Record {
    Compacted(rec.(s := Completed, r := Some(result), e := None))
  }

  function MarkPublishingResult(rec: Record, result: Value): Record {
    rec.(s := Completing, r := Some(result), e := None)
  }

  ghost function MarkCompletedFromStoredResult(rec: Record): Record {
    Compacted(rec.(s := Completed, e := None))
  }

  function MarkFailed(rec: Record, error: string): Record { rec.(s := Failed, r := None, e := Some(error)) }

  function MarkCancelled(rec: Record): Record {
    rec.(s := Cancelled, r := None, e := Some("Workflow cancelled"))
  }

  // ---- What the operations mean, key by key

  /** Both records hold the same result, or none, and the same failures for `k`. */
  ghost predicate SameStep(rec: Record, rec': Record, k: Key) {
    && HasStep(rec', k) == HasStep(rec, k) && (HasStep(rec, k) ==> GetStepResult(rec', k) == GetStepResult(rec, k))
    && GetStepRetryCount(rec', k) == GetStepRetryCount(rec, k)
  }

  /** Trace, status, result and error are the same. */
  ghost predicate SameRest(rec: Record, rec': Record) {
    rec'.t == rec.t && rec'.s == rec.s && rec'.r == rec.r && rec'.e == rec.e
  }

  /** `key` has the result and no failures, nothing inside it has any, and every other step is as it was. */
  ghost predicate Resulted(rec: Record, rec': Record, key: Key, result: Value) {
    && HasStep(rec', key) && GetStepResult(rec', key) == result && GetStepRetryCount(rec', key) == 0
    && (forall k | Inside(key.path, k) :: !HasStep(rec', k) && GetStepRetryCount(rec', k) == 0)
    && (forall k | k != key && !Inside(key.path, k) :: SameStep(rec, rec', k))
    && SameRest(rec, rec')
  }

  /** Only steps without a cached proper ancestor are left, and they are as they were. */
  ghost predicate OnlyTopsLeft(rec: Record, rec': Record) {
    && (forall k | HasCachedAncestor(rec, k) :: !HasStep(rec', k) && GetStepRetryCount(rec', k) == 0)
    && (forall k | !HasCachedAncestor(rec, k) :: SameStep(rec, rec', k))
    && SameRest(rec, rec') && rec'.ps == rec.ps
  }

  lemma SavedStepResult(rec: Record, key: Key, result: Value)
    ensures Resulted(rec, SaveStepResult(rec, key, result), key, result)
    ensures SaveStepResult(rec, key, result).ps == rec.ps
  {}

  lemma DeliveredSignal(rec: Record, name: string, payload: Value)
    requires name in rec.ps
    ensures Resulted(rec, DeliverSignal(rec, name, payload), rec.ps[name].stepKey, payload)
    ensures DeliverSignal(rec, name, payload).ps == rec.ps - {name}
  {}

  lemma CompactedRecord(rec: Record)
    ensures OnlyTopsLeft(rec, Compacted(rec))
  {}

  /** Compacting twice is compacting once: an ancestor at the top of the tree is never dropped. */
  lemma {:induction false} CompactionIsIdempotent(rec: Record)
    ensures Compacted(Compacted(rec)) == Compacted(rec)
  {
    var once := Compacted(rec);
    forall k ensures HasCachedAncestor(once, k) == HasCachedAncestor(rec, k) {
      if HasCachedAncestor(rec, k) {
        var top := TopmostCachedAncestor(rec, k);
        assert HasStep(once, top);
      }
    }
    assert forall k | HasStep(once, k) :: !HasCachedAncestor(once, k);
    assert Compacted(once).c == once.c;
    assert Compacted(once).u == once.u;
    assert Compacted(once).a == once.a;
  }

  lemma {:induction false} TopmostCachedAncestor(rec: Record, key: Key) returns (top: Key)
    requires HasCachedAncestor(rec, key)
    ensures HasStep(rec, top) && Inside(top.path, key) && !HasCachedAncestor(rec, top)
    decreases |key.path|
  {
    top :| HasStep(rec, top) && Inside(top.path, key);
    if HasCachedAncestor(rec, top) {
      var higher := TopmostCachedAncestor(rec, top);
      assert higher.path == key.path[..|higher.path|] by {
        assert higher.path == top.path[..|higher.path|] && top.path == key.path[..|top.path|];
      }
      top := higher;
    }
  }
}
