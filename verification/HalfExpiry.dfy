/**
 * An expired wait is settled by two writes: its result is saved, then its signal is cleared. If the process
 * dies between them the signal stays pending under a step that has a result. No other life leads there.
 */
module HalfExpiry {
  import opened Values
  import opened Keys
  import opened JobRecord
  import opened Program
  import opened Frames
  import opened Lifecycle
  import Theorems
  import opened Origins

  /** What is in the queue after the first write for the wait at `key`. */
  function HalfExpired(w: World, key: Key): World {
    Recorded(w, key, Null, true)
  }

  /** The second write, without which the wait is not settled. */
  function Cleared(w: World, name: string): World {
    w.(rec := ClearPendingSignal(w.rec, name))
  }

  lemma ExpiryIsTwoWrites(w: World, name: string, timeoutMs: Option<nat>, key: Key, now: int)
    requires name in w.rec.ps && Reached(w.rec.ps[name].expiresAt, now)
    ensures AwaitSignal(w, name, timeoutMs, key, now) == (None, Cleared(HalfExpired(w, key), name))
  {}

  /** The step that is said to wait for `name` has a result. */
  predicate Stale(rec: Record, name: string) {
    name in rec.ps && HasStep(rec, rec.ps[name].stepKey)
  }

  /** No life without such a death has a stale signal. */
  lemma NoSignalIsStale(cfg: Config, p: Prog, events: seq<Event>, name: string)
    ensures !Stale(Life(cfg, p, events).w.rec, name)
  {
    var w := Life(cfg, p, events).w;
    if name in w.rec.ps {
      Theorems.PendingSignal(cfg, p, events, name);
      var key := w.rec.ps[name].stepKey;
      assert At(Mem(w), key).result.None?;
    }
  }

  /** The first write alone makes the awaited signal stale, the second one settles it. */
  lemma HalfExpiryIsStale(w: World, name: string)
    requires name in w.rec.ps
    ensures var half := HalfExpired(w, w.rec.ps[name].stepKey);
            Stale(half.rec, name) && !Stale(Cleared(half, name).rec, name)
  {}

  /** Delivering `name` gives some step another result than it had. */
  ghost predicate Overwrites(rec: Record, name: string, payload: Value)
    requires name in rec.ps
  {
    var rec' := DeliverSignal(rec, name, payload);
    exists k :: HasStep(rec, k) && HasStep(rec', k) && GetStepResult(rec', k) != GetStepResult(rec, k)
  }

  /** A delivery overwrites a recorded result exactly if the signal is stale and the payload is another value. */
  lemma StaleDeliveryOverwrites(rec: Record, name: string, payload: Value)
    requires name in rec.ps
    ensures Overwrites(rec, name, payload)
            <==> Stale(rec, name) && GetStepResult(rec, rec.ps[name].stepKey) != payload
  {
    var key, rec' := rec.ps[name].stepKey, DeliverSignal(rec, name, payload);
    assert HasStep(rec', key) && GetStepResult(rec', key) == payload;
    forall k | k != key && HasStep(rec, k) && HasStep(rec', k) ensures GetStepResult(rec', k) == GetStepResult(rec, k) {
      assert !Inside(key.path, k);
    }
  }

  /** So after the first write alone, any payload but `null` replaces the result replays have read. */
  lemma HalfExpiredResultIsReplaced(w: World, name: string, payload: Value)
    requires name in w.rec.ps
    ensures Overwrites(HalfExpired(w, w.rec.ps[name].stepKey).rec, name, payload) <==> payload != Null
  {
    HalfExpiryIsStale(w, name);
    StaleDeliveryOverwrites(HalfExpired(w, w.rec.ps[name].stepKey).rec, name, payload);
  }

  /** A wait without a result gets one at once exactly if its name is pending with a deadline that has passed. */
  lemma ResolvesAtOnce(w: World, name: string, timeoutMs: Option<nat>, key: Key, now: int)
    ensures AwaitSignal(w, name, timeoutMs, key, now).0.None?
            <==> name in w.rec.ps && Reached(w.rec.ps[name].expiresAt, now)
  {}

  /** So after the first write alone a later wait for that name never waits, after both it does. */
  lemma LaterWaitDoesNotWait(
    w: World, name: string, now: int, timeoutMs: Option<nat>, later: Key, moment: int)
    requires name in w.rec.ps && Reached(w.rec.ps[name].expiresAt, now) && now <= moment
    ensures var half := HalfExpired(w, w.rec.ps[name].stepKey);
            && AwaitSignal(half, name, timeoutMs, later, moment).0.None?
            && AwaitSignal(Cleared(half, name), name, timeoutMs, later, moment).0.Some?
  {
    var half := HalfExpired(w, w.rec.ps[name].stepKey);
    ResolvesAtOnce(half, name, timeoutMs, later, moment);
    ResolvesAtOnce(Cleared(half, name), name, timeoutMs, later, moment);
  }
}
