/**
 * The shape of the trace under any client that opens and closes steps like brackets, deterministic or not,
 * over any number of runs and whatever happens to the caches in between.
 */
module TraceShape {
  import opened Keys
  import opened JobRecord
  import opened Program
  import opened ExecutionContext

  /** Depth-first order: an ancestor comes before its descendants, and they before its later siblings. */
  predicate Before(p: seq<nat>, q: seq<nat>) {
    q != [] && (p == [] || p[0] < q[0] || (p[0] == q[0] && Before(p[1..], q[1..])))
  }

  lemma {:induction false} BeforeIsTransitive(p: seq<nat>, q: seq<nat>, r: seq<nat>)
    requires Before(p, q) && Before(q, r)
    ensures Before(p, r)
  {
    if p != [] && p[0] == q[0] == r[0] {
      BeforeIsTransitive(p[1..], q[1..], r[1..]);
    }
  }

  lemma {:induction false} BeforeIsIrreflexive(p: seq<nat>)
    ensures !Before(p, p)
  {
    if p != [] {
      BeforeIsIrreflexive(p[1..]);
    }
  }

  lemma {:induction false} AncestorIsBefore(p: seq<nat>, q: seq<nat>)
    requires p < q
    ensures Before(p, q)
  {
    if p != [] {
      assert p[1..] < q[1..];
      AncestorIsBefore(p[1..], q[1..]);
    }
  }

  /** Everything at or under child `c` comes before a later sibling of it. */
  lemma {:induction false} BeforeLaterSibling(path: seq<nat>, c: nat, d: nat, q: seq<nat>)
    requires c < d && path + [c] <= q
    ensures Before(q, path + [d])
  {
    if path == [] {
      assert q[0] == c;
    } else {
      assert q[0] == path[0];
      assert (path + [c])[1..] == path[1..] + [c] && (path + [d])[1..] == path[1..] + [d];
      BeforeLaterSibling(path[1..], c, d, q[1..]);
    }
  }

  /** What lies between a step and one of its descendants is a descendant too. */
  lemma {:induction false} BetweenIsInside(p: seq<nat>, q: seq<nat>, r: seq<nat>)
    requires Before(p, q) && Before(q, r) && p < r
    ensures p < q
  {
    if p != [] {
      assert p[0] == r[0];
      BeforeIsTransitive(p, q, r);
      assert q != [] && p[0] <= q[0] <= r[0];
      assert p[1..] < r[1..];
      BetweenIsInside(p[1..], q[1..], r[1..]);
      assert p == [p[0]] + p[1..] && q == [q[0]] + q[1..];
    }
  }

  ghost predicate Ascending(t: seq<Key>) {
    forall a, b | 0 <= a < b < |t| :: Before(t[a].path, t[b].path)
  }

  ghost predicate HasParent(t: seq<Key>, b: nat)
    requires b < |t|
  {
    t[b].path != [] && (|t[b].path| > 1 ==> exists a :: 0 <= a < b && t[a].path == t[b].path[..|t[b].path| - 1])
  }

  /** In depth-first order, every step after its parent. */
  ghost predicate WellShaped(t: seq<Key>) {
    Ascending(t) && forall b | 0 <= b < |t| :: HasParent(t, b)
  }

  /** Skipping from a step's entry passes over its whole subtree and nothing else. */
  lemma SkipsExactlyTheSubtree(t: seq<Key>, a: nat)
    requires Ascending(t) && a < |t|
    ensures forall j | a < j < |t| :: Inside(t[a].path, t[j]) <==> j < Skip(t, t[a].path, a + 1)
  {
    var end := Skip(t, t[a].path, a + 1);
    forall j | end <= j < |t| ensures !Inside(t[a].path, t[j]) {
      OutsideFromThenOn(t, a, end, j);
    }
  }

  /** In depth-first order nothing inside a step follows what is outside. */
  lemma OutsideFromThenOn(t: seq<Key>, a: nat, end: nat, j: nat)
    requires Ascending(t) && a < end <= j < |t| && !Inside(t[a].path, t[end])
    ensures !Inside(t[a].path, t[j])
  {
    if end < j && Inside(t[a].path, t[j]) {
      BetweenIsInside(t[a].path, t[end].path, t[j].path);
    }
  }

  // ---- Clients

  /** The frame stack and cursor of the current run, and the record. */
  datatype Client = Client(frames: seq<StepFrame>, cursor: nat, rec: Record)

  /** Open a step (a recorded one is closed at once), close one, change anything but the trace, start over. */
  datatype Op = Open(name: string) | Close | Change(rec: Record) | Restart

  function Top(st: Client): StepFrame
    requires st.frames != []
  {
    st.frames[|st.frames| - 1]
  }

  /** The path the next step of the current frame will get. */
  function NextPath(f: StepFrame): seq<nat> {
    f.path + [f.nextChildIndex]
  }

  function Advanced(frames: seq<StepFrame>): seq<StepFrame>
    requires frames != []
  {
    var top := frames[|frames| - 1];
    frames[..|frames| - 1] + [StepFrame(top.path, top.nextChildIndex + 1)]
  }

  function Apply(st: Client, op: Op): Client
    requires st.frames != [] && st.cursor <= |st.rec.t|
  {
    match op
    case Open(name) =>
      var key := Key(NextPath(Top(st)), name);
      var frames := Advanced(st.frames);
      (match EnterStep(World(st.rec, st.cursor, 0, map[], [], []), key, false)
       case Refused(_, _) => st.(frames := frames)
       case Entered(w) =>
         if HasStep(w.rec, key) then Client(frames, Skip(w.rec.t, key.path, w.cursor), w.rec)
         else Client(frames + [StepFrame(key.path, 0)], w.cursor, w.rec))
    case Close => if |st.frames| == 1 then st else st.(frames := st.frames[..|st.frames| - 1])
    case Change(rec) => st.(rec := rec.(t := st.rec.t))
    case Restart => Client([StepFrame([], 0)], 0, st.rec)
  }

  /** Frame `j + 1` belongs to a step frame `j` has already counted. */
  predicate Nested(frames: seq<StepFrame>, j: nat)
    requires j + 1 < |frames|
  {
    var path := frames[j + 1].path;
    frames[j].path < path && |path| == |frames[j].path| + 1 && path[|path| - 1] < frames[j].nextChildIndex
  }

  ghost predicate Stacked(frames: seq<StepFrame>) {
    && frames != [] && frames[0].path == []
    && forall j: nat {:trigger Nested(frames, j)} | j + 1 < |frames| :: Nested(frames, j)
  }

  /** Everything up to the cursor comes before the frame's next path. */
  ghost predicate AllBefore(t: seq<Key>, cursor: nat, f: StepFrame)
    requires cursor <= |t|
  {
    forall a | 0 <= a < cursor :: Before(t[a].path, NextPath(f))
  }

  ghost predicate Traced(t: seq<Key>, cursor: nat, path: seq<nat>)
    requires cursor <= |t|
  {
    path == [] || exists a :: 0 <= a < cursor && t[a].path == path
  }

  /** All entries up to the cursor come before whatever any open frame enters next. */
  ghost predicate Consumed(frames: seq<StepFrame>, cursor: nat, t: seq<Key>) {
    && cursor <= |t|
    && (forall f | f in frames :: AllBefore(t, cursor, f) && Traced(t, cursor, f.path))
  }

  ghost predicate Invariant(st: Client) {
    Stacked(st.frames) && WellShaped(st.rec.t) && Consumed(st.frames, st.cursor, st.rec.t)
  }

  lemma {:induction false} PathsNest(frames: seq<StepFrame>, j: nat, k: nat)
    requires Stacked(frames) && j <= k < |frames|
    ensures frames[j].path <= frames[k].path
    decreases k - j
  {
    if j < k {
      PathsNest(frames, j, k - 1);
      assert Nested(frames, k - 1);
    }
  }

  /** What is entered in the top frame comes before anything a lower frame enters later. */
  lemma InsideIsBeforeLower(frames: seq<StepFrame>, j: nat, q: seq<nat>)
    requires Stacked(frames) && j < |frames| - 1 && frames[|frames| - 1].path <= q
    ensures Before(q, NextPath(frames[j]))
  {
    PathsNest(frames, j + 1, |frames| - 1);
    assert Nested(frames, j);
    var path := frames[j + 1].path;
    var c := path[|path| - 1];
    assert path == frames[j].path + [c];
    BeforeLaterSibling(frames[j].path, c, frames[j].nextChildIndex, q);
  }

  /** After the top frame's counter moves on, the entered path and all in it come before every next path. */
  lemma EnteredIsBefore(frames: seq<StepFrame>, q: seq<nat>, f: StepFrame)
    requires Stacked(frames) && f in Advanced(frames) && NextPath(frames[|frames| - 1]) <= q
    ensures Before(q, NextPath(f))
  {
    var top := frames[|frames| - 1];
    var j :| 0 <= j < |frames| && Advanced(frames)[j] == f;
    if j == |frames| - 1 {
      BeforeLaterSibling(top.path, top.nextChildIndex, top.nextChildIndex + 1, q);
    } else {
      assert top.path <= NextPath(top);
      InsideIsBeforeLower(frames, j, q);
    }
  }

  lemma AdvanceKeeps(frames: seq<StepFrame>, cursor: nat, t: seq<Key>)
    requires Stacked(frames) && Consumed(frames, cursor, t)
    ensures Stacked(Advanced(frames)) && Consumed(Advanced(frames), cursor, t)
  {
    var top, last := frames[|frames| - 1], |frames| - 1;
    forall j: nat | j + 1 < |frames| ensures Nested(Advanced(frames), j) {
      assert Nested(frames, j);
    }
    forall f | f in Advanced(frames) ensures AllBefore(t, cursor, f) && Traced(t, cursor, f.path) {
      if f !in frames {
        assert f == StepFrame(top.path, top.nextChildIndex + 1) && top in frames;
        forall a | 0 <= a < cursor ensures Before(t[a].path, NextPath(f)) {
          BeforeLaterSibling(top.path, top.nextChildIndex, top.nextChildIndex + 1, NextPath(top));
          BeforeIsTransitive(t[a].path, NextPath(top), NextPath(f));
        }
      }
    }
  }

  /** Moving the cursor over entries at or under the entered path keeps all next paths ahead of it. */
  lemma ConsumeKeeps(frames: seq<StepFrame>, cursor: nat, end: nat, t: seq<Key>)
    requires Stacked(frames) && Consumed(Advanced(frames), cursor, t) && cursor <= end <= |t|
    requires forall a | cursor <= a < end :: NextPath(frames[|frames| - 1]) <= t[a].path
    ensures Consumed(Advanced(frames), end, t)
  {
    forall f | f in Advanced(frames) ensures AllBefore(t, end, f) && Traced(t, end, f.path) {
      assert AllBefore(t, cursor, f) && Traced(t, cursor, f.path);
      forall a | cursor <= a < end ensures Before(t[a].path, NextPath(f)) {
        EnteredIsBefore(frames, t[a].path, f);
      }
    }
  }

  /** The trace grows by a step that comes after all others and whose parent is open. */
  lemma AppendKeeps(st: Client, key: Key)
    requires Invariant(st) && st.cursor == |st.rec.t| && key.path == NextPath(Top(st))
    ensures WellShaped(st.rec.t + [key]) && Consumed(st.frames, st.cursor, st.rec.t + [key])
  {
    var t, t', top := st.rec.t, st.rec.t + [key], Top(st);
    assert top in st.frames;
    assert AllBefore(t, st.cursor, top) && Traced(t, st.cursor, top.path);
    forall b | 0 <= b < |t'| ensures HasParent(t', b) {
      if b < |t| {
        assert HasParent(t, b);
        assert t'[b] == t[b] && forall a | 0 <= a < b :: t'[a] == t[a];
      } else {
        assert key.path[..|key.path| - 1] == top.path;
        if top.path != [] {
          var a :| 0 <= a < st.cursor && t[a].path == top.path;
          assert t'[a].path == top.path;
        }
      }
    }
    forall f | f in st.frames ensures AllBefore(t', st.cursor, f) && Traced(t', st.cursor, f.path) {
      assert AllBefore(t, st.cursor, f) && Traced(t, st.cursor, f.path);
      if f.path != [] {
        var a :| 0 <= a < st.cursor && t[a].path == f.path;
        assert t'[a].path == f.path;
      }
    }
  }

  /** An opened frame: its step is the last entry consumed. */
  lemma PushKeeps(frames: seq<StepFrame>, cursor: nat, t: seq<Key>)
    requires Stacked(frames) && 0 < cursor <= |t| && Consumed(Advanced(frames), cursor, t) && Ascending(t)
    requires Stacked(Advanced(frames)) && t[cursor - 1].path == NextPath(frames[|frames| - 1])
    ensures var pushed := Advanced(frames) + [StepFrame(t[cursor - 1].path, 0)];
            Stacked(pushed) && Consumed(pushed, cursor, t)
  {
    var path := t[cursor - 1].path;
    var f := StepFrame(path, 0);
    var pushed := Advanced(frames) + [f];
    forall j: nat | j + 1 < |pushed| ensures Nested(pushed, j) {
      if j + 1 < |Advanced(frames)| {
        assert Nested(Advanced(frames), j);
      }
    }
    forall a | 0 <= a < cursor ensures Before(t[a].path, NextPath(f)) {
      AncestorIsBefore(path, path + [0]);
      if a < cursor - 1 {
        BeforeIsTransitive(t[a].path, path, path + [0]);
      }
    }
    assert AllBefore(t, cursor, f) && Traced(t, cursor, f.path);
    forall g | g in pushed ensures AllBefore(t, cursor, g) && Traced(t, cursor, g.path) {
      if g != f {
        assert g in Advanced(frames);
      }
    }
  }

  /** Every operation keeps the shape and only appends to the trace. */
  lemma ApplyKeeps(st: Client, op: Op)
    requires Invariant(st)
    ensures Invariant(Apply(st, op)) && st.rec.t <= Apply(st, op).rec.t
  {
    match op
    case Open(name) => OpenKeeps(st, name);
    case Close =>
      var frames := Apply(st, op).frames;
      forall j: nat | j + 1 < |frames| ensures Nested(frames, j) {
        assert Nested(st.frames, j);
      }
    case Change(rec) =>
    case Restart =>
  }

  lemma OpenKeeps(st: Client, name: string)
    requires Invariant(st)
    ensures Invariant(Apply(st, Open(name))) && st.rec.t <= Apply(st, Open(name)).rec.t
  {
    var key := Key(NextPath(Top(st)), name);
    if st.cursor == |st.rec.t| {
      AppendKeeps(st, key);
      EnteredKeeps(st, key, st.rec.(t := st.rec.t + [key]));
    } else if st.rec.t[st.cursor] == key {
      EnteredKeeps(st, key, st.rec);
    } else {
      AdvanceKeeps(st.frames, st.cursor, st.rec.t);
    }
  }

  /** The step at the cursor is the one just entered: it is skipped or becomes the current frame. */
  lemma EnteredKeeps(st: Client, key: Key, rec: Record)
    requires Stacked(st.frames) && key.path == NextPath(Top(st))
    requires st.cursor < |rec.t| && rec.t[st.cursor] == key
    requires WellShaped(rec.t) && Consumed(st.frames, st.cursor, rec.t)
    ensures var frames := Advanced(st.frames);
            Invariant(if HasStep(rec, key) then Client(frames, Skip(rec.t, key.path, st.cursor + 1), rec)
                      else Client(frames + [StepFrame(key.path, 0)], st.cursor + 1, rec))
  {
    AdvanceKeeps(st.frames, st.cursor, rec.t);
    if HasStep(rec, key) {
      SkipKeeps(st.frames, st.cursor, rec.t, key);
    } else {
      ConsumeKeeps(st.frames, st.cursor, st.cursor + 1, rec.t);
      PushKeeps(st.frames, st.cursor + 1, rec.t);
    }
  }

  lemma SkipKeeps(frames: seq<StepFrame>, cursor: nat, t: seq<Key>, key: Key)
    requires Stacked(frames) && Consumed(Advanced(frames), cursor, t)
    requires cursor < |t| && t[cursor] == key && key.path == NextPath(frames[|frames| - 1])
    ensures Consumed(Advanced(frames), Skip(t, key.path, cursor + 1), t)
  {
    var end := Skip(t, key.path, cursor + 1);
    forall a | cursor <= a < end ensures key.path <= t[a].path {
      if a > cursor {
        assert Inside(key.path, t[a]);
      }
    }
    ConsumeKeeps(frames, cursor, end, t);
  }

  /** A client's record after any operations, starting a job. */
  function Clients(ops: seq<Op>): (st: Client)
    ensures st.frames != [] && st.cursor <= |st.rec.t|
  {
    if ops == [] then Client([StepFrame([], 0)], 0, INITIAL)
    else
      var st := Clients(ops[..|ops| - 1]);
      ApplyIsSafe(st, ops[|ops| - 1]);
      Apply(st, ops[|ops| - 1])
  }

  lemma ApplyIsSafe(st: Client, op: Op)
    requires st.frames != [] && st.cursor <= |st.rec.t|
    ensures Apply(st, op).frames != [] && Apply(st, op).cursor <= |Apply(st, op).rec.t|
  {}

  /** Whatever clients do, the trace is only appended to, ascends depth-first and is closed under parents. */
  lemma {:induction false} TracesAreWellShaped(ops: seq<Op>, n: nat)
    requires n <= |ops|
    ensures Invariant(Clients(ops)) && Clients(ops[..n]).rec.t <= Clients(ops).rec.t
    decreases |ops|
  {
    if n == |ops| {
      assert ops[..n] == ops;
    }
    if ops != [] {
      var before := ops[..|ops| - 1];
      TracesAreWellShaped(before, if n < |ops| then n else 0);
      ApplyKeeps(Clients(before), ops[|ops| - 1]);
      if n < |ops| {
        assert before[..n] == ops[..n];
      }
    }
  }
}
