/** Step keys in structured form: a tree path and a step name. */
module Keys {

  datatype Key = Key(path: seq<nat>, name: string)

  /** `k` is a proper descendant of the step at `path`. */
  predicate Inside(path: seq<nat>, k: Key) {
    path < k.path
  }

  /** `k` lies in the frame at `path`, under child number `i` or a later one. */
  predicate Below(path: seq<nat>, i: nat, k: Key) {
    path < k.path && k.path[|path|] >= i
  }

  /** The keys from child `i` on are: child `i` itself, what is inside it, and the later children. */
  lemma SplitBelow(path: seq<nat>, i: nat)
    ensures forall k :: Below(path, i, k) <==> k.path == path + [i] || Inside(path + [i], k) || Below(path, i + 1, k)
    ensures forall k :: Below(path, i + 1, k) ==> k.path != path + [i] && !Inside(path + [i], k)
    ensures forall k :: Inside(path + [i], k) <==> Below(path + [i], 0, k)
  {
    forall k: Key | Below(path, i, k) && k.path[|path|] == i
      ensures k.path == path + [i] || Inside(path + [i], k)
    {
      assert k.path[..|path| + 1] == path + [i];
    }
    forall k: Key | k.path == path + [i] || Inside(path + [i], k)
      ensures Below(path, i, k) && !Below(path, i + 1, k)
    {
      assert k.path[..|path|] == path && k.path[|path|] == i;
    }
  }
}
