/** The serializer's walk over a graph of objects, with the set of objects on the current path. */
module ObjectGraph {
  import opened Values
  import opened Serializer

  /** Objects are known by their addresses; whatever is no array and no plain object is a leaf. */
  datatype Node =
    | Leaf(value: JsValue)
    | ArrayNode(items: seq<nat>)
    | ObjectNode(fields: map<string, nat>)

  type Heap = map<nat, Node>

  predicate Closed(heap: Heap) {
    forall address | address in heap ::
      match heap[address]
      case Leaf(value) => !value.Arr? && !value.Obj?
      case ArrayNode(items) => forall i | 0 <= i < |items| :: items[i] in heap
      case ObjectNode(fields) => forall key | key in fields :: fields[key] in heap
  }

  ghost predicate IsChild(heap: Heap, parent: nat, child: nat)
    requires parent in heap
  {
    match heap[parent]
    case Leaf(_) => false
    case ArrayNode(items) => child in items
    case ObjectNode(fields) => child in fields.Values
  }

  /** The tree seen from an address; an object already on the path is a value no serializer accepts. */
  function Unfold(heap: Heap, address: nat, path: set<nat>): JsValue
    requires Closed(heap) && address in heap && path <= heap.Keys
    decreases heap.Keys - path
  {
    match heap[address]
    case Leaf(value) => value
    case ArrayNode(items) =>
      if address in path then Opaque
      else Arr(seq(|items|, i requires 0 <= i < |items| => Unfold(heap, items[i], path + {address})))
    case ObjectNode(fields) =>
      if address in path then Opaque
      else Obj(map key | key in fields :: Unfold(heap, fields[key], path + {address}))
  }

  lemma EncodedFields(
    codec: Codec, heap: Heap, address: nat, path: set<nat>, fields: map<string, nat>, encoded: map<string, Json>)
    requires Closed(heap) && address in heap && heap[address] == ObjectNode(fields)
    requires address !in path && path <= heap.Keys && encoded.Keys == fields.Keys
    requires forall key | key in encoded ::
               Serialize(codec, Unfold(heap, fields[key], path + {address})) == Some(encoded[key])
    ensures Serialize(codec, Unfold(heap, address, path)) == Some(JObj(encoded))
  {
    assert Serialize(codec, Unfold(heap, address, path)).value.fields == encoded;
  }

  class GraphSerializer {
    const codec: Codec
    const heap: Heap
    var seen: set<nat>

    constructor (codec: Codec, heap: Heap)
      ensures this.codec == codec && this.heap == heap && seen == {}
    {
      this.codec, this.heap, seen := codec, heap, {};
    }

    /** Terminates on every finite heap, restores `seen`, and yields the encoding of the tree unfolding. */
    method SerializeInternal(address: nat) returns (result: Option<Json>)
      requires Closed(heap) && address in heap && seen <= heap.Keys
      modifies this
      ensures seen == old(seen)
      ensures result == Serialize(codec, Unfold(heap, address, old(seen)))
      decreases heap.Keys - seen
    {
      match heap[address]
      case Leaf(value) =>
        return Serialize(codec, value);
      case ArrayNode(items) =>
        if address in seen {
          return None;
        }
        result := SerializeArray(address, items);
      case ObjectNode(fields) =>
        if address in seen {
          return None;
        }
        result := SerializeObject(address, fields);
    }

    method SerializeArray(address: nat, items: seq<nat>) returns (result: Option<Json>)
      requires Closed(heap) && address in heap && heap[address] == ArrayNode(items)
      requires address !in seen && seen <= heap.Keys
      modifies this
      ensures seen == old(seen)
      ensures result == Serialize(codec, Unfold(heap, address, old(seen)))
      decreases heap.Keys - seen, 0
    {
      ghost var path := seen;
      seen := seen + {address};
      var serialized: seq<Json> := [];
      for index := 0 to |items|
        invariant seen == path + {address} && |serialized| == index
        invariant forall i | 0 <= i < index ::
            Serialize(codec, Unfold(heap, items[i], path + {address})) == Some(serialized[i])
      {
        var item := SerializeInternal(items[index]);
        if item.None? {
          assert Serialize(codec, Unfold(heap, address, path).items[index]).None?;
          seen := seen - {address};
          return None;
        }
        serialized := serialized + [item.value];
      }
      seen := seen - {address};
      assert Serialize(codec, Unfold(heap, address, path)).value.items == serialized;
      return Some(JArr(serialized));
    }

    method SerializeObject(address: nat, fields: map<string, nat>) returns (result: Option<Json>)
      requires Closed(heap) && address in heap && heap[address] == ObjectNode(fields)
      requires address !in seen && seen <= heap.Keys
      modifies this
      ensures seen == old(seen)
      ensures result == Serialize(codec, Unfold(heap, address, old(seen)))
      decreases heap.Keys - seen, 0
    {
      ghost var path := seen;
      seen := seen + {address};
      var serialized: map<string, Json> := map[];
      var keys := fields.Keys;
      while keys != {}
        invariant seen == path + {address} && keys <= fields.Keys && serialized.Keys == fields.Keys - keys
        invariant forall key | key in serialized ::
            Serialize(codec, Unfold(heap, fields[key], path + {address})) == Some(serialized[key])
      {
        var key :| key in keys;
        var entry := SerializeInternal(fields[key]);
        if entry.None? {
          assert Serialize(codec, Unfold(heap, address, path).fields[key]).None?;
          seen := seen - {address};
          return None;
        }
        serialized := serialized[key := entry.value];
        keys := keys - {key};
      }
      seen := seen - {address};
      EncodedFields(codec, heap, address, path, fields, serialized);
      return Some(JObj(serialized));
    }
  }

  // ---- When the walk succeeds

  ghost predicate IsWalk(heap: Heap, walk: seq<nat>) {
    && walk != [] && (forall i | 0 <= i < |walk| :: walk[i] in heap)
    && forall i | 0 <= i < |walk| - 1 :: IsChild(heap, walk[i], walk[i + 1])
  }

  ghost predicate Repeats(walk: seq<nat>) {
    exists i, j :: 0 <= i < j < |walk| && walk[i] == walk[j]
  }

  ghost predicate EndsUnsupported(heap: Heap, walk: seq<nat>)
    requires IsWalk(heap, walk)
  {
    var last := heap[walk[|walk| - 1]];
    last.Leaf? && !Supported(last.value)
  }

  /** A cycle or an unsupported leaf can be reached from here. */
  ghost predicate HasObstacle(heap: Heap, address: nat) {
    exists walk :: IsWalk(heap, walk) && walk[0] == address && (Repeats(walk) || EndsUnsupported(heap, walk))
  }

  /** A supported unfolding meets no object of the path, no object twice, and only supported leaves. */
  lemma {:induction false} SupportedWalks(heap: Heap, address: nat, path: set<nat>, walk: seq<nat>)
    requires Closed(heap) && address in heap && path <= heap.Keys
    requires Supported(Unfold(heap, address, path))
    requires IsWalk(heap, walk) && walk[0] == address
    ensures forall i | 0 <= i < |walk| :: walk[i] !in path || heap[walk[i]].Leaf?
    ensures !Repeats(walk) && !EndsUnsupported(heap, walk)
    decreases |walk|
  {
    if |walk| > 1 {
      var rest := walk[1..];
      assert IsChild(heap, walk[0], walk[1]);
      SupportedChild(heap, address, path, walk[1]);
      assert IsWalk(heap, rest) by {
        forall i | 0 <= i < |rest| - 1 ensures IsChild(heap, rest[i], rest[i + 1]) {
          assert IsChild(heap, walk[i + 1], walk[i + 2]);
        }
      }
      SupportedWalks(heap, walk[1], path + {address}, rest);
      forall i, j | 0 <= i < j < |walk| ensures walk[i] != walk[j] {
        assert walk[j] == rest[j - 1];
        if i > 0 {
          assert walk[i] == rest[i - 1];
        }
      }
      assert EndsUnsupported(heap, walk) == EndsUnsupported(heap, rest);
    }
  }

  lemma SupportedChild(heap: Heap, address: nat, path: set<nat>, child: nat)
    requires Closed(heap) && address in heap && path <= heap.Keys
    requires Supported(Unfold(heap, address, path)) && IsChild(heap, address, child)
    ensures address !in path && child in heap && Supported(Unfold(heap, child, path + {address}))
  {
    match heap[address]
    case ArrayNode(items) =>
      var i :| 0 <= i < |items| && items[i] == child;
      assert Supported(Unfold(heap, address, path).items[i]);
    case ObjectNode(fields) =>
      var key :| key in fields && fields[key] == child;
      assert Supported(Unfold(heap, address, path).fields[key]);
  }

  /** An unsupported unfolding leads to an obstacle; `walk` leads here over the objects of the path. */
  lemma {:induction false} UnsupportedWalk(heap: Heap, address: nat, path: set<nat>, walk: seq<nat>)
    requires Closed(heap) && address in heap && path <= heap.Keys
    requires !Supported(Unfold(heap, address, path))
    requires IsWalk(heap, walk) && walk[|walk| - 1] == address
    requires forall a :: a in path <==> a in walk[..|walk| - 1]
    ensures HasObstacle(heap, walk[0])
    decreases heap.Keys - path
  {
    if heap[address].Leaf? {
      assert EndsUnsupported(heap, walk);
    } else if address in path {
      var i :| 0 <= i < |walk| - 1 && walk[i] == address;
      assert Repeats(walk);
    } else {
      var child := UnsupportedChild(heap, address, path);
      var longer := walk + [child];
      forall i | 0 <= i < |longer| - 1 ensures IsChild(heap, longer[i], longer[i + 1]) {
        if i < |walk| - 1 {
          assert IsChild(heap, walk[i], walk[i + 1]);
        }
      }
      assert longer[..|longer| - 1] == walk == walk[..|walk| - 1] + [address];
      UnsupportedWalk(heap, child, path + {address}, longer);
    }
  }

  lemma UnsupportedChild(heap: Heap, address: nat, path: set<nat>) returns (child: nat)
    requires Closed(heap) && address in heap && path <= heap.Keys && address !in path
    requires !heap[address].Leaf? && !Supported(Unfold(heap, address, path))
    ensures IsChild(heap, address, child) && child in heap && !Supported(Unfold(heap, child, path + {address}))
  {
    match heap[address]
    case ArrayNode(items) =>
      var i :| 0 <= i < |items| && !Supported(Unfold(heap, address, path).items[i]);
      child := items[i];
    case ObjectNode(fields) =>
      var key :| key in fields && !Supported(Unfold(heap, address, path).fields[key]);
      child := fields[key];
  }

  /**
   * The walk succeeds exactly when neither a cycle nor an unsupported leaf can be reached; an object that is
   * merely shared is no obstacle.
   */
  lemma WalkSucceeds(codec: Codec, heap: Heap, address: nat)
    requires Closed(heap) && address in heap
    ensures Serialize(codec, Unfold(heap, address, {})).Some? <==> !HasObstacle(heap, address)
  {
    SerializeSucceedsOnSupported(codec, Unfold(heap, address, {}));
    if Supported(Unfold(heap, address, {})) {
      forall walk | IsWalk(heap, walk) && walk[0] == address
        ensures !Repeats(walk) && !EndsUnsupported(heap, walk)
      {
        SupportedWalks(heap, address, {}, walk);
      }
    } else {
      UnsupportedWalk(heap, address, {}, [address]);
    }
  }

  /** What the walk encodes does not depend on how an object was reached: it is the tree of its own children. */
  lemma {:induction false} UnfoldingIsLocal(heap: Heap, address: nat, path: set<nat>, less: set<nat>)
    requires Closed(heap) && address in heap && less <= path <= heap.Keys
    requires Supported(Unfold(heap, address, path))
    ensures Unfold(heap, address, less) == Unfold(heap, address, path)
    decreases heap.Keys - path
  {
    forall child | IsChild(heap, address, child)
      ensures Unfold(heap, child, less + {address}) == Unfold(heap, child, path + {address})
    {
      SupportedChild(heap, address, path, child);
      UnfoldingIsLocal(heap, child, path + {address}, less + {address});
    }
    SameChildrenUnfoldAlike(heap, address, path, less);
  }

  lemma SameChildrenUnfoldAlike(heap: Heap, address: nat, path: set<nat>, less: set<nat>)
    requires Closed(heap) && address in heap && path <= heap.Keys && less <= heap.Keys
    requires (address in path <==> address in less) || heap[address].Leaf?
    requires forall child | IsChild(heap, address, child) ::
               Unfold(heap, child, less + {address}) == Unfold(heap, child, path + {address})
    ensures Unfold(heap, address, less) == Unfold(heap, address, path)
  {
    match heap[address]
    case Leaf(_) =>
    case ArrayNode(items) => assert forall i | 0 <= i < |items| :: IsChild(heap, address, items[i]);
    case ObjectNode(fields) => assert forall key | key in fields :: IsChild(heap, address, fields[key]);
  }
}
