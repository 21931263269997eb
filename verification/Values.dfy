/** JavaScript values a workflow can pass around, and the small option type used throughout. */
module Values {

  datatype Option<+T> = None | Some(value: T)

  type Bytes = seq<bv8>

  /** Bytes per element; the names are those of the serializer's `typedArrayNames`. */
  function ElementSize(constructorName: string): (size: nat)
    ensures size > 0
  {
    if constructorName in {"Int16Array", "Uint16Array"} then 2
    else if constructorName in {"Int32Array", "Uint32Array", "Float32Array"} then 4
    else if constructorName in {"Float64Array", "BigInt64Array", "BigUint64Array"} then 8
    else 1
  }

  const TYPED_ARRAY_NAMES: set<string> := {
    "Int8Array", "Uint8Array", "Uint8ClampedArray", "Int16Array", "Uint16Array", "Int32Array",
    "Uint32Array", "Float32Array", "Float64Array", "BigInt64Array", "BigUint64Array"
  }

  datatype RawTypedArray = RawTypedArray(constructorName: string, bytes: Bytes)

  /** A typed array holds a whole number of elements. */
  type TypedArray = t: RawTypedArray | |t.bytes| % ElementSize(t.constructorName) == 0
    witness RawTypedArray("Uint8Array", [])

  /**
   * A JavaScript value as a finite tree. `Date(None)` is an invalid date; `Opaque` stands for functions,
   * symbols, bigints and instances of classes the serializer does not know.
   */
  datatype JsValue =
    | Undefined
    | Null
    | Bool(b: bool)
    | Num(n: real)
    | Str(s: string)
    | Date(timestamp: Option<int>)
    | Buffer(bytes: Bytes)
    | ArrayBuffer(bytes: Bytes)
    | Typed(view: TypedArray)
    | DataView(bytes: Bytes)
    | Blob(bytes: Bytes, mime: string)
    | Opaque
    | Arr(items: seq<JsValue>)
    | Obj(fields: map<string, JsValue>)

  const ENVELOPE_MARKER := "__dozer_serialized__"

  /** No unsupported leaf anywhere in the tree. */
  predicate Supported(value: JsValue) {
    match value
    case Opaque => false
    case Date(timestamp) => timestamp.Some?
    case Typed(view) => view.constructorName in TYPED_ARRAY_NAMES
    case Arr(items) => forall i | 0 <= i < |items| :: Supported(items[i])
    case Obj(fields) => forall key | key in fields :: Supported(fields[key])
    case _ => true
  }

  /** No plain object in the tree holds a string under the envelope marker. */
  predicate MarkerFree(value: JsValue) {
    match value
    case Arr(items) => forall i | 0 <= i < |items| :: MarkerFree(items[i])
    case Obj(fields) =>
      && !(ENVELOPE_MARKER in fields && fields[ENVELOPE_MARKER].Str?)
      && forall key | key in fields :: MarkerFree(fields[key])
    case _ => true
  }

  /** The values steps, signals and workflows exchange: those that storing and loading does not alter. */
  type Value = value: JsValue | MarkerFree(value) witness Undefined
}
