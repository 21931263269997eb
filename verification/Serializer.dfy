/** The recursive encode/decode pair of the value serializer, with its in-band envelopes. */
module Serializer {
  import opened Values

  /** What ends up in the job record: nothing but JSON. */
  datatype Json =
    | JNull
    | JBool(b: bool)
    | JNum(n: real)
    | JStr(s: string)
    | JArr(items: seq<Json>)
    | JObj(fields: map<string, Json>)

  /** Base64 and ISO-8601 text conversion, which the platform supplies. */
  datatype Codec = Codec(
    toBase64: Bytes -> string, fromBase64: string -> Bytes,
    toIso: int -> string, fromIso: string -> Option<int>)

  ghost predicate Faithful(codec: Codec) {
    && (forall bytes :: codec.fromBase64(codec.toBase64(bytes)) == bytes)
    && (forall timestamp :: codec.fromIso(codec.toIso(timestamp)) == Some(timestamp))
  }

  function Envelope(kind: string): map<string, Json> {
    map[ENVELOPE_MARKER := JStr(kind)]
  }

  /** `serializeInternal` on a tree; `None` is a `SerializationError`. */
  function Serialize(codec: Codec, value: JsValue): Option<Json> {
    match value
    case Undefined => Some(JObj(Envelope("undefined")))
    case Null => Some(JNull)
    case Bool(b) => Some(JBool(b))
    case Num(n) => Some(JNum(n))
    case Str(s) => Some(JStr(s))
    case Opaque => None
    case Buffer(bytes) => Some(JObj(Envelope("buffer")["v" := JStr(codec.toBase64(bytes))]))
    case Date(None) => None
    case Date(Some(timestamp)) => Some(JObj(Envelope("date")["v" := JStr(codec.toIso(timestamp))]))
    case Blob(bytes, mime) =>
      Some(JObj(Envelope("blob")["v" := JStr(codec.toBase64(bytes))]["m" := JStr(mime)]))
    case ArrayBuffer(bytes) => Some(JObj(Envelope("array-buffer")["v" := JStr(codec.toBase64(bytes))]))
    case DataView(bytes) => Some(JObj(Envelope("data-view")["v" := JStr(codec.toBase64(bytes))]))
    case Typed(view) =>
      if view.constructorName !in TYPED_ARRAY_NAMES then None
      else Some(JObj(Envelope("typed-array")["c" := JStr(view.constructorName)]
                                            ["v" := JStr(codec.toBase64(view.bytes))]))
    case Arr(items) =>
      if forall i | 0 <= i < |items| :: Serialize(codec, items[i]).Some? then
        Some(JArr(seq(|items|, i requires 0 <= i < |items| => Serialize(codec, items[i]).value)))
      else None
    case Obj(fields) =>
      if forall key | key in fields :: Serialize(codec, fields[key]).Some? then
        Some(JObj(map key | key in fields :: Serialize(codec, fields[key]).value))
      else None
  }

  predicate IsSerializedEnvelope(fields: map<string, Json>) {
    ENVELOPE_MARKER in fields && fields[ENVELOPE_MARKER].JStr?
  }

  /** `value.v ?? ''` and its siblings; `None` is a field of another type. */
  function TextField(fields: map<string, Json>, name: string): Option<string> {
    if name !in fields || fields[name].JNull? then Some("")
    else if fields[name].JStr? then Some(fields[name].s)
    else None
  }

  /** `deserializeEnvelope`; `None` is an error. */
  function DeserializeEnvelope(codec: Codec, fields: map<string, Json>): Option<JsValue>
    requires IsSerializedEnvelope(fields)
  {
    var kind := fields[ENVELOPE_MARKER].s;
    if kind == "undefined" then Some(Undefined)
    else match TextField(fields, "v")
      case None => None
      case Some(text) =>
        if kind == "date" then
          var timestamp := codec.fromIso(text);
          if timestamp.None? then None else Some(Date(timestamp))
        else if kind == "array-buffer" then Some(ArrayBuffer(codec.fromBase64(text)))
        else if kind == "buffer" then Some(Buffer(codec.fromBase64(text)))
        else if kind == "typed-array" then DeserializeTypedArray(codec, TextField(fields, "c"), text)
        else if kind == "data-view" then Some(DataView(codec.fromBase64(text)))
        else if kind == "blob" then
          var mime := TextField(fields, "m");
          if mime.None? then None else Some(Blob(codec.fromBase64(text), mime.value))
        else None
  }

  function DeserializeTypedArray(codec: Codec, constructorName: Option<string>, text: string): Option<JsValue> {
    if constructorName.None? || constructorName.value !in TYPED_ARRAY_NAMES then None
    else
      var bytes := codec.fromBase64(text);
      if |bytes| % ElementSize(constructorName.value) != 0 then None
      else Some(Typed(RawTypedArray(constructorName.value, bytes)))
  }

  /** `deserializeInternal`; `None` is an error. */
  function Deserialize(codec: Codec, json: Json): Option<JsValue> {
    match json
    case JNull => Some(Null)
    case JBool(b) => Some(Bool(b))
    case JNum(n) => Some(Num(n))
    case JStr(s) => Some(Str(s))
    case JArr(items) =>
      if forall i | 0 <= i < |items| :: Deserialize(codec, items[i]).Some? then
        Some(Arr(seq(|items|, i requires 0 <= i < |items| => Deserialize(codec, items[i]).value)))
      else None
    case JObj(fields) =>
      if IsSerializedEnvelope(fields) then DeserializeEnvelope(codec, fields)
      else if forall key | key in fields :: Deserialize(codec, fields[key]).Some? then
        Some(Obj(map key | key in fields :: Deserialize(codec, fields[key]).value))
      else None
  }

  /** `deserializeInternal` as written: it fills an array or a record entry by entry. */
  method DeserializeInternal(codec: Codec, json: Json) returns (result: Option<JsValue>)
    ensures result == Deserialize(codec, json)
    decreases json
  {
    match json
    case JArr(items) =>
      var deserialized: seq<JsValue> := [];
      for i := 0 to |items|
        invariant |deserialized| == i
        invariant forall j | 0 <= j < i :: Deserialize(codec, items[j]) == Some(deserialized[j])
      {
        var item := DeserializeInternal(codec, items[i]);
        if item.None? {
          return None;
        }
        deserialized := deserialized + [item.value];
      }
      assert Deserialize(codec, json).value.items == deserialized;
      return Some(Arr(deserialized));
    case JObj(fields) =>
      if IsSerializedEnvelope(fields) {
        return DeserializeEnvelope(codec, fields);
      }
      var deserialized: map<string, JsValue> := map[];
      var keys := fields.Keys;
      while keys != {}
        invariant keys <= fields.Keys && deserialized.Keys == fields.Keys - keys
        invariant forall key | key in deserialized :: Deserialize(codec, fields[key]) == Some(deserialized[key])
      {
        var key :| key in keys;
        var entry := DeserializeInternal(codec, fields[key]);
        if entry.None? {
          return None;
        }
        deserialized, keys := deserialized[key := entry.value], keys - {key};
      }
      assert Deserialize(codec, json).value.fields == deserialized;
      return Some(Obj(deserialized));
    case _ =>
      return Deserialize(codec, json);
  }

  lemma {:induction false} SerializeSucceedsOnSupported(codec: Codec, value: JsValue)
    ensures Serialize(codec, value).Some? <==> Supported(value)
  {
    match value
    case Arr(items) =>
      forall i | 0 <= i < |items| { SerializeSucceedsOnSupported(codec, items[i]); }
    case Obj(fields) =>
      forall key | key in fields { SerializeSucceedsOnSupported(codec, fields[key]); }
    case _ =>
  }

  /** So a plain object turns into an envelope only if it already held a string under the marker. */
  lemma OnlyStringsEncodeToStrings(codec: Codec, value: JsValue)
    requires Serialize(codec, value).Some?
    ensures Serialize(codec, value).value.JStr? <==> value.Str?
  {}

  /** Decoding what was encoded gives back the value exactly when no object imitates an envelope. */
  lemma {:induction false} RoundTrip(codec: Codec, value: JsValue)
    requires Faithful(codec) && Supported(value)
    ensures Serialize(codec, value).Some?
    ensures Deserialize(codec, Serialize(codec, value).value) == Some(value) <==> MarkerFree(value)
    decreases value, 1
  {
    SerializeSucceedsOnSupported(codec, value);
    match value
    case Arr(_) => RoundTripArray(codec, value);
    case Obj(_) => RoundTripObject(codec, value);
    case _ => RoundTripLeaf(codec, value);
  }

  lemma RoundTripLeaf(codec: Codec, value: JsValue)
    requires Faithful(codec) && Supported(value) && !value.Arr? && !value.Obj? && Serialize(codec, value).Some?
    ensures Deserialize(codec, Serialize(codec, value).value) == Some(value)
  {
    var json := Serialize(codec, value).value;
    if json.JObj? {
      assert IsSerializedEnvelope(json.fields);
      RoundTripEnvelope(codec, value, json.fields);
    }
  }

  lemma RoundTripEnvelope(codec: Codec, value: JsValue, fields: map<string, Json>)
    requires Faithful(codec) && Supported(value) && !value.Arr? && !value.Obj?
    requires Serialize(codec, value) == Some(JObj(fields)) && IsSerializedEnvelope(fields)
    ensures DeserializeEnvelope(codec, fields) == Some(value)
  {
    match value
    case Typed(view) => assert TextField(fields, "v") == Some(codec.toBase64(view.bytes));
    case _ =>
  }

  lemma {:induction false} RoundTripArray(codec: Codec, value: JsValue)
    requires Faithful(codec) && Supported(value) && value.Arr? && Serialize(codec, value).Some?
    ensures Deserialize(codec, Serialize(codec, value).value) == Some(value) <==> MarkerFree(value)
    decreases value, 0
  {
    var encoded := Serialize(codec, value).value.items;
    forall i | 0 <= i < |value.items|
      ensures Deserialize(codec, encoded[i]) == Some(value.items[i]) <==> MarkerFree(value.items[i])
    {
      RoundTrip(codec, value.items[i]);
    }
    var decoded := Deserialize(codec, JArr(encoded));
    if decoded == Some(value) {
      forall i | 0 <= i < |value.items| ensures MarkerFree(value.items[i]) {
        assert decoded.value.items[i] == value.items[i];
      }
    }
    if MarkerFree(value) {
      assert decoded.Some? && decoded.value.items == value.items;
    }
  }

  lemma {:induction false} RoundTripObject(codec: Codec, value: JsValue)
    requires Faithful(codec) && Supported(value) && value.Obj? && Serialize(codec, value).Some?
    ensures Deserialize(codec, Serialize(codec, value).value) == Some(value) <==> MarkerFree(value)
    decreases value, 0
  {
    var encoded := Serialize(codec, value).value.fields;
    assert encoded.Keys == value.fields.Keys;
    forall key | key in value.fields
      ensures Deserialize(codec, encoded[key]) == Some(value.fields[key]) <==> MarkerFree(value.fields[key])
      ensures encoded[key].JStr? <==> value.fields[key].Str?
    {
      OnlyStringsEncodeToStrings(codec, value.fields[key]);
      RoundTrip(codec, value.fields[key]);
    }
    DecodedObject(codec, encoded, value.fields);
  }

  /** An object comes back if it is no envelope and its fields come back. */
  lemma DecodedObject(codec: Codec, encoded: map<string, Json>, fields: map<string, JsValue>)
    requires encoded.Keys == fields.Keys
    requires forall key | key in fields ::
               Deserialize(codec, encoded[key]) == Some(fields[key]) <==> MarkerFree(fields[key])
    requires forall key | key in fields :: encoded[key].JStr? <==> fields[key].Str?
    ensures Deserialize(codec, JObj(encoded)) == Some(Obj(fields)) <==> MarkerFree(Obj(fields))
  {
    if IsSerializedEnvelope(encoded) {
      EnvelopesAreNoObjects(codec, encoded);
    } else {
      DecodedFields(codec, encoded, fields);
    }
  }

  lemma EnvelopesAreNoObjects(codec: Codec, fields: map<string, Json>)
    requires IsSerializedEnvelope(fields)
    ensures var value := DeserializeEnvelope(codec, fields); value.Some? ==> !value.value.Obj?
  {}

  /** An object that is no envelope decodes field by field. */
  lemma DecodedFields(codec: Codec, encoded: map<string, Json>, fields: map<string, JsValue>)
    requires encoded.Keys == fields.Keys && !IsSerializedEnvelope(encoded)
    ensures Deserialize(codec, JObj(encoded)) == Some(Obj(fields))
            <==> forall key | key in fields :: Deserialize(codec, encoded[key]) == Some(fields[key])
  {
    var decoded := Deserialize(codec, JObj(encoded));
    if decoded == Some(Obj(fields)) {
      forall key | key in fields ensures Deserialize(codec, encoded[key]) == Some(fields[key]) {
        assert decoded.value.fields[key] == fields[key];
      }
    }
    if forall key | key in fields :: Deserialize(codec, encoded[key]) == Some(fields[key]) {
      assert decoded.Some? && decoded.value.fields == fields;
    }
  }

  /** What replay reads back is what the step returned. */
  lemma ReplayReadsWhatWasStored(codec: Codec, value: Value)
    requires Faithful(codec) && Supported(value)
    ensures Serialize(codec, value).Some? && Deserialize(codec, Serialize(codec, value).value) == Some(value)
  {
    RoundTrip(codec, value);
  }

  /** An object that imitates an envelope is stored, and read back as something else: here as `undefined`. */
  lemma ImitationIsMisread(codec: Codec)
    ensures var imitation := Obj(map[ENVELOPE_MARKER := Str("undefined")]);
            && Supported(imitation) && !MarkerFree(imitation) && Serialize(codec, imitation).Some?
            && Deserialize(codec, Serialize(codec, imitation).value) == Some(Undefined) != Some(imitation)
  {
    var fields := map[ENVELOPE_MARKER := Str("undefined")];
    assert Serialize(codec, fields[ENVELOPE_MARKER]) == Some(JStr("undefined"));
    assert Serialize(codec, Obj(fields)).value.fields[ENVELOPE_MARKER] == JStr("undefined");
  }

  // ---- The stored text

  /** The leaves the serializer refuses. */
  predicate Refused(value: JsValue) {
    || value.Opaque? || value == Date(None)
    || (value.Typed? && value.view.constructorName !in {
          "Int8Array", "Uint8Array", "Uint8ClampedArray", "Int16Array", "Uint16Array", "Int32Array",
          "Uint32Array", "Float32Array", "Float64Array", "BigInt64Array", "BigUint64Array"})
  }

  /** The stored form of a leaf that is not refused, field by field. */
  function StoredForm(codec: Codec, value: JsValue): Json {
    match value
    case Undefined => JObj(map["__dozer_serialized__" := JStr("undefined")])
    case Bool(b) => JBool(b)
    case Num(n) => JNum(n)
    case Str(s) => JStr(s)
    case Date(Some(timestamp)) =>
      JObj(map["__dozer_serialized__" := JStr("date"), "v" := JStr(codec.toIso(timestamp))])
    case Buffer(bytes) => JObj(map["__dozer_serialized__" := JStr("buffer"), "v" := JStr(codec.toBase64(bytes))])
    case ArrayBuffer(bytes) =>
      JObj(map["__dozer_serialized__" := JStr("array-buffer"), "v" := JStr(codec.toBase64(bytes))])
    case DataView(bytes) =>
      JObj(map["__dozer_serialized__" := JStr("data-view"), "v" := JStr(codec.toBase64(bytes))])
    case Blob(bytes, mime) =>
      JObj(map["__dozer_serialized__" := JStr("blob"), "v" := JStr(codec.toBase64(bytes)), "m" := JStr(mime)])
    case Typed(view) =>
      JObj(map["__dozer_serialized__" := JStr("typed-array"), "c" := JStr(view.constructorName),
               "v" := JStr(codec.toBase64(view.bytes))])
    case _ => JNull
  }

  /** What leaves are stored as: other processes, and later versions, read these. */
  lemma StoredForms(codec: Codec, value: JsValue)
    requires !value.Arr? && !value.Obj?
    ensures Serialize(codec, value) == if Refused(value) then None else Some(StoredForm(codec, value))
  {}

  /** Reading is lenient about fields that are absent or `null`, and refuses every kind it does not know. */
  lemma LenientEnvelopes(codec: Codec, fields: map<string, Json>, kind: string)
    requires ENVELOPE_MARKER in fields && fields[ENVELOPE_MARKER] == JStr(kind)
    ensures kind !in {"undefined", "date", "array-buffer", "buffer", "typed-array", "data-view", "blob"} ==>
              DeserializeEnvelope(codec, fields) == None
    ensures kind == "undefined" ==> DeserializeEnvelope(codec, fields) == Some(Undefined)
    ensures "v" !in fields || fields["v"].JNull? ==>
              DeserializeEnvelope(codec, fields) == DeserializeEnvelope(codec, fields["v" := JStr("")])
    ensures "m" !in fields || fields["m"].JNull? ==>
              DeserializeEnvelope(codec, fields) == DeserializeEnvelope(codec, fields["m" := JStr("")])
    ensures kind == "typed-array" && ("c" in fields ==> fields["c"].JNull?) ==>
              DeserializeEnvelope(codec, fields) == None
    ensures kind != "undefined" && "v" in fields && !fields["v"].JNull? && !fields["v"].JStr? ==>
              DeserializeEnvelope(codec, fields) == None
  {}

  /** Bytes are read as a typed array exactly if its kind is known and they are a whole number of its elements. */
  lemma WholeElements(codec: Codec, name: string, text: string)
    ensures var n := |codec.fromBase64(text)|;
            DeserializeTypedArray(codec, Some(name), text).Some?
            <==> || name in {"Int8Array", "Uint8Array", "Uint8ClampedArray"}
                 || (name in {"Int16Array", "Uint16Array"} && n % 2 == 0)
                 || (name in {"Int32Array", "Uint32Array", "Float32Array"} && n % 4 == 0)
                 || (name in {"Float64Array", "BigInt64Array", "BigUint64Array"} && n % 8 == 0)
  {}

  /** One element or field that cannot be read makes the whole unreadable. */
  lemma FailuresPropagate(codec: Codec, items: seq<Json>, fields: map<string, Json>)
    requires !IsSerializedEnvelope(fields)
    ensures Deserialize(codec, JArr(items)).Some? <==> forall i | 0 <= i < |items| :: Deserialize(codec, items[i]).Some?
    ensures Deserialize(codec, JObj(fields)).Some?
            <==> forall key | key in fields :: Deserialize(codec, fields[key]).Some?
  {}
}
