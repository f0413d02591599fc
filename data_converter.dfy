/**
 * `SymfonySerializerDataConverter`: a Temporal payload converter that
 * encodes values as JSON through the Symfony serializer and records the
 * class of an encoded object in the payload metadata, so that decoding can
 * target that class again.
 */
module DataConverter {
  import opened Wrappers
  import opened Definitions
  import opened Effects
  import Php

  const EncodingKey := "encoding"                       // EncodingKeys::METADATA_ENCODING_KEY
  const EncodingJson := "json/plain"                    // EncodingKeys::METADATA_ENCODING_JSON
  const InputType := "symfony.serializer.type"
  const PreserveEmptyObjects := "preserve_empty_objects" // AbstractObjectNormalizer::PRESERVE_EMPTY_OBJECTS
  const TemporalNamespace := "Temporal\\"

  datatype Payload = Payload(metadata: map<string, string>, data: string)

  /** A Temporal `Type`: its name, `allowsNull()` and `isClass()`. */
  datatype Type = Type(name: string, allowsNull: bool, isClass: bool)

  /** The serializer's `serialize($value, 'json', $context)`. */
  type Serialize = (Value, map<string, bool>) -> Outcome<string>
  /** The serializer's `deserialize($data, $type, 'json')`. */
  type Deserialize = (string, string) -> Outcome<Value>
  /** The wrapped payload converter's `fromPayload` (a `JsonConverter` by default). */
  type Fallback = (Payload, Type) -> Outcome<Value>

  function GetEncodingType(): string {
    EncodingJson
  }

  /** Serializer exceptions become a DataConverterException with the same message and code. */
  function Rethrown<T>(o: Outcome<T>): (r: Outcome<T>)
    ensures o.Returned? ==> r == o
    ensures o.Threw? ==> r == Threw(Failure(DataConverterError, o.failure.message, o.failure.code))
  {
    match o
    case Returned(v) => Returned(v)
    case Threw(f) => Threw(Failure(DataConverterError, f.message, f.code))
  }

  function Metadata(value: Value): map<string, string> {
    if value.Obj? then map[EncodingKey := GetEncodingType(), InputType := value.className]
    else map[EncodingKey := GetEncodingType()]
  }

  function Context(value: Value): map<string, bool> {
    if value.Obj? && Php.StartsWith(value.className, TemporalNamespace) then map[PreserveEmptyObjects := true] else map[]
  }

  /**
   * `toPayload($value)`: the metadata always names the JSON encoding, and
   * names the class exactly when the value is an object; empty objects are
   * preserved exactly for Temporal's own classes.
   */
  function ToPayload(value: Value, serialize: Serialize): (r: Outcome<Payload>)
    ensures r.Returned? ==>
      && EncodingKey in r.value.metadata && r.value.metadata[EncodingKey] == EncodingJson
      && (InputType in r.value.metadata <==> value.Obj?)
      && (value.Obj? ==> r.value.metadata[InputType] == value.className)
      && r.value.metadata.Keys <= {EncodingKey, InputType}
    ensures (PreserveEmptyObjects in Context(value)) <==> value.Obj? && Php.StartsWith(value.className, TemporalNamespace)
    ensures serialize(value, Context(value)).Returned? ==> r == Returned(Payload(Metadata(value), serialize(value, Context(value)).value))
    ensures serialize(value, Context(value)).Threw? ==>
      r == Threw(Failure(DataConverterError, serialize(value, Context(value)).failure.message, serialize(value, Context(value)).failure.code))
  {
    match Rethrown(serialize(value, Context(value)))
    case Returned(data) => Returned(Payload(Metadata(value), data))
    case Threw(f) => Threw(f)
  }

  /** `$payload->getMetadata()[INPUT_TYPE] ?? null`. */
  function InputTypeOf(payload: Payload): Option<string> {
    if InputType in payload.metadata then Some(payload.metadata[InputType]) else None
  }

  /**
   * `fromPayload($payload, $type)`: the JSON `null` for a nullable type is
   * null; a non-class type without a recorded class goes to the wrapped
   * converter; anything else is deserialized into the recorded class, or the
   * type's name when none is recorded. `$inputType == null` is PHP's loose
   * test, so an empty recorded class counts as none there: a non-class type
   * then goes to the wrapped converter, while a class type is deserialized
   * into the empty class name, since `??` keeps the empty string.
   */
  function FromPayload(payload: Payload, t: Type, deserialize: Deserialize, fallback: Fallback): (r: Outcome<Value>)
    ensures payload.data == "null" && t.allowsNull ==> r == Returned(Null)
    ensures !(payload.data == "null" && t.allowsNull) && !t.isClass &&
              (InputType !in payload.metadata || payload.metadata[InputType] == "") ==>
      r == fallback(payload, t)
    ensures !(payload.data == "null" && t.allowsNull) && t.isClass &&
              InputType in payload.metadata && payload.metadata[InputType] == "" ==>
      r == Rethrown(deserialize(payload.data, ""))
    ensures !(payload.data == "null" && t.allowsNull) && InputType in payload.metadata && payload.metadata[InputType] != "" ==>
      r == Rethrown(deserialize(payload.data, payload.metadata[InputType]))
    ensures !(payload.data == "null" && t.allowsNull) && t.isClass && InputType !in payload.metadata ==>
      r == Rethrown(deserialize(payload.data, t.name))
  {
    if payload.data == "null" && t.allowsNull then Returned(Null)
    else
      var inputType := InputTypeOf(payload);
      if !t.isClass && NullishString(inputType) then fallback(payload, t)
      else Rethrown(deserialize(payload.data, inputType.GetOr(t.name)))
  }

  /**
   * Decoding what `toPayload` made of an object targets that object's class,
   * whatever the requested type, unless the data is the JSON `null` and the
   * type is nullable.
   */
  lemma ObjectRoundTrip(className: string, serialize: Serialize, t: Type, deserialize: Deserialize, fallback: Fallback)
    requires className != ""
    requires ToPayload(Obj(className), serialize).Returned?
    ensures var p := ToPayload(Obj(className), serialize).value;
      !(p.data == "null" && t.allowsNull) ==> FromPayload(p, t, deserialize, fallback) == Rethrown(deserialize(p.data, className))
  {
  }

  /** A non-object is decoded by the wrapped converter unless the type names a class. */
  lemma ScalarRoundTrip(value: Value, serialize: Serialize, t: Type, deserialize: Deserialize, fallback: Fallback)
    requires !value.Obj? && !t.isClass
    requires ToPayload(value, serialize).Returned?
    ensures var p := ToPayload(value, serialize).value;
      !(p.data == "null" && t.allowsNull) ==> FromPayload(p, t, deserialize, fallback) == fallback(p, t)
  {
  }
}
