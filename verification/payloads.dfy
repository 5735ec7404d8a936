/** Payload encoding on publish (src/EventBus.ts:52-54). */
module Payloads {

  /** A value handed to `emit`: either already a string or any other value,
      whose type is left abstract. */
  datatype Payload<V> = Text(text: string) | Value(value: V)

  /** The wire form of a payload. Strings are sent unchanged; every other
      value goes through `serialize`, which stands for `JSON.stringify` and is
      not interpreted here. */
  function Encode<V>(payload: Payload<V>, serialize: V -> string): (wire: string)
    ensures payload.Text? ==> wire == payload.text
    ensures payload.Value? ==> wire == serialize(payload.value)
  {
    match payload
    case Text(s) => s
    case Value(v) => serialize(v)
  }

  /** The wire form does not record which branch produced it: a non-string
      value arrives as the same string as the text of its serialization, so a
      receiving callback gets a string either way and cannot tell them
      apart. */
  lemma WireFormForgetsKind<V>(v: V, serialize: V -> string)
    ensures Encode(Value(v), serialize) == Encode(Text(serialize(v)), serialize)
  {
  }
}
