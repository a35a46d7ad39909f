/** The JavaScript values the modelled code passes around: bytes and blobs,
    the values `JSON.parse` produces, the values a `catch` clause can receive,
    and the `x || fallback` idiom on strings. */
module Js {
  import opened Wrappers

  newtype byte = x: int | 0 <= x < 256

  /** A `Blob`: its bytes and its `type` property. */
  datatype Blob = Blob(bytes: seq<byte>, mimeType: string)
  {
    function Size(): nat
    {
      |bytes|
    }
  }

  /** A value `JSON.parse` can return. An object is a map, since `JSON.parse`
      keeps the last of repeated keys. */
  datatype Json =
    | JNull
    | JBool(b: bool)
    | JNumber(n: real)
    | JString(s: string)
    | JArray(items: seq<Json>)
    | JObject(members: map<string, Json>)

  /** `value.key` on a parsed value: `None` stands for `undefined`. */
  function Member(value: Json, key: string): Option<Json>
  {
    if value.JObject? && key in value.members then Some(value.members[key]) else None
  }

  /** A value received by `catch (error)`, as far as the handlers look at it:
      `null` (`isNull`) or `undefined`, another falsy value (`false`, `0`,
      `NaN`, `""`), or a truthy value whose `message` property is a string or
      is missing. */
  datatype Thrown = Nullish(isNull: bool) | Falsy | Value(message: Option<string>)

  /** The `TypeError` V8 throws for `value.message` when `value` is `null` or
      `undefined`: a truthy error whose message is longer than the name of
      the property it mentions. */
  function PropertyOfNullish(isNull: bool, property: string): (r: Thrown)
    ensures Truthy(r) && r.message.Some? && |r.message.value| > |property|
  {
    Value(Some("Cannot read properties of " + (if isNull then "null" else "undefined")
      + " (reading '" + property + "')"))
  }

  predicate Truthy(t: Thrown)
  {
    t.Value?
  }

  /** `error.message` placed in a template literal: the text `undefined`
      when the property is missing. Reading it from `null` or `undefined`
      throws instead, so that case is excluded. */
  function MessageText(t: Thrown): string
    requires !t.Nullish?
  {
    match t
    case Value(Some(m)) => m
    case _ => "undefined"
  }

  /** `s || fallback` where `s` is a string or `undefined`: the fallback
      replaces `undefined` and the empty string. The result is the fallback
      or the non-empty string itself, so it is never empty when the fallback
      is not. */
  function OrElse(s: Option<string>, fallback: string): (r: string)
    ensures r == fallback || (s == Some(r) && r != "")
    ensures fallback != "" ==> r != ""
  {
    if s.Some? && s.value != "" then s.value else fallback
  }

  /** `error.message || fallback` inside a `catch` clause, for a thrown value
      that is not `null` or `undefined` (reading `message` from those throws
      again instead). */
  function MessageOr(t: Thrown, fallback: string): (m: string)
    requires !t.Nullish?
    ensures m == fallback || (t.Value? && t.message == Some(m) && m != "")
  {
    OrElse(if t.Value? then t.message else None, fallback)
  }
}
