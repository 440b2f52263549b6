/**
  Plain values shared by every component: timestamps, payloads and the JSON
  columns they are stored in.
*/
module Values {
  import opened Wrappers

  /** A point in time; every "now" of the source is a parameter of the model. */
  type Time = int

  /** A decoded payload: the associative array commands and events carry. */
  type Payload = map<string, string>

  /** The payload entry `$payload['title']`; a missing key reads as null. */
  function Title(p: Payload): (t: Option<string>)
    ensures t.Some? <==> "title" in p
    ensures t.Some? ==> t.value == p["title"]
  {
    if "title" in p then Some(p["title"]) else None
  }

  /** PHP's `empty()` on a string entry: null, "" and "0" are empty. */
  predicate IsEmptyValue(v: Option<string>)
  {
    v.None? || v.value == "" || v.value == "0"
  }

  /**
    A JSON (or serialize()) text column. Encoding is not modelled: a column
    holds the value it was encoded from, so decoding gives that value back.
  */
  datatype Encoded<T> = Encoded(decoded: T)

  function Encode<T>(x: T): Encoded<T>
  {
    Encoded(x)
  }

  function Decode<T>(e: Encoded<T>): T
  {
    e.decoded
  }
}
