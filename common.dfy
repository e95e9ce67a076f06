/** Small shared vocabulary: optional request values, JavaScript truthiness of
    strings, and the two shapes every handler answers with. */
module Common {

  /** Document identities; the store hands out fresh ones. */
  type Id = nat

  datatype Option<+T> = None | Some(value: T)

  /** A request field that was sent and is not the empty string: the test
      `if (field)` applies to a string in JavaScript. */
  predicate Truthy(o: Option<string>) {
    o.Some? && o.value != ""
  }

  /** `o || fallback` on an optional string. */
  function OrElse(o: Option<string>, fallback: string): (r: string)
    ensures Truthy(o) ==> r == o.value
    ensures !Truthy(o) ==> r == fallback
  {
    if Truthy(o) then o.value else fallback
  }

  /** What a handler sends: a success body with its HTTP status, or
      `{ success: false, error: message }` with its HTTP status. */
  datatype Response<+T> =
    | Success(code: int, body: T)
    | Failure(code: int, message: string)
}
