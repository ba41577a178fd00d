/** Value types shared by the backend handlers and the client model: optional
    values, the reply every HTTP handler sends, and the claims a bearer token
    carries. */
module Common {

  datatype Option<T> = None | Some(value: T)

  /** What a handler sends back: a status with a JSON payload, or a status
      with the `{ error, details? }` body that every failure path uses. */
  datatype Reply<T> =
    | Success(status: nat, value: T)
    | Failure(status: nat, error: string, details: Option<string>)

  /** The payload signed into a token and attached to the request as `req.user`. */
  datatype Claims = Claims(userId: nat, email: string)

  /** Query parameters that the handlers parse as positive integers. */
  type Pos = n: nat | n >= 1 witness 1

  /** `req.user?.userId`. */
  function UserIdOf(user: Option<Claims>): Option<nat>
  {
    if user.Some? then Some(user.value.userId) else None
  }

  /** JavaScript truthiness of an optional numeric id: `undefined` and `0` are falsy. */
  predicate IdPresent(id: Option<nat>)
  {
    id.Some? && id.value != 0
  }

  /** JavaScript truthiness of an optional string: `undefined` and `""` are falsy. */
  predicate TextPresent(s: Option<string>)
  {
    s.Some? && s.value != ""
  }

  lemma MulMono(a: nat, b: nat, c: nat)
    requires a <= b
    ensures a * c <= b * c
  {
  }
}
