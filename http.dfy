/** Shared vocabulary of the route handlers: optional values, the reply a
    handler sends, and document ids as they arrive in a URL. */
module Http {

  datatype Option<T> = None | Some(value: T)

  /** What a handler sends back: a JSON body (`res.json`/`res.send`), or an
      HTTP status with the message(s) of its error body. */
  datatype Reply<T> = Ok(body: T) | Status(code: nat, messages: seq<string>)

  const BadRequest: nat := 400
  const Unauthorized: nat := 401
  const NotFound: nat := 404
  const ServerError: nat := 500

  /** The opaque reply of every `catch` block that is not a cast failure. */
  function ServerFault<T>(): Reply<T>
  {
    Status(ServerError, ["Server error"])
  }

  /** Identity of a user document, as resolved by the authentication middleware
      or stored in a reference field. */
  type UserId = nat

  /** A document id taken from a URL parameter: either it casts to an
      ObjectId, or the cast throws (a `CastError` of kind "ObjectId"). */
  datatype IdParam = ObjectId(id: nat) | NotAnObjectId
}
