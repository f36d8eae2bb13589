/**
 * Small shared vocabulary: optional values, the outcome of one awaited
 * remote call, and the truthiness tests the client code applies to ids.
 */
module Base {

  datatype Option<+T> = None | Some(value: T) {
    function GetOr(default: T): T {
      if Some? then value else default
    }
  }

  /** What one awaited call of the client's API wrappers yields: the parsed
      body when the response was ok, a thrown error otherwise (no retry).
      A thrown `Error` carries its message; `None` is anything else thrown. */
  datatype Remote<+T> = Ok(value: T) | Err(message: Option<string>)

  /** The server's reply to one request: a body with a success status, an
      error text with an error status, or 404 from a failed object lookup. */
  datatype Response<+T> = Reply(status: int, body: T) | Refused(status: int, error: string) | NotFound

  /** JavaScript truthiness of a `string | null` value: null and "" are falsy. */
  predicate Truthy(s: Option<string>) {
    s.Some? && s.value != ""
  }
}
