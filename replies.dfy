/** Server replies as the two pages see them, and the JavaScript `a || b`
    fallbacks that turn a rejected request into the text the page shows. */
module Replies {

  datatype Option<+T> = None | Some(value: T) {
    function GetOr(default: T): T {
      if Some? then value else default
    }
  }

  /** The JSON body of an error response; either field may be missing. */
  datatype ErrorBody = ErrorBody(message: Option<string>, error: Option<string>)

  /** A rejected request. `response` is None for a transport error (no
      response at all, or an exception thrown before the request left);
      `message` is the exception's own message. */
  datatype Failure = Failure(response: Option<ErrorBody>, message: string)

  /** The outcome of one request: the part of the response body the handler
      reads, or the rejection. */
  datatype Reply<+T> = Ok(payload: T) | Err(failure: Failure)

  /** JavaScript truthiness of a possibly missing string: "" is falsy. */
  predicate Truthy(v: Option<string>) {
    v.Some? && v.value != ""
  }

  /** `v || fallback` for a possibly missing string `v`. */
  function Or(v: Option<string>, fallback: string): (r: string)
    ensures Truthy(v) ==> r == v.value
    ensures !Truthy(v) ==> r == fallback
    ensures r == [] <==> !Truthy(v) && fallback == []
  {
    if Truthy(v) then v.value else fallback
  }

  /** `err.response?.data?.error || fallback` */
  function ServerError(f: Failure, fallback: string): (r: string)
    ensures f.response.Some? && Truthy(f.response.value.error) ==> r == f.response.value.error.value
    ensures f.response.None? || !Truthy(f.response.value.error) ==> r == fallback
  {
    Or(if f.response.Some? then f.response.value.error else None, fallback)
  }

  /** `err.response?.data?.message || err.message` */
  function ServerMessage(f: Failure): (r: string)
    ensures f.response.Some? && Truthy(f.response.value.message) ==> r == f.response.value.message.value
    ensures f.response.None? || !Truthy(f.response.value.message) ==> r == f.message
  {
    Or(if f.response.Some? then f.response.value.message else None, f.message)
  }
}
