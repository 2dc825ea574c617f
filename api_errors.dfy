/** How the frontend actions turn a failed request into the message they
    store: the server's `message` when the response carries a non-empty
    one, otherwise the action's own default. */
module ApiErrors {
  import opened Wrappers

  /** The response of a failed request: its status and `data.message`. */
  datatype Response = Response(status: int, message: Option<string>)

  /** A failed request; `None` when no response came back at all. */
  datatype ApiError = ApiError(response: Option<Response>)

  /** The server's message, when there is a non-empty one. */
  function ServerMessage(e: ApiError): Option<string> {
    if e.response.Some? && e.response.value.message.Some? && e.response.value.message.value != ""
    then e.response.value.message
    else None
  }

  /** The message the generic catch block stores. */
  function ShownMessage(e: ApiError, fallback: string): (m: string)
    ensures ServerMessage(e).None? ==> m == fallback
    ensures ServerMessage(e).Some? ==> m == ServerMessage(e).value && m != ""
  {
    match ServerMessage(e)
    case None => fallback
    case Some(s) => s
  }
}
