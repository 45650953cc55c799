/**
 * `ServiceClient`: the HTTP client every service uses to call another.
 *
 * The transport is abstracted as what came back from the call: either the
 * request raised (connection refused, timeout, ...) or a status code with a
 * body that may or may not decode as JSON.  `get` and `post` treat the
 * outcome identically, so one function models both.
 */
module ServiceClient {
  import opened Common
  import opened Json

  datatype Transport =
    | TransportError
    | Response(status: int, body: Option<Json>)

  /** `raise_for_status()` passes exactly the 2xx codes. */
  predicate IsSuccess(status: int)
  {
    200 <= status < 300
  }

  /**
   * `get`/`post`: the decoded body of a 2xx response; `None` for a raised
   * request, a non-2xx status or a body that is not JSON.
   */
  function Call(t: Transport): (r: Option<Json>)
    ensures r.Some? <==> t.Response? && IsSuccess(t.status) && t.body.Some?
    ensures r.Some? ==> r.value == t.body.value
  {
    match t
    case TransportError => None
    case Response(status, body) => if IsSuccess(status) then body else None
  }

  /**
   * From the caller's side every failure looks the same: a failed call is
   * indistinguishable from a 2xx whose body is not JSON, and every 2xx JSON
   * body, however empty, is passed on.
   */
  lemma FailuresCollapse(t: Transport)
    ensures Call(t).None? <==> Call(t) == Call(TransportError)
    ensures t.Response? && !IsSuccess(t.status) ==> Call(t) == Call(Response(200, None))
    ensures forall j: Json :: Call(Response(204, Some(j))) == Some(j)
  {
  }
}
