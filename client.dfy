/** What the client stores receive from the API client: a request either
    succeeds with the response body or fails, maybe with the `detail` the
    backend put in its error body. */
module Client {
  import opened Common

  /** The outcome of one awaited request. */
  datatype Response<+T> = Success(data: T) | Failure(detail: Option<string>)

  /** How an action's promise settles: with its value, or by rethrowing
      the request's error. */
  datatype Settled<+T> = Resolved(value: T) | Rejected(detail: Option<string>)

  /** `err.response?.data?.detail || fallback`: the backend's detail when
      it is a non-empty string, the action's own message otherwise. */
  function ErrorMessage(detail: Option<string>, fallback: string): (m: string)
    ensures Truthy(detail) ==> m == detail.value
    ensures !Truthy(detail) ==> m == fallback
    ensures fallback != "" ==> m != ""
  {
    if Truthy(detail) then detail.value else fallback
  }
}
