/**
 * How the client turns a failed request into one message:
 * `response.data.message || response.data.errors[0].msg || fallback`, where
 * `||` skips the empty string as well as a missing value.
 */
module ClientErrors {
  import opened Wrappers
  import Http

  /** `error.response.data` as far as the client reads it: the message and the `msg` of each listed error. */
  datatype ErrorData = ErrorData(message: Option<string>, errors: seq<string>)

  predicate Truthy(v: Option<string>) {
    v.Some? && v.value != ""
  }

  /** `response` is `None` when the request got no response at all. */
  function Describe(response: Option<ErrorData>, fallback: string): (msg: string)
    ensures response.Some? && Truthy(response.value.message) ==> msg == response.value.message.value
    ensures (response.Some? && !Truthy(response.value.message) && |response.value.errors| > 0
             && response.value.errors[0] != "") ==> msg == response.value.errors[0]
    ensures msg == fallback || (response.Some? && (Some(msg) == response.value.message
                                                   || (|response.value.errors| > 0 && msg == response.value.errors[0])))
    ensures fallback != "" ==> msg != ""
  {
    if response.None? then fallback
    else if Truthy(response.value.message) then response.value.message.value
    else if |response.value.errors| > 0 && response.value.errors[0] != "" then response.value.errors[0]
    else fallback
  }

  function Messages(errs: seq<Http.FieldError>): (msgs: seq<string>)
    ensures |msgs| == |errs| && forall i :: 0 <= i < |errs| ==> msgs[i] == errs[i].msg
  {
    if errs == [] then [] else [errs[0].msg] + Messages(errs[1..])
  }

  /** The body the client receives for a server failure response. */
  function FromServer<T>(r: Http.Response<T>): (d: ErrorData)
    requires !r.Success?
  {
    match r
    case Invalid(errs) => ErrorData(None, Messages(errs))
    case Failure(_, m) => ErrorData(Some(m), [])
  }

  /**
   * End to end: a server message is shown verbatim, a validation failure
   * shows its first error's message, and only an empty message falls back.
   */
  lemma ShowsServerReason<T>(r: Http.Response<T>, fallback: string)
    requires !r.Success?
    ensures r.Failure? && r.message != "" ==> Describe(Some(FromServer(r)), fallback) == r.message
    ensures r.Invalid? && |r.errors| > 0 && r.errors[0].msg != "" ==>
      Describe(Some(FromServer(r)), fallback) == r.errors[0].msg
    ensures r.Invalid? && r.errors == [] ==> Describe(Some(FromServer(r)), fallback) == fallback
  {
  }
}
