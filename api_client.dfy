/** The shared REST client's interceptors: the request interceptor attaches
    the stored bearer token, and the response interceptor passes successes
    through and turns every failure into one error message, clearing the stored
    session on HTTP 401. */
module ApiClient {
  import opened Js
  import opened Storage

  const TimeoutCode := "ECONNABORTED"
  const TimeoutMessage := "Request timeout. Please check your connection."
  const NetworkFallbackMessage := "Network error. Please check your internet connection."
  const GenericMessage := "An error occurred. Please try again."
  const AuthorizationHeader := "Authorization"

  /** The parts of an error response the interceptor reads; `dataMessage` is
      `response.data?.message`, absent when the body or its `message` is null
      or undefined. */
  datatype ErrorResponse = ErrorResponse(status: int, statusText: Option<string>, dataMessage: Option<string>)

  /** A failed request: the transport error code and message, and the
      response when the server answered at all. */
  datatype HttpError = HttpError(code: Option<string>, message: Option<string>, response: Option<ErrorResponse>)

  /** The message when no response arrived: the timeout text for an aborted
      request, else the error's own message unless it is empty or missing. */
  function NetworkErrorMessage(e: HttpError): (m: string)
    ensures e.code == Some(TimeoutCode) ==> m == TimeoutMessage
    ensures e.code != Some(TimeoutCode) && Truthy(e.message) ==> m == e.message.value
    ensures e.code != Some(TimeoutCode) && !Truthy(e.message) ==> m == NetworkFallbackMessage
  {
    if e.code == Some(TimeoutCode) then TimeoutMessage
    else OrElse(e.message, NetworkFallbackMessage)
  }

  /** `data?.message ?? statusText ?? error.message ?? generic`: the first of
      the three that is not null or undefined, an empty string included. */
  function ResponseErrorMessage(r: ErrorResponse, message: Option<string>): (m: string)
    ensures r.dataMessage.Some? ==> m == r.dataMessage.value
    ensures r.dataMessage.None? && r.statusText.Some? ==> m == r.statusText.value
    ensures r.dataMessage.None? && r.statusText.None? && message.Some? ==> m == message.value
    ensures r.dataMessage.None? && r.statusText.None? && message.None? ==> m == GenericMessage
  {
    var xs := [r.dataMessage, r.statusText, message];
    assert xs[0] == r.dataMessage && xs[1] == r.statusText && xs[2] == message;
    match FirstPresent(xs)
    case Some(m) => m
    case None => GenericMessage
  }

  /** The message of the one error every failure is rejected with. */
  function RejectionMessage(e: HttpError): (m: string)
    ensures e.response.None? ==> m != ""
    ensures e.response.None? && e.code == Some(TimeoutCode) ==> m == TimeoutMessage
    ensures e.response.Some? && e.response.value.dataMessage.Some? ==> m == e.response.value.dataMessage.value
    ensures e.response.Some? && e.response.value.dataMessage.None? && e.response.value.statusText.Some? ==>
              m == e.response.value.statusText.value
  {
    if e.response.None? then NetworkErrorMessage(e)
    else ResponseErrorMessage(e.response.value, e.message)
  }

  /** Only an actual response with status 401 clears the stored session; a
      network failure never does. */
  predicate ClearsSession(e: HttpError)
    ensures e.response.None? ==> !ClearsSession(e)
    ensures ClearsSession(e) ==> e.response.value.status == 401
  {
    e.response.Some? && e.response.value.status == 401
  }

  /** The stored entries after a failure has been handled. */
  function SessionAfter(entries: map<string, string>, e: HttpError): (r: map<string, string>)
    ensures ClearsSession(e) ==> r.Keys == entries.Keys - {AuthTokenKey, UserKey}
    ensures forall k :: k in r ==> k in entries && r[k] == entries[k]
    ensures !ClearsSession(e) ==> r == entries
  {
    if ClearsSession(e) then entries - {AuthTokenKey, UserKey} else entries
  }

  /** What reaches the interceptors: a response, or a failure. */
  datatype Transport<R> = Delivered(response: R) | Errored(error: HttpError)

  /** How the caller's promise settles. */
  datatype Settled<R> = Fulfilled(response: R) | Rejected(message: string)

  /** The response interceptor. A success passes through unchanged; a failure
      is rejected once, with the derived message, and is not retried; a 401
      removes the token and the user record first. */
  method InterceptResponse<R>(t: Transport<R>, store: KeyValueStore) returns (s: Settled<R>)
    modifies store
    ensures t.Delivered? ==> s == Fulfilled(t.response) && store.entries == old(store.entries)
    ensures t.Errored? ==> s == Rejected(RejectionMessage(t.error))
    ensures t.Errored? ==> store.entries == SessionAfter(old(store.entries), t.error)
  {
    match t
    case Delivered(r) =>
      s := Fulfilled(r);
    case Errored(e) =>
      if e.response.None? {
        s := Rejected(NetworkErrorMessage(e));
        return;
      }
      if e.response.value.status == 401 {
        store.RemoveItem(AuthTokenKey);
        store.RemoveItem(UserKey);
      }
      s := Rejected(ResponseErrorMessage(e.response.value, e.message));
  }

  /** The request configuration the request interceptor edits in place. */
  class RequestConfig {
    var headers: map<string, string>

    constructor (headers: map<string, string>)
      ensures this.headers == headers
    {
      this.headers := headers;
    }
  }

  /** The request interceptor: with a non-empty stored token the Authorization
      header becomes "Bearer " + token; otherwise the headers stay as they are. */
  method InterceptRequest(config: RequestConfig, store: KeyValueStore)
    modifies config
    ensures Truthy(store.GetItem(AuthTokenKey)) ==>
              config.headers == old(config.headers)[AuthorizationHeader := "Bearer " + store.entries[AuthTokenKey]]
    ensures !Truthy(store.GetItem(AuthTokenKey)) ==> config.headers == old(config.headers)
  {
    var token := store.GetItem(AuthTokenKey);
    if Truthy(token) {
      config.headers := config.headers[AuthorizationHeader := "Bearer " + token.value];
    }
  }
}
