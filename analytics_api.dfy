/** `getUserMetrics` (src/services/analytics_api.ts): the metrics request,
    wrapped in `withRetry`, and the translation of its failure into a
    message for the user. */
module AnalyticsApi {
  import opened Wrappers
  import opened ApiRetry

  /** The plan a user is on. */
  datatype Tier = Free | Essential | Pro

  /** The usage numbers the backend reports for a user. */
  datatype UserMetrics = UserMetrics(
    userId: string,
    totalRequests: int,
    totalTasksExtracted: int,
    uniqueChatsAnalyzed: int,
    totalMessagesAnalyzed: int,
    userTier: Tier)

  const AuthExpiredMessage: string := "Authentication expired. Please log in again."
  const AccessDeniedMessage: string := "Access denied. Please check your permissions."
  const ServerErrorMessage: string := "Server error. Please try again later."
  const NetworkErrorMessage: string := "Network error. Please check your connection."

  /** What the catch block throws: a new error with a message, or the
      original error unchanged. */
  datatype MetricsError = Message(text: string) | Rethrown(error: HttpError)

  /** The catch block's if-chain over `error.response?.status`. A failure
      without a response (network failure, the 10-second timeout) is a
      network error. */
  function ClassifyError(e: HttpError): (r: MetricsError)
    ensures r.Rethrown? <==> e.response.Some? && e.response.value.status !in {401, 403} && e.response.value.status < 500
    ensures r.Rethrown? ==> r.error == e
    ensures r == Message(AuthExpiredMessage) <==> e.response.Some? && e.response.value.status == 401
    ensures r == Message(AccessDeniedMessage) <==> e.response.Some? && e.response.value.status == 403
    ensures r == Message(ServerErrorMessage) <==> e.response.Some? && e.response.value.status >= 500
    ensures r == Message(NetworkErrorMessage) <==> e.response.None?
  {
    match e.response
    case None => Message(NetworkErrorMessage)
    case Some(resp) =>
      if resp.status == 401 then Message(AuthExpiredMessage)
      else if resp.status == 403 then Message(AccessDeniedMessage)
      else if resp.status >= 500 then Message(ServerErrorMessage)
      else Rethrown(e)
  }

  /** The outcome of `getUserMetrics`. */
  datatype MetricsResult = Loaded(metrics: UserMetrics) | Failed(error: MetricsError)

  /** `getUserMetrics()`. The stored token is read but its absence does not
      stop the request: the request is made whatever `token` is. `answer(n)`
      is the reply to the n-th attempt of `withRetry`'s default budget of
      three. */
  method GetUserMetrics(token: Option<string>, answer: nat -> Reply<UserMetrics>) returns (r: MetricsResult, attempts: nat)
    ensures 1 <= attempts <= 3
    ensures r.Loaded? <==> answer(attempts - 1).Success?
    ensures r.Loaded? ==> r.metrics == answer(attempts - 1).value
    ensures r.Failed? ==> r.error == ClassifyError(answer(attempts - 1).error)
    ensures forall n :: 0 <= n < attempts - 1 ==> answer(n).Failure? && IsUnauthorized(answer(n).error)
    ensures r == Failed(Message(AuthExpiredMessage)) ==> attempts == 3
  {
    var reply, announced;
    reply, attempts, announced := WithRetry(answer, 3);
    r := match reply
      case Success(m) => Loaded(m)
      case Failure(e) => Failed(ClassifyError(e));
  }

  /** The client `getUserMetrics` calls through `import localApi from
      './api'`. That module has only a named `localApi` export, so the
      default import is `undefined` and `localApi.get(...)` throws a
      `TypeError` on every attempt, before any request: an error with no
      response. */
  function UndefinedClient(n: nat): Reply<UserMetrics> {
    Failure(HttpError(None, "Cannot read properties of undefined (reading 'get')"))
  }

  /** `getUserMetrics()` as written: the `TypeError` is not a 401, so
      `withRetry` gives up after one attempt, and the catch block turns the
      missing response into the network-error message, whatever the server
      would have answered. */
  method GetUserMetricsAsWritten(token: Option<string>) returns (r: MetricsResult, attempts: nat)
    ensures attempts == 1 && r == Failed(Message(NetworkErrorMessage))
  {
    r, attempts := GetUserMetrics(token, UndefinedClient);
    assert UndefinedClient(0).Failure? && !IsUnauthorized(UndefinedClient(0).error);
    assert ClassifyError(UndefinedClient(attempts - 1).error) == Message(NetworkErrorMessage);
  }
}
