/** The two retry rules of the HTTP layer (src/services/api.ts): the
    response interceptor that re-sends a request whose token has expired,
    and `withRetry`, which repeats an operation after a 401. The server is
    a script: `answer(n)` is the reply to the n-th send (counting from 0). */
module ApiRetry {
  import opened Wrappers

  /** The part of an error response the rules look at. */
  datatype ErrorResponse = ErrorResponse(status: int, detail: Option<string>)

  /** A failed exchange as axios reports it: with a response, or with none
      (network failure, timeout). */
  datatype HttpError = HttpError(response: Option<ErrorResponse>, message: string)

  /** The outcome of one exchange. */
  datatype Reply<T> = Success(value: T) | Failure(error: HttpError)

  const TokenExpiredDetail: string := "Token has expired"

  /** The interceptor re-sends at most this many times per request. */
  const MaxTokenRetries: nat := 3

  /** `status === 403 && data.detail === "Token has expired"`. */
  predicate IsTokenExpired(e: HttpError) {
    e.response.Some? && e.response.value.status == 403 && e.response.value.detail == Some(TokenExpiredDetail)
  }

  /** `error?.response?.status === 401`. */
  predicate IsUnauthorized(e: HttpError) {
    e.response.Some? && e.response.value.status == 401
  }

  /** What the response interceptor does with a failed exchange. */
  datatype Decision = Resend(retryCount: nat) | Reject(error: HttpError)

  /** The interceptor's error handler, given the request's `retryCount`
      (0 when never set): re-send with the count raised by one, or reject
      with the error unchanged. */
  function OnResponseError(e: HttpError, retryCount: nat): (d: Decision)
    ensures d.Resend? <==> IsTokenExpired(e) && retryCount < MaxTokenRetries
    ensures d.Resend? ==> d.retryCount == retryCount + 1
    ensures d.Reject? ==> d.error == e
  {
    if IsTokenExpired(e) && retryCount < MaxTokenRetries then Resend(retryCount + 1) else Reject(e)
  }

  /** One request through an instance made by `createJwtApi`. It is sent,
      and re-sent while the interceptor says so; every re-send also
      announces the expired token. `sent` counts the sends, `announced` the
      token-expired events. The request's outcome is the last reply; it is
      sent at most four times, each re-send follows a token expiry, and a
      token expiry is passed on only after the third re-send. */
  method SendRequest<T>(answer: nat -> Reply<T>) returns (result: Reply<T>, sent: nat, announced: nat)
    ensures 1 <= sent <= MaxTokenRetries + 1
    ensures result == answer(sent - 1)
    ensures forall n :: 0 <= n < sent - 1 ==> answer(n).Failure? && IsTokenExpired(answer(n).error)
    ensures result.Failure? && IsTokenExpired(result.error) ==> sent == MaxTokenRetries + 1
    ensures announced == sent - 1
  {
    var retryCount: nat := 0;
    result := answer(0);
    sent, announced := 1, 0;
    while result.Failure? && OnResponseError(result.error, retryCount).Resend?
      invariant retryCount == sent - 1 == announced
      invariant 1 <= sent <= MaxTokenRetries + 1
      invariant result == answer(sent - 1)
      invariant forall n :: 0 <= n < sent - 1 ==> answer(n).Failure? && IsTokenExpired(answer(n).error)
      decreases MaxTokenRetries - retryCount
    {
      retryCount := OnResponseError(result.error, retryCount).retryCount;
      announced := announced + 1;
      result := answer(sent);
      sent := sent + 1;
    }
  }

  /** The attempt budget `backOff` works with: `numOfAttempts`, raised to 1
      when smaller. */
  function AttemptBudget(maxAttempts: int): (n: nat)
    ensures n >= 1 && n >= maxAttempts
    ensures maxAttempts >= 1 ==> n == maxAttempts
  {
    if maxAttempts < 1 then 1 else maxAttempts
  }

  /** `withRetry(operation, maxAttempts)`: the operation is attempted; after
      a failure the retry predicate is asked (it answers yes, and announces
      an expired token, exactly for a 401), and the operation is attempted
      again while the answer is yes and the budget is not spent. The result
      is the last attempt's; every earlier attempt failed with 401; a 401 is
      passed on only once the budget is spent; `announced` counts the 401s. */
  method WithRetry<T>(operation: nat -> Reply<T>, maxAttempts: int) returns (result: Reply<T>, attempts: nat, announced: nat)
    ensures 1 <= attempts <= AttemptBudget(maxAttempts)
    ensures result == operation(attempts - 1)
    ensures forall n :: 0 <= n < attempts - 1 ==> operation(n).Failure? && IsUnauthorized(operation(n).error)
    ensures result.Failure? && IsUnauthorized(result.error) ==> attempts == AttemptBudget(maxAttempts)
    ensures announced == attempts - 1 + (if result.Failure? && IsUnauthorized(result.error) then 1 else 0)
  {
    var budget := AttemptBudget(maxAttempts);
    attempts, announced := 0, 0;
    while true
      invariant attempts < budget
      invariant attempts == announced
      invariant forall n :: 0 <= n < attempts ==> operation(n).Failure? && IsUnauthorized(operation(n).error)
      decreases budget - attempts
    {
      result := operation(attempts);
      attempts := attempts + 1;
      if result.Success? {
        return;
      }
      var retry := IsUnauthorized(result.error);
      if retry {
        announced := announced + 1;
      }
      if !retry || attempts >= budget {
        return;
      }
    }
  }
}
