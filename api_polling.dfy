/** `pollChatProcessingStatus` (src/services/api.ts): query a chat's
    processing status until it is terminal, then fetch its tasks once.
    The status endpoint is a script: `statusAt(n)` is the reply to the n-th
    query (counting from 0), after `withRetry`; `tasks` is the reply to the
    one task fetch. Callbacks are present or absent; what they are called
    with is recorded as a sequence of notices. */
module ApiPolling {
  import opened Wrappers
  import opened ApiRetry
  import opened ApiTasks
  import opened Seqs

  /** The fields of a `ChatProcessingStatus` record the poller reads. */
  datatype ChatProcessingStatus = ChatProcessingStatus(
    chatId: int,
    status: string,
    messageCount: int,
    errorMessage: Option<string>)

  /** Which of `onStatusUpdate`, `onComplete`, `onError` the caller passed. */
  datatype Callbacks = Callbacks(onStatusUpdate: bool, onComplete: bool, onError: bool)

  /** What `onError` is called with: a new `Error(text)` or a request's error. */
  datatype PollError = ErrorMessage(text: string) | RequestError(error: HttpError)

  /** One callback invocation. */
  datatype Notice =
    | StatusUpdated(status: ChatProcessingStatus)
    | Completed(tasks: seq<ChatTask>)
    | Failed(error: PollError)

  /** What a poll chain did: the callbacks it made in order, the status
      queries it sent (the final value of `attempts`) and the task fetches. */
  datatype Run = Run(notices: seq<Notice>, queries: nat, fetches: nat)

  const MaxAttemptsMessage: string := "Maximum polling attempts reached"
  const UnknownProcessingError: string := "Unknown error during chat processing"

  predicate IsTerminal(status: string) {
    status == "completed" || status == "error"
  }

  /** `status.error_message || 'Unknown error during chat processing'`. */
  function ErrorText(s: ChatProcessingStatus): (text: string)
    ensures text != ""
    ensures s.errorMessage.Some? && s.errorMessage.value != "" ==> text == s.errorMessage.value
    ensures !(s.errorMessage.Some? && s.errorMessage.value != "") ==> text == UnknownProcessingError
  {
    if s.errorMessage.Some? && s.errorMessage.value != "" then s.errorMessage.value else UnknownProcessingError
  }

  /** `if (onError) onError(e)`. */
  function Report(cb: Callbacks, e: PollError): seq<Notice> {
    if cb.onError then [Failed(e)] else []
  }

  /** `if (onStatusUpdate) onStatusUpdate(s)`. */
  function Update(cb: Callbacks, s: ChatProcessingStatus): seq<Notice> {
    if cb.onStatusUpdate then [StatusUpdated(s)] else []
  }

  /** Whether a status record leads to the task fetch: it is terminal, and
      it is not an error that `onError` takes. */
  predicate LeadsToFetch(cb: Callbacks, s: ChatProcessingStatus) {
    IsTerminal(s.status) && !(s.status == "error" && cb.onError) && cb.onComplete
  }

  /** `notices` followed by a later part of the chain. */
  function After(notices: seq<Notice>, rest: Run): Run {
    Run(notices + rest.notices, rest.queries, rest.fetches)
  }

  /** The chain from the call of `poll` made when `attempts` queries have
      been sent. */
  function Chain(cb: Callbacks, maxAttempts: int, statusAt: nat -> Reply<ChatProcessingStatus>,
                 tasks: Reply<seq<ChatTask>>, attempts: nat): Run
    decreases if attempts < maxAttempts then maxAttempts - attempts else 0
  {
    if attempts >= maxAttempts then
      Run(Report(cb, ErrorMessage(MaxAttemptsMessage)), attempts, 0)
    else match statusAt(attempts)
      case Failure(e) => Run(Report(cb, RequestError(e)), attempts + 1, 0)
      case Success(s) =>
        if IsTerminal(s.status) then Settle(cb, s, tasks, attempts + 1)
        else After(Update(cb, s), Chain(cb, maxAttempts, statusAt, tasks, attempts + 1))
  }

  /** The end of a chain whose last query (the `queries`-th) got a terminal
      status `s`: an error status goes to `onError` when it is given, and
      otherwise the tasks are fetched once when `onComplete` is given. */
  function Settle(cb: Callbacks, s: ChatProcessingStatus, tasks: Reply<seq<ChatTask>>, queries: nat): (r: Run)
    ensures r.queries == queries && r.fetches <= 1
    ensures r.fetches == 1 <==> !(s.status == "error" && cb.onError) && cb.onComplete
    ensures r.fetches == 1 && tasks.Success? ==> EndsWith(r.notices, Completed(tasks.value))
    ensures r.fetches == 1 && tasks.Failure? && cb.onError ==> EndsWith(r.notices, Failed(RequestError(tasks.error)))
    ensures s.status == "error" && cb.onError ==> EndsWith(r.notices, Failed(ErrorMessage(ErrorText(s))))
  {
    if s.status == "error" && cb.onError then
      Run(Update(cb, s) + [Failed(ErrorMessage(ErrorText(s)))], queries, 0)
    else if !cb.onComplete then Run(Update(cb, s), queries, 0)
    else match tasks
      case Success(ts) => Run(Update(cb, s) + [Completed(ts)], queries, 1)
      case Failure(e) => Run(Update(cb, s) + Report(cb, RequestError(e)), queries, 1)
  }

  /** `pollChatProcessingStatus(chatId, onStatusUpdate, onComplete, onError,
      intervalMs, maxAttempts)`: each call of `poll` checks the attempt
      budget, counts the query, reports the status and either finishes or
      schedules the next call (an iteration of the loop here; the interval
      is not modelled). */
  method PollChatProcessingStatus(cb: Callbacks, maxAttempts: int, statusAt: nat -> Reply<ChatProcessingStatus>,
                                  tasks: Reply<seq<ChatTask>>) returns (run: Run)
    ensures run == Chain(cb, maxAttempts, statusAt, tasks, 0)
  {
    var attempts: nat := 0;
    var notices: seq<Notice> := [];
    ghost var goal := Chain(cb, maxAttempts, statusAt, tasks, attempts);
    while true
      invariant After(notices, Chain(cb, maxAttempts, statusAt, tasks, attempts)) == goal
      decreases if attempts < maxAttempts then maxAttempts - attempts else 0
    {
      ChainAt(cb, maxAttempts, statusAt, tasks, attempts);
      if attempts >= maxAttempts {
        return Run(notices + Report(cb, ErrorMessage(MaxAttemptsMessage)), attempts, 0);
      }
      attempts := attempts + 1;
      var reply := statusAt(attempts - 1);
      if reply.Failure? {
        return Run(notices + Report(cb, RequestError(reply.error)), attempts, 0);
      }
      var status := reply.value;
      if IsTerminal(status.status) {
        var last := Update(cb, status);
        var fetches := 0;
        if status.status == "error" && cb.onError {
          last := last + [Failed(ErrorMessage(ErrorText(status)))];
        } else if cb.onComplete {
          fetches := 1;
          if tasks.Success? {
            last := last + [Completed(tasks.value)];
          } else {
            last := last + Report(cb, RequestError(tasks.error));
          }
        }
        assert Run(last, attempts, fetches) == Settle(cb, status, tasks, attempts);
        return Run(notices + last, attempts, fetches);
      }
      ghost var rest := Chain(cb, maxAttempts, statusAt, tasks, attempts);
      AppendAssoc(notices, Update(cb, status), rest.notices);
      notices := notices + Update(cb, status);
    }
  }

  /** The chain from `k` queries, case by case: the four ways `poll` can
      go on from there. */
  lemma ChainAt(cb: Callbacks, maxAttempts: int, statusAt: nat -> Reply<ChatProcessingStatus>,
                tasks: Reply<seq<ChatTask>>, k: nat)
    ensures k >= maxAttempts ==> Chain(cb, maxAttempts, statusAt, tasks, k) == Run(Report(cb, ErrorMessage(MaxAttemptsMessage)), k, 0)
    ensures k < maxAttempts && statusAt(k).Failure? ==> Chain(cb, maxAttempts, statusAt, tasks, k) == Run(Report(cb, RequestError(statusAt(k).error)), k + 1, 0)
    ensures k < maxAttempts && statusAt(k).Success? && IsTerminal(statusAt(k).value.status) ==> Chain(cb, maxAttempts, statusAt, tasks, k) == Settle(cb, statusAt(k).value, tasks, k + 1)
    ensures k < maxAttempts && statusAt(k).Success? && !IsTerminal(statusAt(k).value.status) ==> Chain(cb, maxAttempts, statusAt, tasks, k) == After(Update(cb, statusAt(k).value), Chain(cb, maxAttempts, statusAt, tasks, k + 1))
  {
  }

  /** Whether the query with index `n` got a status that keeps the chain
      going: a successful reply that is neither completed nor error. */
  predicate Continues(statusAt: nat -> Reply<ChatProcessingStatus>, n: nat) {
    statusAt(n).Success? && !IsTerminal(statusAt(n).value.status)
  }

  /** The attempt budget: from `k` queries on, a chain sends none when the
      budget is already spent, and otherwise never goes past `maxAttempts`. */
  lemma {:induction false} ChainQueries(cb: Callbacks, maxAttempts: int, statusAt: nat -> Reply<ChatProcessingStatus>,
                                        tasks: Reply<seq<ChatTask>>, k: nat)
    ensures k >= maxAttempts ==> Chain(cb, maxAttempts, statusAt, tasks, k).queries == k
    ensures k < maxAttempts ==> k < Chain(cb, maxAttempts, statusAt, tasks, k).queries <= maxAttempts
    decreases if k < maxAttempts then maxAttempts - k else 0
  {
    if k < maxAttempts && Continues(statusAt, k) {
      ChainQueries(cb, maxAttempts, statusAt, tasks, k + 1);
    }
  }

  /** A further query is sent only after a status that is neither
      completed nor error: every query before the last one got such a
      status. */
  lemma {:induction false} ChainContinuesOnlyOnProgress(cb: Callbacks, maxAttempts: int,
                                                          statusAt: nat -> Reply<ChatProcessingStatus>,
                                                          tasks: Reply<seq<ChatTask>>, k: nat)
    ensures forall n :: k <= n < Chain(cb, maxAttempts, statusAt, tasks, k).queries - 1 ==> Continues(statusAt, n)
    decreases if k < maxAttempts then maxAttempts - k else 0
  {
    if k < maxAttempts && Continues(statusAt, k) {
      ChainContinuesOnlyOnProgress(cb, maxAttempts, statusAt, tasks, k + 1);
      ChainQueries(cb, maxAttempts, statusAt, tasks, k + 1);
    }
  }

  /** The converse: a chain stops after a status that is neither completed
      nor error only because the budget is spent, so a progress status
      within the budget is always followed by another query. */
  lemma {:induction false} ChainStopsOnProgressOnlyAtBudget(cb: Callbacks, maxAttempts: int,
                                                            statusAt: nat -> Reply<ChatProcessingStatus>,
                                                            tasks: Reply<seq<ChatTask>>, k: nat)
    requires k < maxAttempts
    ensures var r := Chain(cb, maxAttempts, statusAt, tasks, k);
      r.queries >= 1 && Continues(statusAt, r.queries - 1) ==> r.queries == maxAttempts
    decreases maxAttempts - k
  {
    ChainQueries(cb, maxAttempts, statusAt, tasks, k);
    if Continues(statusAt, k) {
      if k + 1 < maxAttempts {
        ChainStopsOnProgressOnlyAtBudget(cb, maxAttempts, statusAt, tasks, k + 1);
      } else {
        ChainQueries(cb, maxAttempts, statusAt, tasks, k + 1);
      }
    }
  }

  /** When every status within the budget keeps the chain going, the chain
      uses the whole budget and its last act is the "Maximum polling
      attempts reached" report (when `onError` is given). */
  lemma {:induction false} ChainExhaustsBudget(cb: Callbacks, maxAttempts: int,
                                               statusAt: nat -> Reply<ChatProcessingStatus>,
                                               tasks: Reply<seq<ChatTask>>, k: nat)
    requires forall n :: k <= n < maxAttempts ==> Continues(statusAt, n)
    ensures var r := Chain(cb, maxAttempts, statusAt, tasks, k);
      r.queries == (if k < maxAttempts then maxAttempts else k) && r.fetches == 0 &&
      (cb.onError ==> |r.notices| > 0 && r.notices[|r.notices| - 1] == Failed(ErrorMessage(MaxAttemptsMessage)))
    decreases if k < maxAttempts then maxAttempts - k else 0
  {
    if k < maxAttempts {
      assert Continues(statusAt, k);
      var rest := Chain(cb, maxAttempts, statusAt, tasks, k + 1);
      ChainExhaustsBudget(cb, maxAttempts, statusAt, tasks, k + 1);
      assert Chain(cb, maxAttempts, statusAt, tasks, k) == After(Update(cb, statusAt(k).value), rest);
    }
  }

  /** Tasks are fetched at most once, and exactly when the last query's
      status leads to the fetch; a successful fetch is handed to
      `onComplete` as the chain's last act, a failed one to `onError`. */
  lemma {:induction false} ChainFetchesOnce(cb: Callbacks, maxAttempts: int,
                                            statusAt: nat -> Reply<ChatProcessingStatus>,
                                            tasks: Reply<seq<ChatTask>>, k: nat)
    ensures var r := Chain(cb, maxAttempts, statusAt, tasks, k);
      r.fetches <= 1 &&
      (r.fetches == 1 <==> k < r.queries && statusAt(r.queries - 1).Success? && LeadsToFetch(cb, statusAt(r.queries - 1).value)) &&
      (r.fetches == 1 && tasks.Success? ==> |r.notices| > 0 && r.notices[|r.notices| - 1] == Completed(tasks.value)) &&
      (r.fetches == 1 && tasks.Failure? && cb.onError ==>
         |r.notices| > 0 && r.notices[|r.notices| - 1] == Failed(RequestError(tasks.error)))
    decreases if k < maxAttempts then maxAttempts - k else 0
  {
    ChainAt(cb, maxAttempts, statusAt, tasks, k);
    if k < maxAttempts && statusAt(k).Success? {
      var status := statusAt(k).value;
      if !IsTerminal(status.status) {
        var head, rest := Update(cb, status), Chain(cb, maxAttempts, statusAt, tasks, k + 1);
        ChainFetchesOnce(cb, maxAttempts, statusAt, tasks, k + 1);
        ChainQueries(cb, maxAttempts, statusAt, tasks, k + 1);
        if |rest.notices| > 0 {
          assert (head + rest.notices)[|head + rest.notices| - 1] == rest.notices[|rest.notices| - 1];
        }
      }
    }
  }

  /** Whether the last callback of `notices` is `n`. */
  predicate EndsWith(notices: seq<Notice>, n: Notice) {
    |notices| > 0 && notices[|notices| - 1] == n
  }

  /** Callbacks made before a chain's end do not change its last one. */
  lemma EndsWithAfter(head: seq<Notice>, rest: seq<Notice>, n: Notice)
    requires EndsWith(rest, n)
    ensures EndsWith(head + rest, n)
  {
    assert (head + rest)[|head + rest| - 1] == rest[|rest| - 1];
  }

  /** The callback `onError` gets for the reply to the last query, when
      that reply is a failure or an `error` status. */
  function ErrorFor(reply: Reply<ChatProcessingStatus>): Option<Notice> {
    match reply
    case Failure(e) => Some(Failed(RequestError(e)))
    case Success(s) => if s.status == "error" then Some(Failed(ErrorMessage(ErrorText(s)))) else None
  }

  /** How a chain reports errors when `onError` is given: an `error`
      status as the last reply ends the callbacks with its error text, and
      a failed last query ends them with the request's error. */
  lemma {:induction false} ChainReportsError(cb: Callbacks, maxAttempts: int,
                                             statusAt: nat -> Reply<ChatProcessingStatus>,
                                             tasks: Reply<seq<ChatTask>>, k: nat)
    requires cb.onError
    ensures var r := Chain(cb, maxAttempts, statusAt, tasks, k);
      k < r.queries && ErrorFor(statusAt(r.queries - 1)).Some? ==>
        EndsWith(r.notices, ErrorFor(statusAt(r.queries - 1)).value)
    decreases if k < maxAttempts then maxAttempts - k else 0
  {
    if k < maxAttempts && Continues(statusAt, k) {
      ChainAt(cb, maxAttempts, statusAt, tasks, k);
      ChainReportsError(cb, maxAttempts, statusAt, tasks, k + 1);
      ChainQueries(cb, maxAttempts, statusAt, tasks, k + 1);
      ReportsErrorStep(Update(cb, statusAt(k).value), Chain(cb, maxAttempts, statusAt, tasks, k + 1), statusAt, k);
    } else {
      ReportsErrorEnd(cb, maxAttempts, statusAt, tasks, k);
    }
  }

  /** `ChainReportsError` where the chain ends at once: a spent budget, a
      failed query, or a terminal status. */
  lemma ReportsErrorEnd(cb: Callbacks, maxAttempts: int, statusAt: nat -> Reply<ChatProcessingStatus>,
                        tasks: Reply<seq<ChatTask>>, k: nat)
    requires cb.onError && !(k < maxAttempts && Continues(statusAt, k))
    ensures var r := Chain(cb, maxAttempts, statusAt, tasks, k);
      k < r.queries && ErrorFor(statusAt(r.queries - 1)).Some? ==>
        EndsWith(r.notices, ErrorFor(statusAt(r.queries - 1)).value)
  {
    ChainAt(cb, maxAttempts, statusAt, tasks, k);
  }

  /** One step of `ChainReportsError`: a status that keeps the chain going
      is not an error, so the error reported last is the rest's. */
  lemma ReportsErrorStep(head: seq<Notice>, rest: Run, statusAt: nat -> Reply<ChatProcessingStatus>, k: nat)
    requires k < rest.queries && ErrorFor(statusAt(k)).None?
    requires k + 1 < rest.queries && ErrorFor(statusAt(rest.queries - 1)).Some? ==>
      EndsWith(rest.notices, ErrorFor(statusAt(rest.queries - 1)).value)
    ensures var r := After(head, rest);
      k < r.queries && ErrorFor(statusAt(r.queries - 1)).Some? ==> EndsWith(r.notices, ErrorFor(statusAt(r.queries - 1)).value)
  {
    if ErrorFor(statusAt(rest.queries - 1)).Some? {
      EndsWithAfter(head, rest.notices, ErrorFor(statusAt(rest.queries - 1)).value);
    }
  }

  /** Without `onError` a chain reports no error at all: a failed query, an
      `error` status, a failed fetch and a spent budget all pass silently. */
  lemma {:induction false} ChainSilentWithoutOnError(cb: Callbacks, maxAttempts: int,
                                                     statusAt: nat -> Reply<ChatProcessingStatus>,
                                                     tasks: Reply<seq<ChatTask>>, k: nat)
    requires !cb.onError
    ensures forall n :: n in Chain(cb, maxAttempts, statusAt, tasks, k).notices ==> !n.Failed?
    decreases if k < maxAttempts then maxAttempts - k else 0
  {
    ChainAt(cb, maxAttempts, statusAt, tasks, k);
    if k < maxAttempts && Continues(statusAt, k) {
      ChainSilentWithoutOnError(cb, maxAttempts, statusAt, tasks, k + 1);
    }
  }

  /** Status updates come first: only a chain's last callback can be a
      completion or an error. */
  lemma {:induction false} ChainUpdatesComeFirst(cb: Callbacks, maxAttempts: int,
                                                 statusAt: nat -> Reply<ChatProcessingStatus>,
                                                 tasks: Reply<seq<ChatTask>>, k: nat)
    ensures forall i :: 0 <= i < |Chain(cb, maxAttempts, statusAt, tasks, k).notices| - 1 ==>
                          Chain(cb, maxAttempts, statusAt, tasks, k).notices[i].StatusUpdated?
    decreases if k < maxAttempts then maxAttempts - k else 0
  {
    if k < maxAttempts && Continues(statusAt, k) {
      var head, rest := Update(cb, statusAt(k).value), Chain(cb, maxAttempts, statusAt, tasks, k + 1);
      ChainUpdatesComeFirst(cb, maxAttempts, statusAt, tasks, k + 1);
      forall i | 0 <= i < |head + rest.notices| - 1 ensures (head + rest.notices)[i].StatusUpdated? {
        if i >= |head| {
          assert (head + rest.notices)[i] == rest.notices[i - |head|];
        } else {
          assert (head + rest.notices)[i] == head[i];
        }
      }
    }
  }

  /** The number of successful status replies among queries `from` to `to - 1`. */
  function OkReplies(statusAt: nat -> Reply<ChatProcessingStatus>, from: nat, to: nat): nat
    decreases to - from
  {
    if from >= to then 0 else (if statusAt(from).Success? then 1 else 0) + OkReplies(statusAt, from + 1, to)
  }

  const IsStatusUpdate: Notice -> bool := (n: Notice) => n.StatusUpdated?

  /** `onStatusUpdate` is called once for every successful status reply,
      and never without one. */
  lemma {:induction false} ChainUpdatesOncePerStatus(cb: Callbacks, maxAttempts: int,
                                                     statusAt: nat -> Reply<ChatProcessingStatus>,
                                                     tasks: Reply<seq<ChatTask>>, k: nat)
    ensures var r := Chain(cb, maxAttempts, statusAt, tasks, k);
      |Filter(r.notices, IsStatusUpdate)| == if cb.onStatusUpdate then OkReplies(statusAt, k, r.queries) else 0
    decreases if k < maxAttempts then maxAttempts - k else 0
  {
    var r := Chain(cb, maxAttempts, statusAt, tasks, k);
    ChainAt(cb, maxAttempts, statusAt, tasks, k);
    if k >= maxAttempts {
      FilterSingleton(Failed(ErrorMessage(MaxAttemptsMessage)), IsStatusUpdate);
    } else {
      assert OkReplies(statusAt, k + 1, k + 1) == 0;
      match statusAt(k)
      case Failure(e) =>
        FilterSingleton(Failed(RequestError(e)), IsStatusUpdate);
      case Success(s) =>
        if IsTerminal(s.status) {
          SettleUpdatesOnce(cb, s, tasks, k + 1);
        } else {
          var rest := Chain(cb, maxAttempts, statusAt, tasks, k + 1);
          ChainUpdatesOncePerStatus(cb, maxAttempts, statusAt, tasks, k + 1);
          ChainQueries(cb, maxAttempts, statusAt, tasks, k + 1);
          FilterAppend(Update(cb, s), rest.notices, IsStatusUpdate);
          FilterSingleton(StatusUpdated(s), IsStatusUpdate);
        }
    }
  }

  /** The end of a chain reports its status once to `onStatusUpdate`. */
  lemma SettleUpdatesOnce(cb: Callbacks, s: ChatProcessingStatus, tasks: Reply<seq<ChatTask>>, queries: nat)
    ensures |Filter(Settle(cb, s, tasks, queries).notices, IsStatusUpdate)| == if cb.onStatusUpdate then 1 else 0
  {
    var r := Settle(cb, s, tasks, queries);
    var last := r.notices[|Update(cb, s)|..];
    assert r.notices == Update(cb, s) + last;
    assert |last| <= 1 && (|last| == 1 ==> !last[0].StatusUpdated?);
    FilterSingleton(StatusUpdated(s), IsStatusUpdate);
    FilterAppend(Update(cb, s), last, IsStatusUpdate);
    if |last| == 1 {
      assert last == [last[0]];
      FilterSingleton(last[0], IsStatusUpdate);
    }
  }
}
