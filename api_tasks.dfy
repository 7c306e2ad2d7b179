/** Task records as the backend sends them, and `getChatTasks`, which
    unwraps the list from whatever envelope the body comes in
    (src/services/api.ts). */
module ApiTasks {
  import opened Wrappers
  import opened ApiRetry

  /** A backend task record (`ChatTask`). */
  datatype ChatTask = ChatTask(
    id: int,
    userId: string,
    chatId: int,
    description: string,
    dueDate: Option<string>,
    priority: string,
    sourceMessageId: int,
    reasoning: string,
    completed: bool,
    createdAt: string,
    messageDate: string)

  /** A property of the envelope object: falsy (missing, null, ...) or a list. */
  datatype TasksField = Falsy | Tasks(items: seq<ChatTask>)

  /** The body of the tasks response: a bare array, or an object that may
      carry the list under `tasks` or under `data`. */
  datatype TasksBody = ArrayBody(items: seq<ChatTask>) | Envelope(tasks: TasksField, data: TasksField)

  /** `Array.isArray(data) ? data : (data.tasks || data.data || [])`. */
  function UnwrapTasks(body: TasksBody): (r: seq<ChatTask>)
    ensures body.ArrayBody? ==> r == body.items
    ensures body.Envelope? && body.tasks.Tasks? ==> r == body.tasks.items
    ensures body.Envelope? && body.tasks.Falsy? && body.data.Tasks? ==> r == body.data.items
    ensures body.Envelope? && body.tasks.Falsy? && body.data.Falsy? ==> r == []
  {
    match body
    case ArrayBody(items) => items
    case Envelope(Tasks(items), _) => items
    case Envelope(Falsy, Tasks(items)) => items
    case Envelope(Falsy, Falsy) => []
  }

  /** Every shape the client accepts hands the list it carries back: a
      bare array, `{tasks}` whatever `data` holds, and `{data}` with no
      `tasks`. */
  lemma UnwrapRecoversList(items: seq<ChatTask>, other: TasksField)
    ensures UnwrapTasks(ArrayBody(items)) == items
    ensures UnwrapTasks(Envelope(Tasks(items), other)) == items
    ensures UnwrapTasks(Envelope(Falsy, Tasks(items))) == items
  {
  }

  /** `getChatTasks(chatId)`: the GET wrapped in `withRetry` with its default
      budget of three attempts, the body unwrapped on success. `answer(n)` is
      the body or error of the n-th attempt. */
  method GetChatTasks(answer: nat -> Reply<TasksBody>) returns (r: Reply<seq<ChatTask>>, attempts: nat)
    ensures 1 <= attempts <= 3
    ensures r.Success? <==> answer(attempts - 1).Success?
    ensures r.Success? ==> r.value == UnwrapTasks(answer(attempts - 1).value)
    ensures r.Failure? ==> r.error == answer(attempts - 1).error
    ensures forall n :: 0 <= n < attempts - 1 ==> answer(n).Failure? && IsUnauthorized(answer(n).error)
    ensures r.Failure? && IsUnauthorized(r.error) ==> attempts == 3
  {
    var reply, announced;
    reply, attempts, announced := WithRetry(answer, 3);
    r := match reply
      case Success(body) => Success(UnwrapTasks(body))
      case Failure(e) => Failure(e);
  }
}
