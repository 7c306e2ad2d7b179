/** The record shapes shared by the dashboard (src/types/index.ts). */
module Types {

  /** How the assistant treats a chat: 'observe' or 'automate'. */
  datatype Mode = Observe | Automate

  /** A task's completion state: 'pending' or 'completed'. */
  datatype TaskStatus = Pending | Completed

  /** One task extracted from a chat. `source` holds the priority and
      `extractedFrom` the reasoning; the optional raw dates are not modelled. */
  datatype Task = Task(
    id: string,
    chatId: string,
    text: string,
    source: string,
    time: string,
    messageDate: string,
    status: TaskStatus,
    extractedFrom: string)

  /** The string a task status is written as. */
  function StatusName(s: TaskStatus): string {
    match s
    case Pending => "pending"
    case Completed => "completed"
  }
}
