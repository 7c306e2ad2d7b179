/** The copy button of the task view (src/components/CopyTasksButton.tsx):
    the tasks of the selected chat, or all tasks, are written to the
    clipboard as text, one block per task. */
module CopyTasks {
  import opened Wrappers
  import opened Seqs
  import opened Types

  /** Whether `selectedChatId` is truthy: present and not empty. */
  predicate ChatChosen(selectedChatId: Option<string>) {
    selectedChatId.Some? && selectedChatId.value != ""
  }

  /** The test `task.chatId === chatId`. */
  function FromChat(chatId: string): Task -> bool {
    (t: Task) => t.chatId == chatId
  }

  /** `tasksToCopy`: the selected chat's tasks, or all tasks. */
  function SelectTasks(tasks: seq<Task>, selectedChatId: Option<string>): (r: seq<Task>)
    ensures |r| <= |tasks|
    ensures !ChatChosen(selectedChatId) ==> r == tasks
  {
    if ChatChosen(selectedChatId) then Filter(tasks, FromChat(selectedChatId.value)) else tasks
  }

  /** Exactly the tasks of the chosen chat are copied; with no chat
      chosen, every task is. */
  lemma SelectTasksMembers(tasks: seq<Task>, selectedChatId: Option<string>, t: Task)
    ensures t in SelectTasks(tasks, selectedChatId) <==>
      t in tasks && (ChatChosen(selectedChatId) ==> t.chatId == selectedChatId.value)
  {
    if ChatChosen(selectedChatId) {
      FilterContains(tasks, FromChat(selectedChatId.value), t);
    }
  }

  /** Selection keeps the tasks' order: selecting from a list split in two
      selects from each part. */
  lemma SelectTasksKeepsOrder(a: seq<Task>, b: seq<Task>, selectedChatId: Option<string>)
    ensures SelectTasks(a + b, selectedChatId) == SelectTasks(a, selectedChatId) + SelectTasks(b, selectedChatId)
  {
    if ChatChosen(selectedChatId) {
      FilterAppend(a, b, FromChat(selectedChatId.value));
    }
  }

  /** The text block of one task. */
  function FormatTask(t: Task): (text: string)
    ensures |text| > 8 && text[..6] == "Task: " && text[|text| - 2..] == "\n\n"
  {
    "Task: " + t.text + "\nPriority: " + t.source + "\nTime: " + t.time + "\nStatus: " + StatusName(t.status) +
    "\nReasoning: " + t.extractedFrom + "\n\n"
  }

  /** `tasksToCopy.map(...).join('')`. */
  function FormatTasks(ts: seq<Task>): (text: string)
    ensures text == [] <==> ts == []
  {
    if ts == [] then [] else FormatTask(ts[0]) + FormatTasks(ts[1..])
  }

  /** The text of a list split in two is the text of the first part
      followed by that of the second: one block per task, in order. */
  lemma {:induction false} FormatTasksAppend(a: seq<Task>, b: seq<Task>)
    ensures FormatTasks(a + b) == FormatTasks(a) + FormatTasks(b)
  {
    if a == [] {
      assert a + b == b;
    } else {
      var head := FormatTask(a[0]);
      assert FormatTasks(a + b) == head + FormatTasks(a[1..] + b) by {
        assert (a + b)[0] == a[0];
        assert (a + b)[1..] == a[1..] + b;
      }
      FormatTasksAppend(a[1..], b);
      AppendAssoc(head, FormatTasks(a[1..]), FormatTasks(b));
    }
  }

  /** What the handler writes to the clipboard: nothing when no task is
      selected. */
  function CopyText(tasks: seq<Task>, selectedChatId: Option<string>): (r: Option<string>)
    ensures r.None? <==> SelectTasks(tasks, selectedChatId) == []
    ensures r.Some? ==> r.value != [] && r.value == FormatTasks(SelectTasks(tasks, selectedChatId))
  {
    var chosen := SelectTasks(tasks, selectedChatId);
    if |chosen| == 0 then None else Some(FormatTasks(chosen))
  }

  /** The button renders only for a non-empty task list. */
  predicate ButtonShown(tasks: seq<Task>) {
    |tasks| != 0
  }

  const CopiedLabel: string := "✓ Copied!"
  const CopyLabel: string := "Copy Tasks"

  /** The button's caption: the confirmation while `copySuccess` holds. */
  function ButtonLabel(copySuccess: bool): (text: string)
    ensures text == CopiedLabel <==> copySuccess
    ensures text == CopyLabel <==> !copySuccess
  {
    if copySuccess then CopiedLabel else CopyLabel
  }

  /** A shown button with no chat chosen always has something to copy. */
  lemma ShownButtonCopiesAll(tasks: seq<Task>, selectedChatId: Option<string>)
    requires ButtonShown(tasks) && !ChatChosen(selectedChatId)
    ensures CopyText(tasks, selectedChatId) == Some(FormatTasks(tasks))
  {
  }

  /** The component's `copySuccess` state. */
  class CopyButton {
    var copySuccess: bool

    constructor ()
      ensures !copySuccess
    {
      copySuccess := false;
    }

    /** `copyTasksToClipboard`: choose the tasks, stop when there are none,
        format them and write them. `clipboardAccepts` is whether the
        clipboard write succeeds; `written` is what was written. */
    method CopyTasksToClipboard(tasks: seq<Task>, selectedChatId: Option<string>, clipboardAccepts: bool)
      returns (written: Option<string>)
      modifies this
      ensures written == CopyText(tasks, selectedChatId)
      ensures copySuccess == ((written.Some? && clipboardAccepts) || old(copySuccess))
      ensures written.Some? && clipboardAccepts ==> ButtonLabel(copySuccess) == CopiedLabel
    {
      var tasksToCopy: seq<Task> := [];
      if ChatChosen(selectedChatId) {
        tasksToCopy := Filter(tasks, FromChat(selectedChatId.value));
      } else {
        tasksToCopy := tasks;
      }
      if |tasksToCopy| == 0 {
        return None;
      }
      var formattedTasks := FormatTasks(tasksToCopy);
      written := Some(formattedTasks);
      if clipboardAccepts {
        copySuccess := true;
      }
    }

    /** The timer two seconds after a successful copy. */
    method ResetCopySuccess()
      modifies this
      ensures !copySuccess && ButtonLabel(copySuccess) == CopyLabel
    {
      copySuccess := false;
    }
  }
}
