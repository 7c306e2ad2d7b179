/** The toast list of the dashboard (src/components/Notifications.tsx): the
    latest stream update is turned into a notification and appended; a
    notification is dismissed by id. */
module Notifications {
  import opened Wrappers
  import opened Seqs
  import opened Decimal
  import opened ApiUpdates

  datatype NotificationType = Success | Info | Error

  /** A notification; `id` and `timestamp` come from `Math.random` and the
      clock and are inputs here. */
  datatype Notification = Notification(id: string, message: string, kind: NotificationType, timestamp: int)

  /** How much of a task description a `new_task` notification quotes. */
  const DescriptionLimit: nat := 50
  const NewTaskPrefix: string := "New task: "
  const PollingPrefix: string := "Processed "

  /** `s.substring(0, n)`. */
  function Prefix(s: string, n: nat): (p: string)
    ensures |p| == (if |s| <= n then |s| else n) && p <= s
  {
    if |s| <= n then s else s[..n]
  }

  /** `createNotification()` for one update, given the id and time it would
      be stamped with. */
  function CreateNotification(u: Update, id: string, timestamp: int): (r: Option<Notification>)
    ensures r.Some? <==> u.kind == "new_task" || u.kind == "new_tasks" || u.kind == "polling_update"
    ensures r.Some? ==> r.value.id == id && r.value.timestamp == timestamp
    ensures r.Some? ==> (r.value.kind == Success <==> u.kind == "new_task") && r.value.kind != Error
  {
    if u.kind == "new_task" then
      Some(Notification(id, NewTaskPrefix + Prefix(u.data.taskDescription, DescriptionLimit) + "...", Success, timestamp))
    else if u.kind == "new_tasks" then
      Some(Notification(id, IntToString(u.data.newTaskCount) + " new task(s) added", Info, timestamp))
    else if u.kind == "polling_update" then
      Some(Notification(id, PollingPrefix + IntToString(u.data.processedMessages) + " message(s)", Info, timestamp))
    else None
  }

  /** A `new_task` message quotes the first 50 characters of the
      description (all of it when shorter) between the prefix and an
      ellipsis. */
  lemma NewTaskMessage(u: Update, id: string, timestamp: int)
    requires u.kind == "new_task"
    ensures var m := CreateNotification(u, id, timestamp).value.message;
      var quoted := m[|NewTaskPrefix|..|m| - 3];
      |NewTaskPrefix| + 3 <= |m| <= |NewTaskPrefix| + DescriptionLimit + 3 &&
      m[..|NewTaskPrefix|] == NewTaskPrefix && m[|m| - 3..] == "..." &&
      (|u.data.taskDescription| <= DescriptionLimit ==> quoted == u.data.taskDescription) &&
      (|u.data.taskDescription| > DescriptionLimit ==> quoted == u.data.taskDescription[..DescriptionLimit])
  {
    var p := Prefix(u.data.taskDescription, DescriptionLimit);
    var m := CreateNotification(u, id, timestamp).value.message;
    assert m == NewTaskPrefix + p + "...";
    assert m[|NewTaskPrefix|..|m| - 3] == p;
  }

  /** A `new_tasks` message starts with the count, which reads back. */
  lemma NewTasksMessage(u: Update, id: string, timestamp: int)
    requires u.kind == "new_tasks"
    ensures var m, digits := CreateNotification(u, id, timestamp).value.message, IntToString(u.data.newTaskCount);
      |digits| <= |m| && IsIntText(m[..|digits|]) && ParseInt(m[..|digits|]) == u.data.newTaskCount &&
      m[|digits|..] == " new task(s) added"
  {
    var m, digits := CreateNotification(u, id, timestamp).value.message, IntToString(u.data.newTaskCount);
    assert m == digits + " new task(s) added";
    assert m[..|digits|] == digits;
    ParseIntToString(u.data.newTaskCount);
  }

  /** A `polling_update` message carries the number of processed messages
      between "Processed " and " message(s)", and the number reads back. */
  lemma PollingUpdateMessage(u: Update, id: string, timestamp: int)
    requires u.kind == "polling_update"
    ensures var m, digits := CreateNotification(u, id, timestamp).value.message, IntToString(u.data.processedMessages);
      var start := |PollingPrefix|;
      start + |digits| <= |m| && m[..start] == PollingPrefix &&
      IsIntText(m[start..start + |digits|]) && ParseInt(m[start..start + |digits|]) == u.data.processedMessages &&
      m[start + |digits|..] == " message(s)"
  {
    var m, digits := CreateNotification(u, id, timestamp).value.message, IntToString(u.data.processedMessages);
    var start := |PollingPrefix|;
    assert m == PollingPrefix + digits + " message(s)";
    assert m[..start] == PollingPrefix;
    assert m[start..start + |digits|] == digits;
    assert m[start + |digits|..] == " message(s)";
    ParseIntToString(u.data.processedMessages);
  }

  /** What the effect makes of the whole `updates` list: a notification for
      its last element only, none for an empty list. */
  function LatestNotification(updates: seq<Update>, id: string, timestamp: int): (r: Option<Notification>)
    ensures updates == [] ==> r.None?
  {
    if updates == [] then None else CreateNotification(updates[|updates| - 1], id, timestamp)
  }

  /** Earlier updates have no say: only the newest one is looked at. */
  lemma OnlyLatestUpdateCounts(earlier: seq<Update>, u: Update, id: string, timestamp: int)
    ensures LatestNotification(earlier + [u], id, timestamp) == CreateNotification(u, id, timestamp)
  {
  }

  /** The test `n.id !== id`. */
  function IdIsNot(id: string): Notification -> bool {
    (n: Notification) => n.id != id
  }

  /** The list after `dismissNotification(id)`. */
  function Dismissed(ns: seq<Notification>, id: string): (r: seq<Notification>)
    ensures |r| <= |ns|
  {
    Filter(ns, IdIsNot(id))
  }

  /** Dismissing removes exactly the notifications with that id. */
  lemma DismissedMembers(ns: seq<Notification>, id: string, n: Notification)
    ensures n in Dismissed(ns, id) <==> n in ns && n.id != id
  {
    FilterContains(ns, IdIsNot(id), n);
  }

  /** Dismissing keeps the order of the rest: dismissing from a list split
      in two dismisses from each part. */
  lemma DismissedKeepsOrder(a: seq<Notification>, b: seq<Notification>, id: string)
    ensures Dismissed(a + b, id) == Dismissed(a, id) + Dismissed(b, id)
  {
    FilterAppend(a, b, IdIsNot(id));
  }

  /** Dismissing twice is dismissing once. */
  lemma DismissedIdempotent(ns: seq<Notification>, id: string)
    ensures Dismissed(Dismissed(ns, id), id) == Dismissed(ns, id)
  {
    FilterIdempotent(ns, IdIsNot(id));
  }

  /** Dismissing an id no notification carries changes nothing. */
  lemma DismissedUnknownId(ns: seq<Notification>, id: string)
    requires forall i :: 0 <= i < |ns| ==> ns[i].id != id
    ensures Dismissed(ns, id) == ns
  {
    FilterAllPass(ns, IdIsNot(id));
  }

  /** The component's `notifications` state. */
  class NotificationList {
    var notifications: seq<Notification>

    constructor ()
      ensures notifications == []
    {
      notifications := [];
    }

    /** The effect run when `updates` changes: the latest update's
        notification, if any, is appended. `created` is that notification. */
    method OnUpdates(updates: seq<Update>, id: string, timestamp: int) returns (created: Option<Notification>)
      modifies this
      ensures created == LatestNotification(updates, id, timestamp)
      ensures notifications == old(notifications) + (if created.Some? then [created.value] else [])
    {
      created := None;
      if |updates| > 0 {
        var latestUpdate := updates[|updates| - 1];
        created := CreateNotification(latestUpdate, id, timestamp);
        if created.Some? {
          notifications := notifications + [created.value];
        }
      }
    }

    /** `dismissNotification(id)`, from a click or the five-second timer. */
    method DismissNotification(id: string)
      modifies this
      ensures notifications == Dismissed(old(notifications), id)
    {
      notifications := Filter(notifications, IdIsNot(id));
    }
  }
}
