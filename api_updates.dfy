/** The `update` event filter of `useTaskUpdates` (src/services/api.ts):
    every `update` event of the task stream carries a JSON payload; a
    payload that parses and whose `type` is `new_tasks` is appended to
    `updates`, everything else is dropped. The connection itself is not
    part of this model. */
module ApiUpdates {

  /** The fields of an update's `data` that the front end reads. */
  datatype UpdateData = UpdateData(taskDescription: string, newTaskCount: int, processedMessages: int)

  /** A parsed update payload: its `type` and its `data`. */
  datatype Update = Update(kind: string, data: UpdateData)

  /** The payload of one `update` event: JSON that parses, or text that
      does not. */
  datatype UpdateEvent = Parsed(update: Update) | Unparseable(raw: string)

  const NewTasksKind: string := "new_tasks"

  /** Whether the handler keeps an event. */
  predicate Keeps(e: UpdateEvent) {
    e.Parsed? && e.update.kind == NewTasksKind
  }

  /** The updates a stream of events leaves in `updates`, in arrival order. */
  function Kept(events: seq<UpdateEvent>): (r: seq<Update>)
    ensures |r| <= |events|
    ensures forall u :: u in r ==> u.kind == NewTasksKind
  {
    if events == [] then []
    else (if Keeps(events[0]) then [events[0].update] else []) + Kept(events[1..])
  }

  /** The kept updates of a stream split in two are those of the first part
      followed by those of the second: arrival order is kept. */
  lemma {:induction false} KeptAppend(a: seq<UpdateEvent>, b: seq<UpdateEvent>)
    ensures Kept(a + b) == Kept(a) + Kept(b)
  {
    if a == [] {
      assert a + b == b;
    } else {
      var head := if Keeps(a[0]) then [a[0].update] else [];
      assert Kept(a + b) == head + Kept(a[1..] + b) by {
        assert (a + b)[0] == a[0];
        assert (a + b)[1..] == a[1..] + b;
      }
      KeptAppend(a[1..], b);
      assert Kept(a) == head + Kept(a[1..]);
      assert head + (Kept(a[1..]) + Kept(b)) == (head + Kept(a[1..])) + Kept(b);
    }
  }

  /** An update is kept exactly when some event of the stream carried it
      parsed and of kind `new_tasks`. */
  lemma {:induction false} KeptMembers(events: seq<UpdateEvent>, u: Update)
    ensures u in Kept(events) <==> Parsed(u) in events && u.kind == NewTasksKind
  {
    if events != [] {
      KeptMembers(events[1..], u);
      assert events == [events[0]] + events[1..];
    }
  }

  /** The `updates` state of `useTaskUpdates`, with the events the handler
      has received so far. */
  class TaskUpdatesFeed {
    var updates: seq<Update>
    ghost var received: seq<UpdateEvent>

    ghost predicate Valid()
      reads this
    {
      updates == Kept(received)
    }

    /** `useState<any[]>([])`. */
    constructor ()
      ensures Valid() && updates == [] && received == []
    {
      updates, received := [], [];
    }

    /** The `update` listener: append the payload when it parsed and is of
        kind `new_tasks`, otherwise leave `updates` as it is. */
    method OnUpdateEvent(e: UpdateEvent)
      requires Valid()
      modifies this
      ensures Valid() && received == old(received) + [e]
      ensures Keeps(e) ==> updates == old(updates) + [e.update]
      ensures !Keeps(e) ==> updates == old(updates)
    {
      KeptAppend(received, [e]);
      assert Kept([e]) == (if Keeps(e) then [e.update] else []) by {
        assert [e][1..] == [];
      }
      if e.Parsed? && e.update.kind == NewTasksKind {
        updates := updates + [e.update];
      }
      received := received + [e];
    }
  }
}
