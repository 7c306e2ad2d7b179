/** The selection rules of the chat list (src/components/ChatList.tsx):
    which rows are selected or disabled, what a click does, and when the
    limit banner is shown. */
module ChatList {
  import opened Wrappers
  import opened Seqs
  import opened TelegramChats
  import opened ChatSelection

  /** How one chat row is drawn. */
  datatype Row = Row(id: string, selected: bool, disabled: bool)

  /** `!selected && selectedChats.length >= chatLimit`. */
  predicate IsDisabled(selected: seq<string>, chatLimit: int, id: string) {
    id !in selected && |selected| >= chatLimit
  }

  /** `chats.map(...)`: one row per chat, in order; a selected row is never
      disabled. */
  function Rows(chats: seq<TelegramChat>, selected: seq<string>, chatLimit: int): (r: seq<Row>)
    ensures |r| == |chats|
    ensures forall i :: 0 <= i < |chats| ==>
      r[i].id == chats[i].id && (r[i].selected <==> chats[i].id in selected) &&
      (r[i].disabled <==> IsDisabled(selected, chatLimit, chats[i].id))
    ensures forall i :: 0 <= i < |r| ==> !(r[i].selected && r[i].disabled)
  {
    if chats == [] then []
    else
      var id := chats[0].id;
      [Row(id, id in selected, IsDisabled(selected, chatLimit, id))] + Rows(chats[1..], selected, chatLimit)
  }

  /** `onClick={() => !disabled && onToggleChat(chat.id)}`: the id the
      toggle handler is called with, if it is called. */
  function Click(selected: seq<string>, chatLimit: int, id: string): (call: Option<string>)
    ensures call.Some? <==> !IsDisabled(selected, chatLimit, id)
    ensures call.Some? ==> call.value == id
  {
    if IsDisabled(selected, chatLimit, id) then None else Some(id)
  }

  /** The selection after a click on a row, through the hook's toggle. */
  function AfterClick(selected: seq<string>, chatLimit: int, id: string): seq<string> {
    match Click(selected, chatLimit, id)
    case Some(x) => Toggle(selected, chatLimit, x)
    case None => selected
  }

  /** `selectedChats.length >= chatLimit`. */
  predicate BannerShown(selected: seq<string>, chatLimit: int) {
    |selected| >= chatLimit
  }

  /** A click changes the selection exactly when the row is not disabled. */
  lemma ClickChangesSelection(selected: seq<string>, chatLimit: int, id: string)
    ensures AfterClick(selected, chatLimit, id) != selected <==> !IsDisabled(selected, chatLimit, id)
  {
    if id in selected {
      FilterContains(selected, Except(id), id);
    } else if |selected| < chatLimit {
      assert |selected + [id]| != |selected|;
    }
  }

  /** The click guard never blocks a change the hook would make: clicking a
      row does what toggling its id does. */
  lemma ClickIsToggle(selected: seq<string>, chatLimit: int, id: string)
    ensures AfterClick(selected, chatLimit, id) == Toggle(selected, chatLimit, id)
  {
    if IsDisabled(selected, chatLimit, id) {
      ToggleAtLimitIsNoOp(selected, chatLimit, id);
    }
  }

  /** For a selection the hook keeps within a positive limit, the banner is
      shown exactly when the selection is full, and then every unselected
      row is disabled while no selected row is. */
  lemma BannerWhenFull(chats: seq<TelegramChat>, selected: seq<string>, chatLimit: int)
    requires chatLimit >= 1 && |selected| <= chatLimit
    ensures BannerShown(selected, chatLimit) <==> |selected| == chatLimit
    ensures forall row :: row in Rows(chats, selected, chatLimit) ==>
      (row.disabled <==> !row.selected && BannerShown(selected, chatLimit))
  {
    var rows := Rows(chats, selected, chatLimit);
    forall row | row in rows ensures row.disabled <==> !row.selected && BannerShown(selected, chatLimit) {
      var i :| 0 <= i < |rows| && rows[i] == row;
    }
  }
}
