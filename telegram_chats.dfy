/** `useTelegramChats` (src/hooks/useTelegramChats.ts): fetch the user's
    Telegram chats when both connections are up, and turn each raw chat
    record into the record the chat list displays. */
module TelegramChats {
  import opened Wrappers
  import opened Seqs
  import opened Decimal
  import opened ApiRetry

  /** The last message of a raw chat: its text and its date. */
  datatype RawMessage = RawMessage(text: string, date: string)

  /** A chat as `getTelegramChats` returns it. */
  datatype RawChat = RawChat(id: int, title: string, kind: string, unreadCount: int, lastMessage: RawMessage)

  /** A chat as the dashboard displays it (`TelegramChat`). */
  datatype TelegramChat = TelegramChat(
    id: string,
    name: string,
    avatar: string,
    lastMessage: string,
    time: string,
    unread: int)

  const UserAvatar: string := "\U{1F464}"
  const GroupAvatar: string := "\U{1F465}"
  const NoMessages: string := "No messages"
  const LoadFailed: string := "Failed to load chats. Please try again."

  /** The conversion of one raw chat. `localTime` stands for
      `new Date(date).toLocaleTimeString(...)`, which depends on the
      browser's locale and clock. */
  function FormatChat(raw: RawChat, localTime: string -> string): (c: TelegramChat)
    ensures IsIntText(c.id) && ParseInt(c.id) == raw.id
    ensures c.name == raw.title && c.unread == raw.unreadCount
    ensures c.avatar == UserAvatar <==> raw.kind == "user"
    ensures c.avatar == UserAvatar || c.avatar == GroupAvatar
    ensures c.lastMessage != ""
    ensures raw.lastMessage.text != "" ==> c.lastMessage == raw.lastMessage.text
    ensures raw.lastMessage.text == "" ==> c.lastMessage == NoMessages
    ensures c.time == localTime(raw.lastMessage.date)
  {
    ParseIntToString(raw.id);
    TelegramChat(
      IntToString(raw.id),
      raw.title,
      if raw.kind == "user" then UserAvatar else GroupAvatar,
      if raw.lastMessage.text != "" then raw.lastMessage.text else NoMessages,
      localTime(raw.lastMessage.date),
      raw.unreadCount)
  }

  /** `telegramChats.map(...)`: one display record per raw chat, in order. */
  function FormatChats(raws: seq<RawChat>, localTime: string -> string): (r: seq<TelegramChat>)
    ensures |r| == |raws|
    ensures forall i :: 0 <= i < |raws| ==> r[i] == FormatChat(raws[i], localTime)
  {
    if raws == [] then [] else [FormatChat(raws[0], localTime)] + FormatChats(raws[1..], localTime)
  }

  /** Raw chats with different numeric ids become display chats with
      different string ids, and back: the conversion neither merges nor
      splits chats. */
  lemma FormatChatsKeepsIdsDistinct(raws: seq<RawChat>, localTime: string -> string)
    ensures DistinctChatIds(FormatChats(raws, localTime)) <==> DistinctRawIds(raws)
  {
    var chats := FormatChats(raws, localTime);
    forall i, j | 0 <= i < j < |raws| ensures chats[i].id == chats[j].id <==> raws[i].id == raws[j].id {
      var a, b := FormatChat(raws[i], localTime), FormatChat(raws[j], localTime);
      assert chats[i] == a && chats[j] == b;
      assert a.id == IntToString(raws[i].id) && b.id == IntToString(raws[j].id);
    }
  }

  /** No two display chats share an id. */
  predicate DistinctChatIds(chats: seq<TelegramChat>) {
    forall i, j :: 0 <= i < j < |chats| ==> chats[i].id != chats[j].id
  }

  /** No two raw chats share a numeric id. */
  predicate DistinctRawIds(raws: seq<RawChat>) {
    forall i, j :: 0 <= i < j < |raws| ==> raws[i].id != raws[j].id
  }

  /** The state `useTelegramChats` keeps. */
  class ChatsState {
    var chats: seq<TelegramChat>
    var isLoadingChats: bool
    var chatError: Option<string>

    constructor ()
      ensures chats == [] && !isLoadingChats && chatError == None
    {
      chats, isLoadingChats, chatError := [], false, None;
    }

    /** `fetchChats`: nothing happens unless both connections are up; then
        loading is switched on and the error cleared, the chats are fetched
        (`reply`) and either replace the list or leave it with an error
        message, and loading is switched off. `requested` says whether the
        request was sent. */
    method FetchChats(connected: bool, isTelegramConnected: bool, reply: Reply<seq<RawChat>>,
                      localTime: string -> string) returns (requested: bool)
      modifies this
      ensures requested <==> connected && isTelegramConnected
      ensures !requested ==> chats == old(chats) && isLoadingChats == old(isLoadingChats) && chatError == old(chatError)
      ensures requested ==> !isLoadingChats
      ensures requested && reply.Success? ==> chats == FormatChats(reply.value, localTime) && chatError == None
      ensures requested && reply.Failure? ==> chats == old(chats) && chatError == Some(LoadFailed)
    {
      if !connected || !isTelegramConnected {
        return false;
      }
      requested := true;
      isLoadingChats := true;
      chatError := None;
      if reply.Success? {
        chats := FormatChats(reply.value, localTime);
      } else {
        chatError := Some(LoadFailed);
      }
      isLoadingChats := false;
    }
  }
}
