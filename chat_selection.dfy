/** `useChatSelection` (src/hooks/useChatSelection.ts): the chats the user
    picked for the assistant (`selectedChats`, at most `chatLimit`) and the
    mode chosen for each (`chatConfigs`). The two handlers replace the
    lists with new ones; the functions below say what the new lists are. */
module ChatSelection {
  import opened Wrappers
  import opened Seqs
  import opened Types
  import opened TelegramChats

  /** The mode chosen for one chat. */
  datatype ChatConfig = ChatConfig(id: string, mode: Mode)

  /** A displayed chat together with its configured mode. */
  datatype ConfiguredChat = ConfiguredChat(chat: TelegramChat, mode: Mode)

  /** The ids of a list of configs, in order. */
  function ConfigIds(configs: seq<ChatConfig>): (ids: seq<string>)
    ensures |ids| == |configs|
    ensures forall i :: 0 <= i < |configs| ==> ids[i] == configs[i].id
  {
    if configs == [] then [] else [configs[0].id] + ConfigIds(configs[1..])
  }

  /** `chatConfigs.find(c => c.id === id)?.mode`: the mode of the first
      config for `id`. */
  function ModeOf(configs: seq<ChatConfig>, id: string): (m: Option<Mode>)
    ensures m.Some? <==> id in ConfigIds(configs)
    ensures m.Some? ==> ChatConfig(id, m.value) in configs
  {
    if configs == [] then None
    else if configs[0].id == id then Some(configs[0].mode)
    else ModeOf(configs[1..], id)
  }

  /** The mode found is that of the first config for `id`: configs
      before it, whatever they say, are for other chats. */
  lemma {:induction false} ModeOfFirst(configs: seq<ChatConfig>, id: string, i: nat)
    requires i < |configs| && configs[i].id == id
    requires forall j :: 0 <= j < i ==> configs[j].id != id
    ensures ModeOf(configs, id) == Some(configs[i].mode)
  {
    if i > 0 {
      ModeOfFirst(configs[1..], id, i - 1);
    }
  }

  /** The selection after `handleToggleChat(id)`: a selected id is removed;
      an unselected one is appended when there is room. */
  function Toggle(selected: seq<string>, chatLimit: int, id: string): (r: seq<string>)
    ensures id in r <==> id !in selected && |selected| < chatLimit
    ensures |r| <= |selected| + 1
    ensures id !in selected && |selected| < chatLimit ==> r == selected + [id]
  {
    if id in selected then
      FilterContains(selected, Except(id), id);
      Filter(selected, Except(id))
    else if |selected| < chatLimit then selected + [id]
    else selected
  }

  /** `chatConfigs.filter(config => config.id !== id)`. */
  function DropConfig(configs: seq<ChatConfig>, id: string): (r: seq<ChatConfig>)
    ensures r == Filter(configs, ForOtherChat(id))
    ensures ConfigIds(r) == Filter(ConfigIds(configs), Except(id))
  {
    if configs == [] then []
    else (if configs[0].id != id then [configs[0]] else []) + DropConfig(configs[1..], id)
  }

  /** The test `config.id !== id`. */
  function ForOtherChat(id: string): ChatConfig -> bool {
    (c: ChatConfig) => c.id != id
  }

  /** Dropping a chat's config keeps exactly the other chats' configs,
      modes included, in their order. */
  lemma DropConfigMembers(configs: seq<ChatConfig>, id: string, c: ChatConfig)
    ensures c in DropConfig(configs, id) <==> c in configs && c.id != id
  {
    FilterContains(configs, ForOtherChat(id), c);
  }

  /** `chatConfigs.map(c => c.id === id ? {...c, mode} : c)`: every config
      for `id` gets the new mode, the others are kept, in order. */
  function Relabel(configs: seq<ChatConfig>, id: string, mode: Mode): (r: seq<ChatConfig>)
    ensures |r| == |configs| && ConfigIds(r) == ConfigIds(configs)
    ensures forall i :: 0 <= i < |configs| && configs[i].id != id ==> r[i] == configs[i]
    ensures forall i :: 0 <= i < |configs| && configs[i].id == id ==> r[i].mode == mode
  {
    if configs == [] then []
    else [if configs[0].id == id then ChatConfig(id, mode) else configs[0]] + Relabel(configs[1..], id, mode)
  }

  /** The configs after `handleSetMode(id, mode)`: an existing config's
      mode is replaced, otherwise a new config is appended. */
  function SetMode(configs: seq<ChatConfig>, id: string, mode: Mode): (r: seq<ChatConfig>)
    ensures ModeOf(r, id) == Some(mode)
    ensures |r| == if id in ConfigIds(configs) then |configs| else |configs| + 1
  {
    if ModeOf(configs, id).Some? then
      RelabelLookup(configs, id, mode, id);
      Relabel(configs, id, mode)
    else
      AppendLookup(configs, ChatConfig(id, mode), id);
      configs + [ChatConfig(id, mode)]
  }

  /** `configuredChats`: the chats that have a config, in `chats` order,
      each with the mode of its config. */
  function ConfiguredChats(chats: seq<TelegramChat>, configs: seq<ChatConfig>): (r: seq<ConfiguredChat>)
    ensures |r| <= |chats|
    ensures forall i :: 0 <= i < |r| ==> ModeOf(configs, r[i].chat.id) == Some(r[i].mode)
  {
    if chats == [] then []
    else
      var rest := ConfiguredChats(chats[1..], configs);
      if chats[0].id in ConfigIds(configs) then [ConfiguredChat(chats[0], ModeOf(configs, chats[0].id).GetOr(Observe))] + rest
      else rest
  }

  /** The hook's invariant: no id is selected twice, the selection is
      within the limit (or empty, when the limit is not positive), and no
      chat has two configs. */
  ghost predicate Consistent(selected: seq<string>, configs: seq<ChatConfig>, chatLimit: int) {
    Distinct(selected) && (|selected| == 0 || |selected| <= chatLimit) && Distinct(ConfigIds(configs))
  }

  /** Every configured chat is a selected chat. */
  ghost predicate ConfigsSelected(selected: seq<string>, configs: seq<ChatConfig>) {
    forall id :: id in ConfigIds(configs) ==> id in selected
  }

  /** Toggling removes a selected id, adds an unselected one exactly when
      the selection is below the limit, and leaves every other id alone. */
  lemma ToggleMembers(selected: seq<string>, chatLimit: int, id: string, x: string)
    ensures x in Toggle(selected, chatLimit, id) <==>
      if x == id then id !in selected && |selected| < chatLimit else x in selected
  {
    if id in selected {
      FilterContains(selected, Except(id), x);
    }
  }

  /** Toggling keeps the selection free of duplicates and within the limit. */
  lemma ToggleKeepsSelectionValid(selected: seq<string>, chatLimit: int, id: string)
    requires Distinct(selected) && (|selected| == 0 || |selected| <= chatLimit)
    ensures var r := Toggle(selected, chatLimit, id); Distinct(r) && (|r| == 0 || |r| <= chatLimit)
  {
    if id in selected {
      FilterDistinct(selected, Except(id));
    }
  }

  /** Selecting an unselected chat and toggling it again restores the
      selection exactly. */
  lemma ToggleTwiceRestores(selected: seq<string>, chatLimit: int, id: string)
    requires id !in selected && |selected| < chatLimit
    ensures Toggle(Toggle(selected, chatLimit, id), chatLimit, id) == selected
  {
    RemoveOccurrence(selected, id, []);
    assert selected + [id] + [] == selected + [id];
    assert selected + [] == selected;
  }

  /** Deselecting closes the gap: the ids before and after the removed one
      keep their order. */
  lemma ToggleDeselectKeepsOrder(a: seq<string>, b: seq<string>, chatLimit: int, id: string)
    requires id !in a && id !in b
    ensures Toggle(a + [id] + b, chatLimit, id) == a + b
  {
    RemoveOccurrence(a, id, b);
  }

  /** With the selection full, toggling an unselected chat changes nothing. */
  lemma ToggleAtLimitIsNoOp(selected: seq<string>, chatLimit: int, id: string)
    requires id !in selected && |selected| >= chatLimit
    ensures Toggle(selected, chatLimit, id) == selected
  {
  }

  /** The mode lookup after `handleSetMode(id, mode)`: `id` has `mode`,
      every other chat keeps its mode (or its lack of one). */
  lemma {:induction false} SetModeLookup(configs: seq<ChatConfig>, id: string, mode: Mode, x: string)
    ensures ModeOf(SetMode(configs, id, mode), x) == if x == id then Some(mode) else ModeOf(configs, x)
  {
    if ModeOf(configs, id).Some? {
      RelabelLookup(configs, id, mode, x);
    } else {
      AppendLookup(configs, ChatConfig(id, mode), x);
    }
  }

  lemma {:induction false} RelabelLookup(configs: seq<ChatConfig>, id: string, mode: Mode, x: string)
    requires ModeOf(configs, id).Some?
    ensures ModeOf(Relabel(configs, id, mode), x) == if x == id then Some(mode) else ModeOf(configs, x)
  {
    var r := Relabel(configs, id, mode);
    RelabelSplit(configs, id, mode);
    ModeOfCons(r, x);
    ModeOfCons(configs, x);
    if configs[0].id != id {
      ModeOfCons(configs, id);
      RelabelLookup(configs[1..], id, mode, x);
    } else if x != id {
      RelabelOtherLookup(configs[1..], id, mode, x);
    }
  }

  /** The lookup decides the first config on its own. */
  lemma ModeOfCons(configs: seq<ChatConfig>, x: string)
    requires configs != []
    ensures ModeOf(configs, x) == if configs[0].id == x then Some(configs[0].mode) else ModeOf(configs[1..], x)
  {
  }

  lemma {:induction false} RelabelOtherLookup(configs: seq<ChatConfig>, id: string, mode: Mode, x: string)
    requires x != id
    ensures ModeOf(Relabel(configs, id, mode), x) == ModeOf(configs, x)
  {
    if configs != [] {
      RelabelSplit(configs, id, mode);
      RelabelOtherLookup(configs[1..], id, mode, x);
    }
  }

  /** The first config after relabelling, and the rest. */
  lemma RelabelSplit(configs: seq<ChatConfig>, id: string, mode: Mode)
    requires configs != []
    ensures Relabel(configs, id, mode)[0] == if configs[0].id == id then ChatConfig(id, mode) else configs[0]
    ensures Relabel(configs, id, mode)[1..] == Relabel(configs[1..], id, mode)
  {
  }

  lemma {:induction false} AppendLookup(configs: seq<ChatConfig>, c: ChatConfig, x: string)
    requires c.id !in ConfigIds(configs)
    ensures ModeOf(configs + [c], x) == if x == c.id then Some(c.mode) else ModeOf(configs, x)
  {
    if configs == [] {
      assert [c][1..] == [];
    } else {
      assert (configs + [c])[1..] == configs[1..] + [c];
      assert ConfigIds(configs) == [configs[0].id] + ConfigIds(configs[1..]);
      AppendLookup(configs[1..], c, x);
    }
  }

  /** `handleSetMode` keeps the order of the config ids and adds `id` at the
      end when it had no config: config ids stay unique. */
  lemma SetModeIds(configs: seq<ChatConfig>, id: string, mode: Mode)
    ensures ConfigIds(SetMode(configs, id, mode)) ==
      if id in ConfigIds(configs) then ConfigIds(configs) else ConfigIds(configs) + [id]
    ensures Distinct(ConfigIds(configs)) ==> Distinct(ConfigIds(SetMode(configs, id, mode)))
  {
    var ids := ConfigIds(configs);
    if id !in ids {
      assert SetMode(configs, id, mode) == configs + [ChatConfig(id, mode)];
      ConfigIdsAppend(configs, ChatConfig(id, mode));
      if Distinct(ids) {
        DistinctAppend(ids, id);
      }
    }
  }

  /** The ids of a list with one more config end with its id. */
  lemma ConfigIdsAppend(configs: seq<ChatConfig>, c: ChatConfig)
    ensures ConfigIds(configs + [c]) == ConfigIds(configs) + [c.id]
  {
    var r := configs + [c];
    assert forall i :: 0 <= i < |r| ==> ConfigIds(r)[i] == (ConfigIds(configs) + [c.id])[i];
  }

  /** Appending a new element keeps a sequence duplicate-free. */
  lemma DistinctAppend(ids: seq<string>, id: string)
    requires Distinct(ids) && id !in ids
    ensures Distinct(ids + [id])
  {
  }

  /** Relabelling configs whose `id` entries already have `mode` changes nothing. */
  lemma RelabelUnchanged(configs: seq<ChatConfig>, id: string, mode: Mode)
    requires forall i :: 0 <= i < |configs| && configs[i].id == id ==> configs[i].mode == mode
    ensures Relabel(configs, id, mode) == configs
  {
    var r := Relabel(configs, id, mode);
    forall i | 0 <= i < |configs| ensures r[i] == configs[i] {
      if configs[i].id == id {
        assert ConfigIds(r)[i] == r[i].id;
      }
    }
  }

  /** Setting the same mode twice is setting it once. */
  lemma SetModeIdempotent(configs: seq<ChatConfig>, id: string, mode: Mode)
    ensures SetMode(SetMode(configs, id, mode), id, mode) == SetMode(configs, id, mode)
  {
    var once := SetMode(configs, id, mode);
    var ids := ConfigIds(configs);
    forall i | 0 <= i < |once| && once[i].id == id ensures once[i].mode == mode {
      if id in ids {
        assert once == Relabel(configs, id, mode);
      } else {
        assert once == configs + [ChatConfig(id, mode)];
        assert forall j :: 0 <= j < |configs| ==> configs[j].id == ids[j];
        assert i == |configs|;
      }
    }
    RelabelUnchanged(once, id, mode);
    assert ModeOf(once, id).Some?;
  }

  /** A chat is in `configuredChats` exactly when it is in `chats` and has
      a config, and it carries that config's mode. */
  lemma {:induction false} ConfiguredChatsMembers(chats: seq<TelegramChat>, configs: seq<ChatConfig>, c: TelegramChat, m: Mode)
    ensures ConfiguredChat(c, m) in ConfiguredChats(chats, configs) <==> c in chats && ModeOf(configs, c.id) == Some(m)
  {
    if chats != [] {
      ConfiguredChatsMembers(chats[1..], configs, c, m);
      assert chats == [chats[0]] + chats[1..];
    }
  }

  /** `configuredChats` of a chat list split in two is that of the first
      part followed by that of the second: it keeps the `chats` order. */
  lemma {:induction false} ConfiguredChatsAppend(a: seq<TelegramChat>, b: seq<TelegramChat>, configs: seq<ChatConfig>)
    ensures ConfiguredChats(a + b, configs) == ConfiguredChats(a, configs) + ConfiguredChats(b, configs)
  {
    if a == [] {
      assert a + b == b;
    } else {
      var head := ConfiguredChats([a[0]], configs);
      assert (a + b)[0] == a[0] && (a + b)[1..] == a[1..] + b;
      ConfiguredChatsSplit(a + b, configs);
      ConfiguredChatsSplit(a, configs);
      ConfiguredChatsAppend(a[1..], b, configs);
      AppendAssoc(head, ConfiguredChats(a[1..], configs), ConfiguredChats(b, configs));
    }
  }

  /** The first chat is decided on its own. */
  lemma ConfiguredChatsSplit(chats: seq<TelegramChat>, configs: seq<ChatConfig>)
    requires chats != []
    ensures ConfiguredChats(chats, configs) == ConfiguredChats([chats[0]], configs) + ConfiguredChats(chats[1..], configs)
  {
    assert [chats[0]][1..] == [];
  }

  /** When every chat has a config, `configuredChats` lists all chats in
      their order. */
  lemma {:induction false} ConfiguredChatsAll(chats: seq<TelegramChat>, configs: seq<ChatConfig>)
    requires forall i :: 0 <= i < |chats| ==> chats[i].id in ConfigIds(configs)
    ensures var r := ConfiguredChats(chats, configs);
      |r| == |chats| && forall i :: 0 <= i < |chats| ==> r[i].chat == chats[i]
  {
    if chats != [] {
      ConfiguredChatsAll(chats[1..], configs);
    }
  }

  /** The state of `useChatSelection`. */
  class ChatSelectionState {
    var selectedChats: seq<string>
    var chatConfigs: seq<ChatConfig>
    const chatLimit: int

    ghost predicate Valid()
      reads this
    {
      Consistent(selectedChats, chatConfigs, chatLimit)
    }

    /** Both lists start empty. */
    constructor (chatLimit: int)
      ensures Valid() && ConfigsSelected(selectedChats, chatConfigs)
      ensures selectedChats == [] && chatConfigs == [] && this.chatLimit == chatLimit
    {
      selectedChats, chatConfigs := [], [];
      this.chatLimit := chatLimit;
    }

    /** `handleToggleChat(id)`: deselecting also drops the chat's config. */
    method HandleToggleChat(id: string)
      requires Valid()
      modifies this
      ensures Valid()
      ensures selectedChats == Toggle(old(selectedChats), chatLimit, id)
      ensures chatConfigs == if id in old(selectedChats) then DropConfig(old(chatConfigs), id) else old(chatConfigs)
      ensures old(ConfigsSelected(selectedChats, chatConfigs)) ==> ConfigsSelected(selectedChats, chatConfigs)
    {
      ToggleKeepsSelectionValid(selectedChats, chatLimit, id);
      ghost var before, configsBefore := selectedChats, chatConfigs;
      if id in selectedChats {
        selectedChats := Filter(selectedChats, Except(id));
        chatConfigs := DropConfig(chatConfigs, id);
        FilterDistinct(ConfigIds(configsBefore), Except(id));
        forall x | x in ConfigIds(chatConfigs) && ConfigsSelected(before, configsBefore) ensures x in selectedChats {
          FilterContains(ConfigIds(configsBefore), Except(id), x);
          ToggleMembers(before, chatLimit, id, x);
        }
      } else if |selectedChats| < chatLimit {
        selectedChats := selectedChats + [id];
      }
    }

    /** `handleSetMode(chatId, mode)`. Every config stays the config of a
        selected chat when the chat set is selected, as it is when the
        mode buttons call it. */
    method HandleSetMode(chatId: string, mode: Mode)
      requires Valid()
      modifies this
      ensures Valid()
      ensures selectedChats == old(selectedChats)
      ensures chatConfigs == SetMode(old(chatConfigs), chatId, mode)
      ensures old(ConfigsSelected(selectedChats, chatConfigs)) && chatId in selectedChats ==> ConfigsSelected(selectedChats, chatConfigs)
    {
      SetModeIds(chatConfigs, chatId, mode);
      if ModeOf(chatConfigs, chatId).Some? {
        chatConfigs := Relabel(chatConfigs, chatId, mode);
      } else {
        chatConfigs := chatConfigs + [ChatConfig(chatId, mode)];
      }
    }
  }
}
