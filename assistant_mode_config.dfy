/** The mode step of the assistant set-up (src/components/AssistantModeConfig.tsx):
    which mode button of a chat is active, whether the start button is
    enabled, and its label. */
module AssistantModeConfig {
  import opened Wrappers
  import opened Seqs
  import opened Decimal
  import opened Types
  import opened ChatSelection

  const StartText: string := "Start AI Assistant"
  const ConfigurePrefix: string := "Configure "

  /** `disabled={chatConfigs.length !== selectedChats.length}`, negated. */
  predicate StartEnabled(selected: seq<string>, configs: seq<ChatConfig>) {
    |configs| == |selected|
  }

  /** `selectedChats.length - chatConfigs.length`. */
  function ChatsLeft(selected: seq<string>, configs: seq<ChatConfig>): int {
    |selected| - |configs|
  }

  /** "chat" for exactly one, "chats" otherwise. */
  function ChatWord(k: int): string {
    if k == 1 then "chat" else "chats"
  }

  /** `Configure ${k} more ${k === 1 ? 'chat' : 'chats'}`. */
  function ConfigureLabel(k: int): (text: string)
    ensures |ConfigurePrefix| < |text| && text[..|ConfigurePrefix|] == ConfigurePrefix
  {
    ConfigurePrefix + IntToString(k) + " more " + ChatWord(k)
  }

  /** The start button's label. */
  function StartLabel(selected: seq<string>, configs: seq<ChatConfig>): (text: string)
    ensures text == StartText <==> StartEnabled(selected, configs)
    ensures !StartEnabled(selected, configs) ==> text == ConfigureLabel(ChatsLeft(selected, configs))
  {
    if StartEnabled(selected, configs) then StartText
    else
      var text := ConfigureLabel(ChatsLeft(selected, configs));
      assert text[0] != StartText[0];
      text
  }

  /** The count in the text reads back as the number of chats left, and
      the noun that follows is singular exactly for one. */
  lemma ConfigureLabelReadsBack(k: int)
    ensures var text, digits := ConfigureLabel(k), IntToString(k);
      var end := |ConfigurePrefix| + |digits|;
      end <= |text| && IsIntText(text[|ConfigurePrefix|..end]) && ParseInt(text[|ConfigurePrefix|..end]) == k &&
      text[end..] == " more " + ChatWord(k)
  {
    var text, digits := ConfigureLabel(k), IntToString(k);
    var end := |ConfigurePrefix| + |digits|;
    assert text == ConfigurePrefix + digits + (" more " + ChatWord(k));
    assert text[|ConfigurePrefix|..end] == digits;
    assert text[end..] == " more " + ChatWord(k);
    ParseIntToString(k);
  }

  /** `config?.mode === mode`: whether the button for `mode` of chat `id`
      is drawn active. */
  predicate ButtonActive(configs: seq<ChatConfig>, id: string, mode: Mode) {
    ModeOf(configs, id) == Some(mode)
  }

  /** At most one of a chat's two buttons is active, and one is exactly
      when the chat has a config. */
  lemma ActiveButtons(configs: seq<ChatConfig>, id: string)
    ensures !(ButtonActive(configs, id, Observe) && ButtonActive(configs, id, Automate))
    ensures ButtonActive(configs, id, Observe) || ButtonActive(configs, id, Automate) <==> id in ConfigIds(configs)
  {
    if id in ConfigIds(configs) {
      assert ModeOf(configs, id).value == Observe || ModeOf(configs, id).value == Automate;
    }
  }

  /** Pressing a mode button makes it the active one for its chat and
      leaves every other chat's buttons as they were. */
  lemma PressActivates(configs: seq<ChatConfig>, id: string, mode: Mode, other: string, m: Mode)
    ensures ButtonActive(SetMode(configs, id, mode), id, mode)
    ensures other != id ==> (ButtonActive(SetMode(configs, id, mode), other, m) <==> ButtonActive(configs, other, m))
  {
    SetModeLookup(configs, id, mode, id);
    SetModeLookup(configs, id, mode, other);
  }

  /** The test "has no config". */
  function Unconfigured(configs: seq<ChatConfig>): string -> bool {
    id => id !in ConfigIds(configs)
  }

  /** Under the selection hook's invariants, the count in the text is the
      number of selected chats still without a config, and the start
      button is enabled exactly when every selected chat has one. */
  lemma StartEnabledIffAllConfigured(selected: seq<string>, configs: seq<ChatConfig>)
    requires Distinct(selected) && Distinct(ConfigIds(configs)) && ConfigsSelected(selected, configs)
    ensures ChatsLeft(selected, configs) == |Filter(selected, Unconfigured(configs))|
    ensures StartEnabled(selected, configs) <==> forall id :: id in selected ==> id in ConfigIds(configs)
  {
    var left := Filter(selected, Unconfigured(configs));
    UnconfiguredCount(selected, configs);
    FilterMembers(selected, Unconfigured(configs));
    if StartEnabled(selected, configs) {
      assert left == [];
    } else {
      assert left[0] in selected && left[0] !in ConfigIds(configs);
    }
  }

  /** The set-size argument behind the count: the selected chats without a
      config are the selected set minus the configured set. */
  lemma UnconfiguredCount(selected: seq<string>, configs: seq<ChatConfig>)
    requires Distinct(selected) && Distinct(ConfigIds(configs)) && ConfigsSelected(selected, configs)
    ensures |Filter(selected, Unconfigured(configs))| == |selected| - |configs|
  {
    var left := Filter(selected, Unconfigured(configs));
    var s, c, u := set x | x in selected, set x | x in ConfigIds(configs), set x | x in left;
    assert |s| == |selected| by {
      DistinctCardinality(selected);
    }
    assert |c| == |configs| by {
      DistinctCardinality(ConfigIds(configs));
    }
    assert |u| == |left| by {
      FilterDistinct(selected, Unconfigured(configs));
      DistinctCardinality(left);
    }
    assert u == s - c by {
      forall x ensures x in u <==> x in s - c {
        FilterContains(selected, Unconfigured(configs), x);
      }
    }
    SubsetCardinality(s, c);
  }
}
