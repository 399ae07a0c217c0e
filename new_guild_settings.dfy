/**
 * The NewGuildSettings plugin: the calls `applyDefaultSettings` makes for a guild just joined,
 * and the context-menu patch that adds an "Apply NewGuildSettings" item to the group holding
 * the "privacy" item.  The two host calls are returned as a list of calls; whether opt-in is
 * enabled for a guild is a parameter.
 */
module NewGuildSettings {
  import opened Wrappers
  import opened ElementTree
  import opened ContextMenu

  /** The plugin's settings store. */
  datatype Settings = Settings(guild: bool, messages: int, everyone: bool, role: bool,
                               highlights: bool, events: bool, showAllChannels: bool)

  /** The fields of one `updateGuildNotificationSettings` call. */
  datatype NotificationPatch =
    | Muting(muted: bool, suppressEveryone: bool, suppressRoles: bool, muteScheduledEvents: bool,
             notifyHighlights: int)
    | MessageNotifications(level: int)

  datatype Call =
    | UpdateGuildNotificationSettings(guildId: string, patch: NotificationPatch)
    | ToggleShowAllChannels(guildId: string)

  /** The "Server default" choice of the `messages` setting. */
  const ServerDefault := 3

  /** The ids for which nothing is done: no guild, the private-channel pseudo guild, and the
      string "null". */
  predicate Ignored(guildId: Option<string>) {
    guildId.None? || guildId.value == "@me" || guildId.value == "null"
  }

  /** The first update: the four flags as set, and the highlights flag as 1 or 0. */
  function MutingPatch(s: Settings): (p: NotificationPatch)
    ensures p.Muting? && (p.notifyHighlights == 1 <==> s.highlights)
    ensures p.notifyHighlights == 0 || p.notifyHighlights == 1
    ensures p.muted == s.guild && p.suppressEveryone == s.everyone
    ensures p.suppressRoles == s.role && p.muteScheduledEvents == s.events
  {
    Muting(s.guild, s.everyone, s.role, s.events, if s.highlights then 1 else 0)
  }

  /** The first update is fixed by the four muting flags and the highlights flag alone: two
      settings give the same update exactly when they agree on those five. */
  lemma MutingPatchDeterminedByFlags(s: Settings, t: Settings)
    ensures MutingPatch(s) == MutingPatch(t) <==>
      s.guild == t.guild && s.everyone == t.everyone && s.role == t.role
      && s.events == t.events && s.highlights == t.highlights
  {
  }

  /** `applyDefaultSettings(guildId)`, the host calls it makes in order. */
  function ApplyDefaultSettings(guildId: Option<string>, s: Settings, isOptInEnabledForGuild: string -> bool): (calls: seq<Call>)
    ensures Ignored(guildId) ==> calls == []
    ensures !Ignored(guildId) ==> |calls| > 0 && calls[0] == UpdateGuildNotificationSettings(guildId.value, MutingPatch(s))
    ensures forall k :: 0 <= k < |calls| ==> calls[k].guildId == guildId.value
    ensures (exists k :: 0 <= k < |calls| && calls[k].UpdateGuildNotificationSettings? && calls[k].patch.MessageNotifications?)
      <==> !Ignored(guildId) && s.messages != ServerDefault
    ensures forall k :: (0 <= k < |calls| && calls[k].UpdateGuildNotificationSettings? && calls[k].patch.MessageNotifications?
      ==> calls[k].patch.level == s.messages)
    ensures (exists k :: 0 <= k < |calls| && calls[k].ToggleShowAllChannels?)
      <==> !Ignored(guildId) && s.showAllChannels && isOptInEnabledForGuild(guildId.value)
    ensures !Ignored(guildId) ==>
      |calls| == 1 + (if s.messages != ServerDefault then 1 else 0)
               + (if s.showAllChannels && isOptInEnabledForGuild(guildId.value) then 1 else 0)
    ensures !Ignored(guildId) && s.messages != ServerDefault ==>
      calls[1] == UpdateGuildNotificationSettings(guildId.value, MessageNotifications(s.messages))
    ensures !Ignored(guildId) && s.showAllChannels && isOptInEnabledForGuild(guildId.value) ==>
      calls[|calls| - 1] == ToggleShowAllChannels(guildId.value)
    ensures |calls| <= 3
  {
    if Ignored(guildId) then []
    else
      var g := guildId.value;
      var first := [UpdateGuildNotificationSettings(g, MutingPatch(s))];
      var second := if s.messages != ServerDefault then [UpdateGuildNotificationSettings(g, MessageNotifications(s.messages))] else [];
      var third := if s.showAllChannels && isOptInEnabledForGuild(g) then [ToggleShowAllChannels(g)] else [];
      var calls := first + second + third;
      assert second != [] ==> calls[1] == second[0];
      assert third != [] ==> calls[|calls| - 1] == third[0];
      calls
  }

  /** The `messages` level reaches the host only through the second call: changing it between
      two levels other than "Server default" changes that call and leaves the first as it is. */
  lemma MessagesOnlyInSecondCall(guildId: string, s: Settings, level: int, optIn: string -> bool)
    requires !Ignored(Some(guildId)) && s.messages != ServerDefault && level != ServerDefault
    ensures var a := ApplyDefaultSettings(Some(guildId), s, optIn);
      var b := ApplyDefaultSettings(Some(guildId), s.(messages := level), optIn);
      |a| == |b| && a[0] == b[0] && a[1..2] != b[1..2] <==> level != s.messages
  {
    var a := ApplyDefaultSettings(Some(guildId), s, optIn);
    var b := ApplyDefaultSettings(Some(guildId), s.(messages := level), optIn);
    assert a[1] == UpdateGuildNotificationSettings(guildId, MessageNotifications(s.messages));
    assert b[1] == UpdateGuildNotificationSettings(guildId, MessageNotifications(level));
    assert a[1..2] == [a[1]] && b[1..2] == [b[1]];
  }

  // ---------------------------------------------------------------- the context-menu patch

  /** The id of the added item. */
  const ApplyItemId := "vc-newguildsettings-apply"

  /** The added menu item: it sets a label, an action and, for the header popout, an icon. */
  function ApplyItem(shouldAddIcon: bool): (n: Node)
    ensures n.Element? && n.props.id == Some(ApplyItemId) && n.children == Null
    ensures "icon" in n.props.keys <==> shouldAddIcon
  {
    Element(Props(Some(ApplyItemId), {"label", "action"} + (if shouldAddIcon then {"icon"} else {})), Null)
  }

  /** The group the patch looks for. */
  const Privacy := OneId("privacy")

  /** The patch `makeContextMenuPatch(shouldAddIcon)` run on the menu's children for a guild
      (`None` when the menu has none). */
  method PatchGuildMenu(children: seq<Node>, guild: Option<string>, shouldAddIcon: bool) returns (result: seq<Node>)
    ensures guild.None? ==> result == children
    ensures guild.Some? && !AnyMatchList(Privacy, false, children) ==> result == SearchList(Privacy, false, children).items
    ensures guild.Some? && AnyMatchList(Privacy, false, children) ==>
      var s := SearchList(Privacy, false, children);
      && s.path.Some?
      && GroupAt(s.items, s.path.value).Some?
      && HoldsMatch(Privacy, false, GroupAt(s.items, s.path.value).value)
      && GroupAt(result, s.path.value) == Some(GroupAt(s.items, s.path.value).value + [ApplyItem(shouldAddIcon)])
      && result == PushAt(s.items, s.path.value, ApplyItem(shouldAddIcon))
      && PopAt(result, s.path.value) == s.items
  {
    if guild.None? {
      return children;
    }
    var rewritten, group := FindGroupChildrenByChildId(Privacy, children, false);
    SearchListFound(Privacy, false, children);
    if group.Some? {
      result := PushAt(rewritten, group.value, ApplyItem(shouldAddIcon));
      PopUndoesPush(rewritten, group.value, ApplyItem(shouldAddIcon));
    } else {
      result := rewritten;
    }
  }

  /** Without a group holding "privacy", the menu keeps its content: the search only wraps
      single children into arrays. */
  lemma NoGroupNoChange(children: seq<Node>)
    requires !AnyMatchList(Privacy, false, children)
    ensures CanonList(SearchList(Privacy, false, children).items) == CanonList(children)
    ensures SearchList(Privacy, false, children).path.None?
  {
    SearchListKeepsShape(Privacy, false, children);
    SearchListFound(Privacy, false, children);
  }

  /** The plugin's two context menus: the guild context menu without the icon, the guild
      header popout with it. */
  function ShouldAddIcon(navId: string): (r: Option<bool>)
    ensures r.Some? <==> navId == "guild-context" || navId == "guild-header-popout"
    ensures r == Some(true) <==> navId == "guild-header-popout"
  {
    if navId == "guild-context" then Some(false)
    else if navId == "guild-header-popout" then Some(true)
    else None
  }

  /** Each of the two menus gets the apply item, the header popout's with the icon and the
      context menu's without it; no other menu gets an item. */
  lemma IconOnlyInHeaderPopout(navId: string)
    ensures ShouldAddIcon(navId).Some? ==>
      var item := ApplyItem(ShouldAddIcon(navId).value);
      item.props.id == Some(ApplyItemId) && ("icon" in item.props.keys <==> navId == "guild-header-popout")
    ensures navId != "guild-context" && navId != "guild-header-popout" ==> ShouldAddIcon(navId).None?
  {
  }
}
