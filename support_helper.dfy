/**
 * The SupportHelper core plugin: which channels allow the support commands, the plugin list
 * it posts, the warnings it shows on entering a support channel, and the buttons it adds
 * under support messages.  The ids of the support guild's channels, roles and bot, and the
 * build flags, are the fields of an `Env`; whether a plugin is enabled, the updater's answer,
 * `makeCodeblock` and the code-block regular expression are parameters.
 */
module SupportHelper {
  import opened Wrappers
  import opened Strings

  /** The ids and build flags the plugin reads from the build and from `@utils/constants`. */
  datatype Env = Env(
    supportChannelId: string, supportCategoryId: string, knownIssuesChannelId: string,
    venbotUserId: string, trustedRoleIds: seq<string>,
    updaterDisabled: bool, isWeb: bool, isStandalone: bool)

  /** The channels outside the support category where the commands are allowed. */
  const AdditionalAllowedChannelIds: seq<string> := ["1024286218801926184"]

  datatype Channel = Channel(id: string, parentId: Option<string>)

  /** `isSupportAllowedChannel`. */
  function IsSupportAllowedChannel(env: Env, c: Channel): (r: bool)
    ensures r <==> c.parentId == Some(env.supportCategoryId) || c.id in AdditionalAllowedChannelIds
  {
    c.parentId == Some(env.supportCategoryId) || c.id in AdditionalAllowedChannelIds
  }

  /** The `predicate` of the `/vencord-debug` and `/vencord-plugins` commands. */
  function CommandAvailable(env: Env, selfIsPluginDev: bool, c: Channel): (r: bool)
    ensures selfIsPluginDev ==> r
    ensures !selfIsPluginDev ==> (r <==> IsSupportAllowedChannel(env, c))
  {
    selfIsPluginDev || IsSupportAllowedChannel(env, c)
  }

  /** Outside the support category only the listed extra channel allows the commands. */
  lemma OnlyBotSpamOutsideCategory(env: Env, c: Channel)
    requires c.parentId != Some(env.supportCategoryId)
    ensures IsSupportAllowedChannel(env, c) <==> c.id == "1024286218801926184"
  {
  }

  /** Every channel of the support category allows the commands, whatever its id. */
  lemma CategoryChannelsAllowed(env: Env, c: Channel)
    requires c.parentId == Some(env.supportCategoryId)
    ensures IsSupportAllowedChannel(env, c)
  {
  }

  /** Who may run the support commands where: plugin developers everywhere, everyone else in
      the support category and in the bot-spam channel only. */
  lemma CommandChannels(env: Env, selfIsPluginDev: bool, c: Channel)
    ensures CommandAvailable(env, selfIsPluginDev, c) <==>
      selfIsPluginDev || c.parentId == Some(env.supportCategoryId) || c.id == "1024286218801926184"
    ensures CommandAvailable(env, false, c) ==> CommandAvailable(env, true, c)
  {
    if c.parentId != Some(env.supportCategoryId) {
      OnlyBotSpamOutsideCategory(env, c);
    }
  }

  // ---------------------------------------------------------------- the plugin list

  /** A plugin as the list sees it: its name, `required`, whether it is enabled, and whether
      it is a user plugin. */
  datatype Plugin = Plugin(name: string, required: bool, enabled: bool, userPlugin: bool)

  /** The elements of `xs` that satisfy `p`, in order (`Array.prototype.filter`). */
  function Filter<T(==)>(xs: seq<T>, p: T -> bool): (r: seq<T>)
    ensures |r| <= |xs|
    ensures forall k :: 0 <= k < |r| ==> r[k] in xs && p(r[k])
    ensures forall k :: 0 <= k < |xs| && p(xs[k]) ==> xs[k] in r
  {
    if xs == [] then []
    else (if p(xs[0]) then [xs[0]] else []) + Filter(xs[1..], p)
  }

  /** `isApiPlugin`: a name ending in "API", or a required plugin. */
  predicate IsApiPlugin(p: Plugin) {
    EndsWith(p.name, "API") || p.required
  }

  function EnabledPlugins(ps: seq<Plugin>): seq<Plugin> {
    Filter(ps, (p: Plugin) => p.enabled && !IsApiPlugin(p))
  }

  function EnabledStockPlugins(ps: seq<Plugin>): seq<Plugin> {
    Filter(EnabledPlugins(ps), (p: Plugin) => !p.userPlugin)
  }

  function EnabledUserPlugins(ps: seq<Plugin>): seq<Plugin> {
    Filter(EnabledPlugins(ps), (p: Plugin) => p.userPlugin)
  }

  function Names(ps: seq<Plugin>): (r: seq<string>)
    ensures |r| == |ps| && forall k :: 0 <= k < |ps| ==> r[k] == ps[k].name
  {
    seq(|ps|, k requires 0 <= k < |ps| => ps[k].name)
  }

  /** The header of a section: its title and the number of plugins listed under it. */
  function Header(title: string, count: nat): string {
    "**Enabled " + title + " (" + NatToString(count) + "):**\n"
  }

  /** A section: the header, and the names joined with ", " in a code block. */
  function Section(title: string, ps: seq<Plugin>, makeCodeblock: string -> string): (r: string)
    ensures StartsWith(r, Header(title, |ps|))
  {
    var h := Header(title, |ps|);
    var r := h + makeCodeblock(Join(Names(ps), ", "));
    assert r[..|h|] == h;
    r
  }

  /** `generatePluginList()`: the stock plugins' section, then the user plugins' section when
      at least one user plugin is enabled. */
  function GeneratePluginList(ps: seq<Plugin>, makeCodeblock: string -> string): (r: string)
    ensures StartsWith(r, Header("Plugins", |EnabledStockPlugins(ps)|))
    ensures EnabledUserPlugins(ps) == [] ==> r == Section("Plugins", EnabledStockPlugins(ps), makeCodeblock)
    ensures EnabledUserPlugins(ps) != [] ==>
      r == Section("Plugins", EnabledStockPlugins(ps), makeCodeblock)
           + Section("UserPlugins", EnabledUserPlugins(ps), makeCodeblock)
  {
    var stock := Section("Plugins", EnabledStockPlugins(ps), makeCodeblock);
    var user := EnabledUserPlugins(ps);
    var r := if |user| > 0 then stock + Section("UserPlugins", user, makeCodeblock) else stock;
    assert r[..|stock|] == stock;
    r
  }

  /** The count in a header reads back as the number of plugins listed. */
  lemma HeaderCount(title: string, count: nat)
    ensures var h := Header(title, count);
      var digits := h[|"**Enabled " + title + " ("|..|h| - |"):**\n"|];
      ParseNat(digits) == count
  {
    var h := Header(title, count);
    var front := "**Enabled " + title + " (";
    assert h == front + NatToString(count) + "):**\n";
    assert h[|front|..|h| - |"):**\n"|] == NatToString(count);
    NatToStringRoundTrip(count);
  }

  /** Neither list holds a plugin that is disabled, required, or named like an API. */
  lemma NoApiPluginListed(ps: seq<Plugin>, p: Plugin)
    requires p in EnabledStockPlugins(ps) || p in EnabledUserPlugins(ps)
    ensures p in ps && p.enabled && !p.required && !EndsWith(p.name, "API")
  {
  }

  /** Every enabled non-API plugin is in exactly one of the two lists, and the lists together
      hold the enabled non-API plugins with their multiplicities. */
  lemma StockAndUserPartition(ps: seq<Plugin>)
    ensures forall p :: p in EnabledPlugins(ps) ==>
      (p in EnabledStockPlugins(ps) <==> !p.userPlugin) && (p in EnabledUserPlugins(ps) <==> p.userPlugin)
    ensures multiset(EnabledStockPlugins(ps)) + multiset(EnabledUserPlugins(ps)) == multiset(EnabledPlugins(ps))
    ensures |EnabledStockPlugins(ps)| + |EnabledUserPlugins(ps)| == |EnabledPlugins(ps)|
  {
    FilterPartition(EnabledPlugins(ps), (p: Plugin) => !p.userPlugin, (p: Plugin) => p.userPlugin);
    assert |multiset(EnabledStockPlugins(ps))| == |EnabledStockPlugins(ps)|;
    assert |multiset(EnabledUserPlugins(ps))| == |EnabledUserPlugins(ps)|;
    assert |multiset(EnabledPlugins(ps))| == |EnabledPlugins(ps)|;
  }

  lemma {:induction false} FilterPartition<T>(xs: seq<T>, p: T -> bool, q: T -> bool)
    requires forall x :: q(x) <==> !p(x)
    ensures multiset(Filter(xs, p)) + multiset(Filter(xs, q)) == multiset(xs)
  {
    if xs != [] {
      FilterPartition(xs[1..], p, q);
      FilterFirst(xs, p);
      FilterFirst(xs, q);
      MultisetFirst(xs);
      if p(xs[0]) {
        assert !q(xs[0]);
      } else {
        assert q(xs[0]);
      }
    }
  }

  lemma MultisetFirst<T>(xs: seq<T>)
    requires xs != []
    ensures multiset(xs) == multiset{xs[0]} + multiset(xs[1..])
  {
    assert xs == [xs[0]] + xs[1..];
  }

  /** The first element is kept or dropped, then the rest is filtered. */
  lemma FilterFirst<T>(xs: seq<T>, p: T -> bool)
    requires xs != []
    ensures multiset(Filter(xs, p))
         == (if p(xs[0]) then multiset{xs[0]} else multiset{}) + multiset(Filter(xs[1..], p))
  {
    assert Filter(xs, p) == (if p(xs[0]) then [xs[0]] else []) + Filter(xs[1..], p);
  }

  // ---------------------------------------------------------------- entering a support channel

  datatype Alert = Outdated | ExternallyUpdated | CustomBuild

  /** What the handler knows about the current user in the support guild. */
  datatype Self = Self(id: Option<string>, isPluginDev: bool, roles: Option<seq<string>>)

  predicate IsSupportChannel(env: Env, channelId: string, parentId: Option<string>) {
    channelId == env.supportChannelId || parentId == Some(env.supportCategoryId)
  }

  predicate HasTrustedRole(env: Env, roles: seq<string>) {
    exists k :: 0 <= k < |env.trustedRoleIds| && env.trustedRoleIds[k] in roles
  }

  /** The `CHANNEL_SELECT` handler: the alert it shows on entering `channelId`, whose parent
      is `parentId`, after the updater answered `isOutdated`. */
  function ChannelSelect(env: Env, channelId: string, parentId: Option<string>, me: Self,
                         isOutdated: bool, dismissedDevBuildWarning: bool): (r: Option<Alert>)
    ensures r.Some? ==> IsSupportChannel(env, channelId, parentId) && me.id.Some? && me.id.value != "" && !me.isPluginDev
    ensures r == Some(Outdated) <==>
      IsSupportChannel(env, channelId, parentId) && me.id.Some? && me.id.value != "" && !me.isPluginDev
      && !env.updaterDisabled && isOutdated
    ensures r == Some(ExternallyUpdated) || r == Some(CustomBuild) ==>
      me.roles.Some? && !HasTrustedRole(env, me.roles.value)
    ensures r == Some(ExternallyUpdated) ==> !env.isWeb && env.updaterDisabled
    ensures r == Some(CustomBuild) ==> !env.isStandalone && !dismissedDevBuildWarning && (env.isWeb || !env.updaterDisabled)
    ensures (r.None? && IsSupportChannel(env, channelId, parentId) && me.id.Some? && me.id.value != ""
      && !me.isPluginDev && me.roles.Some? && !HasTrustedRole(env, me.roles.value))
      ==> env.isStandalone || dismissedDevBuildWarning
    ensures r == Some(ExternallyUpdated) <==>
      && IsSupportChannel(env, channelId, parentId) && me.id.Some? && me.id.value != "" && !me.isPluginDev
      && !(!env.updaterDisabled && isOutdated)
      && me.roles.Some? && !HasTrustedRole(env, me.roles.value)
      && !env.isWeb && env.updaterDisabled
    ensures r == Some(CustomBuild) <==>
      && IsSupportChannel(env, channelId, parentId) && me.id.Some? && me.id.value != "" && !me.isPluginDev
      && !(!env.updaterDisabled && isOutdated)
      && me.roles.Some? && !HasTrustedRole(env, me.roles.value)
      && !(!env.isWeb && env.updaterDisabled)
      && !env.isStandalone && !dismissedDevBuildWarning
  {
    if !IsSupportChannel(env, channelId, parentId) then None
    else if me.id.None? || me.id.value == "" || me.isPluginDev then None
    else if !env.updaterDisabled && isOutdated then Some(Outdated)
    else if me.roles.None? || HasTrustedRole(env, me.roles.value) then None
    else if !env.isWeb && env.updaterDisabled then Some(ExternallyUpdated)
    else if !env.isStandalone && !dismissedDevBuildWarning then Some(CustomBuild)
    else None
  }

  /** A member holding any trusted role is never warned about the build. */
  lemma TrustedRoleNoBuildWarning(env: Env, channelId: string, parentId: Option<string>, me: Self,
                                  isOutdated: bool, dismissed: bool, role: string)
    requires me.roles.Some? && role in me.roles.value && role in env.trustedRoleIds
    ensures var r := ChannelSelect(env, channelId, parentId, me, isOutdated, dismissed);
      r != Some(ExternallyUpdated) && r != Some(CustomBuild)
  {
    var k :| 0 <= k < |env.trustedRoleIds| && env.trustedRoleIds[k] == role;
    assert HasTrustedRole(env, me.roles.value);
  }

  // ---------------------------------------------------------------- message accessories

  /** The message a support accessory is rendered for, and the channel it is in. */
  datatype MessageProps = MessageProps(
    channel: Channel, authorId: string, content: string, embedDescription: Option<string>,
    canSendMessages: bool)

  /** `shouldAddUpdateButton`. */
  predicate ShouldAddUpdateButton(env: Env, m: MessageProps) {
    && !env.updaterDisabled
    && (m.channel.id == env.knownIssuesChannelId
        || (m.channel.parentId == Some(env.supportCategoryId) && m.authorId == env.venbotUserId))
    && Includes(m.content, "update")
  }

  /** The text searched for a snippet: the content, else the first embed's description. */
  function SnippetSource(m: MessageProps): (s: string)
    ensures m.content != "" ==> s == m.content
  {
    if m.content != "" then m.content
    else if m.embedDescription.Some? then m.embedDescription.value
    else ""
  }

  /** The buttons in their order: the update button, the two command buttons, the snippet
      button, each group present when its condition holds. */
  function ButtonKeys(update: bool, commands: bool, snippet: bool): (keys: seq<string>)
    ensures "vc-update" in keys <==> update
    ensures update ==> keys[0] == "vc-update"
    ensures "vc-dbg" in keys <==> commands
    ensures "vc-plg-list" in keys <==> commands
    ensures "vc-run-snippet" in keys <==> snippet
    ensures forall k :: 0 <= k < |keys| ==> keys[k] in {"vc-update", "vc-dbg", "vc-plg-list", "vc-run-snippet"}
    ensures |keys| <= 4
  {
    (if update then ["vc-update"] else [])
    + (if commands then ["vc-dbg", "vc-plg-list"] else [])
    + (if snippet then ["vc-run-snippet"] else [])
  }

  /** The keys of the buttons `renderMessageAccessory` shows, in order; `hasCodeBlock` is the
      code-block regular expression. */
  function AccessoryButtons(env: Env, m: MessageProps, hasCodeBlock: string -> bool): (keys: seq<string>)
    ensures "vc-update" in keys <==> ShouldAddUpdateButton(env, m)
    ensures ShouldAddUpdateButton(env, m) ==> keys[0] == "vc-update"
    ensures ("vc-dbg" in keys <==> "vc-plg-list" in keys)
    ensures "vc-dbg" in keys <==>
      m.channel.parentId == Some(env.supportCategoryId) && m.canSendMessages
      && (Includes(m.content, "/vencord-debug") || Includes(m.content, "/vencord-plugins"))
    ensures "vc-run-snippet" in keys <==>
      m.channel.parentId == Some(env.supportCategoryId) && m.canSendMessages
      && m.authorId == env.venbotUserId && hasCodeBlock(SnippetSource(m))
    ensures forall k :: 0 <= k < |keys| ==> keys[k] in {"vc-update", "vc-dbg", "vc-plg-list", "vc-run-snippet"}
    ensures |keys| <= 4
  {
    var inSupport := m.channel.parentId == Some(env.supportCategoryId) && m.canSendMessages;
    ButtonKeys(ShouldAddUpdateButton(env, m),
      inSupport && (Includes(m.content, "/vencord-debug") || Includes(m.content, "/vencord-plugins")),
      inSupport && m.authorId == env.venbotUserId && hasCodeBlock(SnippetSource(m)))
  }

  /** A message without "update" in it never gets the update button. */
  lemma NoUpdateWordNoButton(env: Env, m: MessageProps, hasCodeBlock: string -> bool)
    requires !Includes(m.content, "update")
    ensures "vc-update" !in AccessoryButtons(env, m, hasCodeBlock)
  {
  }
}
