# EagleCord core logic in Dafny

EagleCord is a fork of Vencord, a client mod for the Discord desktop and web clients. Most of
the mod works on the host client's minified bundle and React tree. This project models the
self-contained logic underneath that glue and proves what it promises:

- **Registries**: the context-menu patch registry and how patches run; the profile-badge set and
  how badges are laid out; the message-popover button map and how buttons are built.
- **Trees**: the search for the menu group that holds a given item, and the pruning of the guild
  sidebar tree to the subtrees that hold a target.
- **Settings**: migrating plugin and option keys, and resolving a missing setting to its
  declared default.
- **Plugins**: the decision logic of several plugins. These are PsychiatrieWords' `/w` command,
  BetterFolders, MessageClickActions, NewGuildSettings, SupportHelper, DevCompanion,
  SendTimestamps, ShikiCodeblocks' settings and QuestSpoofer.
- **Other pieces**: the QuickCSS and theme style state, and the build script that derives a
  plugin's target from its file path.

Host services are parameters or uninterpreted functions. These include the stores, the regular
expression engine, URL and `Date` parsing, `eval`, REST and the clock. JavaScript values are
written out explicitly:

- A `Set` or `Map` is kept in insertion order, as a sequence without duplicates (a map adds a `map`
  beside it).
- Truthiness, `??` and `?.` are spelled out case by case.
- Strings are `seq<char>`. `trim` removes JavaScript white space.

In the modules, `Wrappers` holds `Option` and `Result`. `Strings`, `OrderedSets` and
`ElementTree` hold the shared string, ordered-set and menu-tree helpers. Every other module
matches one source file.

## Model

| member | source | states |
|---|---|---|
| PsychiatrieFormat.MentionLength | src/plugins/psychiatrieWords/utils.ts:24-25 | the trailing mention found is white space, `<@`, digits and `>`, ending the input; when none is found, no suffix of that shape exists |
| PsychiatrieFormat.MentionUnique | src/plugins/psychiatrieWords/utils.ts:24-25 | at most one suffix of the input has the shape of a mention, so the match is unique |
| PsychiatrieFormat.Mention | src/plugins/psychiatrieWords/utils.ts:24-25 | the mention taken off the input is empty or has the mention shape |
| PsychiatrieFormat.DocumentedExample | src/plugins/psychiatrieWords/utils.ts:15-18 | `"abc = def <@123456>"` formats to ``"`abc` = `def` <@123456>"`` |
| PsychiatrieFormat.OnlyMention | src/plugins/psychiatrieWords/utils.ts:29-32 | when nothing but the mention is left, the result is the trimmed mention, and "" when there is no mention either |
| PsychiatrieFormat.MentionKeptAtEnd | src/plugins/psychiatrieWords/utils.ts:34-37 | otherwise the result is the formatted body followed by the mention unchanged, so output and input end in the same mention; without a mention nothing follows the body |
| PsychiatrieFormat.SeparatorCount | src/plugins/psychiatrieWords/utils.ts:34-36 | the formatted body has exactly as many `=` as the main part |
| PsychiatrieFormat.OutputSeparatorCount | src/plugins/psychiatrieWords/utils.ts:34-37 | the whole output has exactly as many `=` as the main part |
| PsychiatrieFormat.Formatted | src/plugins/psychiatrieWords/utils.ts:35 | every formatted segment is free of `=` and has no white space at either end |
| PsychiatrieFormat.WrapNoneIn | src/plugins/psychiatrieWords/utils.ts:35 | wrapping a trimmed segment in backticks adds no `=` |
| PsychiatrieFormat.DecodeBody | src/plugins/psychiatrieWords/utils.ts:34-36 | reading the body back (split on `=`, trim, unwrap) gives each trimmed segment of the main part, so each non-empty segment sits in exactly one pair of backticks and empty ones stay empty |
| PsychiatrieFormat.DecodeJoin | src/plugins/psychiatrieWords/utils.ts:36 | splitting segments joined with `" = "` gives them back, for segments without `=` or outer white space |
| PsychiatrieCommand.FindValue | src/plugins/psychiatrieWords/commands.tsx:42-44 | the value of the first option with that name is returned; none is returned when no option has that name |
| PsychiatrieCommand.Word | src/plugins/psychiatrieWords/commands.tsx:42-44 | the word is the trimmed value of the first option with that name, "" when it is missing or has no value, and trimming it again changes nothing |
| PsychiatrieCommand.Execute | src/plugins/psychiatrieWords/commands.tsx:39-82 | missing words, then an empty channel id, then failed priming refuse the command (each if and only if the earlier guards passed); otherwise the formatted raw message goes to the trimmed channel and the reply is the left-to-right mark whether or not delivery worked |
| PsychiatrieCommand.MessageWithPerson | src/plugins/psychiatrieWords/commands.tsx:51-52 | with a person, plain words `f` and `r` give ``"`f` = `r` <@person>"`` |
| PsychiatrieCommand.MessageWithoutPerson | src/plugins/psychiatrieWords/commands.tsx:51-52 | without one they give ``"`f` = `r`"`` and nothing after it |
| PsychiatrieCommand.TrailingMention | src/plugins/psychiatrieWords/commands.tsx:51 | the appended `" <@p>"` is exactly the mention `formatMessage` finds |
| PsychiatrieCommand.SameReplyEitherWay | src/plugins/psychiatrieWords/commands.tsx:69-80 | a send that throws and one that succeeds give the same reply, `"‎"` |
| PsychiatrieCommand.ExampleCommand | src/plugins/psychiatrieWords/commands.tsx:51-52 | words `a`, `b` and person `1` give ``"`a` = `b` <@1>"`` |
| PluginTarget.Segments | scripts/utils.mjs:12-13 | no path segment contains either separator |
| PluginTarget.SegmentsAndPopped | scripts/utils.mjs:12-13 | the segments are the path split at either separator, less its last piece exactly when that piece is `index.ts` or `index.tsx` |
| PluginTarget.SegmentsRejoin | scripts/utils.mjs:12-13 | the segments and the popped index file, joined with `/`, give the path back with every `\` turned into `/`; there is one piece more than separators |
| Strings.JoinSplit | scripts/utils.mjs:12 | joining the pieces of a split with one separator gives the string back with every separator turned into that one |
| PluginTarget.StripTsExtension | scripts/utils.mjs:15 | only a trailing `.ts` or `.tsx` is removed, and one is removed whenever present |
| PluginTarget.GetPluginTarget | scripts/utils.mjs:11-17 | the result is null exactly when the identifier has no `.`; otherwise it is the text after the last `.` and holds no `.` and no separator |
| PluginTarget.SeparatorsAlike | scripts/utils.mjs:12 | turning every `\` into `/` changes nothing |
| PluginTarget.IndexFileLikeNamedFile | scripts/utils.mjs:13-17 | `dir/name/index.ts(x)` and `dir/name.tsx` give the same identifier and target |
| PluginTarget.DesktopExample | scripts/utils.mjs:13-17 | `x/foo.desktop/index.tsx` gives `"desktop"` |
| ContextMenu.AsWrittenAgrees | src/api/ContextMenu.ts:92-95 | the test as written and the intended test agree on every query except an empty id list with substring matching |
| ContextMenu.EmptyIdListMatchesEverything | src/api/ContextMenu.ts:93-94 | as written, an empty id list with substring matching matches every child with a string id, although none of its ids does |
| ContextMenu.SearchListFound | src/api/ContextMenu.ts:83-110 | a found path leads to a list that directly holds a matching child; nothing is found exactly when no node anywhere matches |
| ContextMenu.VisitFound | src/api/ContextMenu.ts:86-108 | an element matches itself exactly when its own id matches, and a nested hit leads to a list holding a match |
| ContextMenu.SearchListKeepsShape | src/api/ContextMenu.ts:97-102 | the search only wraps single children into one-element lists, so it leaves the tree the same up to that wrapping |
| ContextMenu.FindGroupChildrenByChildId | src/api/ContextMenu.ts:83-110 | the loop's rewritten children and found path are those of the recursive search |
| ContextMenu.VisitChild | src/api/ContextMenu.ts:84-108 | one child's turn of the loop gives the reference visit: an empty child is skipped, an array is searched, a matching element is a hit, and non-empty children are wrapped into a list and searched |
| ContextMenu.SearchStep | src/api/ContextMenu.ts:83-110 | a hit at a position ends the search with the path starting at that position; a miss moves the rewritten child into the finished part |
| ContextMenu.Added | src/api/ContextMenu.ts:33-44 | adding keeps every menu id that was there and adds each listed one |
| ContextMenu.Registry.AddContextMenuPatch | src/api/ContextMenu.ts:33-44 | the nav patches become the registry with the patch added for each listed id; global patches are unchanged |
| ContextMenu.AddToLists | src/api/ContextMenu.ts:34-43 | the loop gives the reference registry with the patch added, once, for each listed id |
| ContextMenu.AddedValid | src/api/ContextMenu.ts:33-44 | each id's patches stay free of duplicates after adding |
| ContextMenu.Registry.RemoveContextMenuPatch | src/api/ContextMenu.ts:60-66 | the patch is removed for each listed id; a single id gives one flag and a list gives one per id, in order; global patches are unchanged |
| ContextMenu.RemoveFromLists | src/api/ContextMenu.ts:63 | the map gives the reference removal: every listed id loses the patch, and each flag says whether that id still held it when its turn came |
| ContextMenu.RemovedValid | src/api/ContextMenu.ts:60-66 | each id's patches stay free of duplicates after removing |
| ContextMenu.Registry.AddGlobalContextMenuPatch | src/api/ContextMenu.ts:50-52 | the global patches gain the patch once; nav patches are unchanged |
| ContextMenu.Registry.RemoveGlobalContextMenuPatch | src/api/ContextMenu.ts:73-75 | returns whether the patch was registered and removes it; nav patches are unchanged |
| ContextMenu.Registry.UsePatchContextMenu | src/api/ContextMenu.ts:121-151 | the run is the menu's patches then all global patches, in order; the ones logged are exactly those that throw, and later patches still run |
| ContextMenu.AddedHolds | src/api/ContextMenu.ts:33-44 | after adding, each listed id has the patch and every other id keeps its patches |
| ContextMenu.AddedIdempotent | src/api/ContextMenu.ts:33-44 | adding twice is the same as adding once |
| ContextMenu.RemovedMeaning | src/api/ContextMenu.ts:60-66 | the flag for an unknown id is false; for an id's first occurrence it is true exactly when the patch was registered there; afterwards the patch is gone for the listed ids and other ids are unchanged |
| ContextMenu.RemoveUndoesAdd | src/api/ContextMenu.ts:33-66 | removing a newly added patch from known ids restores the registry |
| ContextMenu.FailingAreRuns | src/api/ContextMenu.ts:132-148 | every logged failure is a patch that ran and threw |
| Settings.FirstPresent | src/api/Settings.ts:212-219 | the old name chosen is the first in the list that exists, and none when none does |
| Settings.SettingsStore.MigratePluginSettings | src/api/Settings.ts:208-221 | nothing changes if the new name exists or no old name does; otherwise the first existing old name's entry moves to the new name, the old key is deleted and the store is marked changed once |
| Settings.SettingsStore.MigratePluginSetting | src/api/Settings.ts:223-232 | the option moves to its new key and the old key is deleted only when the entry exists, has the old key and lacks the new one; otherwise nothing changes |
| Settings.MigrationMovesValue | src/api/Settings.ts:227-230 | after moving, the new key holds the old value, the old key is gone and no other key changes |
| Settings.RenameKeepsOthers | src/api/Settings.ts:214-217 | renaming a plugin keeps every other plugin's entry |
| Settings.FirstDefault | src/api/Settings.ts:147-151 | a SELECT's fallback is the value of the first choice marked default, and there is one exactly when some choice is marked |
| Settings.GetDefaultValue | src/api/Settings.ts:122-156 | without plugin definitions or outside known paths nothing is resolved or written; a missing plugin entry becomes `{enabled}` and is written back; whatever is written is what is returned |
| Settings.OptionDefault | src/api/Settings.ts:137-153 | a value is written back exactly when the option declares a default or is a SELECT with a default choice, and what is written is the value taken; a declared default wins; a SELECT without one takes its first default choice and gets none exactly when no choice is a default; any other option keeps its current value |
| Settings.OptionPathResolves | src/api/Settings.ts:137-153 | under `plugins.<name>` a declared option resolves to that option's default |
| Settings.MissingPluginEnabled | src/api/Settings.ts:130-133 | a missing plugin entry is enabled exactly when it is required, enabled by default or in reporter mode |
| Settings.SelectWithoutDefault | src/api/Settings.ts:147-151 | a SELECT with no default and no default choice resolves to nothing and writes nothing |
| Settings.DefinedSettings.Store | src/api/Settings.ts:240-247 | reading `store` throws exactly while the plugin name is unset; otherwise it is the plugin's entry when there is one |
| Badges.Contribution | src/api/Badges.ts:68-73 | a badge with `getBadges` contributes exactly the list it returns; one without it contributes one entry, the badge merged with the user arguments |
| Badges.BadgeRegistry.AddProfileBadge | src/api/Badges.ts:47-50 | the badge set gains the badge once, keeping insertion order |
| Badges.BadgeRegistry.RemoveProfileBadge | src/api/Badges.ts:56-58 | returns whether the badge was present and removes it |
| Badges.BadgeRegistry.GetBadges | src/api/Badges.ts:64-84 | the loop's output is the donor badges followed by the layout of the registered badges |
| Badges.LayoutSplits | src/api/Badges.ts:75-77 | the layout is the START badges' entries followed by all the others' |
| Badges.LaterStartFirst | src/api/Badges.ts:75-76 | a START badge registered later comes before all earlier badges |
| Badges.LaterEndLast | src/api/Badges.ts:77 | any other shown badge registered later comes after all earlier ones |
| Badges.HiddenContributesNothing | src/api/Badges.ts:67 | a badge whose `shouldShow` is false adds nothing |
| Badges.EntriesFromShown | src/api/Badges.ts:67-77 | every entry of the layout comes from some shown badge |
| Badges.DonorsFirst | src/api/Badges.ts:80-81 | the donor badges, when there are any, come first, then the layout |
| MessagePopover.PopoverButtons.AddMessagePopoverButton | src/api/MessagePopover.tsx:28-33 | the identifier maps to the new factory and keeps its place in order, or is appended when new |
| MessagePopover.PopoverButtons.RemoveMessagePopoverButton | src/api/MessagePopover.tsx:35-37 | only the given identifier is deleted |
| MessagePopover.PopoverButtons.BuildPopoverElements | src/api/MessagePopover.tsx:39-62 | the loop's items are those of the reference built in registration order |
| MessagePopover.ReplaceKeepsOthers | src/api/MessagePopover.tsx:28-33 | re-adding an identifier keeps the order and every other factory |
| MessagePopover.SkippedAddsNothing | src/api/MessagePopover.tsx:46-58 | a factory that throws or returns nothing adds no item |
| MessagePopover.ButtonsFromFactories | src/api/MessagePopover.tsx:45-55 | every item comes from a factory that returned it, with its own key or else the identifier |
| MessagePopover.AtMostOnePerFactory | src/api/MessagePopover.tsx:45-55 | there are at most as many items as factories |
| BetterFolders.FilterTreeWithTargetNode | src/plugins/betterFolders/index.tsx:43-68 | the result is whether the node's subtree holds a target, and the node becomes its pruned form |
| BetterFolders.FilterArray | src/plugins/betterFolders/index.tsx:56-67 | the splicing loop returns whether any element holds a target and leaves the pruned list |
| BetterFolders.PrunedListIsKept | src/plugins/betterFolders/index.tsx:56-67 | the pruned list holds exactly the original elements whose subtree holds a target, pruned, in their original order |
| BetterFolders.KeepIffNonEmpty | src/plugins/betterFolders/index.tsx:56-67 | an array is kept exactly when at least one element remains |
| BetterFolders.PrunedKeepsTarget | src/plugins/betterFolders/index.tsx:43-68 | pruning keeps whether a subtree holds a target |
| BetterFolders.PrunedIdempotent | src/plugins/betterFolders/index.tsx:43-68 | pruning twice is pruning once |
| BetterFolders.GuildShowsWithFolder | src/plugins/betterFolders/index.tsx:310-324 | in the sidebar a guild in a folder shows exactly when that folder does |
| BetterFolders.HiddenOnlyInSidebar | src/plugins/betterFolders/index.tsx:310-324 | outside the sidebar every node shows; in it nothing shows while no folder is expanded |
| BetterFolders.FolderIconOrdered | src/plugins/betterFolders/index.tsx:356-371 | expanding more folders never hides the icon; whatever Never shows MoreThanOneFolderExpanded shows and whatever that shows Always shows; in the sidebar with at most one folder expanded MoreThanOneFolderExpanded shows nothing |
| BetterFolders.FolderContents | src/plugins/betterFolders/index.tsx:373-385 | the pending folder always animates and never renders contents; other folders render only outside the sidebar when expanded, and never animate while rendering |
| BetterFolders.GetGuildFolder | src/plugins/betterFolders/index.tsx:33-35 | the first folder holding the guild is returned; none is returned exactly when no folder holds it |
| BetterFolders.CloseFolders | src/plugins/betterFolders/index.tsx:37-40 | every expanded folder is toggled, in order |
| BetterFolders.FolderState.ChannelSelect | src/plugins/betterFolders/index.tsx:266-282 | ignored unless closeAllFolders or forceOpen is on and the guild changed; then the guild is recorded, its folder is opened if forced and closed, or all folders close when it has none |
| BetterFolders.FolderState.ToggleGuildFolderExpand | src/plugins/betterFolders/index.tsx:284-299 | a close is scheduled only with closeOthers and when none is pending |
| BetterFolders.FolderState.FoldersCloseSettled | src/plugins/betterFolders/index.tsx:288-297 | once settled, the other expanded folders are toggled when more than one is open, and the pending flag is cleared |
| BetterFolders.ToggleOthers | src/plugins/betterFolders/index.tsx:292-293 | the folders toggled are exactly the expanded ones other than the folder just toggled, in their order |
| BetterFolders.OnlyFolderStaysOpen | src/plugins/betterFolders/index.tsx:291-294 | exactly the expanded folders other than the toggled one are closed |
| QuickCss.ThemeChoosesLinks | src/utils/quickCss.ts:50-63 | under the light ThemeStore theme `@light` links are kept and `@dark` ones dropped; under every other theme, `darker` and `midnight` included, the reverse |
| QuickCss.PrefixedLink | src/utils/quickCss.ts:58-62 | `@light x` resolves to `x` only under the light theme, `@dark x` only under the dark one |
| QuickCss.NoThemeStoreKeepsPlainLinks | src/utils/quickCss.ts:52-64 | without a ThemeStore only unprefixed links survive, and a list of them is kept whole |
| QuickCss.ThemeLinksAppend | src/utils/quickCss.ts:56-64 | each link is filtered on its own, so filtering distributes over concatenation |
| QuickCss.LocalThemeUrlNamesTheme | src/utils/quickCss.ts:74 | a local link names its theme between `vencord:///themes/` and `?v=<now>`, so two themes share a link only when they are the same |
| QuickCss.LocalThemesFollowEnabled | src/utils/quickCss.ts:73-76 | on the desktop client there is one local link per enabled theme, and two links agree exactly when their themes do |
| QuickCss.WebThemeStep | src/utils/quickCss.ts:66-72 | on the web a theme without stored data adds nothing and one with data adds its object URL |
| QuickCss.EnabledWebThemes | src/utils/quickCss.ts:66-72 | the web loop's links are those of the reference definition |
| QuickCss.ThemesCssLines | src/utils/quickCss.ts:78 | the themes text splits into one `@import url("<trimmed link>");` line per link |
| QuickCss.VariablesAppend | src/utils/quickCss.ts:22-25 | each system value is formatted on its own |
| QuickCss.OnlyHashValues | src/utils/quickCss.ts:22-27 | values equal to `#` are omitted, so only-`#` values give an empty `:root{}` |
| QuickCss.Styles.Toggle | src/utils/quickCss.ts:30-43 | the style is created, with one change listener, only on the first enabled call; later calls only set disabled to not enabled |
| QuickCss.Styles.OnQuickCssChange | src/utils/quickCss.ts:34-38 | a change sets the text and re-applies disabled from useQuickCss |
| QuickCss.Styles.InitThemes | src/utils/quickCss.ts:45-79 | the themes text is the import rules of the filtered links followed by the web or local theme links |
| MessageClickActions.KeyState.Keydown | src/plugins/messageClickActions/index.ts:18 | Backspace sets the delete flag; other keys leave it |
| MessageClickActions.KeyState.Keyup | src/plugins/messageClickActions/index.ts:19 | Backspace clears the delete flag; other keys leave it |
| MessageClickActions.KeyState.FocusChanged | src/plugins/messageClickActions/index.ts:20 | losing focus clears the delete flag; gaining it leaves it |
| MessageClickActions.FlagMeansHeld | src/plugins/messageClickActions/index.ts:17-20 | after any run of events the flag is set exactly when Backspace went down and neither its release nor a focus loss came after |
| MessageClickActions.OnMessageClick | src/plugins/messageClickActions/index.ts:64-109 | without the flag, nothing happens unless every guard passes; editing and replying happen exactly under their conditions; deleting happens exactly with the flag, the setting and ownership or MANAGE_MESSAGES, locally for a deleted message; default is prevented exactly for edits and deletes |
| MessageClickActions.DeleteOnlyWhileHeld | src/plugins/messageClickActions/index.ts:66-108 | with the flag a click never edits or replies, and without it never deletes |
| MessageClickActions.MentionUnlessShift | src/plugins/messageClickActions/index.ts:83-86 | without NoReplyMention a reply mentions unless shift is held without requireModifier |
| NewGuildSettings.MutingPatchDeterminedByFlags | src/plugins/newGuildSettings/index.tsx:87-94 | two settings give the same first update exactly when they agree on the four muting flags and the highlights flag; messages and showAllChannels play no part in it |
| NewGuildSettings.ApplyDefaultSettings | src/plugins/newGuildSettings/index.tsx:85-104 | an id of `@me` or `null`, or none, gives no call; otherwise there are exactly these calls: the muting update first, then the message-level update exactly when messages is not server default, then the channel toggle, last, exactly with showAllChannels and opt-in |
| NewGuildSettings.MessagesOnlyInSecondCall | src/plugins/newGuildSettings/index.tsx:95-99 | two message levels give the same first call and differ in the second exactly when they differ |
| NewGuildSettings.ApplyItem | src/plugins/newGuildSettings/index.tsx:75-82 | the menu item has the apply id and an icon exactly when asked for |
| NewGuildSettings.PatchGuildMenu | src/plugins/newGuildSettings/index.tsx:71-83 | without a guild nothing changes; otherwise the result is the searched menu with the apply item appended to the group holding `privacy` and nothing else changed (popping that item gives the searched menu back), and without such a group only the search's wrapping happens |
| ElementTree.PopUndoesPush | src/plugins/newGuildSettings/index.tsx:74-82 | removing the last child of a group after appending one to it gives the menu back, so an append changes nothing else |
| NewGuildSettings.NoGroupNoChange | src/plugins/newGuildSettings/index.tsx:74 | a menu without `privacy` is left the same up to wrapping |
| NewGuildSettings.IconOnlyInHeaderPopout | src/plugins/newGuildSettings/index.tsx:111-114 | only the two guild menus get the apply item; the header popout's item has the icon and the context menu's does not |
| SupportHelper.CategoryChannelsAllowed | src/plugins/_core/supportHelper.tsx:48 | every channel of the support category allows the commands, whatever its id |
| SupportHelper.CommandChannels | src/plugins/_core/supportHelper.tsx:147-153 | the commands are available exactly to plugin developers, in the support category and in the bot-spam channel, so a developer may run them wherever anyone else may |
| SupportHelper.OnlyBotSpamOutsideCategory | src/plugins/_core/supportHelper.tsx:34-36 | outside the category only the bot-spam channel is allowed |
| SupportHelper.GeneratePluginList | src/plugins/_core/supportHelper.tsx:101-118 | the list is the stock section, followed by the user section exactly when a user plugin is enabled |
| SupportHelper.HeaderCount | src/plugins/_core/supportHelper.tsx:111-115 | the number in a section header reads back as the list's length |
| SupportHelper.NoApiPluginListed | src/plugins/_core/supportHelper.tsx:102-105 | a listed plugin is enabled, not required and does not end in `API` |
| SupportHelper.StockAndUserPartition | src/plugins/_core/supportHelper.tsx:107-108 | the stock and user lists partition the enabled non-API plugins |
| SupportHelper.ChannelSelect | src/plugins/_core/supportHelper.tsx:159-221 | alerts appear only in support channels for users with an id who are not plugin developers; each of the three alerts is given exactly under its condition: outdated when the updater is on and reports it; otherwise, for a member with roles and none trusted, external builds when not web and the updater is off, and else custom builds when not standalone and not dismissed |
| SupportHelper.TrustedRoleNoBuildWarning | src/plugins/_core/supportHelper.tsx:187-188 | a member holding a trusted role gets neither build warning |
| SupportHelper.AccessoryButtons | src/plugins/_core/supportHelper.tsx:224-301 | the update button exactly under its three conditions and first; both command buttons together exactly in the category with send permission and a command word; the snippet button exactly for the bot's message with a code block |
| SupportHelper.NoUpdateWordNoButton | src/plugins/_core/supportHelper.tsx:233 | without the word `update` there is no update button |
| DevCompanion.ThrowingArgFailsFind | src/plugins/devCompanion.dev/index.tsx:64-77 | the first argument whose type is unknown or whose regular expression `new RegExp` rejects makes `testFind` reply `Failed to parse args: ` with that argument's error, whatever the find type |
| DevCompanion.Prepared | src/plugins/devCompanion.dev/index.tsx:155-159 | the source loses its newlines and gains `0,` exactly when it starts with `function(` |
| DevCompanion.Step | src/plugins/devCompanion.dev/index.tsx:166-178 | a match or replace node that throws fails the replacement with its error; otherwise one that changes nothing fails with `Had no effect`, one that leaves code `Function` rejects fails with that `SyntaxError`, and only one that changes the source to code that parses succeeds, with the new source |
| DevCompanion.TestPatch | src/plugins/devCompanion.dev/index.tsx:146-183 | the loop's error is the reference outcome: exactly one candidate is required, and the first failing replacement is reported with its 1-based index |
| DevCompanion.FailureSticks | src/plugins/devCompanion.dev/index.tsx:161-179 | after a failure later replacements are not tried |
| DevCompanion.FirstFailure | src/plugins/devCompanion.dev/index.tsx:161-179 | the reported index is that of the first replacement that fails, all before it having applied |
| DevCompanion.AllApplied | src/plugins/devCompanion.dev/index.tsx:161-181 | when all apply, each one applied to the result of those before it |
| DevCompanion.LeadingFindRemoved | src/plugins/devCompanion.dev/index.tsx:194 | a type starting with `find` loses exactly that prefix before `Lazy` is removed |
| DevCompanion.ParseArgs | src/plugins/devCompanion.dev/index.tsx:187-190 | the arguments parse, one value each, exactly when none throws, and otherwise the error is that of the first that throws |
| DevCompanion.TestFindError | src/plugins/devCompanion.dev/index.tsx:184-226 | an argument error or unknown find type is reported; otherwise the find succeeds exactly when there is one distinct result |
| DevCompanion.DistinctResults | src/plugins/devCompanion.dev/index.tsx:217-219 | the results count as one exactly when there are some and all are the same value, and as none exactly when there are none |
| DevCompanion.HandleMessage | src/plugins/devCompanion.dev/index.tsx:128-230 | no reply exactly for invalid JSON; otherwise one reply with the nonce: the reply built from the `testPatch` or `testFind` error, ok exactly when that test passes, and `Unknown Type` for any other type |
| DevCompanion.ErrorsNeverEmpty | src/plugins/devCompanion.dev/index.tsx:152-221 | every error text is non-empty, so a failure never replies ok |
| SendTimestamps.ReadFormatted | src/plugins/sendTimestamps/index.tsx:49 | a formatted timestamp reads back as its time and its format, the empty format giving `<t:time>` |
| SendTimestamps.InnerUnwraps | src/plugins/sendTimestamps/index.tsx:28 | whatever is written between the two end characters is exactly what is read |
| SendTimestamps.CleanTimeOnce | src/plugins/sendTimestamps/index.tsx:28 | cleaning twice is cleaning once, and cleaning at most puts one space just before the last two characters |
| SendTimestamps.CleanTimeSeparatesMeridiem | src/plugins/sendTimestamps/index.tsx:28 | `0:13PM` becomes `0:13 PM` |
| SendTimestamps.NeverInThePast | src/plugins/sendTimestamps/index.tsx:34 | a time of the current day gives a timestamp no earlier than now, less than a day ahead unless it was kept, and at the same time of day as the time parsed |
| SendTimestamps.ParseTime | src/plugins/sendTimestamps/index.tsx:27-37 | text that does not parse is returned unchanged; otherwise the result is the `t` timestamp of the next occurrence |
| SendTimestamps.ParsedIsTimeOnly | src/plugins/sendTimestamps/index.tsx:36 | a rewritten time reads back with the `t` format |
| SendTimestamps.TokenLength | src/plugins/sendTimestamps/index.tsx:159 | a token found is 6 to 10 characters inside backticks, starting with one or two digits and a colon, and is one reading of the pattern with that length |
| SendTimestamps.TokenFound | src/plugins/sendTimestamps/index.tsx:159 | every reading of the pattern at a position, with one or two hour digits and with or without the space and the AM or PM in any case, is the token found there, of exactly its length |
| SendTimestamps.ShortTimeIsToken | src/plugins/sendTimestamps/index.tsx:159 | `` `3:51` `` is one token |
| SendTimestamps.NoBacktickNoChange | src/plugins/sendTimestamps/index.tsx:159 | a message without backticks is sent unchanged |
| SendTimestamps.KeptTokensNoChange | src/plugins/sendTimestamps/index.tsx:159 | when every token maps to itself the message is unchanged |
| SendTimestamps.OutgoingMessage.OnBeforeMessageSend | src/plugins/sendTimestamps/index.tsx:157-161 | the content is rewritten token by token with `parseTime` only when replaceMessageContents is on, and unchanged otherwise |
| SendTimestamps.NothingParsesNothingChanges | src/plugins/sendTimestamps/index.tsx:157-161 | when no time parses the message is unchanged |
| ShikiSettings.ShikiRepoTheme | src/plugins/shikiCodeblocks.desktop/api/themes.ts:9-11 | every repository theme link ends in `.json` |
| ShikiSettings.DefaultThemeIsDarkPlus | src/plugins/shikiCodeblocks.desktop/settings.ts:25-29 | with DarkPlus in the table, a missing theme setting resolves to DarkPlus and is written back |
| ShikiSettings.DisabledSelectorIgnored | src/plugins/shikiCodeblocks.desktop/settings.ts:36-38 | after a change of the custom link to a non-empty one, which is when the selector is disabled, the selected theme has no effect on the theme set |
| ShikiSettings.EnabledSelectorShown | src/plugins/shikiCodeblocks.desktop/settings.ts:36-38 | after the custom link is cleared, which enables the selector, the selected theme is the one set |
| ShikiSettings.RepoThemeValid | src/plugins/shikiCodeblocks.desktop/settings.ts:101-109 | a repository theme link is accepted |
| ShikiSettings.DevIconStyleFollowsSetting | src/plugins/shikiCodeblocks.desktop/settings.ts:81-84 | after a change of the icon option the icon style is applied exactly when the new value is not Disabled, whatever it was before, and repeating the change changes nothing |
| QuestSpoofer.FindQuest | src/plugins/questSpoofer/index.ts:28-38 | the quest chosen is the first eligible one (not the excluded id, enrolled, not completed, not expired), and none exactly when none is |
| QuestSpoofer.CompletedQuestIgnored | src/plugins/questSpoofer/index.ts:28-38 | a completed quest is never the one chosen, in any list of quests, and nothing is planned when all are completed |
| QuestSpoofer.FirstTask | src/plugins/questSpoofer/index.ts:46-48 | the task chosen is present and no task before it in the order is; none exactly when none is present |
| QuestSpoofer.VideoPreferred | src/plugins/questSpoofer/index.ts:47-48 | a quest with a video task always spoofs the video |
| QuestSpoofer.MobileVideoLast | src/plugins/questSpoofer/index.ts:47-48 | the mobile video is chosen only when none of the other four tasks is present |
| QuestSpoofer.ProgressRecordedPerTask | src/plugins/questSpoofer/index.ts:51 | recording progress for one task sets where that task starts and leaves every other task's starting point as it was |
| QuestSpoofer.StartPlan | src/plugins/questSpoofer/index.ts:28-214 | no quest exactly when none is eligible, otherwise the plan is for the first eligible quest: its id, the task chosen for it with that task's target, recorded progress and application, a video plan exactly for a video task, a desktop task refused exactly outside the desktop client and spoofed exactly inside it, and an activity plan or no voice channel exactly for the activity task; the activity key names a non-empty voice channel, and no voice channel is reported only when there is none |
| QuestSpoofer.VideoQuestPlan | src/plugins/questSpoofer/index.ts:46-55 | when the quest chosen has a video task, its video is spoofed with its target and recorded progress, whatever its other tasks |
| QuestSpoofer.FirstVocal | src/plugins/questSpoofer/index.ts:206-207 | the guild channel is the first of the first guild with voice channels, none when no guild has one |
| QuestSpoofer.VoiceChannelFromLists | src/plugins/questSpoofer/index.ts:204-207 | the channel used is a private channel or a guild voice channel of the user, and there is none exactly when the user has neither |
| QuestSpoofer.StreamKeyShape | src/plugins/questSpoofer/index.ts:214 | the stream key is `call:`, the channel id and `:1` |
| QuestSpoofer.VideoStep | src/plugins/questSpoofer/index.ts:63-83 | one step posts exactly when the headroom is at least 7, and then posts the smaller of the target and the progress plus 7, never past the clock; the progress moves to that value unless the reply completes the quest and otherwise stays; the loop leaves on completion or once the next timestamp reaches the target |
| QuestSpoofer.SpoofVideoLoop | src/plugins/questSpoofer/index.ts:60-91 | the loop's posts and progress are those of the reference run, followed by a final post of the target exactly when it left |
| QuestSpoofer.VideoPostsAdvanceBySpeed | src/plugins/questSpoofer/index.ts:65-80 | the k-th post is min(target, start + 7(k+1)), so progress grows by 7 and never passes the target |
| QuestSpoofer.CompletedAfterReply | src/plugins/questSpoofer/index.ts:75-78 | the loop ends as completed only right after a post whose reply was completed |
| QuestSpoofer.EnoughTimeReachesTarget | src/plugins/questSpoofer/index.ts:62-85 | with enough clock readings far enough ahead and no completion, the loop reaches the target |
| QuestSpoofer.HeartbeatReadsOneField | src/plugins/questSpoofer/index.ts:140-142 | a listener's progress depends only on the stream seconds for configVersion 1 and otherwise only on its own task's progress |
| QuestSpoofer.WithoutAppend | src/plugins/questSpoofer/index.ts:147 | unsubscribing from a joined list is joining the two lists unsubscribed, so the listeners kept stay in order |
| QuestSpoofer.WithoutKeepsOthers | src/plugins/questSpoofer/index.ts:147 | every listener with another id is kept |
| QuestSpoofer.WithoutOthers | src/plugins/questSpoofer/index.ts:147 | a list holding no listener with the id is left as it is |
| QuestSpoofer.WithoutLast | src/plugins/questSpoofer/index.ts:147 | unsubscribing the listener just added restores the listener list |
| QuestSpoofer.Client.StartDesktopPlay | src/plugins/questSpoofer/index.ts:125-162 | the game stores are replaced by the fake game and backed up in the listener, a games change is dispatched and the listener is subscribed |
| QuestSpoofer.Client.StartStream | src/plugins/questSpoofer/index.ts:175-199 | the stream metadata is faked and backed up in the listener, which is subscribed |
| QuestSpoofer.Client.OnHeartbeatSuccess | src/plugins/questSpoofer/index.ts:139-160 | below the target nothing changes; at the target the listener is removed and the stores it backed up are restored, with a games change for the desktop play |
| QuestSpoofer.Client.DesktopPlayRestores | src/plugins/questSpoofer/index.ts:125-162 | faking a game and receiving a finishing heartbeat leaves the stores and listeners as they were, with exactly the two games changes dispatched |
| QuestSpoofer.Client.StreamRestores | src/plugins/questSpoofer/index.ts:175-199 | faking a stream and receiving a finishing heartbeat leaves the stores and listeners as they were |

## Left out

- I/O and the network are not modelled. This covers REST calls, the WebSocket of DevCompanion, toasts, logging, and the React components and JSX the plugins render.
- The regular-expression patch definitions of every plugin are not modelled, because their correctness depends on a third-party build of the host client.
- The clock, randomness and date parsing are parameters: `Date.now()`, `new Date(...)` and `Math.random()`.
- The host stores and permission checks are parameters, and so are the constants from the shared constants module (support category, channel and role ids), which is not part of this model.
- `cloneMenuChildren` and the error-boundary wrapping of patched menus are not modelled, because they are pure React element copying.
- Badges.Contribution: the `ErrorBoundary.wrap` of each listed badge's component is not modelled, because it only wraps a React component; the entries are otherwise the ones `getBadges` returns, in order.
- ContextMenu.FindGroupChildrenByChildId: the search is modelled on values, so the aliasing of the returned array with the menu tree is not captured. It returns the rewritten tree and a path to the group instead. It uses the intended test of an id list (see Findings), so for an empty id list with matchSubstring it may return another list or none, where the source returns the first list holding a child with a string id.
- BetterFolders.FilterTreeWithTargetNode: the in-place splice is modelled as returning the pruned node; aliasing is not captured.
- Settings.GetDefaultValue: the write into `target` is returned as the value to write. The proxy store, `mergeDefaults`, debouncing and cloud sync are not part of this model.
- Settings.OptionDefault: an option whose `default` key is present but undefined is treated as having no default. JavaScript's `in` operator on prototype keys is not modelled.
- Settings.SettingsStore.MigratePluginSettings: `name in plugins` and `oldName in plugins` are modelled as map membership (through `Settings.FirstPresent`), so a name that is only a key of the object's prototype chain is not seen as present.
- SupportHelper: the debug-info message, the DM warning card, the forced update and the snippet runner are not modelled, because they are I/O or `eval`. The regular expression that finds a code block is a parameter.
- DevCompanion.ParseNode: the `function` node case is kept only as the code it would evaluate, because `eval` is foreign; what `eval` itself may throw is not modelled. Whether `new RegExp` accepts a pattern and its flags is a host field, because the regular-expression engine is foreign.
- DevCompanion: the host's `Function` syntax check is the parameter `parses`, and `String.replace` with the canonicalised matcher is the parameter `replace`. The `ModuleId` case is folded into `findAll`.
- DevCompanion.Host: the host fields `search`, `replace`, `findAll` and the filters never throw in this model. In the source, a throw from `replace` is caught and reported as `Replacement i failed: …`, and a throw from `findAll`, the filters or the `ModuleId` search is caught and reported as `Failed to find: …`. A throw from `search` in `testPatch` happens before any `try`, so it escapes the message handler and no reply is sent.
- DevCompanion.HandleMessage: it requires each known message type to carry data of its own shape. The source reads the fields without checking them, and a malformed message throws there.
- SendTimestamps: the picker modal is not modelled. `Date` parsing is the parameter `parseLocal`, which gives whole seconds, so the `Math.round` is the identity.
- QuickCss.LocalThemes: one clock reading `now` serves every enabled theme, while the source reads `Date.now()` once per theme; the readings can differ by the time the `map` takes.
- ShikiSettings: the selector's own `onChange` (`shiki.setTheme` with the selected theme) is not modelled, so the theme-setting lemmas cover only changes of the custom link; a selector change made while a custom link is set would still switch the theme.
- ShikiSettings: the theme table and the label text made from a theme name are parameters. The theme `fetch` is not modelled. `enableStyle` and `disableStyle` are modelled only by whether the style is applied afterwards, because the style registry is not part of this model.
- QuestSpoofer.VideoStep: the post is `min(needed, secondsDone + 7)` with no `Math.random()` jitter, for the reason given on the next line.
- QuestSpoofer.SpoofVideoLoop: the `Math.random()` jitter on each posted timestamp is dropped, so each post is `min(needed, secondsDone + 7)`. The failure of the undefined `RestRestAPI` is not modelled. The clock is a finite sequence of readings, so a loop that never ends is modelled as running out of readings.
- QuestSpoofer: some parts of `start()` are not modelled:
  - the activity heartbeat loop;
  - fetching the application and choosing its executable name;
  - the floor of fractional progress;
  - `delete window.$`;
  - the random pid;
  - quests without any task configuration;
  - the unreachable "unsupported task" branch.
- QuestSpoofer: Flux subscriptions are modelled as a list of listeners.

## Findings

| source | as written | input that shows it | evidently intended | confidence | as-written member | corrected member |
|---|---|---|---|---|---|---|
| src/api/ContextMenu.ts:93-94 | with `matchSubstring`, an id list is also passed to `includes` as a whole, which turns it into its ids joined by commas | an empty id list `[]` with `matchSubstring`: `includes("")` holds for every child with a string id | a child matches only when one of the listed ids matches it | not executed | ContextMenu.EmptyIdListMatchesEverything | ContextMenu.AsWrittenAgrees |
