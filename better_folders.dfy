/**
 * The BetterFolders plugin: pruning a guild-bar child tree down to the subtrees that hold a
 * target, which guild-bar nodes stay visible, the folder icon and transition decisions, and
 * the two Flux handlers that open and close folders.  The host's folder stores are
 * parameters: the expanded folder ids in the store's iteration order, and the guild folders
 * in sidebar order.  A call to `toggleGuildFolderExpand` is recorded as the folder id it
 * toggles.
 */
module BetterFolders {
  import opened Wrappers
  import opened OrderedSets
  import opened ElementTree

  // ---------------------------------------------------------------- filterTreeWithTargetNode

  /** Some node in the subtree satisfies the predicate. */
  predicate HasTarget(n: Node, isTarget: Props -> bool)
    decreases n
  {
    match n
    case Null => false
    case Array(xs) => exists k :: 0 <= k < |xs| && HasTarget(xs[k], isTarget)
    case Element(p, c) => isTarget(p) || HasTarget(c, isTarget)
  }

  /** The node as `filterTreeWithTargetNode` leaves it: every array reached is cut down to the
      elements whose subtree holds a target; below a target nothing is visited. */
  function Pruned(n: Node, isTarget: Props -> bool): Node
    decreases Size(n), 0
  {
    match n
    case Null => Null
    case Array(xs) => Array(PrunedList(xs, isTarget))
    case Element(p, c) => if isTarget(p) then n else Element(p, Pruned(c, isTarget))
  }

  function PrunedList(xs: seq<Node>, isTarget: Props -> bool): seq<Node>
    decreases SizeList(xs), 1
  {
    if xs == [] then []
    else (if HasTarget(xs[0], isTarget) then [Pruned(xs[0], isTarget)] else []) + PrunedList(xs[1..], isTarget)
  }

  /** `filterTreeWithTargetNode(children, predicate)`: the answer and the tree after the
      in-place splicing. */
  method FilterTreeWithTargetNode(n: Node, isTarget: Props -> bool) returns (keep: bool, r: Node)
    ensures keep == HasTarget(n, isTarget)
    ensures r == Pruned(n, isTarget)
    decreases Size(n), 0
  {
    match n {
      case Null =>
        return false, Null;
      case Element(p, c) =>
        if isTarget(p) {
          return true, n;
        }
        var c';
        keep, c' := FilterTreeWithTargetNode(c, isTarget);
        return keep, Element(p, c');
      case Array(xs) =>
        var items;
        keep, items := FilterArray(xs, isTarget);
        return keep, Array(items);
    }
  }

  /** The loop of `filterTreeWithTargetNode` over an array: an element whose subtree holds no
      target is spliced out and the index stepped back. */
  method FilterArray(xs: seq<Node>, isTarget: Props -> bool) returns (childIsTargetChild: bool, items: seq<Node>)
    ensures childIsTargetChild <==> exists k :: 0 <= k < |xs| && HasTarget(xs[k], isTarget)
    ensures items == PrunedList(xs, isTarget)
    decreases SizeList(xs), 1
  {
    items := xs;
    childIsTargetChild := false;
    var i: int := 0;
    ghost var j := 0;
    while i < |items|
      invariant 0 <= j <= |xs| && i == |PrunedList(xs[..j], isTarget)|
      invariant items == PrunedList(xs[..j], isTarget) + xs[j..]
      invariant childIsTargetChild <==> |PrunedList(xs[..j], isTarget)| > 0
      decreases |items| - i
    {
      ghost var done := PrunedList(xs[..j], isTarget);
      SpliceStep(done, xs[j..]);
      assert xs[j..][0] == xs[j];
      SizeListBound(xs, j);
      var shouldKeep, child := FilterTreeWithTargetNode(items[i], isTarget);
      if shouldKeep {
        KeepStep(xs, j, isTarget);
        childIsTargetChild := true;
        items := items[i := child];
      } else {
        DropStep(xs, j, isTarget);
        items := items[..i] + items[i + 1..];
        i := i - 1;
      }
      i := i + 1;
      j := j + 1;
    }
    assert xs[..j] == xs;
    KeepIffNonEmpty(xs, isTarget);
  }

  /** Overwriting, or splicing out, the first element after a finished prefix. */
  lemma SpliceStep<T>(done: seq<T>, rest: seq<T>)
    requires rest != []
    ensures (done + rest)[|done|] == rest[0]
    ensures forall c :: (done + rest)[|done| := c] == done + [c] + rest[1..]
    ensures (done + rest)[..|done|] + (done + rest)[|done| + 1..] == done + rest[1..]
  {
    assert (done + rest)[..|done|] == done;
    assert (done + rest)[|done| + 1..] == rest[1..];
  }

  /** A kept element is replaced by its filtered form, which extends the finished prefix. */
  lemma KeepStep(xs: seq<Node>, j: nat, isTarget: Props -> bool)
    requires j < |xs| && HasTarget(xs[j], isTarget)
    ensures var done := PrunedList(xs[..j], isTarget);
      && (done + xs[j..])[|done| := Pruned(xs[j], isTarget)] == PrunedList(xs[..j + 1], isTarget) + xs[j + 1..]
      && |PrunedList(xs[..j + 1], isTarget)| == |done| + 1
  {
    var done := PrunedList(xs[..j], isTarget);
    SpliceStep(done, xs[j..]);
    assert xs[j..][1..] == xs[j + 1..];
    PrunedListSnoc(xs[..j], xs[j], isTarget);
    PrefixSnoc(xs, j);
  }

  /** An element without a target is spliced out and the finished prefix stays as it was. */
  lemma DropStep(xs: seq<Node>, j: nat, isTarget: Props -> bool)
    requires j < |xs| && !HasTarget(xs[j], isTarget)
    ensures var done := PrunedList(xs[..j], isTarget);
      var items := done + xs[j..];
      && items[..|done|] + items[|done| + 1..] == PrunedList(xs[..j + 1], isTarget) + xs[j + 1..]
      && PrunedList(xs[..j + 1], isTarget) == done
  {
    var done := PrunedList(xs[..j], isTarget);
    SpliceStep(done, xs[j..]);
    assert xs[j..][1..] == xs[j + 1..];
    PrunedListSnoc(xs[..j], xs[j], isTarget);
    PrefixSnoc(xs, j);
  }

  lemma {:induction false} PrunedListSnoc(xs: seq<Node>, x: Node, isTarget: Props -> bool)
    ensures PrunedList(xs + [x], isTarget)
         == PrunedList(xs, isTarget) + (if HasTarget(x, isTarget) then [Pruned(x, isTarget)] else [])
    decreases |xs|
  {
    if xs == [] {
      assert [x][1..] == [];
    } else {
      assert (xs + [x])[0] == xs[0] && (xs + [x])[1..] == xs[1..] + [x];
      PrunedListSnoc(xs[1..], x, isTarget);
    }
  }

  /** The positions of the elements whose subtree holds a target, in increasing order. */
  ghost function KeptIndices(xs: seq<Node>, isTarget: Props -> bool): (r: seq<nat>)
    ensures forall m :: 0 <= m < |r| ==> r[m] < |xs| && HasTarget(xs[r[m]], isTarget)
    ensures forall m, m' :: 0 <= m < m' < |r| ==> r[m] < r[m']
    ensures forall k :: 0 <= k < |xs| && HasTarget(xs[k], isTarget) ==> k in r
  {
    if xs == [] then []
    else
      var init := xs[..|xs| - 1];
      var rest := KeptIndices(init, isTarget);
      assert forall m :: 0 <= m < |rest| ==> xs[rest[m]] == init[rest[m]];
      rest + (if HasTarget(xs[|xs| - 1], isTarget) then [|xs| - 1] else [])
  }

  /** After the filter, an array holds exactly the elements whose subtree holds a target, in
      their original order, each itself filtered. */
  lemma {:induction false} PrunedListIsKept(xs: seq<Node>, isTarget: Props -> bool)
    ensures |PrunedList(xs, isTarget)| == |KeptIndices(xs, isTarget)|
    ensures forall m :: 0 <= m < |KeptIndices(xs, isTarget)| ==>
      PrunedList(xs, isTarget)[m] == Pruned(xs[KeptIndices(xs, isTarget)[m]], isTarget)
    decreases |xs|
  {
    if xs != [] {
      var init := xs[..|xs| - 1];
      var x := xs[|xs| - 1];
      PrunedListIsKept(init, isTarget);
      assert xs == init + [x];
      PrunedListSnoc(init, x, isTarget);
      var ks := KeptIndices(init, isTarget);
      assert forall m :: 0 <= m < |ks| ==> xs[ks[m]] == init[ks[m]];
    }
  }

  /** On an array the answer is whether anything is left. */
  lemma KeepIffNonEmpty(xs: seq<Node>, isTarget: Props -> bool)
    ensures HasTarget(Array(xs), isTarget) <==> |PrunedList(xs, isTarget)| > 0
  {
    PrunedListIsKept(xs, isTarget);
    var ks := KeptIndices(xs, isTarget);
    if |ks| > 0 {
      assert HasTarget(xs[ks[0]], isTarget);
    }
    if HasTarget(Array(xs), isTarget) {
      var k :| 0 <= k < |xs| && HasTarget(xs[k], isTarget);
      assert k in ks;
    }
  }

  /** Filtering keeps every target: the filtered tree holds a target exactly when the original
      did. */
  lemma {:induction false} PrunedKeepsTarget(n: Node, isTarget: Props -> bool)
    ensures HasTarget(Pruned(n, isTarget), isTarget) == HasTarget(n, isTarget)
    decreases Size(n), 0
  {
    match n
    case Null =>
    case Element(p, c) =>
      if !isTarget(p) {
        PrunedKeepsTarget(c, isTarget);
      }
    case Array(xs) =>
      PrunedListKeepsTarget(xs, isTarget);
      KeepIffNonEmpty(xs, isTarget);
      var ys := PrunedList(xs, isTarget);
      if |ys| > 0 {
        assert HasTarget(ys[0], isTarget);
      }
  }

  lemma {:induction false} PrunedListKeepsTarget(xs: seq<Node>, isTarget: Props -> bool)
    ensures forall m :: 0 <= m < |PrunedList(xs, isTarget)| ==> HasTarget(PrunedList(xs, isTarget)[m], isTarget)
    decreases SizeList(xs), 1
  {
    if xs != [] {
      PrunedKeepsTarget(xs[0], isTarget);
      PrunedListKeepsTarget(xs[1..], isTarget);
      var head := if HasTarget(xs[0], isTarget) then [Pruned(xs[0], isTarget)] else [];
      var r := PrunedList(xs, isTarget);
      assert r == head + PrunedList(xs[1..], isTarget);
      forall m | 0 <= m < |r|
        ensures HasTarget(r[m], isTarget)
      {
        if m >= |head| {
          assert r[m] == PrunedList(xs[1..], isTarget)[m - |head|];
        }
      }
    }
  }

  /** Filtering a tree a second time changes nothing. */
  lemma {:induction false} PrunedIdempotent(n: Node, isTarget: Props -> bool)
    ensures Pruned(Pruned(n, isTarget), isTarget) == Pruned(n, isTarget)
    decreases Size(n), 0
  {
    match n
    case Null =>
    case Element(p, c) =>
      if !isTarget(p) {
        PrunedIdempotent(c, isTarget);
      }
    case Array(xs) =>
      PrunedListIdempotent(xs, isTarget);
  }

  lemma {:induction false} PrunedListIdempotent(xs: seq<Node>, isTarget: Props -> bool)
    ensures PrunedList(PrunedList(xs, isTarget), isTarget) == PrunedList(xs, isTarget)
    decreases SizeList(xs), 1
  {
    if xs != [] {
      var tail := PrunedList(xs[1..], isTarget);
      PrunedListIdempotent(xs[1..], isTarget);
      if HasTarget(xs[0], isTarget) {
        var y := Pruned(xs[0], isTarget);
        PrunedKeepsTarget(xs[0], isTarget);
        PrunedIdempotent(xs[0], isTarget);
        assert PrunedList(xs, isTarget) == [y] + tail;
        assert ([y] + tail)[0] == y && ([y] + tail)[1..] == tail;
        assert PrunedList([y] + tail, isTarget) == [Pruned(y, isTarget)] + PrunedList(tail, isTarget);
      } else {
        assert PrunedList(xs, isTarget) == tail;
      }
    }
  }

  /** The target of the folder sidebar filter: a child whose props carry `renderTreeNode`. */
  predicate SidebarTarget(p: Props) {
    "renderTreeNode" in p.keys
  }

  // ---------------------------------------------------------------- visibility

  /** A node of the guild bar: a folder with its id, a guild with its parent folder id, or
      anything else. */
  datatype GuildNode = Folder(id: int) | Guild(parentId: Option<int>) | OtherNode

  /** `wrapGuildNodeComponent`: whether the node is rendered as it is rather than hidden. */
  predicate Visible(node: GuildNode, isBetterFolders: bool, expanded: Option<set<int>>)
  {
    !isBetterFolders
    || (node.Folder? && expanded.Some? && node.id in expanded.value)
    || (node.Guild? && expanded.Some? && node.parentId.Some? && node.parentId.value in expanded.value)
  }

  /** In the sidebar, a guild shows exactly when the folder holding it shows. */
  lemma GuildShowsWithFolder(f: int, expanded: Option<set<int>>)
    ensures Visible(Guild(Some(f)), true, expanded) <==> Visible(Folder(f), true, expanded)
  {
  }

  /** Outside the sidebar nothing is hidden; in it, nothing shows before any folder does. */
  lemma HiddenOnlyInSidebar(node: GuildNode, expanded: Option<set<int>>)
    ensures Visible(node, false, expanded)
    ensures !Visible(node, true, None) && !Visible(node, true, Some({}))
  {
  }

  /** The `showFolderIcon` setting: 0 Never, 1 Always, 2 when more than one folder is expanded. */
  const Never := 0
  const Always := 1
  const MoreThanOneFolderExpanded := 2

  /** `shouldShowFolderIconAndBackground(isBetterFolders, expandedFolderIds)`. */
  function ShouldShowFolderIconAndBackground(isBetterFolders: bool, showFolderIcon: int, expanded: Option<set<int>>): (r: bool)
    ensures !isBetterFolders ==> r
    ensures isBetterFolders && showFolderIcon == Never ==> !r
    ensures isBetterFolders && showFolderIcon == MoreThanOneFolderExpanded ==>
      (r <==> expanded.Some? && |expanded.value| > 1)
    ensures showFolderIcon != Never && showFolderIcon != MoreThanOneFolderExpanded ==> r
  {
    if !isBetterFolders then true
    else if showFolderIcon == Never then false
    else if showFolderIcon == Always then true
    else if showFolderIcon == MoreThanOneFolderExpanded then (if expanded.Some? then |expanded.value| else 0) > 1
    else true
  }

  /** The number of expanded folders, none before the store answers. */
  function ExpandedCount(expanded: Option<set<int>>): nat {
    if expanded.Some? then |expanded.value| else 0
  }

  /** The icon shows the more readily the more folders are expanded, and the settings are
      ordered: what Never shows, MoreThanOneFolderExpanded shows, and what that shows, Always
      shows. */
  lemma FolderIconOrdered(isBetterFolders: bool, showFolderIcon: int, fewer: Option<set<int>>, more: Option<set<int>>)
    requires ExpandedCount(fewer) <= ExpandedCount(more)
    ensures ShouldShowFolderIconAndBackground(isBetterFolders, showFolderIcon, fewer)
        ==> ShouldShowFolderIconAndBackground(isBetterFolders, showFolderIcon, more)
    ensures ShouldShowFolderIconAndBackground(isBetterFolders, Never, fewer)
        ==> ShouldShowFolderIconAndBackground(isBetterFolders, MoreThanOneFolderExpanded, fewer)
    ensures ShouldShowFolderIconAndBackground(isBetterFolders, MoreThanOneFolderExpanded, fewer)
        ==> ShouldShowFolderIconAndBackground(isBetterFolders, Always, fewer)
    ensures isBetterFolders && ExpandedCount(fewer) <= 1 ==>
      !ShouldShowFolderIconAndBackground(isBetterFolders, MoreThanOneFolderExpanded, fewer)
  {
  }

  /** The folder of guilds awaiting approval. */
  const PendingGuildsFolder := 1

  /** `shouldShowTransition(props)`. */
  function ShouldShowTransition(folderNodeId: Option<int>, isBetterFolders: bool): bool {
    if folderNodeId == Some(PendingGuildsFolder) then true else isBetterFolders
  }

  /** `shouldRenderContents(props, isExpanded)`. */
  function ShouldRenderContents(folderNodeId: Option<int>, isBetterFolders: bool, isExpanded: bool): bool {
    if folderNodeId == Some(PendingGuildsFolder) then false else !isBetterFolders && isExpanded
  }

  /** The pending folder always animates and never renders its guilds; any other folder
      renders them only outside the sidebar when expanded, and then does not animate. */
  lemma FolderContents(folderNodeId: Option<int>, isBetterFolders: bool, isExpanded: bool)
    ensures folderNodeId == Some(1) ==>
      ShouldShowTransition(folderNodeId, isBetterFolders) && !ShouldRenderContents(folderNodeId, isBetterFolders, isExpanded)
    ensures folderNodeId != Some(1) ==>
      (ShouldRenderContents(folderNodeId, isBetterFolders, isExpanded) <==> !isBetterFolders && isExpanded)
    ensures ShouldRenderContents(folderNodeId, isBetterFolders, isExpanded) ==> !ShouldShowTransition(folderNodeId, isBetterFolders)
  {
  }

  // ---------------------------------------------------------------- the Flux handlers

  /** A guild folder of the sorted guild store; a lone guild has no folder id. */
  datatype GuildFolder = GuildFolder(folderId: Option<int>, guildIds: seq<string>)

  /** `getGuildFolder(id)`: the first folder listing the guild. */
  function GetGuildFolder(folders: seq<GuildFolder>, guildId: Option<string>): (r: Option<GuildFolder>)
    ensures r.Some? ==> guildId.Some? && r.value in folders && guildId.value in r.value.guildIds
    ensures forall k :: FirstHolding(folders, guildId, k) ==> r == Some(folders[k])
    ensures r.None? ==> forall k :: 0 <= k < |folders| ==> guildId.None? || guildId.value !in folders[k].guildIds
  {
    if folders == [] || guildId.None? then None
    else if guildId.value in folders[0].guildIds then Some(folders[0])
    else
      var r := GetGuildFolder(folders[1..], guildId);
      assert forall k :: 0 < k < |folders| ==> folders[k] == folders[1..][k - 1];
      assert forall k :: FirstHolding(folders, guildId, k) ==> FirstHolding(folders[1..], guildId, k - 1);
      r
  }

  /** Folder `k` is the first that lists the guild. */
  predicate FirstHolding(folders: seq<GuildFolder>, guildId: Option<string>, k: int) {
    && guildId.Some? && 0 <= k < |folders| && guildId.value in folders[k].guildIds
    && forall j :: 0 <= j < k ==> guildId.value !in folders[j].guildIds
  }

  /** The folder id a lookup yields when it is truthy. */
  function FolderIdOf(f: Option<GuildFolder>): Option<int> {
    if f.Some? && f.value.folderId.Some? && f.value.folderId.value != 0 then f.value.folderId else None
  }

  /** `closeFolders()`: every expanded folder is toggled, in the store's order. */
  method CloseFolders(expanded: seq<int>) returns (toggled: seq<int>)
    ensures toggled == expanded
  {
    toggled := [];
    for k := 0 to |expanded|
      invariant toggled == expanded[..k]
    {
      toggled := toggled + [expanded[k]];
    }
  }

  /** The folders toggled once the dispatch started by `TOGGLE_GUILD_FOLDER_EXPAND` settles. */
  function OthersOf(expanded: seq<int>, folderId: int): seq<int> {
    if |expanded| > 1 then Without(expanded, folderId) else []
  }

  class FolderState {
    var lastGuildId: Option<string>
    var dispatchingFoldersClose: bool

    constructor()
      ensures lastGuildId == None && !dispatchingFoldersClose
    {
      lastGuildId := None;
      dispatchingFoldersClose := false;
    }

    /** `CHANNEL_SELECT`: with `closeAllFolders` or `forceOpen` on and a guild other than the
        last one seen, the guild is recorded; then its folder is opened if `forceOpen` is on
        and the folder is closed, or, for a guild outside any folder, all folders are closed
        if `closeAllFolders` is on. */
    method ChannelSelect(guildId: Option<string>, closeAllFolders: bool, forceOpen: bool,
                         folders: seq<GuildFolder>, expanded: seq<int>) returns (toggled: seq<int>)
      modifies this
      ensures dispatchingFoldersClose == old(dispatchingFoldersClose)
      ensures (!closeAllFolders && !forceOpen) || old(lastGuildId) == guildId ==>
        lastGuildId == old(lastGuildId) && toggled == []
      ensures (closeAllFolders || forceOpen) && old(lastGuildId) != guildId ==>
        lastGuildId == guildId &&
        var f := FolderIdOf(GetGuildFolder(folders, guildId));
        toggled == (if f.Some? then (if forceOpen && f.value !in expanded then [f.value] else [])
                    else if closeAllFolders then expanded else [])
    {
      toggled := [];
      if !closeAllFolders && !forceOpen {
        return;
      }
      if lastGuildId != guildId {
        lastGuildId := guildId;
        var folderId := FolderIdOf(GetGuildFolder(folders, guildId));
        if folderId.Some? {
          if forceOpen && folderId.value !in expanded {
            toggled := [folderId.value];
          }
        } else if closeAllFolders {
          toggled := CloseFolders(expanded);
        }
      }
    }

    /** `TOGGLE_GUILD_FOLDER_EXPAND`: with `closeOthers` on and no close pending, a close is
        scheduled for when the dispatch settles. */
    method ToggleGuildFolderExpand(closeOthers: bool) returns (scheduled: bool)
      modifies this
      ensures scheduled <==> closeOthers && !old(dispatchingFoldersClose)
      ensures dispatchingFoldersClose == (old(dispatchingFoldersClose) || scheduled)
      ensures lastGuildId == old(lastGuildId)
    {
      scheduled := closeOthers && !dispatchingFoldersClose;
      if scheduled {
        dispatchingFoldersClose := true;
      }
    }

    /** The callback of `FluxDispatcher.wait`: with more than one folder expanded, every one
        but `folderId` is toggled; the pending close is cleared. */
    method FoldersCloseSettled(folderId: int, expanded: seq<int>) returns (toggled: seq<int>)
      modifies this
      ensures toggled == OthersOf(expanded, folderId)
      ensures !dispatchingFoldersClose && lastGuildId == old(lastGuildId)
    {
      toggled := [];
      if |expanded| > 1 {
        toggled := ToggleOthers(expanded, folderId);
      }
      dispatchingFoldersClose := false;
    }
  }

  /** The loop of that callback: every expanded folder but `folderId`, in the store's order. */
  method ToggleOthers(expanded: seq<int>, folderId: int) returns (toggled: seq<int>)
    ensures toggled == Without(expanded, folderId)
  {
    toggled := [];
    for k := 0 to |expanded|
      invariant toggled == Without(expanded[..k], folderId)
    {
      WithoutStep(expanded, k, folderId);
      if expanded[k] != folderId {
        toggled := toggled + [expanded[k]];
      }
    }
    assert expanded[..|expanded|] == expanded;
  }

  lemma WithoutStep(s: seq<int>, k: nat, y: int)
    requires k < |s|
    ensures Without(s[..k + 1], y) == Without(s[..k], y) + (if s[k] == y then [] else [s[k]])
  {
    WithoutSnoc(s[..k], s[k], y);
    PrefixSnoc(s, k);
  }

  lemma {:induction false} WithoutSnoc(s: seq<int>, x: int, y: int)
    ensures Without(s + [x], y) == Without(s, y) + (if x == y then [] else [x])
  {
    if s == [] {
      assert [x][1..] == [];
    } else {
      assert (s + [x])[0] == s[0] && (s + [x])[1..] == s[1..] + [x];
      WithoutSnoc(s[1..], x, y);
    }
  }

  /** Toggling the others of a set of expanded folders leaves at most `folderId` open, and
      leaves it open when it was. */
  lemma OnlyFolderStaysOpen(expanded: seq<int>, folderId: int)
    requires NoDuplicates(expanded) && |expanded| > 1
    ensures forall k :: 0 <= k < |expanded| ==> (expanded[k] in OthersOf(expanded, folderId) <==> expanded[k] != folderId)
    ensures folderId !in OthersOf(expanded, folderId)
  {
    var w := Without(expanded, folderId);
    assert OthersOf(expanded, folderId) == w;
    forall k | 0 <= k < |expanded|
      ensures expanded[k] in w <==> expanded[k] != folderId
    {
      if expanded[k] != folderId {
        assert expanded[k] in w;
      }
    }
  }
}
