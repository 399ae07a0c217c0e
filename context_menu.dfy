/**
 * The context-menu API: a registry of patches per menu `navId` plus global patches, the order
 * in which a menu runs them, and `findGroupChildrenByChildId`, the search plugins use to find
 * the group of menu items they add to.  Patches are callbacks; the registry only compares them
 * by identity, so their type is a parameter with equality.
 */
module ContextMenu {
  import opened Wrappers
  import opened Strings
  import opened OrderedSets
  import opened ElementTree

  // ---------------------------------------------------------------- matching a child id

  /** The `id` argument: one id, or a list of which any may match. */
  datatype ChildQuery = OneId(id: string) | AnyId(ids: seq<string>)

  /** `child.props?.id === id`, or `child.props?.id?.includes(id)` with `matchSubstring`. */
  predicate IdMatches(childId: Option<string>, id: string, matchSubstring: bool) {
    childId.Some? && (if matchSubstring then Includes(childId.value, id) else childId.value == id)
  }

  /** The intended test: the id, or one of the ids, matches. */
  predicate Matches(q: ChildQuery, childId: Option<string>, matchSubstring: bool) {
    match q
    case OneId(id) => IdMatches(childId, id, matchSubstring)
    case AnyId(ids) => exists k :: 0 <= k < |ids| && IdMatches(childId, ids[k], matchSubstring)
  }

  /** The test as the source writes it: for a list of ids with `matchSubstring`, the second
      disjunct also passes the list itself to `includes`, which turns it into the ids joined
      by commas. */
  predicate MatchesAsWritten(q: ChildQuery, childId: Option<string>, matchSubstring: bool) {
    match q
    case OneId(id) => IdMatches(childId, id, matchSubstring)
    case AnyId(ids) =>
      || (exists k :: 0 <= k < |ids| && IdMatches(childId, ids[k], matchSubstring))
      || (matchSubstring && childId.Some? && Includes(childId.value, Join(ids, ",")))
  }

  lemma {:induction false} JoinStartsWithFirst(parts: seq<string>, sep: string)
    requires |parts| > 0
    ensures StartsWith(Join(parts, sep), parts[0])
  {
    if |parts| > 1 {
      assert Join(parts, sep) == parts[0] + (sep + Join(parts[1..], sep));
    }
  }

  lemma OccursAtPrefix(s: string, t: string, u: string, i: nat)
    requires OccursAt(s, t, i) && StartsWith(t, u)
    ensures Includes(s, u)
  {
    assert s[i..i + |u|] == t[..|u|];
    assert OccursAt(s, u, i);
  }

  /** The two tests differ only for an empty list of ids with `matchSubstring`. */
  lemma AsWrittenAgrees(q: ChildQuery, childId: Option<string>, matchSubstring: bool)
    requires !(q.AnyId? && q.ids == [] && matchSubstring)
    ensures MatchesAsWritten(q, childId, matchSubstring) <==> Matches(q, childId, matchSubstring)
  {
    if q.AnyId? && matchSubstring && childId.Some? && Includes(childId.value, Join(q.ids, ",")) {
      var s := childId.value;
      var j := Join(q.ids, ",");
      JoinStartsWithFirst(q.ids, ",");
      OccursAtPrefix(s, j, q.ids[0], IndexOf(s, j).value);
      assert IdMatches(childId, q.ids[0], matchSubstring);
    }
  }

  /** Counterexample: an empty list of ids with `matchSubstring` matches every child that has an
      id, since `includes("")` always holds; no id of the list matches it. */
  lemma EmptyIdListMatchesEverything(childId: string)
    ensures MatchesAsWritten(AnyId([]), Some(childId), true)
    ensures !Matches(AnyId([]), Some(childId), true)
  {
    assert OccursAt(childId, "", 0);
  }

  // ---------------------------------------------------------------- the search, specified

  /** Where a visit found the group: nowhere, the list holding the visited node, or a list at
      a path below the node. */
  datatype Hit = Miss | Here | Below(path: seq<nat>)

  /** A visited node after the in-place rewriting, and where the group was found. */
  datatype Visited = Visited(node: Node, hit: Hit)

  /** A searched list after the rewriting, and the path to the group found in it. */
  datatype Search = Search(items: seq<Node>, path: Option<seq<nat>>)

  /** A path one list further on: the index of its first step moves by one. */
  function Shift(path: seq<nat>): seq<nat> {
    if path == [] then [] else [path[0] + 1] + path[1..]
  }

  /** The children of a visited element as a list: an array as it is, a single child wrapped. */
  function AsList(c: Node): seq<Node> {
    if c.Array? then c.items else [c]
  }

  lemma AsListSmaller(c: Node)
    requires c != Null
    ensures SizeList(AsList(c)) < 1 + Size(c)
  {
    if !c.Array? {
      assert [c][1..] == [];
    }
  }

  /** The recursion of `findGroupChildrenByChildId` over one list: every child is visited in
      order and the search stops at the first hit. */
  function SearchList(q: ChildQuery, sub: bool, xs: seq<Node>): (s: Search)
    ensures |s.items| == |xs|
    decreases SizeList(xs), 1
  {
    if xs == [] then Search([], None)
    else
      var v := Visit(q, sub, xs[0]);
      match v.hit
      case Here => Search([v.node] + xs[1..], Some([]))
      case Below(p) => Search([v.node] + xs[1..], Some([0] + p))
      case Miss =>
        var rest := SearchList(q, sub, xs[1..]);
        Search([v.node] + rest.items, if rest.path.Some? then Some(Shift(rest.path.value)) else None)
  }

  /** One child: empty children are skipped; an array is searched; an element matches, or its
      non-empty `props.children` are made an array (in place) and searched. */
  function Visit(q: ChildQuery, sub: bool, n: Node): (v: Visited)
    decreases Size(n), 0
  {
    match n
    case Null => Visited(n, Miss)
    case Array(xs) =>
      var s := SearchList(q, sub, xs);
      Visited(Array(s.items), if s.path.Some? then Below(s.path.value) else Miss)
    case Element(p, c) =>
      if Matches(q, p.id, sub) then Visited(n, Here)
      else if c == Null then Visited(n, Miss)
      else
        AsListSmaller(c);
        var s := SearchList(q, sub, AsList(c));
        Visited(Element(p, Array(s.items)), if s.path.Some? then Below(s.path.value) else Miss)
  }

  // ---------------------------------------------------------------- what the search promises

  /** Some element in the subtree matches. */
  predicate AnyMatch(q: ChildQuery, sub: bool, n: Node)
    decreases Size(n), 0
  {
    match n
    case Null => false
    case Array(xs) => AnyMatchList(q, sub, xs)
    case Element(p, c) =>
      Matches(q, p.id, sub) || (c != Null && (AsListSmaller(c); AnyMatchList(q, sub, AsList(c))))
  }

  predicate AnyMatchList(q: ChildQuery, sub: bool, xs: seq<Node>)
    decreases SizeList(xs), 1
  {
    xs != [] && (AnyMatch(q, sub, xs[0]) || AnyMatchList(q, sub, xs[1..]))
  }

  /** The list directly holds a matching element. */
  predicate HoldsMatch(q: ChildQuery, sub: bool, g: seq<Node>) {
    exists k :: 0 <= k < |g| && g[k].Element? && Matches(q, g[k].props.id, sub)
  }

  /** The list the search returns directly holds a matching element, and the search finds
      nothing exactly when no element anywhere matches. */
  lemma {:induction false} SearchListFound(q: ChildQuery, sub: bool, xs: seq<Node>)
    ensures var s := SearchList(q, sub, xs);
      (s.path.Some? ==> GroupAt(s.items, s.path.value).Some? && HoldsMatch(q, sub, GroupAt(s.items, s.path.value).value))
      && (s.path.None? <==> !AnyMatchList(q, sub, xs))
    decreases SizeList(xs), 1
  {
    if xs != [] {
      var v := Visit(q, sub, xs[0]);
      VisitFound(q, sub, xs[0]);
      var s := SearchList(q, sub, xs);
      match v.hit
      case Here =>
        assert s.items[0] == v.node;
      case Below(p) =>
        assert s.items[0] == v.node;
        assert s.path.value[1..] == p;
      case Miss =>
        var rest := SearchList(q, sub, xs[1..]);
        SearchListFound(q, sub, xs[1..]);
        assert s.items[1..] == rest.items;
        if rest.path.Some? {
          var p := rest.path.value;
          var g := GroupAt(rest.items, p).value;
          if p == [] {
            var k :| 0 <= k < |g| && g[k].Element? && Matches(q, g[k].props.id, sub);
            assert s.items[k + 1] == g[k];
          } else {
            assert Shift(p)[1..] == p[1..] && s.items[p[0] + 1] == rest.items[p[0]];
          }
        }
    }
  }

  lemma {:induction false} VisitFound(q: ChildQuery, sub: bool, n: Node)
    ensures var v := Visit(q, sub, n);
      (v.hit.Here? <==> n.Element? && Matches(q, n.props.id, sub))
      && (v.hit.Here? ==> v.node == n)
      && (v.hit.Below? ==> ChildList(v.node).Some? && GroupAt(ChildList(v.node).value, v.hit.path).Some?
                           && HoldsMatch(q, sub, GroupAt(ChildList(v.node).value, v.hit.path).value))
      && (v.hit.Miss? <==> !AnyMatch(q, sub, n))
    decreases Size(n), 0
  {
    match n
    case Null =>
    case Array(xs) =>
      SearchListFound(q, sub, xs);
    case Element(p, c) =>
      if !Matches(q, p.id, sub) && c != Null {
        AsListSmaller(c);
        SearchListFound(q, sub, AsList(c));
      }
  }

  // ---------------------------------------------------------------- the rewriting changes no content

  /** The shape of a tree once every non-empty `props.children` is an array: what the search
      makes of the children it visits. */
  function Canon(n: Node): Node
    decreases Size(n), 0
  {
    match n
    case Null => Null
    case Array(xs) => Array(CanonList(xs))
    case Element(p, c) => if c == Null then n else (AsListSmaller(c); Element(p, Array(CanonList(AsList(c)))))
  }

  function CanonList(xs: seq<Node>): (r: seq<Node>)
    ensures |r| == |xs|
    decreases SizeList(xs), 1
  {
    if xs == [] then [] else [Canon(xs[0])] + CanonList(xs[1..])
  }

  /** Wrapping a child that already is an array of one changes nothing. */
  lemma CanonWrapped(p: Props, xs: seq<Node>)
    ensures Canon(Element(p, Array(xs))) == Element(p, Array(CanonList(xs)))
  {
  }

  /** The search only wraps children: the tree it leaves has the shape of the tree it got. */
  lemma {:induction false} SearchListKeepsShape(q: ChildQuery, sub: bool, xs: seq<Node>)
    ensures CanonList(SearchList(q, sub, xs).items) == CanonList(xs)
    decreases SizeList(xs), 1
  {
    if xs != [] {
      var v := Visit(q, sub, xs[0]);
      VisitKeepsShape(q, sub, xs[0]);
      var s := SearchList(q, sub, xs);
      assert s.items[0] == v.node;
      if v.hit.Miss? {
        SearchListKeepsShape(q, sub, xs[1..]);
        assert s.items[1..] == SearchList(q, sub, xs[1..]).items;
      } else {
        assert s.items[1..] == xs[1..];
      }
    }
  }

  lemma {:induction false} VisitKeepsShape(q: ChildQuery, sub: bool, n: Node)
    ensures Canon(Visit(q, sub, n).node) == Canon(n)
    decreases Size(n), 0
  {
    match n
    case Null =>
    case Array(xs) =>
      SearchListKeepsShape(q, sub, xs);
    case Element(p, c) =>
      if !Matches(q, p.id, sub) && c != Null {
        AsListSmaller(c);
        SearchListKeepsShape(q, sub, AsList(c));
      }
  }

  // ---------------------------------------------------------------- the search, as the source runs it

  /** `findGroupChildrenByChildId(id, children, matchSubstring)`: the loop over the children,
      recursing into arrays and into the children of elements that do not match.  The
      returned list is `children` after the rewriting; the returned path leads to the array
      the source returns (`None` for its `null`). */
  method FindGroupChildrenByChildId(q: ChildQuery, children: seq<Node>, matchSubstring: bool)
    returns (rewritten: seq<Node>, found: Option<seq<nat>>)
    ensures Search(rewritten, found) == SearchList(q, matchSubstring, children)
    decreases SizeList(children), 1
  {
    var i := 0;
    var done: seq<Node> := [];
    while i < |children|
      invariant 0 <= i <= |children| && |done| == i
      invariant SearchList(q, matchSubstring, children) == Resume(done, SearchList(q, matchSubstring, children[i..]))
      decreases |children| - i
    {
      SizeListBound(children, i);
      var v := VisitChild(q, children[i], matchSubstring);
      SearchStep(q, matchSubstring, children, i, done, v);
      match v.hit {
        case Here =>
          return done + [v.node] + children[i + 1..], Some([]);
        case Below(p) =>
          return done + [v.node] + children[i + 1..], Some([i] + p);
        case Miss =>
          done := done + [v.node];
      }
      i := i + 1;
    }
    assert children[i..] == [];
    return done, None;
  }

  /** The body of that loop for one child: an empty child is skipped, an array is searched,
      an element matches or has its non-empty `props.children` made an array in place and
      searched. */
  method VisitChild(q: ChildQuery, child: Node, matchSubstring: bool) returns (v: Visited)
    ensures v == Visit(q, matchSubstring, child)
    decreases Size(child), 0
  {
    match child {
      case Null =>
        return Visited(child, Miss);
      case Array(xs) =>
        var ys, f := FindGroupChildrenByChildId(q, xs, matchSubstring);
        return Visited(Array(ys), if f.Some? then Below(f.value) else Miss);
      case Element(p, c) =>
        if Matches(q, p.id, matchSubstring) {
          return Visited(child, Here);
        }
        if c == Null {
          return Visited(child, Miss);
        }
        AsListSmaller(c);
        var ys, f := FindGroupChildrenByChildId(q, AsList(c), matchSubstring);
        return Visited(Element(p, Array(ys)), if f.Some? then Below(f.value) else Miss);
    }
  }

  /** The search of the list from position `i` on: the child there is visited first. */
  lemma SearchListAt(q: ChildQuery, sub: bool, xs: seq<Node>, i: nat)
    requires i < |xs|
    ensures var v := Visit(q, sub, xs[i]);
      var rest := SearchList(q, sub, xs[i + 1..]);
      SearchList(q, sub, xs[i..])
      == match v.hit
         case Here => Search([v.node] + xs[i + 1..], Some([]))
         case Below(p) => Search([v.node] + xs[i + 1..], Some([0] + p))
         case Miss => Search([v.node] + rest.items, if rest.path.Some? then Some(Shift(rest.path.value)) else None)
  {
    assert xs[i..][0] == xs[i] && xs[i..][1..] == xs[i + 1..];
  }

  /** A path into the rest of a list, seen from the whole list. */
  function Resume(done: seq<Node>, s: Search): Search {
    Search(done + s.items, if s.path.Some? then Some(ShiftBy(|done|, s.path.value)) else None)
  }

  function ShiftBy(n: nat, path: seq<nat>): seq<nat> {
    if path == [] then [] else [path[0] + n] + path[1..]
  }

  /** One turn of the search loop: a hit at position `i` ends the search there, a miss moves
      the rewritten child into the finished prefix. */
  lemma SearchStep(q: ChildQuery, sub: bool, xs: seq<Node>, i: nat, done: seq<Node>, v: Visited)
    requires i < |xs| && |done| == i && v == Visit(q, sub, xs[i])
    requires SearchList(q, sub, xs) == Resume(done, SearchList(q, sub, xs[i..]))
    ensures v.hit.Here? ==> SearchList(q, sub, xs) == Search(done + [v.node] + xs[i + 1..], Some([]))
    ensures v.hit.Below? ==> SearchList(q, sub, xs) == Search(done + [v.node] + xs[i + 1..], Some([i] + v.hit.path))
    ensures v.hit.Miss? ==> SearchList(q, sub, xs) == Resume(done + [v.node], SearchList(q, sub, xs[i + 1..]))
  {
    SearchListAt(q, sub, xs, i);
    match v.hit {
      case Here => ResumeHit(done, v.node, xs[i + 1..], Some([]));
      case Below(p) => ResumeHit(done, v.node, xs[i + 1..], Some([0] + p));
      case Miss => ResumeMiss(done, v.node, SearchList(q, sub, xs[i + 1..]));
    }
  }

  lemma ResumeMiss(done: seq<Node>, v: Node, rest: Search)
    ensures Resume(done, Search([v] + rest.items, if rest.path.Some? then Some(Shift(rest.path.value)) else None))
         == Resume(done + [v], rest)
  {
    assert done + ([v] + rest.items) == done + [v] + rest.items;
    if rest.path.Some? && rest.path.value != [] {
      assert Shift(rest.path.value)[1..] == rest.path.value[1..];
    }
  }

  lemma ResumeHit(done: seq<Node>, v: Node, tail: seq<Node>, path: Option<seq<nat>>)
    requires path.Some?
    ensures Resume(done, Search([v] + tail, path))
         == Search(done + [v] + tail, Some(ShiftBy(|done|, path.value)))
  {
    assert done + ([v] + tail) == done + [v] + tail;
  }

  // ---------------------------------------------------------------- the patch registry

  /** A `navId` argument: one id, or an array of them. */
  datatype NavIds = Single(id: string) | List(ids: seq<string>)

  function IdsOf(n: NavIds): (ids: seq<string>)
    ensures n.Single? ==> ids == [n.id]
  {
    match n
    case Single(id) => [id]
    case List(ids) => ids
  }

  /** What `removeContextMenuPatch` returns: one flag for one id, one flag per id for an array. */
  datatype RemoveResult = One(removed: bool) | PerId(flags: seq<bool>)

  /** One patch call made while a menu renders. */
  datatype PatchRun<P, G> = NavRun(nav: P) | GlobalRun(global: G)

  /** The patches registered for an id; an id never seen has none. */
  function PatchesOf<P>(m: map<string, seq<P>>, id: string): seq<P> {
    if id in m then m[id] else []
  }

  /** The registry after adding `patch` for every id of `ids`: each listed id gets it (once),
      every other id keeps its patches. */
  function Added<P(==)>(m: map<string, seq<P>>, ids: seq<string>, patch: P): (r: map<string, seq<P>>)
    ensures forall id :: id in r <==> id in m || id in ids
  {
    map id | id in m.Keys + (set x | x in ids) ::
      if id in ids then Insert(PatchesOf(m, id), patch) else m[id]
  }

  /** The registry after deleting `patch` for every id of `ids`; no id disappears. */
  function Removed<P(==)>(m: map<string, seq<P>>, ids: seq<string>, patch: P): (r: map<string, seq<P>>)
    ensures r.Keys == m.Keys
  {
    map id | id in m :: if id in ids then Without(m[id], patch) else m[id]
  }

  /** The flag for each id: the patch was registered there, and the same id earlier in the
      list had not already removed it. */
  function RemovedFlags<P(==)>(m: map<string, seq<P>>, ids: seq<string>, patch: P): (r: seq<bool>)
    ensures |r| == |ids|
  {
    seq(|ids|, k requires 0 <= k < |ids| => ids[k] in m && patch in m[ids[k]] && ids[k] !in ids[..k])
  }

  /** Every patch contributes exactly one run, menu patches before global ones. */
  function Runs<P, G>(navs: seq<P>, globals: seq<G>): (r: seq<PatchRun<P, G>>)
    ensures |r| == |navs| + |globals|
  {
    seq(|navs|, k requires 0 <= k < |navs| => NavRun(navs[k]))
      + seq(|globals|, k requires 0 <= k < |globals| => GlobalRun(globals[k]))
  }

  /** The runs that threw, in order: each is logged and the next run still happens. */
  function Failing<P, G>(runs: seq<PatchRun<P, G>>, navThrows: P -> bool, globalThrows: G -> bool): seq<PatchRun<P, G>> {
    if runs == [] then []
    else
      var rest := Failing(runs[1..], navThrows, globalThrows);
      var r := runs[0];
      if (r.NavRun? && navThrows(r.nav)) || (r.GlobalRun? && globalThrows(r.global)) then [r] + rest else rest
  }

  class Registry<P(==), G(==)> {
    /** `navPatches`: the set of patches of each menu id. */
    var navPatches: map<string, seq<P>>
    /** `globalPatches`: patches that run for every menu. */
    var globalPatches: seq<G>

    ghost predicate Valid()
      reads this
    {
      (forall id :: id in navPatches ==> NoDuplicates(navPatches[id])) && NoDuplicates(globalPatches)
    }

    constructor()
      ensures Valid() && navPatches == map[] && globalPatches == []
    {
      navPatches := map[];
      globalPatches := [];
    }

    /** `addContextMenuPatch(navId, patch)`. */
    method AddContextMenuPatch(navId: NavIds, patch: P)
      requires Valid()
      modifies this
      ensures Valid()
      ensures navPatches == Added(old(navPatches), IdsOf(navId), patch)
      ensures globalPatches == old(globalPatches)
    {
      var nav := AddToLists(navPatches, IdsOf(navId), patch);
      AddedValid(navPatches, IdsOf(navId), patch);
      navPatches := nav;
    }

    /** `removeContextMenuPatch(navId, patch)`. */
    method RemoveContextMenuPatch(navId: NavIds, patch: P) returns (r: RemoveResult)
      requires Valid()
      modifies this
      ensures Valid()
      ensures navPatches == Removed(old(navPatches), IdsOf(navId), patch)
      ensures globalPatches == old(globalPatches)
      ensures navId.Single? ==> r == One(RemovedFlags(old(navPatches), IdsOf(navId), patch)[0])
      ensures navId.List? ==> r == PerId(RemovedFlags(old(navPatches), IdsOf(navId), patch))
    {
      var results := RemoveFromEach(IdsOf(navId), patch);
      if navId.List? {
        r := PerId(results);
      } else {
        r := One(results[0]);
      }
    }

    /** `navIds.map(id => navPatches.get(id)?.delete(patch) ?? false)`. */
    method RemoveFromEach(ids: seq<string>, patch: P) returns (results: seq<bool>)
      requires Valid()
      modifies this
      ensures Valid()
      ensures navPatches == Removed(old(navPatches), ids, patch)
      ensures globalPatches == old(globalPatches)
      ensures results == RemovedFlags(old(navPatches), ids, patch)
    {
      var nav;
      nav, results := RemoveFromLists(navPatches, ids, patch);
      RemovedValid(navPatches, ids, patch);
      navPatches := nav;
    }

    /** `addGlobalContextMenuPatch(patch)`. */
    method AddGlobalContextMenuPatch(patch: G)
      requires Valid()
      modifies this
      ensures Valid()
      ensures globalPatches == Insert(old(globalPatches), patch)
      ensures navPatches == old(navPatches)
    {
      globalPatches := Insert(globalPatches, patch);
    }

    /** `removeGlobalContextMenuPatch(patch)`: whether it was registered. */
    method RemoveGlobalContextMenuPatch(patch: G) returns (removed: bool)
      requires Valid()
      modifies this
      ensures Valid()
      ensures removed == (patch in old(globalPatches))
      ensures globalPatches == Without(old(globalPatches), patch)
      ensures navPatches == old(navPatches)
    {
      removed := patch in globalPatches;
      globalPatches := Without(globalPatches, patch);
    }

    /** The calls `_usePatchContextMenu` makes for a menu: its own patches in registration
        order, then every global patch; one that throws is logged and the rest still run. */
    method UsePatchContextMenu(navId: string, navThrows: P -> bool, globalThrows: G -> bool)
      returns (ran: seq<PatchRun<P, G>>, logged: seq<PatchRun<P, G>>)
      ensures ran == Runs(PatchesOf(navPatches, navId), globalPatches)
      ensures logged == Failing(ran, navThrows, globalThrows)
    {
      var navs := PatchesOf(navPatches, navId);
      ran := [];
      logged := [];
      var j := 0;
      while j < |navs|
        invariant 0 <= j <= |navs|
        invariant ran == Runs(navs[..j], [])
        invariant logged == Failing(ran, navThrows, globalThrows)
      {
        FailingAppend(ran, NavRun(navs[j]), navThrows, globalThrows);
        if navThrows(navs[j]) {
          logged := logged + [NavRun(navs[j])];
        }
        ran := ran + [NavRun(navs[j])];
        PrefixSnoc(navs, j);
        j := j + 1;
      }
      assert navs[..j] == navs;
      j := 0;
      while j < |globalPatches|
        invariant 0 <= j <= |globalPatches|
        invariant ran == Runs(navs, globalPatches[..j])
        invariant logged == Failing(ran, navThrows, globalThrows)
      {
        FailingAppend(ran, GlobalRun(globalPatches[j]), navThrows, globalThrows);
        if globalThrows(globalPatches[j]) {
          logged := logged + [GlobalRun(globalPatches[j])];
        }
        ran := ran + [GlobalRun(globalPatches[j])];
        PrefixSnoc(globalPatches, j);
        j := j + 1;
      }
      assert globalPatches[..j] == globalPatches;
    }
  }

  /** The loop of `addContextMenuPatch`: each id's list, made when missing, gains the patch. */
  method AddToLists<P(==)>(m: map<string, seq<P>>, ids: seq<string>, patch: P) returns (nav: map<string, seq<P>>)
    ensures nav == Added(m, ids, patch)
  {
    nav := m;
    for j := 0 to |ids|
      invariant nav == Added(m, ids[..j], patch)
    {
      var id := ids[j];
      var contextMenuPatches := if id in nav then nav[id] else [];
      nav := nav[id := Insert(contextMenuPatches, patch)];
      AddedStep(m, ids, j, patch);
    }
    assert ids[..|ids|] == ids;
  }

  /** Adding a patch keeps every id's patch list free of duplicates. */
  lemma AddedValid<P>(m: map<string, seq<P>>, ids: seq<string>, patch: P)
    requires forall id :: id in m ==> NoDuplicates(m[id])
    ensures forall id :: id in Added(m, ids, patch) ==> NoDuplicates(Added(m, ids, patch)[id])
  {
    forall id | id in Added(m, ids, patch)
      ensures NoDuplicates(Added(m, ids, patch)[id])
    {
      if id in ids && id !in m {
        assert PatchesOf(m, id) == [];
      }
    }
  }

  lemma AddedStep<P>(m: map<string, seq<P>>, ids: seq<string>, j: nat, patch: P)
    requires j < |ids|
    ensures var a := Added(m, ids[..j], patch);
      Added(m, ids[..j + 1], patch) == a[ids[j] := Insert(PatchesOf(a, ids[j]), patch)]
  {
    PrefixSnoc(ids, j);
    AddedSnoc(m, ids[..j], ids[j], patch);
  }

  lemma AddedSnoc<P>(m: map<string, seq<P>>, ids: seq<string>, x: string, patch: P)
    ensures var a := Added(m, ids, patch);
      Added(m, ids + [x], patch) == a[x := Insert(PatchesOf(a, x), patch)]
  {
    var a := Added(m, ids, patch);
    var b := Added(m, ids + [x], patch);
    var c := a[x := Insert(PatchesOf(a, x), patch)];
    AddedSnocKeys(m, ids, x, patch);
    forall id | id in b.Keys
      ensures b[id] == c[id]
    {
      AddedSnocAt(m, ids, x, patch, id);
    }
  }

  lemma AddedSnocKeys<P>(m: map<string, seq<P>>, ids: seq<string>, x: string, patch: P)
    ensures Added(m, ids + [x], patch).Keys == Added(m, ids, patch).Keys + {x}
  {
    assert forall id :: id in ids + [x] <==> id in ids || id == x;
  }

  lemma AddedSnocAt<P>(m: map<string, seq<P>>, ids: seq<string>, x: string, patch: P, id: string)
    requires id in Added(m, ids + [x], patch)
    ensures var a := Added(m, ids, patch);
      Added(m, ids + [x], patch)[id] == a[x := Insert(PatchesOf(a, x), patch)][id]
  {
    var a := Added(m, ids, patch);
    assert id in ids + [x] <==> id in ids || id == x;
    if id == x {
      if x in ids {
        assert a[x] == Insert(PatchesOf(m, x), patch);
      } else if x in m {
        assert a[x] == m[x];
      } else {
        assert x !in a;
      }
    }
  }

  lemma RemovedStep<P>(m: map<string, seq<P>>, ids: seq<string>, j: nat, patch: P)
    requires j < |ids|
    ensures var a := Removed(m, ids[..j], patch);
      && Removed(m, ids[..j + 1], patch) == (if ids[j] in a then a[ids[j] := Without(a[ids[j]], patch)] else a)
      && RemovedFlags(m, ids[..j + 1], patch) == RemovedFlags(m, ids[..j], patch) + [ids[j] in a && patch in a[ids[j]]]
  {
    PrefixSnoc(ids, j);
    RemovedSnoc(m, ids[..j], ids[j], patch);
    FlagsSnoc(m, ids[..j], ids[j], patch);
  }

  /** The loop of `navIds.map(...)`: each id's list loses the patch, and the flag says whether
      that id still held it when its turn came. */
  method RemoveFromLists<P(==)>(m: map<string, seq<P>>, ids: seq<string>, patch: P)
    returns (nav: map<string, seq<P>>, results: seq<bool>)
    ensures nav == Removed(m, ids, patch)
    ensures results == RemovedFlags(m, ids, patch)
  {
    nav := m;
    results := [];
    for j := 0 to |ids|
      invariant nav == Removed(m, ids[..j], patch)
      invariant results == RemovedFlags(m, ids[..j], patch)
    {
      RemovedStep(m, ids, j, patch);
      var id := ids[j];
      results := results + [id in nav && patch in nav[id]];
      if id in nav {
        nav := nav[id := Without(nav[id], patch)];
      }
    }
    assert ids[..|ids|] == ids;
  }

  /** Removing a patch keeps every id's patch list free of duplicates. */
  lemma RemovedValid<P>(m: map<string, seq<P>>, ids: seq<string>, patch: P)
    requires forall id :: id in m ==> NoDuplicates(m[id])
    ensures forall id :: id in Removed(m, ids, patch) ==> NoDuplicates(Removed(m, ids, patch)[id])
  {
  }

  lemma RemovedSnoc<P>(m: map<string, seq<P>>, ids: seq<string>, x: string, patch: P)
    ensures var a := Removed(m, ids, patch);
      Removed(m, ids + [x], patch) == (if x in a then a[x := Without(a[x], patch)] else a)
  {
    var a := Removed(m, ids, patch);
    var b := Removed(m, ids + [x], patch);
    if x in a {
      var c := a[x := Without(a[x], patch)];
      forall id | id in b.Keys
        ensures b[id] == c[id]
      {
        RemovedSnocAt(m, ids, x, patch, id);
      }
    }
  }

  lemma RemovedSnocAt<P>(m: map<string, seq<P>>, ids: seq<string>, x: string, patch: P, id: string)
    requires id in m && x in m
    ensures var a := Removed(m, ids, patch);
      Removed(m, ids + [x], patch)[id] == a[x := Without(a[x], patch)][id]
  {
    assert id in ids + [x] <==> id in ids || id == x;
    if id == x && x in ids {
      WithoutTwice(m[x], patch);
    }
  }

  lemma FlagsSnoc<P>(m: map<string, seq<P>>, ids: seq<string>, x: string, patch: P)
    ensures var a := Removed(m, ids, patch);
      RemovedFlags(m, ids + [x], patch) == RemovedFlags(m, ids, patch) + [x in a && patch in a[x]]
  {
    var a := Removed(m, ids, patch);
    var f := RemovedFlags(m, ids + [x], patch);
    var g := RemovedFlags(m, ids, patch) + [x in a && patch in a[x]];
    assert (ids + [x])[..|ids|] == ids;
    forall k | 0 <= k < |ids|
      ensures f[k] == g[k]
    {
      assert (ids + [x])[k] == ids[k];
      assert (ids + [x])[..k] == ids[..k];
    }
    assert f[|ids|] == g[|ids|];
  }

  lemma FailingAppend<P, G>(runs: seq<PatchRun<P, G>>, r: PatchRun<P, G>, navThrows: P -> bool, globalThrows: G -> bool)
    ensures Failing(runs + [r], navThrows, globalThrows)
         == Failing(runs, navThrows, globalThrows)
            + (if (r.NavRun? && navThrows(r.nav)) || (r.GlobalRun? && globalThrows(r.global)) then [r] else [])
    decreases |runs|
  {
    if runs != [] {
      assert (runs + [r])[1..] == runs[1..] + [r];
      FailingAppend(runs[1..], r, navThrows, globalThrows);
    } else {
      assert [r][1..] == [];
    }
  }

  // ---------------------------------------------------------------- registry properties

  /** After adding, every listed id holds the patch; other ids keep what they had. */
  lemma AddedHolds<P>(m: map<string, seq<P>>, ids: seq<string>, patch: P)
    ensures forall k :: 0 <= k < |ids| ==> patch in Added(m, ids, patch)[ids[k]]
    ensures forall id :: id in m && id !in ids ==> Added(m, ids, patch)[id] == m[id]
  {
  }

  /** Adding twice is adding once. */
  lemma AddedIdempotent<P>(m: map<string, seq<P>>, ids: seq<string>, patch: P)
    ensures Added(Added(m, ids, patch), ids, patch) == Added(m, ids, patch)
  {
    var a := Added(m, ids, patch);
    forall id | id in a
      ensures Added(a, ids, patch)[id] == a[id]
    {
      if id in ids {
        assert patch in a[id];
      }
    }
  }

  /** A flag is true exactly at the first occurrence of an id where the patch was registered;
      an unknown id always gives false.  Afterwards no listed id holds the patch and other ids
      are unchanged. */
  lemma RemovedMeaning<P>(m: map<string, seq<P>>, ids: seq<string>, patch: P)
    ensures forall k :: 0 <= k < |ids| && ids[k] !in m ==> !RemovedFlags(m, ids, patch)[k]
    ensures forall k :: 0 <= k < |ids| && ids[k] !in ids[..k] ==>
      (RemovedFlags(m, ids, patch)[k] <==> ids[k] in m && patch in m[ids[k]])
    ensures forall k :: 0 <= k < |ids| && ids[k] in m ==> patch !in Removed(m, ids, patch)[ids[k]]
    ensures forall id :: id in m && id !in ids ==> Removed(m, ids, patch)[id] == m[id]
  {
  }

  /** Removing a patch just added to ids that lacked it restores the registry. */
  lemma RemoveUndoesAdd<P>(m: map<string, seq<P>>, ids: seq<string>, patch: P)
    requires forall k :: 0 <= k < |ids| ==> ids[k] in m && patch !in m[ids[k]]
    ensures Removed(Added(m, ids, patch), ids, patch) == m
  {
    var a := Added(m, ids, patch);
    assert a.Keys == m.Keys;
    forall id | id in m
      ensures Removed(a, ids, patch)[id] == m[id]
    {
      if id in ids {
        var k :| 0 <= k < |ids| && ids[k] == id;
        WithoutInsert(m[id], patch);
      }
    }
  }

  /** The log holds only runs that took place, and a run that does not throw is never logged. */
  lemma {:induction false} FailingAreRuns<P, G>(runs: seq<PatchRun<P, G>>, navThrows: P -> bool, globalThrows: G -> bool)
    ensures forall k :: 0 <= k < |Failing(runs, navThrows, globalThrows)| ==>
      var r := Failing(runs, navThrows, globalThrows)[k];
      r in runs && ((r.NavRun? && navThrows(r.nav)) || (r.GlobalRun? && globalThrows(r.global)))
  {
    if runs != [] {
      FailingAreRuns(runs[1..], navThrows, globalThrows);
    }
  }
}
