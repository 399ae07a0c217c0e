/**
 * Rendered menu and guild-bar children as the client mod sees them: a child is empty (`null`,
 * `undefined` or another falsy value), an array of children, or an element whose props carry an
 * optional `id`, the names of its other set props, and its own `props.children`.  A text
 * child is an element without an id and without children.
 */
module ElementTree {
  import opened Wrappers

  datatype Props = Props(id: Option<string>, keys: set<string>)

  datatype Node =
    | Null
    | Array(items: seq<Node>)
    | Element(props: Props, children: Node)

  /** A measure that shrinks towards every child, also when a single child is wrapped into an
      array of one. */
  function Size(n: Node): (r: nat)
    ensures r >= 1
  {
    match n
    case Null => 1
    case Array(xs) => 1 + SizeList(xs)
    case Element(_, c) => 1 + Size(c)
  }

  function SizeList(xs: seq<Node>): nat {
    if xs == [] then 0 else Size(xs[0]) + SizeList(xs[1..])
  }

  lemma SizeListAt(xs: seq<Node>, i: nat)
    requires i < |xs|
    ensures SizeList(xs[i..]) == Size(xs[i]) + SizeList(xs[i + 1..])
  {
    assert xs[i..][0] == xs[i] && xs[i..][1..] == xs[i + 1..];
  }

  /** No child outweighs its list. */
  lemma {:induction false} SizeListBound(xs: seq<Node>, i: nat)
    requires i < |xs|
    ensures Size(xs[i]) <= SizeList(xs)
  {
    if i > 0 {
      SizeListBound(xs[1..], i - 1);
    }
  }

  /** The list one step down from a node: an array's items or an element's array of children. */
  function ChildList(n: Node): Option<seq<Node>> {
    match n
    case Array(xs) => Some(xs)
    case Element(_, Array(xs)) => Some(xs)
    case _ => None
  }

  /** The node with its child list replaced: an element keeps its props. */
  function WithChildList(n: Node, xs: seq<Node>): (m: Node)
    requires ChildList(n).Some?
    ensures ChildList(m) == Some(xs)
    ensures n.Array? ==> m == Array(xs)
    ensures n.Element? ==> m == Element(n.props, Array(xs))
  {
    match n
    case Array(_) => Array(xs)
    case Element(p, Array(_)) => Element(p, Array(xs))
  }

  /** The array reached from `items` by following `path`, one index per level. */
  function GroupAt(items: seq<Node>, path: seq<nat>): Option<seq<Node>>
    decreases |path|
  {
    if path == [] then Some(items)
    else if path[0] < |items| && ChildList(items[path[0]]).Some? then
      GroupAt(ChildList(items[path[0]]).value, path[1..])
    else None
  }

  /** `group.push(x)` on the array at `path`, everything else left as it is. */
  function PushAt(items: seq<Node>, path: seq<nat>, x: Node): (r: seq<Node>)
    requires GroupAt(items, path).Some?
    ensures GroupAt(r, path) == Some(GroupAt(items, path).value + [x])
    ensures |r| == |items| + (if path == [] then 1 else 0)
    ensures path != [] ==> forall k :: 0 <= k < |items| && k != path[0] ==> r[k] == items[k]
    decreases |path|
  {
    if path == [] then items + [x]
    else
      var i := path[0];
      var n := items[i];
      var r := items[i := WithChildList(n, PushAt(ChildList(n).value, path[1..], x))];
      assert GroupAt(r, path) == GroupAt(ChildList(r[i]).value, path[1..]);
      r
  }

  /** `group.pop()` on the array at `path`, everything else left as it is. */
  function PopAt(items: seq<Node>, path: seq<nat>): seq<Node>
    requires GroupAt(items, path).Some? && GroupAt(items, path).value != []
    decreases |path|
  {
    if path == [] then items[..|items| - 1]
    else
      var i := path[0];
      var n := items[i];
      items[i := WithChildList(n, PopAt(ChildList(n).value, path[1..]))]
  }

  /** Replacing a node's child list by what it was gives the node back. */
  lemma WithChildListBack(n: Node, xs: seq<Node>)
    requires ChildList(n).Some?
    ensures WithChildList(WithChildList(n, xs), ChildList(n).value) == n
  {
  }

  /** Popping the array a push went to gives back the whole tree: the push changed nothing but
      that array, and only by appending. */
  lemma {:induction false} PopUndoesPush(items: seq<Node>, path: seq<nat>, x: Node)
    requires GroupAt(items, path).Some?
    ensures PopAt(PushAt(items, path, x), path) == items
    decreases |path|
  {
    var r := PushAt(items, path, x);
    if path == [] {
      assert r[..|r| - 1] == items;
    } else {
      var i := path[0];
      var n := items[i];
      var pushed := PushAt(ChildList(n).value, path[1..], x);
      assert r[i] == WithChildList(n, pushed);
      PopUndoesPush(ChildList(n).value, path[1..], x);
      WithChildListBack(n, pushed);
      assert PopAt(r, path) == r[i := n];
      assert r[i := n] == items;
    }
  }
}
