// The build script's plugin-target extraction: which client build a plugin file belongs
// to, read from the last dotted suffix of its name (`foo.desktop.tsx`, `foo.web/index.ts`).

module PluginTarget {
  import opened Wrappers
  import opened Strings

  /** Both path separators, `/` and `\`. */
  const Separators: set<char> := {'/', '\\'}

  predicate IsIndexFile(part: string) {
    part == "index.ts" || part == "index.tsx"
  }

  /** The path split at either separator, a trailing index file popped off. */
  function Segments(filePath: string): (parts: seq<string>)
    ensures forall k :: 0 <= k < |parts| ==> NoneIn(parts[k], Separators)
  {
    var parts := Split(filePath, Separators);
    if IsIndexFile(parts[|parts| - 1]) then parts[..|parts| - 1] else parts
  }

  /** The script reads the last segment after the pop; when the path is a bare index file
      nothing is left and the lookup throws. */
  predicate HasSegment(filePath: string) {
    |Segments(filePath)| > 0
  }

  /** Removes a trailing `.ts` or `.tsx`, and nothing else. */
  function StripTsExtension(s: string): (r: string)
    ensures StartsWith(s, r)
    ensures s[|r|..] in {"", ".ts", ".tsx"}
    ensures s[|r|..] == "" <==> !(EndsWith(s, ".ts") || EndsWith(s, ".tsx"))
  {
    if EndsWith(s, ".tsx") then
      assert s[|s| - 4..] == ".tsx";
      s[..|s| - 4]
    else if EndsWith(s, ".ts") then
      assert s[|s| - 3..] == ".ts";
      s[..|s| - 3]
    else
      assert s[|s|..] == "";
      s
  }

  /** The last remaining segment, extension removed. */
  function Identifier(filePath: string): (id: string)
    requires HasSegment(filePath)
    ensures NoneIn(id, Separators)
  {
    IdentifierOf(Segments(filePath))
  }

  function IdentifierOf(parts: seq<string>): (id: string)
    requires |parts| > 0 && NoneIn(parts[|parts| - 1], Separators)
    ensures NoneIn(id, Separators)
  {
    var last := parts[|parts| - 1];
    var id := StripTsExtension(last);
    NoneInPrefix(last, |id|, Separators);
    id
  }

  /** `getPluginTarget`: `None` (the script's `null`) for an identifier without a dot,
      otherwise the text after its last dot. */
  function GetPluginTarget(filePath: string): (r: Option<string>)
    requires HasSegment(filePath)
    ensures r.None? <==> NoneIn(Identifier(filePath), {'.'})
    ensures r.Some? ==> NoneIn(r.value, {'.'}) && NoneIn(r.value, Separators)
    ensures r.Some? ==> EndsWith(Identifier(filePath), ['.'] + r.value)
  {
    TargetOf(Identifier(filePath))
  }

  /** The dotted suffix of an identifier. */
  function TargetOf(id: string): (r: Option<string>)
    requires NoneIn(id, Separators)
    ensures r.None? <==> NoneIn(id, {'.'})
    ensures r.Some? ==> NoneIn(r.value, {'.'}) && NoneIn(r.value, Separators)
    ensures r.Some? ==> EndsWith(id, ['.'] + r.value)
  {
    var bits := Split(id, {'.'});
    NoneInIffNoCount(id, {'.'});
    if |bits| == 1 then None
    else
      SplitLastIsSuffix(id, {'.'});
      var t := bits[|bits| - 1];
      assert EndsWith(id, ['.'] + t) by {
        assert id[|id| - |t| - 1..] == [id[|id| - |t| - 1]] + id[|id| - |t|..];
      }
      NoneInSuffix(id, |id| - |t|, Separators);
      Some(t)
  }

  // ---------------------------------------------------------------- helpers

  /** The last piece of a split with at least one separator is what follows the last
      separator. */
  lemma {:induction false} SplitLastIsSuffix(s: string, seps: set<char>)
    requires |Split(s, seps)| > 1
    ensures var p := Split(s, seps); var t := p[|p| - 1];
      |t| < |s| && s[|s| - |t| - 1] in seps && s[|s| - |t|..] == t
  {
    var p := Split(s, seps);
    var q := Split(s[1..], seps);
    if |q| > 1 {
      SplitLastIsSuffix(s[1..], seps);
      assert s[1..][|s[1..]| - |q[|q| - 1]|..] == s[|s| - |q[|q| - 1]|..];
    } else {
      assert s[0] in seps;
      assert p[|p| - 1] == q[0];
      SplitNoSepOnly(s[1..], seps);
    }
  }

  /** A string that splits into one piece is that piece. */
  lemma {:induction false} SplitNoSepOnly(s: string, seps: set<char>)
    requires |Split(s, seps)| == 1
    ensures Split(s, seps)[0] == s
  {
    if s != [] {
      SplitNoSepOnly(s[1..], seps);
      assert [s[0]] + s[1..] == s;
    }
  }

  // ---------------------------------------------------------------- properties

  /** Every `\` replaced by `/`. */
  function ForwardSlashes(s: string): (r: string)
    ensures |r| == |s|
  {
    ReplaceIn(s, Separators, '/')
  }

  /** What the pop took off the split path: nothing, or the trailing index file. */
  function Popped(filePath: string): (r: seq<string>)
  {
    var parts := Split(filePath, Separators);
    if IsIndexFile(parts[|parts| - 1]) then [parts[|parts| - 1]] else []
  }

  /** The segments are the split path less at most its trailing index file. */
  lemma SegmentsAndPopped(filePath: string)
    ensures Segments(filePath) + Popped(filePath) == Split(filePath, Separators)
    ensures Popped(filePath) == [] || (|Popped(filePath)| == 1 && IsIndexFile(Popped(filePath)[0]))
    ensures Popped(filePath) == [] ==>
      |Segments(filePath)| > 0 && !IsIndexFile(Segments(filePath)[|Segments(filePath)| - 1])
  {
    var p := Split(filePath, Separators);
    if IsIndexFile(p[|p| - 1]) {
      assert p[..|p| - 1] + [p[|p| - 1]] == p;
    } else {
      assert p + [] == p;
    }
  }

  /** Put back together with `/`, the segments and what was popped give the path with
      forward slashes; there is one piece more than there are separators. */
  lemma SegmentsRejoin(filePath: string)
    ensures |Segments(filePath)| + |Popped(filePath)| == CountIn(filePath, Separators) + 1
    ensures Join(Segments(filePath) + Popped(filePath), "/") == ForwardSlashes(filePath)
  {
    SegmentsAndPopped(filePath);
    JoinSplit(filePath, Separators, '/');
  }

  lemma SplitForwardSlashes(s: string)
    ensures Split(ForwardSlashes(s), Separators) == Split(s, Separators)
  {
    SplitReplaceIn(s, Separators, '/');
  }

  /** `/` and `\` are the same separator. */
  lemma SeparatorsAlike(filePath: string)
    requires HasSegment(filePath)
    ensures HasSegment(ForwardSlashes(filePath))
    ensures GetPluginTarget(ForwardSlashes(filePath)) == GetPluginTarget(filePath)
  {
    SplitForwardSlashes(filePath);
    assert Segments(ForwardSlashes(filePath)) == Segments(filePath);
  }

  /** `dir/name/index.ts(x)` and `dir/name.tsx` name the same target. */
  lemma IndexFileLikeNamedFile(dir: string, name: string, index: string)
    requires NoneIn(name, Separators) && IsIndexFile(index) && name != "index"
    requires !EndsWith(name, ".ts") && !EndsWith(name, ".tsx")
    ensures HasSegment(dir + ['/'] + name + ['/'] + index)
    ensures HasSegment(dir + ['/'] + name + ".tsx")
    ensures Identifier(dir + ['/'] + name + ['/'] + index) == name
    ensures Identifier(dir + ['/'] + name + ".tsx") == name
    ensures GetPluginTarget(dir + ['/'] + name + ['/'] + index) == GetPluginTarget(dir + ['/'] + name + ".tsx")
  {
    IndexFileSegments(dir, name, index);
    NamedFileSegments(dir, name);
    var n := name + ".tsx";
    assert EndsWith(n, ".tsx") && n[..|n| - 4] == name;
  }

  lemma IndexFileSegments(dir: string, name: string, index: string)
    requires NoneIn(name, Separators) && IsIndexFile(index)
    ensures Segments(dir + ['/'] + name + ['/'] + index) == Split(dir, Separators) + [name]
  {
    assert dir + ['/'] + name + ['/'] + index == dir + ['/'] + (name + ['/'] + index);
    SplitAppendSep(dir, '/', name + ['/'] + index, Separators);
    SplitAppendSep(name, '/', index, Separators);
    SplitNoSep(name, Separators);
    IndexFilePlain(index);
  }

  lemma IndexFilePlain(index: string)
    requires IsIndexFile(index)
    ensures Split(index, Separators) == [index]
  {
    assert NoneIn(index, Separators);
    SplitNoSep(index, Separators);
  }

  lemma NamedFileSegments(dir: string, name: string)
    requires NoneIn(name, Separators) && name != "index"
    ensures Segments(dir + ['/'] + name + ".tsx") == Split(dir, Separators) + [name + ".tsx"]
  {
    assert dir + ['/'] + name + ".tsx" == dir + ['/'] + (name + ".tsx");
    NoneInConcat(name, ".tsx", Separators);
    SplitAppendSep(dir, '/', name + ".tsx", Separators);
    SplitNoSep(name + ".tsx", Separators);
    var n := name + ".tsx";
    assert n[|n| - 1] == 'x' && "index.ts"[7] == 's';
    assert n[..|name|] == name && "index.tsx"[..5] == "index";
  }

  /** `x/foo.desktop/index.tsx` belongs to the desktop build. */
  lemma DesktopExample()
    ensures HasSegment("x/foo.desktop/index.tsx")
    ensures GetPluginTarget("x/foo.desktop/index.tsx") == Some("desktop")
  {
    ExamplePathShape();
    ExampleNameFacts();
    IndexFileLikeNamedFile("x", "foo.desktop", "index.tsx");
    ExampleTarget();
  }

  lemma ExamplePathShape()
    ensures "x/foo.desktop/index.tsx" == "x" + ['/'] + "foo.desktop" + ['/'] + "index.tsx"
  {
  }

  lemma ExampleNameFacts()
    ensures NoneIn("foo.desktop", Separators) && "foo.desktop" != "index"
    ensures !EndsWith("foo.desktop", ".ts") && !EndsWith("foo.desktop", ".tsx")
  {
  }

  lemma ExampleTarget()
    ensures TargetOf("foo.desktop") == Some("desktop")
  {
    ExampleDotted();
    TargetOfDotted("foo", "desktop");
  }

  lemma ExampleDotted()
    ensures "foo.desktop" == "foo" + ['.'] + "desktop"
    ensures NoneIn("foo", {'.'}) && NoneIn("desktop", {'.'}) && NoneIn("foo.desktop", Separators)
  {
  }

  /** One dot: the target is what follows it. */
  lemma TargetOfDotted(a: string, b: string)
    requires NoneIn(a, {'.'}) && NoneIn(b, {'.'}) && NoneIn(a + ['.'] + b, Separators)
    ensures TargetOf(a + ['.'] + b) == Some(b)
  {
    SplitAppendSep(a, '.', b, {'.'});
    SplitNoSep(a, {'.'});
    SplitNoSep(b, {'.'});
  }
}
