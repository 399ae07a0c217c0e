/**
 * The DevCompanion plugin's message protocol: each request over the socket carries a nonce, a
 * type and data, and is answered with one reply.  `testPatch` checks that a patch's `find`
 * selects exactly one module and that each of its replacements changes that module's source
 * and leaves code that parses; `testFind` checks that a finder yields exactly one result.
 *
 * The socket, JSON parsing, the module search, the regular-expression replace, the syntax
 * check done by `Function(src)` and the finders are the fields of a `Host`.
 */
module DevCompanion {
  import opened Wrappers
  import opened Strings

  /** A node as it arrives over the socket; `UnknownNode` is one whose `type` is none of the
      three. */
  datatype WireNode =
    | StringNode(value: string)
    | RegexNode(pattern: string, flags: string)
    | FunctionNode(code: string)
    | UnknownNode(nodeType: string)

  /** What `parseNode` returns: the string, the regular expression, or whatever evaluating the
      function's code gives, which is foreign to this model. */
  datatype Parsed = Str(s: string) | Regex(pattern: string, flags: string) | Evaluated(code: string)

  /** Whether `parseNode` throws on the node: its type is unknown, or it is a regular
      expression that `new RegExp` rejects (`regexError` gives the text of what that throws). */
  predicate Throws(n: WireNode, regexError: (string, string) -> Option<string>) {
    n.UnknownNode? || (n.RegexNode? && regexError(n.pattern, n.flags).Some?)
  }

  /** `parseNode`; the error is the text of the thrown error. */
  function ParseNode(n: WireNode, regexError: (string, string) -> Option<string>): (r: Result<Parsed, string>)
    ensures n.StringNode? ==> r == Ok(Str(n.value))
    ensures n.RegexNode? && regexError(n.pattern, n.flags).None? ==> r == Ok(Regex(n.pattern, n.flags))
    ensures r.Err? <==> Throws(n, regexError)
    ensures n.RegexNode? && r.Err? ==> r.error == regexError(n.pattern, n.flags).value
    ensures n.UnknownNode? ==> r.error == "Error: Unknown Node Type " + n.nodeType
  {
    match n
    case StringNode(v) => Ok(Str(v))
    case RegexNode(p, f) =>
      if regexError(p, f).Some? then Err(regexError(p, f).value) else Ok(Regex(p, f))
    case FunctionNode(c) => Ok(Evaluated(c))
    case UnknownNode(t) => Err("Error: Unknown Node Type " + t)
  }

  /** What the plugin asks of the client: the module search (`Object.keys(search(find))`), a
      module's source text, `src.replace(canonicalizeMatch(m), canonicalizeReplace(r, …))`,
      whether `Function(src)` accepts the code and the message of its `SyntaxError`
      otherwise, what `new RegExp(pattern, flags)` throws, if anything, and the results of a
      finder of a given kind. */
  datatype Host<!R> = Host(
    search: string -> seq<string>,
    moduleSource: string -> string,
    replace: (string, Parsed, Parsed) -> string,
    parses: string -> bool,
    syntaxError: string -> string,
    regexError: (string, string) -> Option<string>,
    findAll: (string, seq<Parsed>) -> seq<R>)

  // ---------------------------------------------------------------- replies

  /** The JSON object sent back: the nonce, `ok`, and `error` on failure. */
  datatype Reply<N> = Reply(nonce: N, ok: bool, error: Option<string>)

  /** `reply(error)`: an empty error text is falsy and counts as success. */
  function MakeReply<N>(nonce: N, error: Option<string>): (r: Reply<N>)
    ensures r.nonce == nonce
    ensures r.ok <==> error.None? || error.value == ""
    ensures r.error.Some? <==> !r.ok
    ensures r.error.Some? ==> r.error == error
  {
    var ok := error.None? || error.value == "";
    Reply(nonce, ok, if ok then None else error)
  }

  // ---------------------------------------------------------------- testPatch

  datatype Replacement = Replacement(matchNode: WireNode, replaceNode: WireNode)

  /** The module source the replacements start from: newlines removed, and "0," put in front
      of a bare function expression so that it parses as an expression. */
  function Prepared(moduleSource: string): (src: string)
    ensures forall k :: 0 <= k < |src| ==> src[k] != '\n'
    ensures StartsWith(RemoveAll(moduleSource, '\n'), "function(") ==> src == "0," + RemoveAll(moduleSource, '\n')
    ensures !StartsWith(RemoveAll(moduleSource, '\n'), "function(") ==> src == RemoveAll(moduleSource, '\n')
  {
    var s := RemoveAll(moduleSource, '\n');
    if StartsWith(s, "function(") then "0," + s else s
  }

  /** One replacement on `src`: the new source, or the text of what it throws. */
  function Step<R>(src: string, rep: Replacement, host: Host<R>): (r: Result<string, string>)
    ensures r.Ok? ==> r.value != src && host.parses(r.value)
    ensures ParseNode(rep.matchNode, host.regexError).Err? ==> r == Err(ParseNode(rep.matchNode, host.regexError).error)
    ensures ParseNode(rep.matchNode, host.regexError).Ok? && ParseNode(rep.replaceNode, host.regexError).Err? ==>
      r == Err(ParseNode(rep.replaceNode, host.regexError).error)
    ensures ParseNode(rep.matchNode, host.regexError).Ok? && ParseNode(rep.replaceNode, host.regexError).Ok? ==>
      var n := host.replace(src, ParseNode(rep.matchNode, host.regexError).value, ParseNode(rep.replaceNode, host.regexError).value);
      && (n == src ==> r == Err("Had no effect"))
      && (n != src && host.parses(n) ==> r == Ok(n))
      && (n != src && !host.parses(n) ==> r == Err("SyntaxError: " + host.syntaxError(n)))
  {
    match ParseNode(rep.matchNode, host.regexError)
    case Err(e) => Err(e)
    case Ok(m) =>
      match ParseNode(rep.replaceNode, host.regexError)
      case Err(e) => Err(e)
      case Ok(r) =>
        var newSource := host.replace(src, m, r);
        if src == newSource then Err("Had no effect")
        else if !host.parses(newSource) then Err("SyntaxError: " + host.syntaxError(newSource))
        else Ok(newSource)
  }

  /** After some replacements: the source they left, or the 1-based index of the one that
      failed and its error. */
  datatype Applied = Done(src: string) | Failed(index: nat, error: string)

  /** The replacements applied in order, stopping at the first that fails. */
  function Apply<R>(src: string, reps: seq<Replacement>, host: Host<R>): Applied
  {
    if reps == [] then Done(src)
    else
      match Apply(src, reps[..|reps| - 1], host)
      case Failed(i, e) => Failed(i, e)
      case Done(s) =>
        match Step(s, reps[|reps| - 1], host)
        case Err(e) => Failed(|reps|, e)
        case Ok(t) => Done(t)
  }

  /** The error text `testPatch` replies with, `None` when every check passes. */
  function TestPatchError<R>(find: string, replacement: seq<Replacement>, host: Host<R>): Option<string> {
    var keys := host.search(find);
    if |keys| != 1 then Some("Expected exactly one 'find' matches, found " + NatToString(|keys|))
    else
      match Apply(Prepared(host.moduleSource(keys[0])), replacement, host)
      case Done(_) => None
      case Failed(i, e) => Some(ReplacementFailed(i, e))
  }

  function ReplacementFailed(i: nat, e: string): string {
    "Replacement " + NatToString(i) + " failed: " + e
  }

  /** The `testPatch` case of the message listener. */
  method TestPatch<R>(find: string, replacement: seq<Replacement>, host: Host<R>) returns (error: Option<string>)
    ensures error == TestPatchError(find, replacement, host)
  {
    var keys := host.search(find);
    if |keys| != 1 {
      return Some("Expected exactly one 'find' matches, found " + NatToString(|keys|));
    }
    var src := RemoveAll(host.moduleSource(keys[0]), '\n');
    if StartsWith(src, "function(") {
      src := "0," + src;
    }
    ghost var start := src;
    var i := 0;
    while i < |replacement|
      invariant 0 <= i <= |replacement|
      invariant Apply(start, replacement[..i], host) == Done(src)
    {
      var rep := replacement[i];
      i := i + 1;
      assert replacement[..i][..i - 1] == replacement[..i - 1];
      assert replacement[..i][i - 1] == rep;
      var matcher := ParseNode(rep.matchNode, host.regexError);
      if matcher.Err? {
        FailureSticks(start, replacement, i, host);
        return Some(ReplacementFailed(i, matcher.error));
      }
      var replaceWith := ParseNode(rep.replaceNode, host.regexError);
      if replaceWith.Err? {
        FailureSticks(start, replacement, i, host);
        return Some(ReplacementFailed(i, replaceWith.error));
      }
      var newSource := host.replace(src, matcher.value, replaceWith.value);
      if src == newSource {
        FailureSticks(start, replacement, i, host);
        return Some(ReplacementFailed(i, "Had no effect"));
      }
      if !host.parses(newSource) {
        FailureSticks(start, replacement, i, host);
        return Some(ReplacementFailed(i, "SyntaxError: " + host.syntaxError(newSource)));
      }
      src := newSource;
    }
    assert replacement[..i] == replacement;
    return None;
  }

  /** Once a replacement fails, the later ones change nothing. */
  lemma {:induction false} FailureSticks<R>(src: string, reps: seq<Replacement>, n: nat, host: Host<R>)
    requires n <= |reps| && Apply(src, reps[..n], host).Failed?
    ensures Apply(src, reps, host) == Apply(src, reps[..n], host)
    decreases |reps| - n
  {
    if n < |reps| {
      assert reps[..n + 1][..n] == reps[..n];
      FailureSticks(src, reps, n + 1, host);
    } else {
      assert reps[..n] == reps;
    }
  }

  /** A failure names the first replacement that failed: every earlier one applied, and the
      error is what that one threw. */
  lemma {:induction false} FirstFailure<R>(src: string, reps: seq<Replacement>, host: Host<R>)
    requires Apply(src, reps, host).Failed?
    ensures var f := Apply(src, reps, host);
      && 1 <= f.index <= |reps|
      && Apply(src, reps[..f.index - 1], host).Done?
      && Step(Apply(src, reps[..f.index - 1], host).src, reps[f.index - 1], host) == Err(f.error)
  {
    var init := reps[..|reps| - 1];
    match Apply(src, init, host)
    case Failed(i, e) =>
      FirstFailure(src, init, host);
      assert init[..i - 1] == reps[..i - 1];
      assert init[i - 1] == reps[i - 1];
    case Done(s) =>
      assert reps[..|reps| - 1] == init;
  }

  /** When every replacement applies, each one changed the source and left code that
      parses. */
  lemma {:induction false} AllApplied<R>(src: string, reps: seq<Replacement>, host: Host<R>, k: nat)
    requires Apply(src, reps, host).Done? && k < |reps|
    ensures Apply(src, reps[..k], host).Done?
    ensures var before := Apply(src, reps[..k], host).src;
      Step(before, reps[k], host).Ok? && Apply(src, reps[..k + 1], host) == Done(Step(before, reps[k], host).value)
    decreases |reps|
  {
    var init := reps[..|reps| - 1];
    if Apply(src, init, host).Failed? {
      assert false;
    }
    if k < |init| {
      AllApplied(src, init, host, k);
      assert init[..k] == reps[..k] && init[..k + 1] == reps[..k + 1] && init[k] == reps[k];
    } else {
      assert reps[..k + 1] == reps;
    }
  }

  // ---------------------------------------------------------------- testFind

  /** The finder kinds `testFind` knows, once "find" and "Lazy" are removed from the type. */
  const FindKinds: seq<string> := ["", "ByProps", "Store", "ByCode", "ModuleId", "ComponentByCode"]

  /** `type.replace("find", "").replace("Lazy", "")`: the first occurrence of each. */
  function FindKind(findType: string): string {
    ReplaceFirst(ReplaceFirst(findType, "find", ""), "Lazy", "")
  }

  /** A type starting with "find" loses exactly that prefix before "Lazy" is removed. */
  lemma LeadingFindRemoved(rest: string)
    ensures FindKind("find" + rest) == ReplaceFirst(rest, "Lazy", "")
  {
    var s := "find" + rest;
    assert OccursAt(s, "find", 0);
    assert IndexOf(s, "find") == Some(0);
    assert s[..0] + "" + s[0 + |"find"|..] == rest;
    assert ReplaceFirst(s, "find", "") == rest;
  }

  /** `args.map(parseNode)`: the first argument that throws stops the map. */
  function ParseArgs(args: seq<WireNode>, regexError: (string, string) -> Option<string>): (r: Result<seq<Parsed>, string>)
    ensures ParsedArgs(args, regexError, r)
  {
    if args == [] then Ok([])
    else
      match ParseNode(args[0], regexError)
      case Err(e) =>
        FirstArgThrows(args, regexError, e);
        Err(e)
      case Ok(p) =>
        match ParseArgs(args[1..], regexError)
        case Err(e) =>
          LaterArgThrows(args, regexError, e);
          Err(e)
        case Ok(ps) =>
          ArgsParsed(args, regexError, p, ps);
          Ok([p] + ps)
  }

  /** What `ParseArgs` promises: success exactly when no argument throws, one parsed value per
      argument, and otherwise the error of the first argument that throws. */
  predicate ParsedArgs(args: seq<WireNode>, regexError: (string, string) -> Option<string>, r: Result<seq<Parsed>, string>) {
    && (r.Ok? <==> forall k :: 0 <= k < |args| ==> !Throws(args[k], regexError))
    && (r.Ok? ==> |r.value| == |args| && forall k :: 0 <= k < |args| ==> Ok(r.value[k]) == ParseNode(args[k], regexError))
    && (r.Err? ==> exists k :: (0 <= k < |args| && ParseNode(args[k], regexError) == Err(r.error)
      && forall j :: 0 <= j < k ==> !Throws(args[j], regexError)))
  }

  lemma FirstArgThrows(args: seq<WireNode>, regexError: (string, string) -> Option<string>, e: string)
    requires |args| > 0 && ParseNode(args[0], regexError) == Err(e)
    ensures ParsedArgs(args, regexError, Err(e))
  {
  }

  lemma LaterArgThrows(args: seq<WireNode>, regexError: (string, string) -> Option<string>, e: string)
    requires |args| > 0 && ParseNode(args[0], regexError).Ok? && ParsedArgs(args[1..], regexError, Err(e))
    ensures ParsedArgs(args, regexError, Err(e))
  {
    var k :| 0 <= k < |args[1..]| && ParseNode(args[1..][k], regexError) == Err(e)
      && forall j :: 0 <= j < k ==> !Throws(args[1..][j], regexError);
    assert ParseNode(args[k + 1], regexError) == Err(e);
    assert forall j :: 0 < j < k + 1 ==> args[j] == args[1..][j - 1];
  }

  lemma ArgsParsed(args: seq<WireNode>, regexError: (string, string) -> Option<string>, p: Parsed, ps: seq<Parsed>)
    requires |args| > 0 && ParseNode(args[0], regexError) == Ok(p) && ParsedArgs(args[1..], regexError, Ok(ps))
    ensures ParsedArgs(args, regexError, Ok([p] + ps))
  {
    assert forall k :: 0 < k < |args| ==> args[k] == args[1..][k - 1];
    assert forall k :: 0 < k < |args| ==> ([p] + ps)[k] == ps[k - 1];
  }

  /** `new Set(results).size`. */
  function DistinctCount<R>(results: seq<R>): nat {
    |set k | 0 <= k < |results| :: results[k]|
  }

  /** The error text `testFind` replies with, `None` when there is exactly one result. */
  function TestFindError<R>(findType: string, args: seq<WireNode>, host: Host<R>): (r: Option<string>)
    ensures ParseArgs(args, host.regexError).Err? ==> r == Some("Failed to parse args: " + ParseArgs(args, host.regexError).error)
    ensures ParseArgs(args, host.regexError).Ok? && FindKind(findType) !in FindKinds ==> r == Some("Unknown Find Type " + findType)
    ensures ParseArgs(args, host.regexError).Ok? && FindKind(findType) in FindKinds ==>
      (r.None? <==> DistinctCount(host.findAll(FindKind(findType), ParseArgs(args, host.regexError).value)) == 1)
  {
    match ParseArgs(args, host.regexError)
    case Err(e) => Some("Failed to parse args: " + e)
    case Ok(parsed) =>
      var kind := FindKind(findType);
      if kind !in FindKinds then Some("Unknown Find Type " + findType)
      else
        var n := DistinctCount(host.findAll(kind, parsed));
        if n == 0 then Some("Failed to find: No results")
        else if n > 1 then Some("Failed to find: Found more than one result! Make this filter more specific")
        else None
  }

  /** A finder's results count as one exactly when there are some and they are all the same
      value, however often it is repeated; none count as none. */
  lemma DistinctResults<R>(results: seq<R>)
    ensures DistinctCount(results) == 0 <==> results == []
    ensures DistinctCount(results) == 1 <==> results != [] && forall k :: 0 <= k < |results| ==> results[k] == results[0]
  {
    var s := set k | 0 <= k < |results| :: results[k];
    if results != [] {
      assert results[0] in s;
      if forall k :: 0 <= k < |results| ==> results[k] == results[0] {
        assert s == {results[0]};
      } else {
        var j :| 0 <= j < |results| && results[j] != results[0];
        assert results[j] in s;
        TwoMembers(s, results[0], results[j]);
      }
    }
  }

  lemma TwoMembers<T>(s: set<T>, x: T, y: T)
    requires x in s && y in s && x != y
    ensures |s| >= 2
  {
    var rest := s - {x};
    assert y in rest;
    assert s == rest + {x};
  }

  /** An argument that throws, with none throwing before it, makes `testFind` reply with that
      argument's error, whatever the find type. */
  lemma ThrowingArgFailsFind<R>(findType: string, args: seq<WireNode>, host: Host<R>, k: nat)
    requires k < |args| && Throws(args[k], host.regexError)
    requires forall j :: 0 <= j < k ==> !Throws(args[j], host.regexError)
    ensures TestFindError(findType, args, host) == Some("Failed to parse args: " + ParseNode(args[k], host.regexError).error)
  {
    var r := ParseArgs(args, host.regexError);
    assert r.Err?;
    var i :| 0 <= i < |args| && ParseNode(args[i], host.regexError) == Err(r.error)
      && forall j :: 0 <= j < i ==> !Throws(args[j], host.regexError);
    assert Throws(args[i], host.regexError);
    assert i == k;
  }

  // ---------------------------------------------------------------- the listener

  datatype Data =
    | PatchData(find: string, replacement: seq<Replacement>)
    | FindData(findType: string, args: seq<WireNode>)
    | OtherData

  datatype Message<N> = Message(nonce: N, msgType: string, data: Data)

  /** The data of a request has the shape its type asks for. */
  predicate WellShaped<N>(m: Message<N>) {
    (m.msgType == "testPatch" ==> m.data.PatchData?) && (m.msgType == "testFind" ==> m.data.FindData?)
  }

  /** The `message` listener: no reply for text that is not JSON, else one reply carrying the
      request's nonce. */
  function HandleMessage<N, R>(parsed: Option<Message<N>>, host: Host<R>): (r: Option<Reply<N>>)
    requires parsed.Some? ==> WellShaped(parsed.value)
    ensures r.None? <==> parsed.None?
    ensures r.Some? ==> r.value.nonce == parsed.value.nonce
    ensures r.Some? && parsed.value.msgType != "testPatch" && parsed.value.msgType != "testFind" ==>
      r.value == Reply(parsed.value.nonce, false, Some("Unknown Type " + parsed.value.msgType))
    ensures r.Some? && parsed.value.msgType == "testPatch" ==>
      r.value == MakeReply(parsed.value.nonce, TestPatchError(parsed.value.data.find, parsed.value.data.replacement, host))
    ensures r.Some? && parsed.value.msgType == "testFind" ==>
      r.value == MakeReply(parsed.value.nonce, TestFindError(parsed.value.data.findType, parsed.value.data.args, host))
    ensures r.Some? && parsed.value.msgType == "testPatch" ==>
      (r.value.ok <==> TestPatchError(parsed.value.data.find, parsed.value.data.replacement, host).None?)
    ensures r.Some? && parsed.value.msgType == "testFind" ==>
      (r.value.ok <==> TestFindError(parsed.value.data.findType, parsed.value.data.args, host).None?)
  {
    match parsed
    case None => None
    case Some(m) =>
      if m.msgType == "testPatch" then
        PatchErrorNonEmpty(m.data.find, m.data.replacement, host);
        Some(MakeReply(m.nonce, TestPatchError(m.data.find, m.data.replacement, host)))
      else if m.msgType == "testFind" then
        FindErrorNonEmpty(m.data.findType, m.data.args, host);
        Some(MakeReply(m.nonce, TestFindError(m.data.findType, m.data.args, host)))
      else
        assert "Unknown Type " + m.msgType != "" by { assert ("Unknown Type " + m.msgType)[0] == 'U'; }
        Some(MakeReply(m.nonce, Some("Unknown Type " + m.msgType)))
  }

  /** Every error text `testPatch` and `testFind` reply with is non-empty, so a failure is
      never reported as success. */
  lemma ErrorsNeverEmpty<R>(find: string, replacement: seq<Replacement>, findType: string, args: seq<WireNode>, host: Host<R>)
    ensures TestPatchError(find, replacement, host).Some? ==> TestPatchError(find, replacement, host).value != ""
    ensures TestFindError(findType, args, host).Some? ==> TestFindError(findType, args, host).value != ""
  {
    PatchErrorNonEmpty(find, replacement, host);
    FindErrorNonEmpty(findType, args, host);
  }

  lemma PatchErrorNonEmpty<R>(find: string, replacement: seq<Replacement>, host: Host<R>)
    ensures TestPatchError(find, replacement, host).Some? ==> TestPatchError(find, replacement, host).value != ""
  {
    var keys := host.search(find);
    if |keys| != 1 {
      var e := "Expected exactly one 'find' matches, found " + NatToString(|keys|);
      assert e[0] == 'E';
    } else {
      match Apply(Prepared(host.moduleSource(keys[0])), replacement, host)
      case Done(_) =>
      case Failed(i, e) => assert ReplacementFailed(i, e)[0] == 'R';
    }
  }

  lemma FindErrorNonEmpty<R>(findType: string, args: seq<WireNode>, host: Host<R>)
    ensures TestFindError(findType, args, host).Some? ==> TestFindError(findType, args, host).value != ""
  {
    match ParseArgs(args, host.regexError)
    case Err(e) => assert ("Failed to parse args: " + e)[0] == 'F';
    case Ok(parsed) =>
      assert ("Unknown Find Type " + findType)[0] == 'U';
  }
}
