/**
 * The JavaScript string operations the core uses, on `seq<char>`:
 * `trim`, `split`, `join`, `startsWith`/`endsWith`, `includes`/`indexOf`,
 * the first-occurrence `replace` with a string pattern, and number-to-text.
 */
module Strings {
  import opened Wrappers

  /** The code points JavaScript counts as WhiteSpace or LineTerminator:
      what `trim` removes and what `\s` matches in a regular expression. */
  predicate IsSpace(c: char) {
    || c == ' ' || c == '\t' || c == '\n' || c == '\r' || c == '\U{B}' || c == '\U{C}'
    || c == '\U{A0}' || c == '\U{1680}' || ('\U{2000}' <= c <= '\U{200A}')
    || c == '\U{2028}' || c == '\U{2029}' || c == '\U{202F}' || c == '\U{205F}'
    || c == '\U{3000}' || c == '\U{FEFF}'
  }

  /** The line terminators, which `.` in a regular expression does not match. */
  predicate IsLineTerminator(c: char) {
    c == '\n' || c == '\r' || c == '\U{2028}' || c == '\U{2029}'
  }

  /** `\d` in a regular expression. */
  predicate IsDigit(c: char) {
    '0' <= c <= '9'
  }

  predicate AllSpace(s: string) {
    forall i :: 0 <= i < |s| ==> IsSpace(s[i])
  }

  /** The number of white-space code points `s` starts with. */
  function LeadingSpaces(s: string): (k: nat)
    ensures k <= |s| && AllSpace(s[..k]) && (k == |s| || !IsSpace(s[k]))
  {
    if s != [] && IsSpace(s[0]) then
      var k := LeadingSpaces(s[1..]);
      assert s[..k + 1] == [s[0]] + s[1..][..k];
      k + 1
    else 0
  }

  /** The number of white-space code points `s` ends with. */
  function TrailingSpaces(s: string): (k: nat)
    ensures k <= |s| && AllSpace(s[|s| - k..]) && (k == |s| || !IsSpace(s[|s| - k - 1]))
  {
    if s != [] && IsSpace(s[|s| - 1]) then
      var k := TrailingSpaces(s[..|s| - 1]);
      assert s[|s| - (k + 1)..] == s[..|s| - 1][|s| - 1 - k..] + [s[|s| - 1]];
      k + 1
    else 0
  }

  /** `String.prototype.trim`: strips leading and trailing white space and nothing else. */
  function Trim(s: string): (r: string)
    ensures r == [] || (!IsSpace(r[0]) && !IsSpace(r[|r| - 1]))
    ensures |r| <= |s|
  {
    var i := LeadingSpaces(s);
    var t := s[i..];
    var j := TrailingSpaces(t);
    var r := t[..|t| - j];
    assert r != [] ==> r[0] == s[i] && r[|r| - 1] == t[|t| - j - 1];
    r
  }

  /** Trimming adds no characters: what `s` lacks, so does its trimmed form. */
  lemma TrimNoneIn(s: string, cs: set<char>)
    requires NoneIn(s, cs)
    ensures NoneIn(Trim(s), cs)
  {
    var i := LeadingSpaces(s);
    var t := s[i..];
    var r := Trim(s);
    assert r == t[..|t| - TrailingSpaces(t)];
    forall k | 0 <= k < |r| ensures r[k] !in cs {
      assert r[k] == s[i + k];
    }
  }

  /** A sequence of length two is the pair of its elements. */
  lemma PairOf<T>(s: seq<T>, p: T, q: T)
    requires |s| == 2 && s[0] == p && s[1] == q
    ensures s == [p, q]
  {
  }

  /** Trimming a string that neither starts nor ends with white space changes nothing. */
  lemma TrimNoSpace(s: string)
    requires s == [] || (!IsSpace(s[0]) && !IsSpace(s[|s| - 1]))
    ensures Trim(s) == s
  {
  }

  /** Trimming twice is trimming once. */
  lemma TrimIdempotent(s: string)
    ensures Trim(Trim(s)) == Trim(s)
  {
    TrimNoSpace(Trim(s));
  }

  function CountIn(s: string, cs: set<char>): nat {
    if s == [] then 0 else (if s[0] in cs then 1 else 0) + CountIn(s[1..], cs)
  }

  lemma CountInConcat(a: string, b: string, cs: set<char>)
    ensures CountIn(a + b, cs) == CountIn(a, cs) + CountIn(b, cs)
  {
    if a == [] {
      assert a + b == b;
    } else {
      assert (a + b)[1..] == a[1..] + b;
      CountInConcat(a[1..], b, cs);
    }
  }

  predicate NoneIn(s: string, cs: set<char>) {
    forall i :: 0 <= i < |s| ==> s[i] !in cs
  }

  lemma {:induction false} NoneInCount(s: string, cs: set<char>)
    requires NoneIn(s, cs)
    ensures CountIn(s, cs) == 0
  {
    if s != [] {
      assert s[0] !in cs;
      NoneInCount(s[1..], cs);
    }
  }

  lemma {:induction false} NoneInPrefix(s: string, n: nat, cs: set<char>)
    requires n <= |s| && NoneIn(s, cs)
    ensures NoneIn(s[..n], cs)
  {
    if n > 0 {
      assert s[..n][0] == s[0] && s[..n][1..] == s[1..][..n - 1];
      NoneInPrefix(s[1..], n - 1, cs);
    }
  }

  lemma {:induction false} NoneInSuffix(s: string, n: nat, cs: set<char>)
    requires n <= |s| && NoneIn(s, cs)
    ensures NoneIn(s[n..], cs)
  {
    if n > 0 {
      assert s[n..] == s[1..][n - 1..];
      NoneInSuffix(s[1..], n - 1, cs);
    }
  }

  lemma {:induction false} NoneInConcat(a: string, b: string, cs: set<char>)
    requires NoneIn(a, cs) && NoneIn(b, cs)
    ensures NoneIn(a + b, cs)
  {
    if a != [] {
      assert (a + b)[1..] == a[1..] + b;
      NoneInConcat(a[1..], b, cs);
    }
  }

  lemma {:induction false} NoneInIffNoCount(s: string, cs: set<char>)
    ensures NoneIn(s, cs) <==> CountIn(s, cs) == 0
  {
    if s != [] {
      NoneInIffNoCount(s[1..], cs);
    }
  }

  /** `s.split(sep)` where every code point of `seps` is a separator (a string separator of
      length one, or a character class such as `/[/\\]/`): as many pieces as separators plus one,
      none holding a separator, the empty string giving `[""]`. */
  function Split(s: string, seps: set<char>): (parts: seq<string>)
    ensures |parts| == CountIn(s, seps) + 1
    ensures forall k :: 0 <= k < |parts| ==> NoneIn(parts[k], seps)
  {
    if s == [] then [""]
    else
      var rest := Split(s[1..], seps);
      if s[0] in seps then [""] + rest
      else [[s[0]] + rest[0]] + rest[1..]
  }

  lemma SplitNoSep(a: string, seps: set<char>)
    requires NoneIn(a, seps)
    ensures Split(a, seps) == [a]
  {
    if a != [] {
      assert a[0] !in seps;
      SplitNoSep(a[1..], seps);
      assert [a[0]] + a[1..] == a;
    }
  }

  /** Splitting a piece free of separators, then a separator, then more text. */
  lemma SplitConcat(a: string, c: char, b: string, seps: set<char>)
    requires NoneIn(a, seps) && c in seps
    ensures Split(a + [c] + b, seps) == [a] + Split(b, seps)
  {
    if a == [] {
      assert a + [c] + b == [c] + b;
      assert ([c] + b)[1..] == b;
    } else {
      assert (a + [c] + b)[0] == a[0] && a[0] !in seps;
      assert (a + [c] + b)[1..] == a[1..] + [c] + b;
      SplitConcat(a[1..], c, b, seps);
      assert [a[0]] + a[1..] == a;
    }
  }

  /** Splitting at a separator splits both sides independently. */
  lemma {:induction false} SplitAppendSep(a: string, c: char, b: string, seps: set<char>)
    requires c in seps
    ensures Split(a + [c] + b, seps) == Split(a, seps) + Split(b, seps)
  {
    if a == [] {
      assert a + [c] + b == [c] + b;
      assert ([c] + b)[1..] == b;
    } else {
      assert (a + [c] + b)[0] == a[0];
      assert (a + [c] + b)[1..] == a[1..] + [c] + b;
      SplitAppendSep(a[1..], c, b, seps);
    }
  }

  /** Appending text free of separators only lengthens the last piece. */
  lemma {:induction false} SplitAppendPlain(a: string, b: string, seps: set<char>)
    requires NoneIn(b, seps)
    ensures var p := Split(a, seps);
      Split(a + b, seps) == p[..|p| - 1] + [p[|p| - 1] + b]
  {
    if a == [] {
      assert a + b == b;
      SplitNoSep(b, seps);
    } else {
      assert (a + b)[0] == a[0];
      assert (a + b)[1..] == a[1..] + b;
      SplitAppendPlain(a[1..], b, seps);
      var q := Split(a[1..], seps);
      if a[0] !in seps && |q| == 1 {
        assert [a[0]] + (q[0] + b) == [a[0]] + q[0] + b;
      }
    }
  }

  /** `parts.join(sep)`. */
  function Join(parts: seq<string>, sep: string): (r: string)
  {
    if |parts| == 0 then ""
    else if |parts| == 1 then parts[0]
    else parts[0] + sep + Join(parts[1..], sep)
  }

  /** Joining pieces free of the counted characters: only the separators contribute. */
  lemma {:induction false} CountInJoin(parts: seq<string>, sep: string, cs: set<char>)
    requires |parts| > 0
    requires forall k :: 0 <= k < |parts| ==> CountIn(parts[k], cs) == 0
    ensures CountIn(Join(parts, sep), cs) == (|parts| - 1) * CountIn(sep, cs)
    decreases |parts|
  {
    if |parts| > 1 {
      CountInJoin(parts[1..], sep, cs);
      CountInConcat(parts[0] + sep, Join(parts[1..], sep), cs);
      CountInConcat(parts[0], sep, cs);
    }
  }

  /** Splitting what was joined with a one-character separator that no piece holds gives
      the pieces back. */
  lemma {:induction false} SplitJoin(parts: seq<string>, c: char)
    requires |parts| > 0
    requires forall k :: 0 <= k < |parts| ==> NoneIn(parts[k], {c})
    ensures Split(Join(parts, [c]), {c}) == parts
    decreases |parts|
  {
    if |parts| == 1 {
      SplitNoSep(parts[0], {c});
    } else {
      SplitJoin(parts[1..], c);
      SplitConcat(parts[0], c, Join(parts[1..], [c]), {c});
      assert [parts[0]] + parts[1..] == parts;
    }
  }

  /** Every code point of `seps` in `s` replaced by `c`, everything else kept. */
  function ReplaceIn(s: string, seps: set<char>, c: char): (r: string)
    ensures |r| == |s|
    ensures forall k :: 0 <= k < |s| ==> r[k] == if s[k] in seps then c else s[k]
  {
    if s == [] then ""
    else [if s[0] in seps then c else s[0]] + ReplaceIn(s[1..], seps, c)
  }

  /** Replacing separators by one of them leaves the split unchanged. */
  lemma {:induction false} SplitReplaceIn(s: string, seps: set<char>, c: char)
    requires c in seps
    ensures Split(ReplaceIn(s, seps, c), seps) == Split(s, seps)
  {
    if s != [] {
      var f := ReplaceIn(s, seps, c);
      assert f[1..] == ReplaceIn(s[1..], seps, c);
      SplitReplaceIn(s[1..], seps, c);
    }
  }

  /** Prepending text to the first piece prepends it to the joined string. */
  lemma JoinHead(a: string, t: seq<string>, sep: string)
    requires t != []
    ensures Join([a + t[0]] + t[1..], sep) == a + Join(t, sep)
  {
    var u := [a + t[0]] + t[1..];
    assert u[1..] == t[1..];
  }

  /** Joining the pieces of a split with one separator gives the string back, every
      separator turned into that one. */
  lemma {:induction false} JoinSplit(s: string, seps: set<char>, c: char)
    ensures Join(Split(s, seps), [c]) == ReplaceIn(s, seps, c)
  {
    if s != [] {
      var rest := Split(s[1..], seps);
      JoinSplit(s[1..], seps, c);
      if s[0] in seps {
        assert ([""] + rest)[1..] == rest;
      } else {
        JoinHead([s[0]], rest, [c]);
      }
    }
  }

  /** With a single separator, splitting and joining is the identity. */
  lemma JoinSplitOne(s: string, c: char)
    ensures Join(Split(s, {c}), [c]) == s
  {
    JoinSplit(s, {c}, c);
    assert ReplaceIn(s, {c}, c) == s;
  }

  function StartsWith(s: string, p: string): bool {
    |p| <= |s| && s[..|p|] == p
  }

  function EndsWith(s: string, p: string): bool {
    |p| <= |s| && s[|s| - |p|..] == p
  }

  predicate OccursAt(s: string, t: string, i: nat) {
    i + |t| <= |s| && s[i..i + |t|] == t
  }

  function IndexOfFrom(s: string, t: string, from: nat): (r: Option<nat>)
    requires from <= |s|
    ensures r.Some? ==> from <= r.value && OccursAt(s, t, r.value)
    ensures r.Some? ==> forall j :: from <= j < r.value ==> !OccursAt(s, t, j)
    ensures r.None? ==> forall j :: from <= j <= |s| ==> !OccursAt(s, t, j)
    decreases |s| - from
  {
    if OccursAt(s, t, from) then Some(from)
    else if from == |s| then None
    else IndexOfFrom(s, t, from + 1)
  }

  /** `s.indexOf(t)`, `None` standing for -1. */
  function IndexOf(s: string, t: string): (r: Option<nat>)
    ensures r.Some? ==> OccursAt(s, t, r.value) && forall j :: 0 <= j < r.value ==> !OccursAt(s, t, j)
    ensures r.None? <==> forall j :: 0 <= j <= |s| ==> !OccursAt(s, t, j)
  {
    IndexOfFrom(s, t, 0)
  }

  /** `s.includes(t)`. */
  predicate Includes(s: string, t: string) {
    IndexOf(s, t).Some?
  }

  /** `s.replace(t, r)` with a string pattern free of `$` patterns: only the first occurrence. */
  function ReplaceFirst(s: string, t: string, r: string): (out: string)
    ensures IndexOf(s, t).None? ==> out == s
    ensures IndexOf(s, t).Some? ==>
      var i := IndexOf(s, t).value; out == s[..i] + r + s[i + |t|..]
  {
    match IndexOf(s, t)
    case None => s
    case Some(i) => s[..i] + r + s[i + |t|..]
  }

  /** `s.replaceAll(c, "")` for a one-character pattern. */
  function RemoveAll(s: string, c: char): (r: string)
    ensures forall k :: 0 <= k < |r| ==> r[k] != c
    ensures |r| == |s| - CountIn(s, {c})
  {
    if s == [] then ""
    else if s[0] == c then RemoveAll(s[1..], c)
    else [s[0]] + RemoveAll(s[1..], c)
  }

  function DigitChar(d: nat): (c: char)
    requires d < 10
    ensures IsDigit(c)
  {
    ['0', '1', '2', '3', '4', '5', '6', '7', '8', '9'][d]
  }

  /** Decimal text of a natural number, as `String(n)` gives it. */
  function NatToString(n: nat): (s: string)
    ensures |s| > 0 && forall k :: 0 <= k < |s| ==> IsDigit(s[k])
    ensures |s| > 1 ==> s[0] != '0'
  {
    if n < 10 then [DigitChar(n)] else NatToString(n / 10) + [DigitChar(n % 10)]
  }

  function DigitValue(c: char): nat
    requires IsDigit(c)
  {
    (c as int - '0' as int) as nat
  }

  /** Reading decimal digits back. */
  function ParseNat(s: string): nat
    requires forall k :: 0 <= k < |s| ==> IsDigit(s[k])
  {
    if s == [] then 0 else ParseNat(s[..|s| - 1]) * 10 + DigitValue(s[|s| - 1])
  }

  lemma {:induction false} NatToStringRoundTrip(n: nat)
    ensures ParseNat(NatToString(n)) == n
  {
    if n >= 10 {
      NatToStringRoundTrip(n / 10);
      var s := NatToString(n);
      assert s[..|s| - 1] == NatToString(n / 10);
    }
  }

  /** `String(i)` for an integer. */
  function IntToString(i: int): (s: string)
    ensures |s| > 0
  {
    if i < 0 then "-" + NatToString(-i) else NatToString(i)
  }
}
