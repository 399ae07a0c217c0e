/**
 * `formatMessage` of the PsychiatrieWords plugin: the segments of a message separated by `=`
 * are trimmed and wrapped in backticks, and a trailing user mention (` <@digits>`) is kept as
 * it is after them.
 */
module PsychiatrieFormat {
  import opened Wrappers
  import opened Strings

  /** What `/(\s<@\d+>)$/` matches: one white-space character, `<@`, digits, `>`. */
  predicate IsMention(m: string) {
    && |m| >= 5 && IsSpace(m[0]) && m[1] == '<' && m[2] == '@' && m[|m| - 1] == '>'
    && forall k :: 3 <= k < |m| - 1 ==> IsDigit(m[k])
  }

  /** The number of digits `s` ends with. */
  function TrailingDigits(s: string): (k: nat)
    ensures k <= |s| && (forall j :: |s| - k <= j < |s| ==> IsDigit(s[j]))
    ensures k == |s| || !IsDigit(s[|s| - k - 1])
  {
    if s != [] && IsDigit(s[|s| - 1]) then TrailingDigits(s[..|s| - 1]) + 1 else 0
  }

  /** The last `n` code points of `s` are a mention. */
  predicate MentionSuffix(s: string, n: nat) {
    n <= |s| && IsMention(s[|s| - n..])
  }

  /** The length of the mention the regular expression finds at the end of `s`: the match is
      unique when it exists, since the digits must run back to `<@`. */
  function MentionLength(s: string): (r: Option<nat>)
    ensures r.Some? ==> MentionSuffix(s, r.value)
    ensures r.None? ==> forall n :: !MentionSuffix(s, n)
  {
    if |s| >= 5 && s[|s| - 1] == '>' then
      var d := TrailingDigits(s[..|s| - 1]);
      if d >= 1 && d + 4 <= |s| && s[|s| - 2 - d] == '@' && s[|s| - 3 - d] == '<' && IsSpace(s[|s| - 4 - d]) then
        Some(d + 4)
      else
        NoOtherMention(s, d);
        None
    else
      None
  }

  lemma NoOtherMention(s: string, d: nat)
    requires |s| >= 5 && s[|s| - 1] == '>'
    requires d == TrailingDigits(s[..|s| - 1])
    requires !(d >= 1 && d + 4 <= |s| && s[|s| - 2 - d] == '@' && s[|s| - 3 - d] == '<' && IsSpace(s[|s| - 4 - d]))
    ensures forall n :: !MentionSuffix(s, n)
  {
    forall n | MentionSuffix(s, n)
      ensures false
    {
      MentionDigits(s, n);
    }
  }

  /** A mention of length `n` at the end fixes the trailing digit count at `n - 4`. */
  lemma MentionDigits(s: string, n: nat)
    requires |s| >= 5 && MentionSuffix(s, n)
    ensures TrailingDigits(s[..|s| - 1]) == n - 4
    ensures s[|s| - 2 - (n - 4)] == '@' && s[|s| - 3 - (n - 4)] == '<' && IsSpace(s[|s| - 4 - (n - 4)])
  {
    var m := s[|s| - n..];
    var t := s[..|s| - 1];
    var d := TrailingDigits(t);
    assert forall j :: |t| - (n - 4) <= j < |t| ==> t[j] == m[j - |s| + n];
    assert s[|s| - 2 - (n - 4)] == m[2];
  }

  /** At most one suffix is a mention. */
  lemma MentionUnique(s: string, n1: nat, n2: nat)
    requires MentionSuffix(s, n1) && MentionSuffix(s, n2)
    ensures n1 == n2
  {
    MentionDigits(s, n1);
    MentionDigits(s, n2);
  }

  /** The matched mention, including its leading white space, or "" when there is none. */
  function Mention(input: string): (m: string)
    ensures m == "" || IsMention(m)
  {
    match MentionLength(input)
    case None => ""
    case Some(n) => input[|input| - n..]
  }

  /** The text before the mention, trimmed. */
  function MainPart(input: string): string {
    var mention := Mention(input);
    if mention != "" then Trim(input[..|input| - |mention|]) else Trim(input)
  }

  /** A segment in backticks; an empty segment stays empty. */
  function Wrap(p: string): string {
    if p == "" then "" else "`" + p + "`"
  }

  /** The joined, formatted segments of a non-mention part. */
  function Body(mainPart: string): string {
    Join(Formatted(mainPart), " = ")
  }

  /** `formatMessage(input)`. */
  function FormatMessage(input: string): string {
    var mention := Mention(input);
    var mainPart := MainPart(input);
    if mainPart == "" then Trim(mention)
    else if mention != "" then Body(mainPart) + mention
    else Body(mainPart)
  }

  // ---------------------------------------------------------------- properties

  /** When nothing but the mention is left, the result is the mention without its white space,
      and "" when there is no mention either. */
  lemma OnlyMention(input: string)
    requires MainPart(input) == ""
    ensures FormatMessage(input) == Trim(Mention(input))
    ensures Mention(input) == "" ==> FormatMessage(input) == ""
  {
  }

  /** A trailing mention is kept verbatim at the very end, after the formatted segments. */
  lemma MentionKeptAtEnd(input: string)
    requires MainPart(input) != ""
    ensures FormatMessage(input) == Body(MainPart(input)) + Mention(input)
    ensures Mention(input) != "" ==> EndsWith(FormatMessage(input), Mention(input)) && EndsWith(input, Mention(input))
  {
    var m := Mention(input);
    var body := Body(MainPart(input));
    if m != "" {
      assert FormatMessage(input) == body + m;
      assert (body + m)[|body + m| - |m|..] == m;
      assert input[|input| - MentionLength(input).value..] == m;
    } else {
      assert FormatMessage(input) == body == body + m;
    }
  }

  /** The formatted segments hold exactly as many `=` as the main part: one per separator. */
  lemma SeparatorCount(mainPart: string)
    ensures CountIn(Body(mainPart), {'='}) == CountIn(mainPart, {'='})
  {
    var f := Formatted(mainPart);
    forall k | 0 <= k < |f| ensures CountIn(f[k], {'='}) == 0 {
      NoneInCount(f[k], {'='});
    }
    CountInJoin(f, " = ", {'='});
    assert CountIn(" = ", {'='}) == 1;
  }

  /** The whole output carries one `=` per `=` of the main part, the mention adding none. */
  lemma OutputSeparatorCount(input: string)
    requires MainPart(input) != ""
    ensures CountIn(FormatMessage(input), {'='}) == CountIn(MainPart(input), {'='})
  {
    SeparatorCount(MainPart(input));
    var m := Mention(input);
    CountInConcat(Body(MainPart(input)), m, {'='});
    if m != "" {
      assert NoneIn(m, {'='}) by {
        forall k | 0 <= k < |m| ensures m[k] != '=' {
          if 3 <= k < |m| - 1 { assert IsDigit(m[k]); }
        }
      }
    }
    NoneInCount(m, {'='});
  }

  lemma WrapNoneIn(p: string)
    requires NoneIn(p, {'='})
    ensures NoneIn(Wrap(Trim(p)), {'='}) && Trimmed(Wrap(Trim(p)))
  {
    TrimNoneIn(p, {'='});
    var t := Trim(p);
    if t != "" {
      var w := Wrap(t);
      forall k | 0 <= k < |w| ensures w[k] !in {'='} {
        if 0 < k < |w| - 1 {
          assert w[k] == t[k - 1];
        }
      }
    }
  }

  /** Undoing `Wrap`. */
  function Unwrap(p: string): string {
    if |p| >= 2 && p[0] == '`' && p[|p| - 1] == '`' then p[1..|p| - 1] else p
  }

  /** Reading segments back from a formatted body: split on `=`, trim, drop the backticks. */
  function Decode(body: string): seq<string> {
    var pieces := Split(body, {'='});
    seq(|pieces|, k requires 0 <= k < |pieces| => Unwrap(Trim(pieces[k])))
  }

  /** The formatted segments `Body` joins. */
  function Formatted(mainPart: string): (f: seq<string>)
    ensures forall k :: 0 <= k < |f| ==> NoneIn(f[k], {'='}) && Trimmed(f[k])
  {
    var parts := Split(mainPart, {'='});
    var f := seq(|parts|, k requires 0 <= k < |parts| => Wrap(Trim(parts[k])));
    forall k | 0 <= k < |f| ensures NoneIn(f[k], {'='}) && Trimmed(f[k]) {
      assert f[k] == Wrap(Trim(parts[k]));
      WrapNoneIn(parts[k]);
    }
    f
  }

  /** Each formatted segment is the trimmed piece of the main part, wrapped. */
  lemma FormattedPieces(mainPart: string)
    ensures var parts := Split(mainPart, {'='});
            |Formatted(mainPart)| == |parts|
            && forall k :: 0 <= k < |parts| ==> Formatted(mainPart)[k] == Wrap(Trim(parts[k]))
  {
  }

  /** A text that splits into two pieces formats as the two trimmed pieces, wrapped. */
  lemma FormattedTwo(x: string, a: string, b: string)
    requires Split(x, {'='}) == [a, b]
    ensures Formatted(x) == [Wrap(Trim(a)), Wrap(Trim(b))]
  {
    FormattedPieces(x);
    PairOf(Formatted(x), Wrap(Trim(a)), Wrap(Trim(b)));
  }

  /** Round trip: decoding the formatted body gives back every trimmed segment, in order, so
      each non-empty segment is wrapped in exactly one pair of backticks and empty ones vanish. */
  lemma DecodeBody(mainPart: string)
    ensures var parts := Split(mainPart, {'='});
            Decode(Body(mainPart)) == seq(|parts|, k requires 0 <= k < |parts| => Trim(parts[k]))
  {
    var f := Formatted(mainPart);
    assert Body(mainPart) == Join(f, " = ");
    DecodeJoin(f);
    UnwrapFormatted(mainPart);
  }

  lemma UnwrapFormatted(mainPart: string)
    ensures var parts := Split(mainPart, {'='});
            var f := Formatted(mainPart);
            seq(|f|, k requires 0 <= k < |f| => Unwrap(f[k]))
            == seq(|parts|, k requires 0 <= k < |parts| => Trim(parts[k]))
  {
    var parts := Split(mainPart, {'='});
    var f := Formatted(mainPart);
    FormattedPieces(mainPart);
    var decoded := seq(|f|, k requires 0 <= k < |f| => Unwrap(f[k]));
    var trimmed := seq(|parts|, k requires 0 <= k < |parts| => Trim(parts[k]));
    forall k | 0 <= k < |f| ensures decoded[k] == trimmed[k] {
      assert f[k] == Wrap(Trim(parts[k]));
      UnwrapWrap(Trim(parts[k]));
    }
    assert decoded == trimmed;
  }

  lemma UnwrapWrap(p: string)
    ensures Unwrap(Wrap(p)) == p
  {
    if p != "" {
      var w := Wrap(p);
      assert w[1..|w| - 1] == p;
    }
  }

  lemma DecodeJoin(f: seq<string>)
    requires |f| > 0
    requires forall k :: 0 <= k < |f| ==> NoneIn(f[k], {'='}) && Trimmed(f[k])
    ensures Decode(Join(f, " = ")) == seq(|f|, k requires 0 <= k < |f| => Unwrap(f[k]))
  {
    SplitSpacedJoin("", f);
    var pieces := Split(Join(f, " = "), {'='});
    assert "" + Join(f, " = ") == Join(f, " = ");
    forall k | 0 <= k < |f| ensures Trim(pieces[k]) == f[k] {
      TrimPadded(f[k], k > 0, k < |f| - 1);
      if k == 0 { assert pieces[0] == Pad(f[0], false, |f| > 1); }
    }
  }

  predicate Trimmed(x: string) {
    x == [] || (!IsSpace(x[0]) && !IsSpace(x[|x| - 1]))
  }

  function Pad(x: string, before: bool, after: bool): string {
    (if before then " " else "") + x + (if after then " " else "")
  }

  /** The pieces of `pre + Join(f, " = ")`: each segment with the spaces around its `=`. */
  predicate SpacedPieces(pieces: seq<string>, pre: string, f: seq<string>)
    requires |f| > 0
  {
    && |pieces| == |f|
    && pieces[0] == pre + Pad(f[0], false, |f| > 1)
    && forall k :: 1 <= k < |f| ==> pieces[k] == Pad(f[k], true, k < |f| - 1)
  }

  /** Splitting `pre + f[0] + " = " + f[1] + ...` on `=` gives the pieces with their padding. */
  lemma {:induction false} SplitSpacedJoin(pre: string, f: seq<string>)
    requires |f| > 0 && (pre == "" || pre == " ")
    requires forall k :: 0 <= k < |f| ==> NoneIn(f[k], {'='})
    ensures SpacedPieces(Split(pre + Join(f, " = "), {'='}), pre, f)
    decreases |f|
  {
    if |f| == 1 {
      assert pre + Join(f, " = ") == pre + f[0];
      assert NoneIn(pre + f[0], {'='});
      SplitNoSep(pre + f[0], {'='});
      assert Pad(f[0], false, false) == f[0];
    } else {
      SplitSpacedJoin(" ", f[1..]);
      SplitFirstSegment(pre, f);
      SpacedPiecesCons(pre, f, Split(" " + Join(f[1..], " = "), {'='}));
    }
  }

  /** Splitting off the first segment with its trailing space. */
  lemma SplitFirstSegment(pre: string, f: seq<string>)
    requires |f| > 1 && (pre == "" || pre == " ")
    requires NoneIn(f[0], {'='})
    ensures Split(pre + Join(f, " = "), {'='})
         == [pre + Pad(f[0], false, true)] + Split(" " + Join(f[1..], " = "), {'='})
  {
    var head := pre + f[0] + " ";
    var rest := " " + Join(f[1..], " = ");
    assert pre + Join(f, " = ") == head + ['='] + rest;
    assert NoneIn(head, {'='});
    SplitConcat(head, '=', rest, {'='});
    assert head == pre + Pad(f[0], false, true);
  }

  /** The pieces of the remaining segments, behind the first one, are the pieces of all. */
  lemma SpacedPiecesCons(pre: string, f: seq<string>, tail: seq<string>)
    requires |f| > 1
    requires SpacedPieces(tail, " ", f[1..])
    ensures SpacedPieces([pre + Pad(f[0], false, true)] + tail, pre, f)
  {
    var pieces := [pre + Pad(f[0], false, true)] + tail;
    forall k | 1 <= k < |f| ensures pieces[k] == Pad(f[k], true, k < |f| - 1) {
      assert pieces[k] == tail[k - 1];
      assert f[1..][k - 1] == f[k];
      if k == 1 {
        assert tail[0] == " " + Pad(f[1], false, |f| > 2);
      }
    }
  }

  lemma TrimPadded(x: string, before: bool, after: bool)
    requires Trimmed(x)
    ensures Trim(Pad(x, before, after)) == x
  {
    var s := Pad(x, before, after);
    if x == [] {
      assert AllSpace(s);
      AllSpaceTrim(s);
    } else {
      TrimPaddedWord(x, if before then " " else "", if after then " " else "");
    }
  }

  lemma TrimPaddedWord(x: string, lead: string, trail: string)
    requires x != [] && !IsSpace(x[0]) && !IsSpace(x[|x| - 1])
    requires lead == "" || lead == " "
    requires trail == "" || trail == " "
    ensures Trim(lead + x + trail) == x
  {
    var s := lead + x + trail;
    var b := |lead|;
    assert s[..b] == lead && s[b] == x[0];
    LeadingSpacesPrefix(s, b);
    var t := s[b..];
    assert t == x + trail;
    var a := |trail|;
    assert t[|t| - a..] == trail && t[|t| - a - 1] == x[|x| - 1];
    TrailingSpacesSuffix(t, a);
    assert t[..|t| - a] == x;
  }

  lemma AllSpaceTrim(s: string)
    requires AllSpace(s)
    ensures Trim(s) == ""
  {
    var i := LeadingSpaces(s);
    assert i == |s|;
  }

  lemma {:induction false} LeadingSpacesPrefix(s: string, b: nat)
    requires b < |s| && AllSpace(s[..b]) && !IsSpace(s[b])
    ensures LeadingSpaces(s) == b
  {
    if b > 0 {
      assert IsSpace(s[0]);
      assert s[1..][..b - 1] == s[1..b];
      LeadingSpacesPrefix(s[1..], b - 1);
    }
  }

  lemma {:induction false} TrailingSpacesSuffix(s: string, a: nat)
    requires a < |s| && AllSpace(s[|s| - a..]) && !IsSpace(s[|s| - a - 1])
    ensures TrailingSpaces(s) == a
  {
    if a > 0 {
      assert IsSpace(s[|s| - 1]);
      var u := s[..|s| - 1];
      assert u[|u| - (a - 1)..] == s[|s| - a..|s| - 1];
      assert u[|u| - (a - 1) - 1] == s[|s| - a - 1];
      TrailingSpacesSuffix(u, a - 1);
    }
  }

  lemma ExampleMention()
    ensures Mention("abc = def <@123456>") == " <@123456>"
  {
    var input := "abc = def <@123456>";
    assert input[|input| - 10..] == " <@123456>";
    assert MentionSuffix(input, 10);
    MentionUnique(input, 10, MentionLength(input).value);
  }

  lemma ExampleMainPart()
    ensures MainPart("abc = def <@123456>") == "abc = def"
  {
    var input := "abc = def <@123456>";
    ExampleMention();
    assert input[..|input| - 10] == "abc = def";
    LeadingSpacesPrefix("abc = def", 0);
    TrailingSpacesSuffix("abc = def", 0);
  }

  lemma WrapExamples()
    ensures Wrap("abc") == "`abc`" && Wrap("def") == "`def`"
  {
  }

  lemma JoinExample()
    ensures Join(["`abc`", "`def`"], " = ") == "`abc` = `def`"
  {
    var f := ["`abc`", "`def`"];
    assert f[1..] == ["`def`"];
    assert Join(f, " = ") == "`abc`" + " = " + "`def`";
  }

  /** Two pieces free of `=` around ` = ` split into those pieces with their spaces. */
  lemma SplitAroundEquals(f: string, r: string)
    requires NoneIn(f, {'='}) && NoneIn(r, {'='})
    ensures Split(f + " = " + r, {'='}) == [f + " ", " " + r]
  {
    assert f + " = " + r == (f + " ") + ['='] + (" " + r);
    NoneInConcat(f, " ", {'='});
    NoneInConcat(" ", r, {'='});
    SplitConcat(f + " ", '=', " " + r, {'='});
    SplitNoSep(" " + r, {'='});
  }

  lemma ExampleSplit()
    ensures Split("abc = def", {'='}) == ["abc ", " def"]
  {
    assert "abc" + " = " + "def" == "abc = def";
    SplitAroundEquals("abc", "def");
    assert "abc" + " " == "abc " && " " + "def" == " def";
  }

  lemma ExampleTrims()
    ensures Trim("abc ") == "abc" && Trim(" def") == "def"
  {
    ExampleTrimAbc();
    ExampleTrimDef();
  }

  lemma ExampleTrimAbc()
    ensures Trim("abc ") == "abc"
  {
    TrimPadded("abc", false, true);
    assert Pad("abc", false, true) == "abc ";
  }

  lemma ExampleTrimDef()
    ensures Trim(" def") == "def"
  {
    TrimPadded("def", true, false);
    assert Pad("def", true, false) == " def";
  }

  lemma ExampleFormatted()
    ensures Formatted("abc = def") == ["`abc`", "`def`"]
  {
    ExampleSplit();
    FormattedTwo("abc = def", "abc ", " def");
    ExampleTrims();
    WrapExamples();
  }

  lemma ExampleBody()
    ensures Body("abc = def") == "`abc` = `def`"
  {
    ExampleFormatted();
    JoinExample();
  }

  /** The example of the documentation comment. */
  lemma DocumentedExample(input: string)
    requires input == "abc = def <@123456>"
    ensures FormatMessage(input) == "`abc` = `def` <@123456>"
  {
    ExampleMention();
    ExampleMainPart();
    ExampleBody();
    FormatMessageWithMention(input, " <@123456>", "abc = def");
    ConcatExample();
  }

  lemma ConcatExample()
    ensures "`abc` = `def`" + " <@123456>" == "`abc` = `def` <@123456>"
  {
  }

  lemma FormatMessageWithMention(input: string, m: string, p: string)
    requires Mention(input) == m && m != ""
    requires MainPart(input) == p && p != ""
    ensures FormatMessage(input) == Body(p) + m
  {
  }
}
