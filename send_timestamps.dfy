/**
 * The SendTimestamps plugin: the timestamp markup the picker inserts, and the rewriting of
 * backticked times such as `` `17:59` `` or `` `0:13PM` `` in an outgoing message into a
 * time-only timestamp for the next such time.  The clock is a parameter (`nowMs`, what
 * `Date.now()` returns), and so is the client's date parsing: `parseLocal(text)` is the
 * time of day `text` names on the current day, in whole seconds, or `None` when `Date` gives
 * NaN for it.
 */
module SendTimestamps {
  import opened Wrappers
  import opened Strings

  /** The picker's format choices, the empty one standing for the default. */
  const Formats: seq<string> := ["", "t", "T", "d", "D", "f", "F", "R"]

  /** `formatTimestamp(time, format)`: `<t:time>`, or `<t:time:format>` for a non-empty
      format. */
  function FormatTimestamp(time: int, format: string): string
    requires format in Formats
  {
    "<t:" + IntToString(time) + (if format == "" then "" else ":" + format) + ">"
  }

  /** Reading a timestamp tag back: the time text and the format. */
  function ReadTimestamp(s: string): (r: Option<(string, string)>)
    ensures r.Some? ==> StartsWith(s, "<t:") && EndsWith(s, ">")
  {
    if |s| >= 4 && s[..3] == "<t:" && s[|s| - 1] == '>' then
      var parts := Split(s[3..|s| - 1], {':'});
      if |parts| == 1 then Some((parts[0], ""))
      else if |parts| == 2 then Some((parts[0], parts[1]))
      else None
    else None
  }

  lemma IntToStringNoColon(time: int)
    ensures NoneIn(IntToString(time), {':'})
  {
    var s := IntToString(time);
    if time >= 0 {
      assert s == NatToString(time);
    } else {
      assert s == "-" + NatToString(-time);
      assert forall k :: 1 <= k < |s| ==> s[k] == NatToString(-time)[k - 1];
    }
  }

  /** A formatted timestamp reads back as its time and format. */
  lemma ReadFormatted(time: int, format: string)
    requires format in Formats
    ensures ReadTimestamp(FormatTimestamp(time, format)) == Some((IntToString(time), format))
  {
    var t := IntToString(time);
    var s := FormatTimestamp(time, format);
    IntToStringNoColon(time);
    assert s[..3] == "<t:";
    if format == "" {
      assert s[3..|s| - 1] == t;
      SplitNoSep(t, {':'});
    } else {
      assert s[3..|s| - 1] == t + [':'] + format;
      assert NoneIn(format, {':'});
      SplitConcat(t, ':', format, {':'});
      SplitNoSep(format, {':'});
    }
  }

  // ---------------------------------------------------------------- parseTime

  /** `time.slice(1, -1)`. */
  function Inner(time: string): (r: string)
    ensures |time| >= 2 ==> r == time[1..|time| - 1]
  {
    if |time| >= 2 then time[1..|time| - 1] else ""
  }

  /** The backticks a token is written between are what is dropped. */
  lemma InnerUnwraps(open: char, x: string, close: char)
    ensures Inner([open] + x + [close]) == x
  {
    assert ([open] + x + [close])[1..|x| + 1] == x;
  }

  /** `AM` or `PM` in any letter case. */
  predicate IsMeridiem(s: string) {
    |s| == 2 && s[0] in {'a', 'A', 'p', 'P'} && s[1] in {'m', 'M'}
  }

  /** `.replace(/(\d)(AM|PM)$/i, "$1 $2")`: a space between a final digit and a trailing AM or
      PM. */
  function CleanTime(s: string): (r: string)
    ensures |s| >= 3 && IsDigit(s[|s| - 3]) && IsMeridiem(s[|s| - 2..]) ==>
      r == s[..|s| - 2] + " " + s[|s| - 2..]
    ensures !(|s| >= 3 && IsDigit(s[|s| - 3]) && IsMeridiem(s[|s| - 2..])) ==> r == s
  {
    if |s| >= 3 && IsDigit(s[|s| - 3]) && IsMeridiem(s[|s| - 2..]) then s[..|s| - 2] + " " + s[|s| - 2..]
    else s
  }

  /** Cleaning twice is cleaning once, and a cleaned text is the original with at most one
      space put in just before its last two characters. */
  lemma CleanTimeOnce(s: string)
    ensures CleanTime(CleanTime(s)) == CleanTime(s)
    ensures CleanTime(s) == s || (|s| >= 2 && CleanTime(s) == s[..|s| - 2] + " " + s[|s| - 2..])
  {
    var r := CleanTime(s);
    if r != s {
      assert r[|r| - 3] == ' ' && r[|r| - 2..] == s[|s| - 2..];
    }
  }

  /** The seconds of the timestamp for a parsed time: a time already past today moves on by
      one day. */
  function NextOccurrence(seconds: int, nowMs: int): (t: int)
    ensures nowMs > seconds * 1000 ==> t == seconds + 86400
    ensures nowMs <= seconds * 1000 ==> t == seconds
  {
    if nowMs > seconds * 1000 then seconds + 86400 else seconds
  }

  /** `parseTime(time)`: the text as it was when it does not parse, else a time-only
      timestamp. */
  function ParseTime(time: string, nowMs: int, parseLocal: string -> Option<int>): (r: string)
    ensures parseLocal(CleanTime(Inner(time))).None? ==> r == time
    ensures parseLocal(CleanTime(Inner(time))).Some? ==>
      r == FormatTimestamp(NextOccurrence(parseLocal(CleanTime(Inner(time))).value, nowMs), "t")
  {
    match parseLocal(CleanTime(Inner(time)))
    case None => time
    case Some(seconds) =>
      var ms := NextOccurrence(seconds, nowMs);
      "<t:" + IntToString(ms) + ":t>"
  }

  /** The timestamp is never in the past, for any time at most one day before now, as a time
      of the current day is. */
  lemma NeverInThePast(seconds: int, nowMs: int)
    requires nowMs - 86_400_000 <= seconds * 1000
    ensures NextOccurrence(seconds, nowMs) * 1000 >= nowMs
    ensures NextOccurrence(seconds, nowMs) * 1000 < nowMs + 86_400_000
      || NextOccurrence(seconds, nowMs) == seconds
    ensures seconds <= NextOccurrence(seconds, nowMs) && (NextOccurrence(seconds, nowMs) - seconds) % 86400 == 0
  {
  }

  /** A rewritten time reads back with the `t` format. */
  lemma ParsedIsTimeOnly(time: string, nowMs: int, parseLocal: string -> Option<int>)
    requires parseLocal(CleanTime(Inner(time))).Some?
    ensures var r := ReadTimestamp(ParseTime(time, nowMs, parseLocal));
      r.Some? && r.value.1 == "t"
  {
    ReadFormatted(NextOccurrence(parseLocal(CleanTime(Inner(time))).value, nowMs), "t");
  }

  /** `0:13PM` is cleaned to `0:13 PM`. */
  lemma CleanTimeSeparatesMeridiem()
    ensures CleanTime("0:13PM") == "0:13 PM"
  {
    assert "0:13PM"[3] == '3' && "0:13PM"[4..] == "PM";
    assert "0:13PM"[..4] + " " + "PM" == "0:13 PM";
  }

  // ---------------------------------------------------------------- the message rewrite

  predicate DigitAt(s: string, i: int) {
    0 <= i < |s| && IsDigit(s[i])
  }

  predicate CharAt(s: string, i: int, c: char) {
    0 <= i < |s| && s[i] == c
  }

  /** The pattern `` /`\d{1,2}:\d{2} ?(?:AM|PM)?`/i `` read at `i` with `hours` hour digits,
      with or without the space and with or without the AM or PM. */
  predicate TokenAt(s: string, i: nat, hours: nat, space: bool, meridiem: bool) {
    var m := i + 2 + hours;
    var j := if space then m + 3 else m + 2;
    && (hours == 1 || hours == 2) && CharAt(s, i, '`')
    && DigitAt(s, i + 1) && (hours == 2 ==> DigitAt(s, i + 2)) && CharAt(s, i + 1 + hours, ':')
    && DigitAt(s, m) && DigitAt(s, m + 1)
    && (space ==> CharAt(s, m + 2, ' '))
    && (meridiem ==> j + 2 <= |s| && IsMeridiem(s[j..j + 2]))
    && CharAt(s, if meridiem then j + 2 else j, '`')
  }

  /** How many characters that reading spans. */
  function TokenSize(hours: nat, space: bool, meridiem: bool): nat {
    5 + hours + (if space then 1 else 0) + (if meridiem then 2 else 0)
  }

  /** The length of the match of `` /`\d{1,2}:\d{2} ?(?:AM|PM)?`/i `` at `i`, if there is one. */
  function TokenLength(s: string, i: nat): (r: Option<nat>)
    ensures r.Some? ==> 6 <= r.value <= 10 && i + r.value <= |s|
    ensures r.Some? ==> s[i] == '`' && s[i + r.value - 1] == '`'
    ensures r.Some? ==> DigitAt(s, i + 1) && (CharAt(s, i + 2, ':') || (DigitAt(s, i + 2) && CharAt(s, i + 3, ':')))
    ensures r.Some? ==> exists hours: nat, space: bool, meridiem: bool ::
      TokenAt(s, i, hours, space, meridiem) && r.value == TokenSize(hours, space, meridiem)
  {
    if !CharAt(s, i, '`') then None
    else
      var hours := if DigitAt(s, i + 1) && DigitAt(s, i + 2) && CharAt(s, i + 3, ':') then 2
                   else if DigitAt(s, i + 1) && CharAt(s, i + 2, ':') then 1
                   else 0;
      if hours == 0 then None
      else
        var m := i + 2 + hours;
        if !(DigitAt(s, m) && DigitAt(s, m + 1)) then None
        else
          var j := if CharAt(s, m + 2, ' ') then m + 3 else m + 2;
          var k := if j + 2 <= |s| && IsMeridiem(s[j..j + 2]) then j + 2 else j;
          if CharAt(s, k, '`') then
            assert TokenAt(s, i, hours, j == m + 3, k == j + 2);
            Some(k + 1 - i)
          else None
  }

  /** Every way the pattern can be read at `i` is the match found there, of that length: the
      pattern never needs to backtrack. */
  lemma TokenFound(s: string, i: nat, hours: nat, space: bool, meridiem: bool)
    requires TokenAt(s, i, hours, space, meridiem)
    ensures TokenLength(s, i) == Some(TokenSize(hours, space, meridiem))
  {
    var m := i + 2 + hours;
    var j := if space then m + 3 else m + 2;
    if !space {
      assert s[m + 2] != ' ' by {
        if meridiem { assert s[j..j + 2][0] == s[m + 2]; }
      }
    }
    if !meridiem {
      assert !(j + 2 <= |s| && IsMeridiem(s[j..j + 2])) by {
        if j + 2 <= |s| { assert s[j..j + 2][0] == s[j]; }
      }
    }
  }

  /** `content.replace(regex, f)` with the global flag, from position `i`: each match, left to
      right and not overlapping, is replaced by `f` of its text. */
  function ReplaceTokensFrom(s: string, i: nat, f: string -> string): string
    requires i <= |s|
    decreases |s| - i
  {
    if i == |s| then ""
    else
      match TokenLength(s, i)
      case Some(n) => f(s[i..i + n]) + ReplaceTokensFrom(s, i + n, f)
      case None => [s[i]] + ReplaceTokensFrom(s, i + 1, f)
  }

  function ReplaceTokens(s: string, f: string -> string): string {
    ReplaceTokensFrom(s, 0, f)
  }

  /** Text without backticks is sent as it is. */
  lemma {:induction false} NoBacktickNoChange(s: string, i: nat, f: string -> string)
    requires i <= |s| && NoneIn(s, {'`'})
    ensures ReplaceTokensFrom(s, i, f) == s[i..]
    decreases |s| - i
  {
    if i < |s| {
      assert s[i] !in {'`'};
      NoBacktickNoChange(s, i + 1, f);
      assert s[i..] == [s[i]] + s[i + 1..];
    }
  }

  /** `f` gives back the token at `k`, if there is one. */
  predicate KeepsToken(s: string, k: nat, f: string -> string) {
    TokenLength(s, k).Some? ==> f(s[k..k + TokenLength(s, k).value]) == s[k..k + TokenLength(s, k).value]
  }

  /** Where the scan goes on after position `i`: past the token there, or past one character. */
  function NextStart(s: string, i: nat): (j: nat)
    requires i < |s|
    ensures i < j <= |s|
  {
    match TokenLength(s, i)
    case Some(n) => i + n
    case None => i + 1
  }

  /** When every token is left as it is, so is the message. */
  lemma {:induction false} KeptTokensNoChange(s: string, i: nat, f: string -> string)
    requires i <= |s|
    requires forall k :: i <= k < |s| ==> KeepsToken(s, k, f)
    ensures ReplaceTokensFrom(s, i, f) == s[i..]
    decreases |s| - i
  {
    if i < |s| {
      var j := NextStart(s, i);
      KeptTokensNoChange(s, j, f);
      KeptStep(s, i, f);
    }
  }

  /** One step of the scan leaves the text as it is when the rest is left as it is. */
  lemma KeptStep(s: string, i: nat, f: string -> string)
    requires i < |s| && KeepsToken(s, i, f)
    requires ReplaceTokensFrom(s, NextStart(s, i), f) == s[NextStart(s, i)..]
    ensures ReplaceTokensFrom(s, i, f) == s[i..]
  {
    match TokenLength(s, i)
    case Some(n) =>
      assert NextStart(s, i) == i + n && f(s[i..i + n]) == s[i..i + n];
      KeptTokenStep(s, i, n, f);
    case None =>
      assert NextStart(s, i) == i + 1;
      PlainCharStep(s, i, f);
  }

  /** A token given back as it is, before a rest that is unchanged. */
  lemma KeptTokenStep(s: string, i: nat, n: nat, f: string -> string)
    requires i + n <= |s| && TokenLength(s, i) == Some(n)
    requires f(s[i..i + n]) == s[i..i + n]
    requires ReplaceTokensFrom(s, i + n, f) == s[i + n..]
    ensures ReplaceTokensFrom(s, i, f) == s[i..]
  {
    ReplaceAtToken(s, i, n, f);
    SliceAt(s, i, i + n);
  }

  /** At a token, the replacement of the token comes before the rest. */
  lemma ReplaceAtToken(s: string, i: nat, n: nat, f: string -> string)
    requires i + n <= |s| && TokenLength(s, i) == Some(n)
    ensures ReplaceTokensFrom(s, i, f) == f(s[i..i + n]) + ReplaceTokensFrom(s, i + n, f)
  {
  }

  lemma SliceAt(s: string, i: nat, j: nat)
    requires i <= j <= |s|
    ensures s[i..] == s[i..j] + s[j..]
  {
  }

  /** A character that starts no token, before a rest that is unchanged. */
  lemma PlainCharStep(s: string, i: nat, f: string -> string)
    requires i < |s| && TokenLength(s, i).None?
    requires ReplaceTokensFrom(s, i + 1, f) == s[i + 1..]
    ensures ReplaceTokensFrom(s, i, f) == s[i..]
  {
    assert ReplaceTokensFrom(s, i, f) == [s[i]] + ReplaceTokensFrom(s, i + 1, f);
    SliceAt(s, i, i + 1);
    assert s[i..i + 1] == [s[i]];
  }

  /** `` `3:51` `` is one token. */
  lemma ShortTimeIsToken()
    ensures TokenLength("`3:51`", 0) == Some(6)
  {
    assert DigitAt("`3:51`", 1) && CharAt("`3:51`", 2, ':');
    assert DigitAt("`3:51`", 3) && DigitAt("`3:51`", 4) && CharAt("`3:51`", 5, '`');
  }

  class OutgoingMessage {
    var content: string

    constructor(content: string)
      ensures this.content == content
    {
      this.content := content;
    }

    /** `onBeforeMessageSend`: with `replaceMessageContents` on, every backticked time is
        replaced in place by `parseTime` of it. */
    method OnBeforeMessageSend(replaceMessageContents: bool, nowMs: int, parseLocal: string -> Option<int>)
      modifies this
      ensures replaceMessageContents ==>
        content == ReplaceTokens(old(content), (t: string) => ParseTime(t, nowMs, parseLocal))
      ensures !replaceMessageContents ==> content == old(content)
    {
      if replaceMessageContents {
        content := ReplaceTokens(content, (t: string) => ParseTime(t, nowMs, parseLocal));
      }
    }
  }

  /** With a date parser that accepts none of the times, the message is sent unchanged. */
  lemma NothingParsesNothingChanges(s: string, nowMs: int, parseLocal: string -> Option<int>)
    requires forall t :: parseLocal(t).None?
    ensures ReplaceTokens(s, (t: string) => ParseTime(t, nowMs, parseLocal)) == s
  {
    var f := (t: string) => ParseTime(t, nowMs, parseLocal);
    forall k | 0 <= k < |s| ensures KeepsToken(s, k, f) {
    }
    KeptTokensNoChange(s, 0, f);
  }
}
