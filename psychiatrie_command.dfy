/**
 * The `/w` command of the PsychiatrieWords plugin: it reads the options `falsch`, `richtig`
 * and `person`, builds `falsch = richtig <@person>`, formats it and sends it to the
 * configured words channel.  Toasts and log lines are not modelled; each way out of the
 * command is an `Outcome`.  Priming the channel and sending are foreign calls: their results
 * are the parameters `primed` and `delivered`.
 */
module PsychiatrieCommand {
  import opened Wrappers
  import opened Strings
  import opened PsychiatrieFormat

  /** One option the client passes to `execute`. */
  datatype Arg = Arg(name: string, value: Option<string>)

  datatype Refusal = MissingWords | NoChannel | NotPrimed

  /** What `execute` ends with: refusing returns nothing and sends nothing; an attempted send
      returns the reply content whether or not the message went out. */
  datatype Outcome =
    | Refused(reason: Refusal)
    | Attempted(channelId: string, message: string, delivered: bool, reply: string)

  /** The reply content, a single LEFT-TO-RIGHT MARK. */
  const Reply: string := "‎"

  /** Option `k` is the first one named `name`. */
  predicate FirstNamed(args: seq<Arg>, name: string, k: int) {
    0 <= k < |args| && args[k].name == name && forall j :: 0 <= j < k ==> args[j].name != name
  }

  /** `args.find(arg => arg.name === name)?.value`: the value of the first option so named. */
  function FindValue(args: seq<Arg>, name: string): (r: Option<string>)
    ensures (forall k :: 0 <= k < |args| ==> args[k].name != name) ==> r.None?
    ensures forall k :: FirstNamed(args, name, k) ==> r == args[k].value
    ensures r.Some? ==> exists k :: 0 <= k < |args| && args[k].name == name && args[k].value == r
  {
    if args == [] then None
    else if args[0].name == name then args[0].value
    else
      var r := FindValue(args[1..], name);
      assert forall k :: 0 < k < |args| ==> args[k] == args[1..][k - 1];
      assert forall k :: FirstNamed(args, name, k) ==> FirstNamed(args[1..], name, k - 1);
      r
  }

  /** A trimmed word option; a missing value reads as the empty (falsy) string.  The word is
      the trimmed value of the first option so named, and trimming it again changes nothing. */
  function Word(args: seq<Arg>, name: string): (w: string)
    ensures (forall k :: 0 <= k < |args| ==> args[k].name != name) ==> w == ""
    ensures forall k :: FirstNamed(args, name, k) ==>
      w == (if args[k].value.Some? then Trim(args[k].value.value) else "")
    ensures Trim(w) == w
  {
    match FindValue(args, name)
    case None => ""
    case Some(v) =>
      TrimIdempotent(v);
      Trim(v)
  }

  /** The person option, the empty string when absent. */
  function Person(args: seq<Arg>): string {
    match FindValue(args, "person")
    case None => ""
    case Some(v) => v
  }

  /** `${falsch} = ${richtig}${person ? ` <@${person}>` : ""}`.trim() */
  function RawMessage(falsch: string, richtig: string, person: string): string {
    Trim(falsch + " = " + richtig + (if person != "" then " <@" + person + ">" else ""))
  }

  /** `settings.store.targetChannelId?.trim()`, empty when unset. */
  function ChannelId(target: Option<string>): string {
    match target
    case None => ""
    case Some(t) => Trim(t)
  }

  /** `execute`, the guards in their order: both words, then a channel, then priming. */
  function Execute(args: seq<Arg>, target: Option<string>, primed: bool, delivered: bool): (r: Outcome)
    ensures r == Refused(MissingWords) <==> Word(args, "falsch") == "" || Word(args, "richtig") == ""
    ensures r == Refused(NoChannel) <==>
      Word(args, "falsch") != "" && Word(args, "richtig") != "" && ChannelId(target) == ""
    ensures r == Refused(NotPrimed) <==>
      Word(args, "falsch") != "" && Word(args, "richtig") != "" && ChannelId(target) != "" && !primed
    ensures r.Attempted? ==>
      && r.channelId == ChannelId(target) && r.channelId != ""
      && r.message == FormatMessage(RawMessage(Word(args, "falsch"), Word(args, "richtig"), Person(args)))
      && r.delivered == delivered
      && r.reply == Reply
  {
    var falsch := Word(args, "falsch");
    var richtig := Word(args, "richtig");
    if falsch == "" || richtig == "" then Refused(MissingWords)
    else
      var message := FormatMessage(RawMessage(falsch, richtig, Person(args)));
      var channelId := ChannelId(target);
      if channelId == "" then Refused(NoChannel)
      else if !primed then Refused(NotPrimed)
      else Attempted(channelId, message, delivered, Reply)
  }

  // ---------------------------------------------------------------- properties

  /** Two words the command accepts as they are: trimmed, non-empty and free of `=`. */
  predicate PlainWord(w: string) {
    w != "" && Trimmed(w) && NoneIn(w, {'='})
  }

  predicate AllDigits(p: string) {
    p != "" && forall k :: 0 <= k < |p| ==> IsDigit(p[k])
  }

  /** A word in backticks. */
  function Ticked(w: string): string {
    "`" + w + "`"
  }

  /** The formatted pair: each word in backticks around ` = `. */
  lemma BodyOfPair(f: string, r: string)
    requires PlainWord(f) && PlainWord(r)
    ensures Body(f + " = " + r) == Ticked(f) + " = " + Ticked(r)
  {
    var fm := Formatted(f + " = " + r);
    FormattedPair(f, r);
    assert fm[1..] == [Ticked(r)];
    assert Join(fm, " = ") == fm[0] + " = " + Join(fm[1..], " = ");
  }

  lemma FormattedPair(f: string, r: string)
    requires PlainWord(f) && PlainWord(r)
    ensures Formatted(f + " = " + r) == [Ticked(f), Ticked(r)]
  {
    SplitAroundEquals(f, r);
    FormattedTwo(f + " = " + r, f + " ", " " + r);
    TrimPadded(f, false, true);
    assert Pad(f, false, true) == f + " ";
    TrimPadded(r, true, false);
    assert Pad(r, true, false) == " " + r;
  }

  /** The mention text for a user id. */
  function MentionOf(p: string): string {
    " <@" + p + ">"
  }

  /** With a person given, the message is the pair followed by the mention of that user. */
  lemma MessageWithPerson(f: string, r: string, p: string)
    requires PlainWord(f) && PlainWord(r) && AllDigits(p)
    ensures FormatMessage(RawMessage(f, r, p)) == Ticked(f) + " = " + Ticked(r) + MentionOf(p)
  {
    var main := f + " = " + r;
    RawWithPerson(f, r, p);
    TrailingMention(main, p);
    TrailingMentionMainPart(main, p);
    MainTrimmed(f, r);
    BodyOfPair(f, r);
  }

  lemma RawWithPerson(f: string, r: string, p: string)
    requires PlainWord(f) && PlainWord(r) && AllDigits(p)
    ensures RawMessage(f, r, p) == f + " = " + r + MentionOf(p)
  {
    var raw := f + " = " + r + MentionOf(p);
    assert f + " = " + r + " <@" + p + ">" == raw;
    assert raw[0] == f[0] && raw[|raw| - 1] == '>';
    TrimNoSpace(raw);
  }

  /** `MentionOf(p)` at the end of any text is its mention. */
  lemma TrailingMention(main: string, p: string)
    requires AllDigits(p)
    ensures Mention(main + MentionOf(p)) == MentionOf(p)
  {
    var m := MentionOf(p);
    var raw := main + m;
    assert raw[|raw| - |m|..] == m;
    assert IsMention(m) by {
      assert forall k :: 3 <= k < |m| - 1 ==> m[k] == p[k - 3];
    }
    assert MentionSuffix(raw, |m|);
    MentionUnique(raw, |m|, MentionLength(raw).value);
  }

  lemma TrailingMentionMainPart(main: string, p: string)
    requires AllDigits(p)
    ensures MainPart(main + MentionOf(p)) == Trim(main)
  {
    var m := MentionOf(p);
    var raw := main + m;
    TrailingMention(main, p);
    assert raw[..|raw| - |m|] == main;
  }

  lemma MainTrimmed(f: string, r: string)
    requires PlainWord(f) && PlainWord(r)
    ensures Trim(f + " = " + r) == f + " = " + r
  {
    var main := f + " = " + r;
    assert main[0] == f[0] && main[|main| - 1] == r[|r| - 1];
    TrimNoSpace(main);
  }

  /** Without a person, and with no mention-like ending, the message is the pair alone. */
  lemma MessageWithoutPerson(f: string, r: string)
    requires PlainWord(f) && PlainWord(r) && r[|r| - 1] != '>'
    ensures FormatMessage(RawMessage(f, r, "")) == Ticked(f) + " = " + Ticked(r)
  {
    var main := f + " = " + r;
    assert f + " = " + r + "" == main;
    MainTrimmed(f, r);
    NoMention(main);
    BodyOfPair(f, r);
  }

  lemma NoMention(s: string)
    requires s != [] && s[|s| - 1] != '>'
    ensures Mention(s) == "" && MainPart(s) == Trim(s)
  {
    assert MentionLength(s).None?;
  }

  /** A refused command sends nothing, whichever guard refused it; a send failure and a
      success answer alike. */
  lemma SameReplyEitherWay(args: seq<Arg>, target: Option<string>, primed: bool)
    ensures Execute(args, target, primed, true).Attempted? <==> Execute(args, target, primed, false).Attempted?
    ensures Execute(args, target, primed, true).Attempted? ==>
      Execute(args, target, primed, true).reply == Execute(args, target, primed, false).reply == "‎"
  {
  }

  /** The options `a`, `b` and person `1` give `` `a` = `b` <@1> ``. */
  lemma ExampleCommand()
    ensures FormatMessage(RawMessage("a", "b", "1")) == "`a` = `b` <@1>"
  {
    ExampleWords();
    MessageWithPerson("a", "b", "1");
    ExampleConcat();
  }

  lemma ExampleWords()
    ensures PlainWord("a") && PlainWord("b") && AllDigits("1")
  {
  }

  lemma ExampleConcat()
    ensures Ticked("a") + " = " + Ticked("b") + MentionOf("1") == "`a` = `b` <@1>"
  {
  }
}
