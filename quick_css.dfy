/**
 * QuickCSS and themes: the theme links that survive the light/dark filter, the local themes
 * added after them, the `@import` rules written into the themes style, the OS colour
 * variables, and the style element that `toggle` creates once and then only enables or
 * disables.  The document, the native theme and CSS getters, the clock and `URL.createObjectURL`
 * are parameters.
 */
module QuickCss {
  import opened Wrappers
  import opened Strings

  datatype Mode = Light | Dark

  /** `activeTheme`: none while the ThemeStore is not loaded; `light` only for the light theme,
      every other theme counting as dark. */
  function ActiveTheme(themeStore: Option<string>): (r: Option<Mode>)
    ensures r.None? <==> themeStore.None?
    ensures r == Some(Light) <==> themeStore == Some("light")
  {
    match themeStore
    case None => None
    case Some(theme) => if theme == "light" then Some(Light) else Some(Dark)
  }

  /** What `(.*)` captures: the text up to the first line terminator. */
  function RestOfLine(s: string): (r: string)
    ensures StartsWith(s, r)
    ensures forall k :: 0 <= k < |r| ==> !IsLineTerminator(r[k])
    ensures |r| == |s| || IsLineTerminator(s[|r|])
  {
    if s == [] || IsLineTerminator(s[0]) then []
    else
      var r := [s[0]] + RestOfLine(s[1..]);
      assert s[..|r|] == [s[0]] + s[1..][..|r| - 1];
      r
  }

  const LightPrefix: string := "@light "
  const DarkPrefix: string := "@dark "

  /** `/^@(light|dark) (.*)/.exec(rawLink)`: the mode and the link. */
  function ModePrefix(raw: string): Option<(Mode, string)> {
    if StartsWith(raw, LightPrefix) then Some((Light, RestOfLine(raw[|LightPrefix|..])))
    else if StartsWith(raw, DarkPrefix) then Some((Dark, RestOfLine(raw[|DarkPrefix|..])))
    else None
  }

  /** One raw theme link after the filter: kept unchanged when it has no mode prefix, kept
      without its prefix when its mode is the active one, dropped otherwise. */
  function ResolveLink(raw: string, active: Option<Mode>): (r: Option<string>)
    ensures ModePrefix(raw).None? ==> r == Some(raw)
    ensures ModePrefix(raw).Some? && Some(ModePrefix(raw).value.0) == active ==> r == Some(ModePrefix(raw).value.1)
    ensures ModePrefix(raw).Some? && Some(ModePrefix(raw).value.0) != active ==> r.None?
  {
    match ModePrefix(raw)
    case None => Some(raw)
    case Some((mode, link)) => if Some(mode) == active then Some(link) else None
  }

  /** `themeLinks.map(...).filter(link => link !== null)`. */
  function ThemeLinks(raws: seq<string>, active: Option<Mode>): (r: seq<string>)
    ensures |r| <= |raws|
  {
    if raws == [] then []
    else
      var rest := ThemeLinks(raws[1..], active);
      match ResolveLink(raws[0], active)
      case None => rest
      case Some(link) => [link] + rest
  }

  /** The URL of an enabled local theme on the desktop client, `now` being `Date.now()`. */
  function LocalThemeUrl(theme: string, now: int): string {
    "vencord:///themes/" + theme + "?v=" + IntToString(now)
  }

  /** The links of the enabled themes on the desktop client. */
  function LocalThemes(enabled: seq<string>, now: int): (r: seq<string>)
    ensures |r| == |enabled| && forall k :: 0 <= k < |r| ==> r[k] == LocalThemeUrl(enabled[k], now)
  {
    seq(|enabled|, k requires 0 <= k < |enabled| => LocalThemeUrl(enabled[k], now))
  }

  /** The links of the enabled themes on the web: a theme whose stored data is missing or
      empty is skipped, any other becomes an object URL of its data. */
  function WebThemes(enabled: seq<string>, themeData: string -> Option<string>, objectUrl: string -> string): seq<string>
  {
    if enabled == [] then []
    else
      var rest := WebThemes(enabled[..|enabled| - 1], themeData, objectUrl);
      var data := themeData(enabled[|enabled| - 1]);
      if data.None? || data.value == "" then rest else rest + [objectUrl(data.value)]
  }

  /** The rule one link becomes. */
  function ImportRule(link: string): string {
    "@import url(\"" + Trim(link) + "\");"
  }

  /** The text of the themes style: one rule per link, one per line. */
  function ThemesCss(links: seq<string>): (css: string)
  {
    Join(seq(|links|, k requires 0 <= k < |links| => ImportRule(links[k])), "\n")
  }

  /** The OS colour variables: `--k: v;` for every value other than `#`, in order. */
  function Variables(values: seq<(string, string)>): string {
    if values == [] then ""
    else
      var rest := Variables(values[1..]);
      if values[0].1 == "#" then rest else "--" + values[0].0 + ": " + values[0].1 + ";" + rest
  }

  /** The text of the OS theme values style. */
  function SystemValuesCss(values: seq<(string, string)>): string {
    ":root{" + Variables(values) + "}"
  }

  class Styles {
    /** Whether `style` (the QuickCSS element) exists, and its state. */
    var hasStyle: bool
    var styleDisabled: bool
    var styleText: string
    /** How many QuickCSS change listeners were registered. */
    var cssListeners: nat
    /** Whether `themesStyle` exists, and its text. */
    var hasThemesStyle: bool
    var themesText: string

    ghost predicate Valid()
      reads this
    {
      cssListeners == (if hasStyle then 1 else 0)
    }

    constructor()
      ensures Valid() && !hasStyle && !hasThemesStyle && !styleDisabled
    {
      hasStyle := false;
      styleDisabled := false;
      styleText := "";
      cssListeners := 0;
      hasThemesStyle := false;
      themesText := "";
    }

    /** `toggle(isEnabled)`: the first enabled call creates the style with the current QuickCSS
        (`css`) and registers the change listener; until then a disabled call does nothing;
        once the style exists a call only sets whether it is disabled. */
    method Toggle(isEnabled: bool, css: string)
      requires Valid()
      modifies this
      ensures Valid()
      ensures hasThemesStyle == old(hasThemesStyle) && themesText == old(themesText)
      ensures !old(hasStyle) && isEnabled ==>
        hasStyle && styleText == css && styleDisabled == old(styleDisabled) && cssListeners == 1
      ensures !old(hasStyle) && !isEnabled ==>
        !hasStyle && styleText == old(styleText) && styleDisabled == old(styleDisabled)
      ensures old(hasStyle) ==>
        hasStyle && styleDisabled == !isEnabled && styleText == old(styleText) && cssListeners == old(cssListeners)
    {
      if !hasStyle {
        if isEnabled {
          hasStyle := true;
          cssListeners := cssListeners + 1;
          styleText := css;
        }
      } else {
        styleDisabled := !isEnabled;
      }
    }

    /** The QuickCSS change listener: new text, and disabled again unless QuickCSS is on. */
    method OnQuickCssChange(css: string, useQuickCss: bool)
      requires Valid() && hasStyle
      modifies this
      ensures Valid() && hasStyle
      ensures styleText == css && styleDisabled == !useQuickCss
      ensures cssListeners == old(cssListeners) && themesText == old(themesText) && hasThemesStyle == old(hasThemesStyle)
    {
      styleText := css;
      styleDisabled := !useQuickCss;
    }

    /** `initThemes()`: the filtered links, then the enabled themes, written as import rules. */
    method InitThemes(themeLinks: seq<string>, enabledThemes: seq<string>, themeStore: Option<string>,
                      isWeb: bool, now: int, themeData: string -> Option<string>, objectUrl: string -> string)
      requires Valid()
      modifies this
      ensures Valid() && hasThemesStyle
      ensures themesText == ThemesCss(ThemeLinks(themeLinks, ActiveTheme(themeStore))
        + (if isWeb then WebThemes(enabledThemes, themeData, objectUrl) else LocalThemes(enabledThemes, now)))
      ensures hasStyle == old(hasStyle) && styleText == old(styleText) && styleDisabled == old(styleDisabled)
      ensures cssListeners == old(cssListeners)
    {
      var extra: seq<string>;
      if isWeb {
        extra := EnabledWebThemes(enabledThemes, themeData, objectUrl);
      } else {
        extra := LocalThemes(enabledThemes, now);
      }
      var css := ThemesCss(ThemeLinks(themeLinks, ActiveTheme(themeStore)) + extra);
      hasThemesStyle, themesText := true, css;
    }
  }

  /** The loop of `initThemes` over the enabled themes on the web. */
  method EnabledWebThemes(enabledThemes: seq<string>, themeData: string -> Option<string>, objectUrl: string -> string)
    returns (web: seq<string>)
    ensures web == WebThemes(enabledThemes, themeData, objectUrl)
  {
    web := [];
    for k := 0 to |enabledThemes|
      invariant web == WebThemes(enabledThemes[..k], themeData, objectUrl)
    {
      assert enabledThemes[..k + 1][..k] == enabledThemes[..k];
      var data := themeData(enabledThemes[k]);
      if data.None? || data.value == "" {
        continue;
      }
      web := web + [objectUrl(data.value)];
    }
    assert enabledThemes[..|enabledThemes|] == enabledThemes;
  }

  // ---------------------------------------------------------------- properties

  /** A link with a mode prefix is kept, stripped of the prefix, exactly in that mode. */
  lemma PrefixedLink(link: string, active: Option<Mode>)
    requires forall k :: 0 <= k < |link| ==> !IsLineTerminator(link[k])
    ensures ResolveLink(LightPrefix + link, active) == (if active == Some(Light) then Some(link) else None)
    ensures ResolveLink(DarkPrefix + link, active) == (if active == Some(Dark) then Some(link) else None)
  {
    RestOfLineWhole(link);
    assert (LightPrefix + link)[|LightPrefix|..] == link;
    assert (DarkPrefix + link)[|DarkPrefix|..] == link;
    assert !StartsWith(DarkPrefix + link, LightPrefix) by {
      assert (DarkPrefix + link)[1] == 'd';
    }
  }

  /** Every ThemeStore theme other than `light`, such as `darker` or `midnight`, keeps the
      `@dark` links and drops the `@light` ones; the light theme does the reverse. */
  lemma ThemeChoosesLinks(theme: string, link: string)
    requires forall k :: 0 <= k < |link| ==> !IsLineTerminator(link[k])
    ensures theme != "light" ==>
      ResolveLink(DarkPrefix + link, ActiveTheme(Some(theme))) == Some(link)
      && ResolveLink(LightPrefix + link, ActiveTheme(Some(theme))).None?
    ensures theme == "light" ==>
      ResolveLink(LightPrefix + link, ActiveTheme(Some(theme))) == Some(link)
      && ResolveLink(DarkPrefix + link, ActiveTheme(Some(theme))).None?
  {
    PrefixedLink(link, ActiveTheme(Some(theme)));
  }

  lemma {:induction false} RestOfLineWhole(s: string)
    requires forall k :: 0 <= k < |s| ==> !IsLineTerminator(s[k])
    ensures RestOfLine(s) == s
  {
    if s != [] {
      RestOfLineWhole(s[1..]);
    }
  }

  /** Before the ThemeStore loads, only links without a mode prefix survive, unchanged. */
  lemma {:induction false} NoThemeStoreKeepsPlainLinks(raws: seq<string>)
    ensures forall k :: 0 <= k < |ThemeLinks(raws, None)| ==>
      ThemeLinks(raws, None)[k] in raws && ModePrefix(ThemeLinks(raws, None)[k]).None?
    ensures (forall k :: 0 <= k < |raws| ==> ModePrefix(raws[k]).None?) ==> ThemeLinks(raws, None) == raws
  {
    if raws != [] {
      NoThemeStoreKeepsPlainLinks(raws[1..]);
      var rest := ThemeLinks(raws[1..], None);
      assert forall k :: 0 <= k < |rest| ==> rest[k] in raws[1..] ==> rest[k] in raws;
      if forall k :: 0 <= k < |raws| ==> ModePrefix(raws[k]).None? {
        assert forall k :: 0 <= k < |raws[1..]| ==> raws[1..][k] == raws[k + 1];
        assert [raws[0]] + raws[1..] == raws;
      }
    }
  }

  /** A local theme's link names its theme between the fixed prefix and the version suffix,
      so two enabled themes share a link only when they are the same theme. */
  lemma LocalThemeUrlNamesTheme(theme: string, other: string, now: int)
    ensures var u := LocalThemeUrl(theme, now);
      var p := |"vencord:///themes/"|;
      var s := |"?v=" + IntToString(now)|;
      |u| == p + |theme| + s && u[p..|u| - s] == theme
    ensures LocalThemeUrl(theme, now) == LocalThemeUrl(other, now) <==> theme == other
  {
    Framed("vencord:///themes/", theme, other, "?v=" + IntToString(now));
  }

  /** Text between a fixed prefix and a fixed suffix reads back, and determines the whole. */
  lemma Framed(pre: string, x: string, y: string, suf: string)
    ensures |pre + x + suf| == |pre| + |x| + |suf|
    ensures (pre + x + suf)[|pre|..|pre + x + suf| - |suf|] == x
    ensures pre + x + suf == pre + y + suf <==> x == y
  {
    assert (pre + x + suf)[|pre|..|pre| + |x|] == x;
    assert (pre + y + suf)[|pre|..|pre| + |y|] == y;
  }

  /** The desktop links follow the enabled themes one for one, and a theme enabled once has
      its link once. */
  lemma LocalThemesFollowEnabled(enabled: seq<string>, now: int, i: nat, j: nat)
    requires i < |enabled| && j < |enabled|
    ensures |LocalThemes(enabled, now)| == |enabled|
    ensures LocalThemes(enabled, now)[i] == LocalThemes(enabled, now)[j] <==> enabled[i] == enabled[j]
  {
    LocalThemeUrlNamesTheme(enabled[i], enabled[j], now);
  }

  /** The filter works link by link. */
  lemma {:induction false} ThemeLinksAppend(a: seq<string>, b: seq<string>, active: Option<Mode>)
    ensures ThemeLinks(a + b, active) == ThemeLinks(a, active) + ThemeLinks(b, active)
  {
    if a != [] {
      assert (a + b)[0] == a[0] && (a + b)[1..] == a[1..] + b;
      ThemeLinksAppend(a[1..], b, active);
      var head := if ResolveLink(a[0], active).Some? then [ResolveLink(a[0], active).value] else [];
      assert ThemeLinks(a + b, active) == head + ThemeLinks(a[1..] + b, active);
      assert ThemeLinks(a, active) == head + ThemeLinks(a[1..], active);
    } else {
      assert a + b == b;
    }
  }

  /** The themes style holds one import rule per link, one per line, when no link itself
      holds a line feed. */
  lemma ThemesCssLines(links: seq<string>)
    requires |links| > 0
    requires forall k :: 0 <= k < |links| ==> NoneIn(links[k], {'\n'})
    ensures Split(ThemesCss(links), {'\n'}) == seq(|links|, k requires 0 <= k < |links| => ImportRule(links[k]))
  {
    var rules := seq(|links|, k requires 0 <= k < |links| => ImportRule(links[k]));
    forall k | 0 <= k < |links|
      ensures NoneIn(rules[k], {'\n'})
    {
      var t := Trim(links[k]);
      assert forall i :: 0 <= i < |t| ==> t[i] in links[k];
      var pre := "@import url(\"";
      var post := "\");";
      assert rules[k] == pre + t + post;
      NoneInConcat(pre, t, {'\n'});
      NoneInConcat(pre + t, post, {'\n'});
    }
    SplitJoin(rules, '\n');
  }

  /** The values style skips exactly the `#` values: the variables of two lists are those of
      each, in order. */
  lemma {:induction false} VariablesAppend(a: seq<(string, string)>, b: seq<(string, string)>)
    ensures Variables(a + b) == Variables(a) + Variables(b)
  {
    if a != [] {
      assert (a + b)[0] == a[0] && (a + b)[1..] == a[1..] + b;
      VariablesAppend(a[1..], b);
      var head := if a[0].1 == "#" then "" else "--" + a[0].0 + ": " + a[0].1 + ";";
      assert Variables(a + b) == head + Variables(a[1..] + b);
      assert Variables(a) == head + Variables(a[1..]);
    } else {
      assert a + b == b;
    }
  }

  /** Only `#` values leave the root rule empty. */
  lemma {:induction false} OnlyHashValues(values: seq<(string, string)>)
    requires forall k :: 0 <= k < |values| ==> values[k].1 == "#"
    ensures SystemValuesCss(values) == ":root{}"
  {
    if values != [] {
      OnlyHashValues(values[1..]);
    }
  }

  /** A web theme without data adds nothing; one with data adds its object URL last. */
  lemma WebThemeStep(enabled: seq<string>, theme: string, themeData: string -> Option<string>, objectUrl: string -> string)
    ensures var data := themeData(theme);
      WebThemes(enabled + [theme], themeData, objectUrl)
        == WebThemes(enabled, themeData, objectUrl) + (if data.None? || data.value == "" then [] else [objectUrl(data.value)])
  {
    assert (enabled + [theme])[..|enabled|] == enabled;
  }
}
