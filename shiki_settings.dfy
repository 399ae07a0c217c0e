/**
 * The settings of the ShikiCodeblocks plugin: the theme selector and its default, the custom
 * theme link and its validation, and the language-icon option.  URL parsing and the label
 * text made from a theme's name are parameters; the theme table is a parameter holding
 * `Object.keys(themes)` with each theme's link, in order.
 */
module ShikiSettings {
  import opened Wrappers
  import opened Strings
  import Settings

  const ShikiRepo := "shikijs/textmate-grammars-themes"
  const ShikiRepoCommit := "2d87559c7601a928b9f7e0f0dda243d2fb6d4499"

  /** `shikiRepoTheme(name)`: the link to a theme file of the Shiki repository. */
  function ShikiRepoTheme(name: string): (url: string)
    ensures EndsWith(url, ".json")
  {
    var url := "https://raw.githubusercontent.com/" + ShikiRepo + "/" + ShikiRepoCommit
      + "/packages/tm-themes/themes/" + name + ".json";
    assert url[|url| - 5..] == ".json";
    url
  }

  /** `themes.DarkPlus`. */
  function DarkPlus(): string {
    ShikiRepoTheme("dark-plus")
  }

  /** A theme in the table: its key and its link. */
  datatype Theme = Theme(name: string, url: string)

  /** One entry of the selector: its label text, its value and whether it is the default. */
  datatype ThemeOption = ThemeOption(text: string, value: string, isDefault: bool)

  /** The selector's options: one per theme, in order, the default being every theme whose
      link is DarkPlus's. */
  function ThemeOptions(themes: seq<Theme>, title: string -> string): (opts: seq<ThemeOption>)
    ensures |opts| == |themes|
    ensures forall k :: 0 <= k < |themes| ==>
      opts[k].value == themes[k].url && opts[k].text == title(themes[k].name)
      && (opts[k].isDefault <==> themes[k].url == DarkPlus())
  {
    seq(|themes|, k requires 0 <= k < |themes| =>
      ThemeOption(title(themes[k].name), themes[k].url, themes[k].url == DarkPlus()))
  }

  /** The selector as the settings store sees it: a SELECT without a declared default. */
  function ThemeSetting(themes: seq<Theme>, title: string -> string): Settings.OptionDef {
    var opts := ThemeOptions(themes, title);
    Settings.OptionDef(None, true,
      seq(|opts|, k requires 0 <= k < |opts| => Settings.Choice(Settings.Str(opts[k].value), opts[k].isDefault)))
  }

  /** With DarkPlus in the table, a missing `theme` setting resolves to DarkPlus's link and is
      written back. */
  lemma DefaultThemeIsDarkPlus(themes: seq<Theme>, title: string -> string, current: Option<Settings.Value>)
    requires exists k :: 0 <= k < |themes| && themes[k].url == DarkPlus()
    ensures Settings.OptionDefault(ThemeSetting(themes, title), current)
         == Settings.Resolved(Some(Settings.Str(DarkPlus())), Some(Settings.Str(DarkPlus())))
  {
    var o := ThemeSetting(themes, title);
    var k :| 0 <= k < |themes| && themes[k].url == DarkPlus();
    assert o.choices[k].isDefault;
    var d := Settings.FirstDefault(o.choices);
    var j :| 0 <= j < |o.choices| && o.choices[j].isDefault && o.choices[j].value == d.value;
    assert themes[j].url == DarkPlus();
  }

  /** `theme.disabled()`: the selector is disabled while a custom theme is set. */
  function ThemeDisabled(customTheme: string): (r: bool)
    ensures r <==> |customTheme| > 0
  {
    customTheme != ""
  }

  /** `customTheme.onChange`: the theme shiki switches to, the custom link or else the
      selected theme. */
  function ThemeAfterCustomChange(customTheme: string, theme: string): (r: string)
    ensures customTheme != "" ==> r == customTheme
    ensures customTheme == "" ==> r == theme
  {
    if customTheme != "" then customTheme else theme
  }

  /** While the selector is disabled, its value has no effect on the theme shown. */
  lemma DisabledSelectorIgnored(customTheme: string, theme: string, other: string)
    requires ThemeDisabled(customTheme)
    ensures ThemeAfterCustomChange(customTheme, theme) == ThemeAfterCustomChange(customTheme, other)
  {
  }

  /** While the selector is enabled, the selected theme is the one shown. */
  lemma EnabledSelectorShown(customTheme: string, theme: string)
    requires !ThemeDisabled(customTheme)
    ensures ThemeAfterCustomChange(customTheme, theme) == theme
  {
  }

  // ---------------------------------------------------------------- customTheme.isValid

  /** What `parseUrl` reports of a link: its pathname. */
  datatype Url = Url(pathname: string)

  datatype Validity = Valid | Invalid(message: string)

  /** `customTheme.isValid(value)`. */
  function IsValid(value: string, parseUrl: string -> Option<Url>): (r: Validity)
    ensures value == "" ==> r == Valid
    ensures value != "" && parseUrl(value).None? ==> r == Invalid("Must be a valid URL")
    ensures value != "" && parseUrl(value).Some? ==>
      (r == Valid <==> EndsWith(parseUrl(value).value.pathname, ".json"))
    ensures r.Invalid? ==> r.message == "Must be a valid URL" || r.message == "Must be a json file"
  {
    if value == "" then Valid
    else match parseUrl(value)
      case None => Invalid("Must be a valid URL")
      case Some(url) =>
        if !EndsWith(url.pathname, ".json") then Invalid("Must be a json file")
        else Valid
  }

  /** A link whose parsed pathname is a Shiki repository theme file is accepted. */
  lemma RepoThemeValid(name: string, parseUrl: string -> Option<Url>)
    requires parseUrl(ShikiRepoTheme(name)) == Some(Url(ShikiRepoTheme(name)[|"https://raw.githubusercontent.com"|..]))
    ensures IsValid(ShikiRepoTheme(name), parseUrl) == Valid
  {
    var url := ShikiRepoTheme(name);
    var path := url[|"https://raw.githubusercontent.com"|..];
    assert path[|path| - 5..] == url[|url| - 5..];
  }

  // ---------------------------------------------------------------- useDevIcon

  datatype DeviconSetting = Disabled | Greyscale | Color

  datatype StyleAction = EnableStyle | DisableStyle

  /** `useDevIcon.onChange`: the icon style is disabled for Disabled and enabled otherwise. */
  function DevIconChanged(newValue: DeviconSetting): (a: StyleAction)
    ensures a == DisableStyle <==> newValue == Disabled
  {
    if newValue == Disabled then DisableStyle else EnableStyle
  }

  /** Whether a style is applied after `enableStyle` or `disableStyle`, from whether it was:
      enabling an applied style and disabling one that is not leave it as it is. */
  function StyleApplied(applied: bool, a: StyleAction): bool {
    match a
    case EnableStyle => true
    case DisableStyle => false
  }

  /** After a change of the icon option, the icon style is applied exactly when the new value
      is not Disabled, whatever it was before, so repeating the change changes nothing. */
  lemma DevIconStyleFollowsSetting(applied: bool, newValue: DeviconSetting)
    ensures StyleApplied(applied, DevIconChanged(newValue)) <==> newValue != Disabled
    ensures StyleApplied(StyleApplied(applied, DevIconChanged(newValue)), DevIconChanged(newValue))
         == StyleApplied(applied, DevIconChanged(newValue))
  {
  }
}
