/**
 * The settings store of the client mod: the plugin entries of `SettingsStore.plain.plugins`,
 * the two migrations that rename a plugin or one of its options, the resolution of a missing
 * value from the plugin definitions, and the guard of the objects `definePluginSettings`
 * returns.  Listeners, persistence and cloud sync are behind `markAsChanged`, modelled as a
 * counter of calls.
 */
module Settings {
  import opened Wrappers
  import opened Strings

  /** A stored setting value. */
  datatype Value = Bool(b: bool) | Num(n: int) | Str(s: string) | Obj(fields: map<string, Value>)

  /** One plugin's stored entry: option name to value. */
  type Entry = map<string, Value>

  // ---------------------------------------------------------------- migrations

  /** The index of the first name present in `m`, if any. */
  function FirstPresent<V>(names: seq<string>, m: map<string, V>): (r: Option<nat>)
    ensures r.Some? ==> r.value < |names| && names[r.value] in m
    ensures r.Some? ==> forall j :: 0 <= j < r.value ==> names[j] !in m
    ensures r.None? ==> forall j :: 0 <= j < |names| ==> names[j] !in m
  {
    if names == [] then None
    else if names[0] in m then Some(0)
    else match FirstPresent(names[1..], m)
      case None => None
      case Some(k) => Some(k + 1)
  }

  class SettingsStore {
    /** `SettingsStore.plain.plugins`. */
    var plugins: map<string, Entry>
    /** How often `markAsChanged` was called. */
    var changes: nat

    constructor(plugins: map<string, Entry>)
      ensures this.plugins == plugins && changes == 0
    {
      this.plugins := plugins;
      changes := 0;
    }

    /** `migratePluginSettings(name, ...oldNames)`: nothing when `name` already has an entry;
        otherwise the entry of the first old name that has one moves to `name`, once. */
    method MigratePluginSettings(name: string, oldNames: seq<string>)
      modifies this
      ensures name in old(plugins) ==> plugins == old(plugins) && changes == old(changes)
      ensures name !in old(plugins) && FirstPresent(oldNames, old(plugins)).None? ==>
        plugins == old(plugins) && changes == old(changes)
      ensures name !in old(plugins) && FirstPresent(oldNames, old(plugins)).Some? ==>
        var o := oldNames[FirstPresent(oldNames, old(plugins)).value];
        plugins == old(plugins)[name := old(plugins)[o]] - {o} && changes == old(changes) + 1
    {
      if name in plugins {
        return;
      }
      var i := 0;
      while i < |oldNames|
        invariant 0 <= i <= |oldNames|
        invariant forall j :: 0 <= j < i ==> oldNames[j] !in plugins
        invariant plugins == old(plugins) && changes == old(changes)
      {
        var oldName := oldNames[i];
        if oldName in plugins {
          FirstPresentIs(oldNames, plugins, i);
          plugins := plugins[name := plugins[oldName]] - {oldName};
          changes := changes + 1;
          return;
        }
        i := i + 1;
      }
      FirstPresentNone(oldNames, plugins);
    }

    /** `migratePluginSetting(pluginName, oldSetting, newSetting)`: the value moves to the new
        key only when the plugin has an entry holding the old key and not the new one. */
    method MigratePluginSetting(pluginName: string, oldSetting: string, newSetting: string)
      modifies this
      ensures Applies(old(plugins), pluginName, oldSetting, newSetting) ==>
        var e := old(plugins)[pluginName];
        plugins == old(plugins)[pluginName := e[newSetting := e[oldSetting]] - {oldSetting}]
        && changes == old(changes) + 1
      ensures !Applies(old(plugins), pluginName, oldSetting, newSetting) ==>
        plugins == old(plugins) && changes == old(changes)
    {
      if pluginName !in plugins {
        return;
      }
      var settings := plugins[pluginName];
      if oldSetting !in settings || newSetting in settings {
        return;
      }
      settings := settings[newSetting := settings[oldSetting]] - {oldSetting};
      plugins := plugins[pluginName := settings];
      changes := changes + 1;
    }
  }

  /** When `migratePluginSetting` moves anything. */
  predicate Applies(plugins: map<string, Entry>, pluginName: string, oldSetting: string, newSetting: string) {
    pluginName in plugins && oldSetting in plugins[pluginName] && newSetting !in plugins[pluginName]
  }

  lemma FirstPresentIs<V>(names: seq<string>, m: map<string, V>, i: nat)
    requires i < |names| && names[i] in m
    requires forall j :: 0 <= j < i ==> names[j] !in m
    ensures FirstPresent(names, m) == Some(i)
  {
  }

  lemma FirstPresentNone<V>(names: seq<string>, m: map<string, V>)
    requires forall j :: 0 <= j < |names| ==> names[j] !in m
    ensures FirstPresent(names, m).None?
  {
  }

  /** A migrated setting keeps its value under the new key, and the old key is gone. */
  lemma MigrationMovesValue(plugins: map<string, Entry>, pluginName: string, oldSetting: string, newSetting: string)
    requires Applies(plugins, pluginName, oldSetting, newSetting)
    ensures var e := plugins[pluginName]; var e' := e[newSetting := e[oldSetting]] - {oldSetting};
      newSetting in e' && e'[newSetting] == e[oldSetting] && oldSetting !in e'
      && e'.Keys == e.Keys - {oldSetting} + {newSetting}
  {
  }

  // ---------------------------------------------------------------- default values

  /** One entry of a SELECT option's `options`. */
  datatype Choice = Choice(value: Value, isDefault: bool)

  /** A declared option: its `default` if it declares one, whether it is a SELECT, and the
      SELECT's choices. */
  datatype OptionDef = OptionDef(default: Option<Value>, isSelect: bool, choices: seq<Choice>)

  /** What `getDefaultValue` needs of a plugin definition. */
  datatype PluginDef = PluginDef(required: bool, enabledByDefault: bool, options: map<string, OptionDef>)

  /** What the getter answers for a missing property, and what it writes into the target
      (`None`: nothing written). */
  datatype Resolved = Resolved(value: Option<Value>, write: Option<Value>)

  /** The index `options.find(o => o.default)` stops at. */
  function FirstDefaultIndex(choices: seq<Choice>): (r: Option<nat>)
    ensures r.Some? ==> r.value < |choices| && choices[r.value].isDefault
    ensures r.Some? ==> forall j :: 0 <= j < r.value ==> !choices[j].isDefault
    ensures r.None? ==> forall j :: 0 <= j < |choices| ==> !choices[j].isDefault
  {
    if choices == [] then None
    else if choices[0].isDefault then Some(0)
    else match FirstDefaultIndex(choices[1..])
      case None => None
      case Some(k) => Some(k + 1)
  }

  /** `options.find(o => o.default)?.value`. */
  function FirstDefault(choices: seq<Choice>): (r: Option<Value>)
    ensures r.Some? <==> exists k :: 0 <= k < |choices| && choices[k].isDefault
    ensures r.Some? ==> exists k :: (0 <= k < |choices| && choices[k].isDefault && choices[k].value == r.value
      && forall j :: 0 <= j < k ==> !choices[j].isDefault)
  {
    match FirstDefaultIndex(choices)
    case None => None
    case Some(k) => Some(choices[k].value)
  }

  const PluginsPrefix: string := "plugins."

  /** The `getDefaultValue` of the settings store, for a property `key` missing from `target`
      at `path`; `current` is `target[key]`, and `defs` the plugin definitions (`None` while
      they are not initialised). */
  function GetDefaultValue(defs: Option<map<string, PluginDef>>, isReporter: bool,
                           current: Option<Value>, key: string, path: string): (r: Resolved)
    ensures r.write.Some? ==> r.value == r.write
    ensures defs.None? ==> r == Resolved(current, None)
    ensures defs.Some? && path == "plugins" && key in defs.value ==>
      var d := defs.value[key];
      r == Resolved(Some(EnabledEntry(isReporter || d.required || d.enabledByDefault)), Some(EnabledEntry(isReporter || d.required || d.enabledByDefault)))
    ensures defs.None? || (!(path == "plugins" && key in defs.value) && !OptionPath(defs.value, path, key)) ==>
      r == Resolved(current, None)
  {
    if defs.None? then Resolved(current, None)
    else
      var plugins := defs.value;
      if path == "plugins" && key in plugins then
        var d := plugins[key];
        var e := EnabledEntry(isReporter || d.required || d.enabledByDefault);
        Resolved(Some(e), Some(e))
      else if StartsWith(path, PluginsPrefix) then
        var plugin := path[|PluginsPrefix|..];
        if plugin in plugins then
          if key !in plugins[plugin].options then Resolved(current, None)
          else OptionDefault(plugins[plugin].options[key], current)
        else Resolved(current, None)
      else Resolved(current, None)
  }

  /** `path` is `plugins.<name>` of a defined plugin that declares the option `key`. */
  predicate OptionPath(defs: map<string, PluginDef>, path: string, key: string) {
    StartsWith(path, PluginsPrefix) && path[|PluginsPrefix|..] in defs && key in defs[path[|PluginsPrefix|..]].options
  }

  /** `{ enabled }`. */
  function EnabledEntry(enabled: bool): Value {
    Obj(map["enabled" := Bool(enabled)])
  }

  /** A declared option's default: its `default` if declared, and written back; a SELECT
      without one takes its first default choice, written back only if there is one; any
      other option leaves the value as it is. */
  function OptionDefault(o: OptionDef, current: Option<Value>): (r: Resolved)
    ensures r.write.Some? ==> r.value == r.write
    ensures r.write.Some? <==> o.default.Some? || (o.isSelect && exists k :: 0 <= k < |o.choices| && o.choices[k].isDefault)
    ensures o.default.Some? ==> r.value == o.default
    ensures o.default.None? && o.isSelect ==>
      (r.value.None? <==> forall k :: 0 <= k < |o.choices| ==> !o.choices[k].isDefault)
    ensures o.default.None? && o.isSelect && r.value.Some? ==>
      exists k :: (0 <= k < |o.choices| && o.choices[k].isDefault && o.choices[k].value == r.value.value
        && forall j :: 0 <= j < k ==> !o.choices[j].isDefault)
    ensures o.default.None? && !o.isSelect ==> r.value == current && r.write.None?
  {
    if o.default.Some? then Resolved(o.default, o.default)
    else if o.isSelect then
      var def := FirstDefault(o.choices);
      Resolved(def, def)
    else Resolved(current, None)
  }

  /** A plugin option resolves as its declaration says. */
  lemma OptionPathResolves(defs: map<string, PluginDef>, isReporter: bool, current: Option<Value>, key: string, path: string)
    requires path != "plugins" && OptionPath(defs, path, key)
    ensures GetDefaultValue(Some(defs), isReporter, current, key, path)
         == OptionDefault(defs[path[|PluginsPrefix|..]].options[key], current)
  {
  }

  /** A plugin with no entry is enabled when required or enabled by default, and always in
      reporter mode. */
  lemma MissingPluginEnabled(defs: map<string, PluginDef>, isReporter: bool, current: Option<Value>, key: string)
    requires key in defs
    ensures var r := GetDefaultValue(Some(defs), isReporter, current, key, "plugins");
      r.value == Some(EnabledEntry(isReporter || defs[key].required || defs[key].enabledByDefault))
      && (isReporter ==> r.value == Some(EnabledEntry(true)))
      && (!defs[key].required && !defs[key].enabledByDefault && !isReporter ==> r.value == Some(EnabledEntry(false)))
  {
  }

  /** A SELECT option without a declared default and without a default choice answers
      `undefined` and writes nothing, whatever the target held. */
  lemma SelectWithoutDefault(o: OptionDef, current: Option<Value>)
    requires o.default.None? && o.isSelect
    requires forall k :: 0 <= k < |o.choices| ==> !o.choices[k].isDefault
    ensures OptionDefault(o, current) == Resolved(None, None)
  {
  }

  /** The entry renamed by `migratePluginSettings` keeps every other entry as it was. */
  lemma RenameKeepsOthers(plugins: map<string, Entry>, name: string, oldName: string)
    requires name !in plugins && oldName in plugins
    ensures var r := plugins[name := plugins[oldName]] - {oldName};
      r.Keys == plugins.Keys - {oldName} + {name} && r[name] == plugins[oldName]
      && forall k :: k in plugins && k != oldName ==> r[k] == plugins[k]
  {
  }

  // ---------------------------------------------------------------- definePluginSettings

  /** The settings object a plugin defines; `pluginName` is set when the plugin starts. */
  class DefinedSettings {
    var pluginName: string

    constructor()
      ensures pluginName == ""
    {
      pluginName := "";
    }

    /** The `store` and `plain` getters: an error until the plugin has a name, then its entry. */
    function Store(plugins: map<string, Entry>): (r: Result<Option<Entry>, string>)
      reads this
      ensures r.Err? <==> pluginName == ""
      ensures r.Ok? ==> (r.value.Some? <==> pluginName in plugins)
      ensures r.Ok? && pluginName in plugins ==> r.value == Some(plugins[pluginName])
    {
      if pluginName == "" then Err("Cannot access settings before plugin is initialized")
      else if pluginName in plugins then Ok(Some(plugins[pluginName]))
      else Ok(None)
    }

    method SetPluginName(name: string)
      modifies this
      ensures pluginName == name
    {
      pluginName := name;
    }
  }
}
