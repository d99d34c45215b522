/**
 * The settings store of settings_service.py: a string-keyed dictionary with per-key
 * validation rules, default filling on load, copy-on-read, reset, and the save_config
 * compatibility entry point. The configuration file is abstracted to what loading it yields.
 */
module Settings {
  import opened Outcome

  /** A JSON value: a string, or any other value (number, boolean, list, object, null) told apart by an id. */
  datatype Value = Str(s: string) | NonStr(id: nat)

  /** A key as callers pass it: a string, or some non-string object. */
  datatype Key = Name(name: string) | NotAString

  type SettingsMap = map<string, Value>

  /** The configuration file: missing, unreadable or not a JSON object, or a JSON object. */
  datatype ConfigFile = Absent | Corrupt | Present(contents: SettingsMap)

  /** DEFAULT_SETTINGS, keys in declaration order. */
  const DefaultKeys: seq<string> := ["theme", "active_tab", "default_view_tab"]

  const DefaultSettings: SettingsMap := map["theme" := Str("dark"), "active_tab" := Str("summary_tab"), "default_view_tab" := Str("summary")]

  lemma DefaultKeysSpec()
    ensures forall k :: k in DefaultSettings <==> k in DefaultKeys
    ensures |DefaultKeys| == |DefaultSettings|
  {
    assert DefaultSettings.Keys == {"theme", "active_tab", "default_view_tab"};
  }

  // ---------------------------------------------------------------- validation

  /** VALIDATION_RULES: the allowed values of the keys that have a rule. */
  function Rule(key: string): Option<seq<string>>
  {
    if key == "theme" then Some(["dark", "light"])
    else if key == "active_tab" then Some(["summary_tab", "full_tab"])
    else if key == "default_view_tab" then Some(["summary", "full"])
    else None
  }

  /** validate_setting: a key without a rule accepts anything; otherwise the value must be one of the listed strings. */
  predicate ValidateSetting(key: string, value: Value)
    ensures key !in DefaultSettings ==> ValidateSetting(key, value)
    ensures ValidateSetting(key, value) && key in DefaultSettings ==> value.Str?
  {
    match Rule(key)
    case None => true
    case Some(allowed) => value.Str? && value.s in allowed
  }

  /** The three rules, value by value; every other key is unconstrained. */
  lemma ValidateSettingSpec(key: string, value: Value)
    ensures key == "theme" ==> (ValidateSetting(key, value) <==> value == Str("dark") || value == Str("light"))
    ensures key == "active_tab" ==> (ValidateSetting(key, value) <==> value == Str("summary_tab") || value == Str("full_tab"))
    ensures key == "default_view_tab" ==> (ValidateSetting(key, value) <==> value == Str("summary") || value == Str("full"))
    ensures key !in DefaultSettings ==> ValidateSetting(key, value)
    ensures !value.Str? ==> (ValidateSetting(key, value) <==> key !in DefaultSettings)
  {
  }

  /** Every default value passes its own rule. */
  lemma DefaultsValid()
    ensures forall k :: k in DefaultSettings ==> ValidateSetting(k, DefaultSettings[k])
  {
  }

  // ---------------------------------------------------------------- the operations, on values

  /** The stored dictionary after load_settings read the given file. */
  function Loaded(file: ConfigFile): (r: SettingsMap)
    ensures HasDefaults(r)
    ensures file.Present? ==> forall k :: k in file.contents ==> k in r && r[k] == file.contents[k]
  {
    match file
    case Present(m) => WithDefaults(m)
    case _ => DefaultSettings
  }

  /** The loaded dictionary with every missing default key added. */
  function WithDefaults(m: SettingsMap): SettingsMap
  {
    map k | k in m.Keys + DefaultSettings.Keys :: if k in m then m[k] else DefaultSettings[k]
  }

  /** load_settings' loop: each listed default key that is still missing is added, in order. */
  function FillDefaults(m: SettingsMap, keys: seq<string>): SettingsMap
    requires forall k :: k in keys ==> k in DefaultSettings
  {
    if keys == [] then m
    else
      var key := keys[|keys| - 1];
      var before := FillDefaults(m, keys[..|keys| - 1]);
      if key in before then before else before[key := DefaultSettings[key]]
  }

  /** Filling adds exactly the listed keys that were missing, with their default values. */
  lemma {:induction false} FillDefaultsSpec(m: SettingsMap, keys: seq<string>)
    requires forall k :: k in keys ==> k in DefaultSettings
    ensures forall k :: k in FillDefaults(m, keys) <==> k in m || k in keys
    ensures forall k :: k in FillDefaults(m, keys) ==> FillDefaults(m, keys)[k] == if k in m then m[k] else DefaultSettings[k]
  {
    if keys != [] {
      var n := |keys| - 1;
      assert forall k :: k in keys[..n] ==> k in keys;
      FillDefaultsSpec(m, keys[..n]);
      assert forall k :: k in keys <==> k in keys[..n] || k == keys[n];
      var before := FillDefaults(m, keys[..n]);
      var key := keys[n];
      if key !in before {
        assert FillDefaults(m, keys) == before[key := DefaultSettings[key]];
      }
    }
  }

  /** Filling a list of exactly the default keys is WithDefaults. */
  lemma FillAllDefaults(m: SettingsMap, keys: seq<string>)
    requires forall k :: k in keys <==> k in DefaultSettings
    ensures FillDefaults(m, keys) == WithDefaults(m)
  {
    FillDefaultsSpec(m, keys);
    var filled := FillDefaults(m, keys);
    assert filled.Keys == WithDefaults(m).Keys;
  }

  /** Every default key is present. */
  predicate HasDefaults(m: SettingsMap)
  {
    forall k :: k in DefaultSettings ==> k in m
  }

  /** Every stored value passes its key's rule. */
  predicate AllValid(m: SettingsMap)
  {
    forall k :: k in m ==> ValidateSetting(k, m[k])
  }

  /** get_setting: the stored value, else the given default; a non-string key gives the default. */
  function Lookup(m: SettingsMap, key: Key, default: Value): Value
  {
    match key
    case NotAString => default
    case Name(k) => if k in m then m[k] else default
  }

  /** set_setting: the new dictionary and the result; a non-string key or a rejected value changes nothing. */
  function Assign(m: SettingsMap, key: Key, value: Value): (r: (SettingsMap, bool))
    ensures r.1 ==> key.Name? && r.0 == m[key.name := value]
    ensures !r.1 ==> r.0 == m
    ensures AllValid(m) ==> AllValid(r.0)
  {
    match key
    case NotAString => (m, false)
    case Name(k) => if ValidateSetting(k, value) then (m[k := value], true) else (m, false)
  }

  /** save_config's loop: each valid item is stored in order, each invalid one skipped. */
  function ApplyValid(m: SettingsMap, items: seq<(string, Value)>): SettingsMap
  {
    if items == [] then m
    else
      var last := items[|items| - 1];
      var before := ApplyValid(m, items[..|items| - 1]);
      if ValidateSetting(last.0, last.1) then before[last.0 := last.1] else before
  }

  // ---------------------------------------------------------------- the service

  class SettingsService {
    /** _settings */
    var settings: SettingsMap
    /** The configuration file, as found at start-up or last written by save_settings. */
    var file: ConfigFile

    /** Every default key is present once settings are loaded, and no operation removes one. */
    predicate Valid()
      reads this
    {
      HasDefaults(settings)
    }

    /** __init__: the paths are fixed and the file is loaded at once. */
    constructor(disk: ConfigFile)
      ensures file == disk && settings == Loaded(disk)
      ensures Valid()
    {
      file := disk;
      settings := map[];
      new;
      LoadSettings();
    }

    /** load_settings: a missing or corrupt file gives the defaults; otherwise its contents with the missing defaults added. */
    method LoadSettings()
      modifies this
      ensures file == old(file) && settings == Loaded(file)
      ensures Valid()
    {
      match file {
        case Absent =>
          settings := DefaultSettings;
        case Corrupt =>
          settings := DefaultSettings;
        case Present(loaded) =>
          settings := loaded;
          DefaultKeysSpec();
          for i := 0 to |DefaultKeys|
            invariant file == old(file)
            invariant settings == FillDefaults(loaded, DefaultKeys[..i])
          {
            var key := DefaultKeys[i];
            assert DefaultKeys[..i + 1][..i] == DefaultKeys[..i];
            if key !in settings {
              settings := settings[key := DefaultSettings[key]];
            }
          }
          assert DefaultKeys[..|DefaultKeys|] == DefaultKeys;
          FillAllDefaults(loaded, DefaultKeys);
      }
    }

    /** save_settings: the file now holds the current settings (write failures are not modelled). */
    method SaveSettings()
      modifies this
      ensures settings == old(settings) && file == Present(settings)
    {
      file := Present(settings);
    }

    /** get_setting */
    function GetSetting(key: Key, default: Value): (v: Value)
      reads this
      ensures key.Name? && key.name in settings ==> v == settings[key.name]
      ensures key.NotAString? || key.name !in settings ==> v == default
    {
      Lookup(settings, key, default)
    }

    /** set_setting: a stored value is saved at once; a rejected one changes neither the settings nor the file. */
    method SetSetting(key: Key, value: Value) returns (ok: bool)
      requires Valid()
      modifies this
      ensures (settings, ok) == Assign(old(settings), key, value)
      ensures file == if ok then Present(settings) else old(file)
      ensures Valid()
    {
      if key.NotAString? {
        return false;
      }
      if !ValidateSetting(key.name, value) {
        return false;
      }
      settings := settings[key.name := value];
      SaveSettings();
      return true;
    }

    /** get_all_settings: a copy; a map is a value, so changing the copy cannot reach the service. */
    method GetAllSettings() returns (copy: SettingsMap)
      ensures copy == settings
    {
      copy := settings;
    }

    /** reset_to_defaults: the defaults, saved at once. */
    method ResetToDefaults()
      modifies this
      ensures settings == DefaultSettings && file == Present(DefaultSettings)
      ensures Valid()
    {
      settings := DefaultSettings;
      SaveSettings();
    }
  }

  /** load_config: the settings a fresh service loads from the file, every default key among them. */
  method LoadConfig(disk: ConfigFile) returns (config: SettingsMap)
    ensures config == Loaded(disk)
    ensures HasDefaults(config)
  {
    var service := new SettingsService(disk);
    config := service.GetAllSettings();
    LoadedSpec(disk);
  }

  /** save_config: a fresh service loads the file, takes every valid item of config in order, then saves. */
  method SaveConfig(config: seq<(string, Value)>, disk: ConfigFile) returns (written: ConfigFile)
    ensures written == Present(ApplyValid(Loaded(disk), config))
  {
    var service := new SettingsService(disk);
    for i := 0 to |config|
      invariant service.settings == ApplyValid(Loaded(disk), config[..i])
    {
      var (key, value) := config[i];
      assert config[..i + 1][..i] == config[..i];
      if !ValidateSetting(key, value) {
        continue;
      }
      service.settings := service.settings[key := value];
    }
    assert config[..|config|] == config;
    service.SaveSettings();
    written := service.file;
  }

  // ---------------------------------------------------------------- properties

  /**
   * After loading, every default key is present, every key of the file keeps its value, and
   * nothing else appears; a missing or corrupt file gives exactly the defaults.
   */
  lemma LoadedSpec(file: ConfigFile)
    ensures HasDefaults(Loaded(file))
    ensures file.Present? ==> forall k :: k in file.contents ==> k in Loaded(file) && Loaded(file)[k] == file.contents[k]
    ensures file.Present? ==> forall k :: k in Loaded(file) && k !in file.contents ==> Loaded(file)[k] == DefaultSettings[k]
    ensures file.Present? ==> Loaded(file).Keys == file.contents.Keys + DefaultSettings.Keys
    ensures !file.Present? ==> Loaded(file) == DefaultSettings
  {
  }

  /** Saving settings that hold every default and loading them back gives the same settings. */
  lemma SaveLoadRoundTrip(m: SettingsMap)
    requires HasDefaults(m)
    ensures Loaded(Present(m)) == m
  {
    assert WithDefaults(m).Keys == m.Keys;
  }

  /** A value set_setting accepts is what get_setting returns next, whatever the default. */
  lemma SetThenGet(m: SettingsMap, key: Key, value: Value, default: Value)
    ensures Assign(m, key, value).1 ==> Lookup(Assign(m, key, value).0, key, default) == value
  {
  }

  /**
   * set_setting returns false exactly for a non-string key or a value its rule rejects, and
   * then changes nothing; otherwise only that key changes.
   */
  lemma AssignSpec(m: SettingsMap, key: Key, value: Value)
    ensures Assign(m, key, value).1 <==> key.Name? && ValidateSetting(key.name, value)
    ensures !Assign(m, key, value).1 ==> Assign(m, key, value).0 == m
    ensures Assign(m, key, value).0.Keys == if Assign(m, key, value).1 then m.Keys + {key.name} else m.Keys
    ensures forall k :: k in m && (key.NotAString? || k != key.name) ==> Assign(m, key, value).0[k] == m[k]
    ensures HasDefaults(m) ==> HasDefaults(Assign(m, key, value).0)
  {
  }

  /** The keys after save_config's loop: the old ones and those of the valid items. */
  lemma {:induction false} ApplyValidKeys(m: SettingsMap, items: seq<(string, Value)>)
    ensures ApplyValid(m, items).Keys == m.Keys + set i | 0 <= i < |items| && ValidateSetting(items[i].0, items[i].1) :: items[i].0
    ensures forall i :: 0 <= i < |items| && Rule(items[i].0).None? ==> items[i].0 in ApplyValid(m, items)
  {
    if items != [] {
      var n := |items| - 1;
      ApplyValidKeys(m, items[..n]);
      assert forall i :: 0 <= i < n ==> items[..n][i] == items[i];
    }
  }

  /** The values after save_config's loop: an old value or a valid item's, so validity is kept. */
  lemma {:induction false} ApplyValidValues(m: SettingsMap, items: seq<(string, Value)>)
    ensures forall k :: k in ApplyValid(m, items) ==>
      (k in m && ApplyValid(m, items)[k] == m[k]) || exists i :: 0 <= i < |items| && items[i] == (k, ApplyValid(m, items)[k]) && ValidateSetting(k, ApplyValid(m, items)[k])
    ensures AllValid(m) ==> AllValid(ApplyValid(m, items))
  {
    if items != [] {
      var n := |items| - 1;
      ApplyValidValues(m, items[..n]);
      assert forall i :: 0 <= i < n ==> items[..n][i] == items[i];
    }
  }

  /** The items save_config keeps: a key keeps the value of its last valid item, and keys without a rule are always kept. */
  lemma ApplyValidSpec(m: SettingsMap, items: seq<(string, Value)>)
    ensures ApplyValid(m, items).Keys == m.Keys + set i | 0 <= i < |items| && ValidateSetting(items[i].0, items[i].1) :: items[i].0
    ensures forall k :: k in ApplyValid(m, items) ==>
      (k in m && ApplyValid(m, items)[k] == m[k]) || exists i :: 0 <= i < |items| && items[i] == (k, ApplyValid(m, items)[k]) && ValidateSetting(k, ApplyValid(m, items)[k])
    ensures forall i :: 0 <= i < |items| && Rule(items[i].0).None? ==> items[i].0 in ApplyValid(m, items)
    ensures AllValid(m) ==> AllValid(ApplyValid(m, items))
  {
    ApplyValidKeys(m, items);
    ApplyValidValues(m, items);
  }
}
