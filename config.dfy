/**
 * The configuration loader: the recursive merge of the user's YAML file
 * over the default configuration, and the migration of credentials kept
 * at the top level by older versions into `settings`.
 */
module Config {
  import opened Wrappers
  import opened Json

  // ---------------------------------------------------------------------------
  // Recursive merge
  // ---------------------------------------------------------------------------

  /**
   * The dict `_merge_configs` returns when it has started from `acc` and
   * has still to assign the entries of `custom` from index `i` on, in order:
   * a key whose value is a dict on both sides gets their merge, any other
   * key gets `custom`'s value.
   */
  function MergeFrom(acc: Fields, custom: Fields, i: nat): Fields
    decreases Obj(custom), |custom| - i
  {
    if i >= |custom| then acc
    else
      assert custom[i] in custom;
      var key := custom[i].0;
      MergeFrom(Put(acc, key, MergedValue(Get(acc, key), custom[i].1)), custom, i + 1)
  }

  /** The value one key of `custom` ends up with: the merge of two dicts, or `custom`'s value. */
  function MergedValue(before: Option<Value>, value: Value): Value
    decreases value, if value.Obj? then |value.fields| + 1 else 0
  {
    if before.Some? && before.value.Obj? && value.Obj?
    then assert Obj(value.fields) == value; Obj(MergeFrom(before.value.fields, value.fields, 0))
    else value
  }

  /** `_merge_configs(default, custom)` as a value. */
  function Merged(default: Fields, custom: Fields): Fields
  {
    MergeFrom(default, custom, 0)
  }

  /**
   * `_merge_configs(default, custom)`: copies `default`, then assigns each
   * entry of `custom` in turn, merging recursively where both values are dicts.
   */
  method MergeConfigs(default: Fields, custom: Fields) returns (result: Fields)
    ensures result == Merged(default, custom)
    ensures custom == [] ==> result == default
    decreases Obj(custom)
  {
    result := default;
    var i := 0;
    while i < |custom|
      invariant 0 <= i <= |custom|
      invariant MergeFrom(result, custom, i) == Merged(default, custom)
    {
      var (key, value) := custom[i];
      assert custom[i] in custom;
      var cur := Get(result, key);
      if cur.Some? && cur.value.Obj? && value.Obj? {
        assert Obj(value.fields) == value;
        var sub := MergeConfigs(cur.value.fields, value.fields);
        result := Put(result, key, Obj(sub));
      } else {
        result := Put(result, key, value);
      }
      i := i + 1;
    }
  }

  /** The keys still to be assigned from index `i` on. */
  lemma KeysFrom(custom: Fields, i: nat)
    requires i < |custom|
    ensures Keys(custom[i..]) == [custom[i].0] + Keys(custom[i + 1..])
  {
    assert custom[i..][1..] == custom[i + 1..];
  }

  /** The keys of the merge are exactly the keys of either side. */
  lemma {:induction false} MergedKeys(acc: Fields, custom: Fields, i: nat, key: string)
    requires i <= |custom|
    ensures key in Keys(MergeFrom(acc, custom, i)) <==> key in Keys(acc) || key in Keys(custom[i..])
    decreases |custom| - i
  {
    if i < |custom| {
      var k := custom[i].0;
      var value := MergedValue(Get(acc, k), custom[i].1);
      PutKeys(acc, k, value);
      MergedKeys(Put(acc, k, value), custom, i + 1, key);
      KeysFrom(custom, i);
    }
  }

  /** A key `custom` does not mention keeps the value it has in `default`. */
  lemma {:induction false} MergedKeepsDefault(acc: Fields, custom: Fields, i: nat, key: string)
    requires i <= |custom| && key !in Keys(custom[i..])
    ensures Get(MergeFrom(acc, custom, i), key) == Get(acc, key)
    decreases |custom| - i
  {
    if i < |custom| {
      var k := custom[i].0;
      KeysFrom(custom, i);
      MergedKeepsDefault(Put(acc, k, MergedValue(Get(acc, k), custom[i].1)), custom, i + 1, key);
    }
  }

  /**
   * A key of `custom` gets `custom`'s value, or the recursive merge when
   * the key holds a dict on both sides. Python dicts have each key once.
   */
  lemma {:induction false} MergedTakesCustom(acc: Fields, custom: Fields, i: nat, j: nat)
    requires UniqueKeys(custom) && i <= j < |custom|
    ensures Get(MergeFrom(acc, custom, i), custom[j].0) == Some(MergedValue(Get(acc, custom[j].0), custom[j].1))
    decreases |custom| - i
  {
    var k := custom[i].0;
    var next := Put(acc, k, MergedValue(Get(acc, k), custom[i].1));
    if i == j {
      assert k !in Keys(custom[i + 1..]) by {
        if k in Keys(custom[i + 1..]) {
          var n :| 0 <= n < |Keys(custom[i + 1..])| && Keys(custom[i + 1..])[n] == k;
          KeysAt(custom[i + 1..], n);
        }
      }
      MergedKeepsDefault(next, custom, i + 1, k);
    } else {
      MergedTakesCustom(next, custom, i + 1, j);
    }
  }

  /** Merging keeps a dict a dict: the result has each key once when `default` does. */
  lemma {:induction false} MergedUnique(acc: Fields, custom: Fields, i: nat)
    requires UniqueKeys(acc) && i <= |custom|
    ensures UniqueKeys(MergeFrom(acc, custom, i))
    decreases |custom| - i
  {
    if i < |custom| {
      var k := custom[i].0;
      var value := MergedValue(Get(acc, k), custom[i].1);
      PutUnique(acc, k, value);
      MergedUnique(Put(acc, k, value), custom, i + 1);
    }
  }

  /**
   * What the merge promises about each key: present iff present on either
   * side, `custom`'s value (or the merge of two dicts) where `custom` has
   * the key, `default`'s value elsewhere, and each key once.
   */
  lemma MergeContract(default: Fields, custom: Fields, key: string)
    requires UniqueKeys(default) && UniqueKeys(custom)
    ensures key in Keys(Merged(default, custom)) <==> key in Keys(default) || key in Keys(custom)
    ensures Get(Merged(default, custom), key) ==
      if Get(custom, key).Some? then Some(MergedValue(Get(default, key), Get(custom, key).value)) else Get(default, key)
    ensures UniqueKeys(Merged(default, custom))
  {
    assert custom[0..] == custom;
    MergedKeys(default, custom, 0, key);
    MergedUnique(default, custom, 0);
    if Get(custom, key).Some? {
      var j :| 0 <= j < |custom| && custom[j] == (key, Get(custom, key).value);
      MergedTakesCustom(default, custom, 0, j);
    } else {
      MergedKeepsDefault(default, custom, 0, key);
    }
  }

  // ---------------------------------------------------------------------------
  // Loading the file
  // ---------------------------------------------------------------------------

  /** What is found at the configuration path. */
  datatype ConfigFile =
    | Missing
    /** `yaml.safe_load` raises `YAMLError`. */
    | Unparsable
    | Parsed(doc: Value)

  /** Whether the file still holds credentials at the top level, as older versions wrote them. */
  predicate HasLegacyKeys(loaded: Fields)
  {
    "api_id" in Keys(loaded) || "api_hash" in Keys(loaded)
  }

  /** The `settings` dict of a loaded file; empty when there is none. */
  function SettingsOf(loaded: Fields): Fields
  {
    var s := Get(loaded, "settings");
    if s.Some? && s.value.Obj? then s.value.fields else []
  }

  /** Whether the migration would find a `settings` entry that is not a dict. */
  predicate SettingsBroken(loaded: Fields)
  {
    var s := Get(loaded, "settings");
    s.Some? && !s.value.Obj?
  }

  /**
   * The migration in `_load_config`: when `api_id` or `api_hash` sits at
   * the top level, `settings` is created empty if absent, and each of the
   * two keys is popped from the top level and stored in `settings`. `None`
   * when `settings` is not a dict, where the item assignment raises `TypeError`.
   */
  method Migrate(loaded: Fields) returns (r: Option<Fields>)
    requires UniqueKeys(loaded)
    ensures r.None? <==> HasLegacyKeys(loaded) && SettingsBroken(loaded)
    ensures r.Some? && !HasLegacyKeys(loaded) ==> r.value == loaded
    ensures r.Some? ==> UniqueKeys(r.value) && "api_id" !in Keys(r.value) && "api_hash" !in Keys(r.value)
    ensures r.Some? ==> forall k :: k != "settings" ==> Get(r.value, k) == Get(loaded, k) || k == "api_id" || k == "api_hash"
    ensures r.Some? && HasLegacyKeys(loaded) ==> Get(r.value, "settings") == Some(Obj(MovedInto(loaded, SettingsOf(loaded))))
  {
    if !HasLegacyKeys(loaded) {
      return Some(loaded);
    }
    var config := loaded;
    if "settings" !in Keys(config) {
      PutUnique(config, "settings", Obj([]));
      config := Put(config, "settings", Obj([]));
    }
    var settings := Get(config, "settings").value;
    if !settings.Obj? {
      return None;
    }
    var inner := settings.fields;
    assert inner == SettingsOf(loaded);
    if "api_id" in Keys(config) {
      var id := Get(config, "api_id").value;
      RemoveUnique(config, "api_id");
      config := Remove(config, "api_id");
      inner := Put(inner, "api_id", id);
    }
    if "api_hash" in Keys(config) {
      var hash := Get(config, "api_hash").value;
      RemoveUnique(config, "api_hash");
      config := Remove(config, "api_hash");
      inner := Put(inner, "api_hash", hash);
    }
    assert Get(config, "api_id").None? && Get(config, "api_hash").None?;
    assert inner == MovedInto(loaded, SettingsOf(loaded));
    PutUnique(config, "settings", Obj(inner));
    config := Put(config, "settings", Obj(inner));
    assert Get(config, "api_id").None? && Get(config, "api_hash").None?;
    r := Some(config);
  }

  /** `settings` after the migration: the top-level credentials stored over what it held. */
  function MovedInto(loaded: Fields, settings: Fields): (r: Fields)
    ensures forall k :: k == "api_id" || k == "api_hash" ==>
      Get(r, k) == if k in Keys(loaded) then Get(loaded, k) else Get(settings, k)
    ensures forall k :: k != "api_id" && k != "api_hash" ==> Get(r, k) == Get(settings, k)
  {
    var withId := if "api_id" in Keys(loaded) then Put(settings, "api_id", Get(loaded, "api_id").value) else settings;
    if "api_hash" in Keys(loaded) then Put(withId, "api_hash", Get(loaded, "api_hash").value) else withId
  }

  /** The migrated `settings` is still a dict with each key once. */
  lemma MovedUnique(loaded: Fields, settings: Fields)
    requires UniqueKeys(settings)
    ensures UniqueKeys(MovedInto(loaded, settings))
  {
    if "api_id" in Keys(loaded) {
      PutUnique(settings, "api_id", Get(loaded, "api_id").value);
    }
    var withId := if "api_id" in Keys(loaded) then Put(settings, "api_id", Get(loaded, "api_id").value) else settings;
    if "api_hash" in Keys(loaded) {
      PutUnique(withId, "api_hash", Get(loaded, "api_hash").value);
    }
  }

  /**
   * A key stored in the file's `settings` survives the merge over the
   * defaults: the merged `settings` holds it, merged with the default's
   * value only when both are dicts.
   */
  lemma SettingSurvivesMerge(default: Fields, custom: Fields, key: string, value: Value)
    requires UniqueKeys(default) && UniqueKeys(SettingsOf(default)) && UniqueKeys(custom)
    requires Get(custom, "settings").Some? && Get(custom, "settings").value.Obj?
    requires UniqueKeys(SettingsOf(custom)) && Get(SettingsOf(custom), key) == Some(value)
    ensures Get(SettingsOf(Merged(default, custom)), key) == Some(MergedValue(Get(SettingsOf(default), key), value))
  {
    MergeContract(default, custom, "settings");
    var d := Get(default, "settings");
    if d.Some? && d.value.Obj? {
      MergeContract(SettingsOf(default), SettingsOf(custom), key);
    }
  }

  /**
   * `_load_config` after the path is known. A missing file gets the
   * defaults, which are also written to it; an unparsable one gets the
   * defaults. A parsed file (`None` or any falsy document counting as an
   * empty dict) has its legacy credentials migrated, written back when
   * that changed anything, and is merged over the defaults. `config` is
   * `None` when the document is not a dict, or its `settings` is not one,
   * where the loader raises; `written` is what is written to the file.
   * YAML mappings have each key once.
   */
  method LoadConfig(file: ConfigFile, default: Fields) returns (config: Option<Fields>, written: Option<Fields>)
    requires UniqueKeys(default) && UniqueKeys(SettingsOf(default))
    requires file.Parsed? && file.doc.Obj? ==> UniqueKeys(file.doc.fields) && UniqueKeys(SettingsOf(file.doc.fields))
    ensures file.Missing? ==> config == Some(default) && written == Some(default)
    ensures file.Unparsable? ==> config == Some(default) && written.None?
    ensures file.Parsed? && !Truthy(file.doc) ==> config == Some(default) && written.None?
    ensures file.Parsed? && Truthy(file.doc) ==>
      (config.None? <==> !file.doc.Obj? || (HasLegacyKeys(file.doc.fields) && SettingsBroken(file.doc.fields)))
    ensures config.None? ==> written.None?
    ensures file.Parsed? && file.doc.Obj? && config.Some? ==>
      (written.Some? <==> HasLegacyKeys(file.doc.fields)) &&
      (!HasLegacyKeys(file.doc.fields) ==> config.value == Merged(default, file.doc.fields))
    ensures file.Parsed? && file.doc.Obj? && config.Some? ==>
      forall k :: (k == "api_id" || k == "api_hash") && k in Keys(file.doc.fields) ==>
        Get(SettingsOf(config.value), k) == Some(MergedValue(Get(SettingsOf(default), k), Get(file.doc.fields, k).value)) &&
        (k in Keys(config.value) <==> k in Keys(default))
  {
    match file
    case Missing =>
      return Some(default), Some(default);
    case Unparsable =>
      return Some(default), None;
    case Parsed(doc) =>
      if !Truthy(doc) {
        var merged := MergeConfigs(default, []);
        return Some(merged), None;
      }
      if !doc.Obj? {
        return None, None;
      }
      var loaded := doc.fields;
      written := None;
      if HasLegacyKeys(loaded) {
        var migrated := Migrate(loaded);
        if migrated.None? {
          return None, None;
        }
        loaded := migrated.value;
        written := Some(loaded);
        MovedUnique(doc.fields, SettingsOf(doc.fields));
        forall k | (k == "api_id" || k == "api_hash") && k in Keys(doc.fields)
          ensures Get(SettingsOf(Merged(default, loaded)), k) ==
            Some(MergedValue(Get(SettingsOf(default), k), Get(doc.fields, k).value))
          ensures k in Keys(Merged(default, loaded)) <==> k in Keys(default)
        {
          SettingSurvivesMerge(default, loaded, k, Get(doc.fields, k).value);
          MergeContract(default, loaded, k);
        }
      }
      var merged := MergeConfigs(default, loaded);
      config := Some(merged);
  }
}
