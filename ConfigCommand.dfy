/** The action of `rolo config` (packages/cli/commands/config/index.ts):
    read `rolo.config.json`, then either remove a key or set one, optionally
    "adding" to the value already there, and write the file back. Answers to
    the interactive prompts are parameters. */
module ConfigCommand {
  import opened Wrappers
  import opened Text
  import opened JsonValues
  import opened JsonParse
  import opened Workspace
  import opened ConfigUtil

  /** The command-line options `--remove`, `--add`, `--key` and `--value`. */
  datatype ConfigOptions = ConfigOptions(remove: bool, add: bool, key: Option<string>, value: Option<string>)

  /** How the action ends. */
  datatype ConfigOutcome =
    | NoConfig                 // the config is missing, outside the modelled part of JSON, or falsy: nothing happens
    | NotAnObject              // the config is truthy JSON that is not an object
    | Removed(removed: bool)   // remove mode: whether the key was there
    | Updated(key: string)     // set mode: the key that was written
    | Crashed(error: TypeError) // a TypeError escapes the action

  /** What the action does: how it ends and the config it writes, if any. */
  datatype ConfigEffect = ConfigEffect(outcome: ConfigOutcome, written: Option<map<string, Json>>)

  /** The key the action works on: `--key` unless it is absent or empty
      (falsy), in which case the prompt's answer. */
  function ChosenKey(opts: ConfigOptions, promptedKey: string): string {
    if opts.key.Some? && opts.key.value != "" then opts.key.value else promptedKey
  }

  /** The value text: `--value` unless it is absent, in which case the prompt's answer. */
  function ChosenValue(opts: ConfigOptions, promptedValue: string): string {
    if opts.value.Some? then opts.value.value else promptedValue
  }

  /** `mergeConfigObjects(existingValue, parsedValue)` where both are objects. */
  function Merged(existing: JsValue, parsed: Json): Json {
    if existing.Val? && existing.json.JObj? && parsed.JObj? then
      JObj(MergeConfigObjects(existing.json.fields, parsed.fields))
    else parsed
  }

  /** Remove mode on a config with own properties `fields`. */
  function RemoveEffect(fields: map<string, Json>, key: string): ConfigEffect {
    if "hasOwnProperty" in fields then ConfigEffect(Crashed(NotAFunction("hasOwnProperty")), None)
    else if key in fields then ConfigEffect(Removed(true), Some(fields - {key}))
    else ConfigEffect(Removed(false), None)
  }

  /** Set mode on a config with own properties `fields`. With `--add` the
      mergeability check is called as `(existingValue, parsedValue)`: the
      existing value stands in the config's place, the parsed value in the
      key's place (where `hasOwnProperty` turns it into a property key), and
      the third argument is `undefined`. */
  function SetEffect(fields: map<string, Json>, key: string, value: string, add: bool): ConfigEffect {
    var parsed := ParseConfigValue(value);
    var existing := GetProperty(fields, key);
    if add then
      match CheckIfKeyIsMergeableObject(existing, parsed, Undefined)
      case Failure(e) => ConfigEffect(Crashed(e), None)
      case Success(mergeable) =>
        ConfigEffect(Updated(key), Some(fields[key := if mergeable then Merged(existing, parsed) else parsed]))
    else ConfigEffect(Updated(key), Some(fields[key := parsed]))
  }

  /** The whole action on the config file as it is before the action. */
  function ConfigSpec(file: JsonFile, opts: ConfigOptions, promptedKey: string, promptedValue: string): ConfigEffect {
    if file.Missing? then ConfigEffect(NoConfig, None)
    else
      match ReadJson(file)
      case None => ConfigEffect(NoConfig, None)
      case Some(config) =>
        if !Truthy(Val(config)) then ConfigEffect(NoConfig, None)
        else if !config.JObj? then ConfigEffect(NotAnObject, None)
        else if opts.remove then RemoveEffect(config.fields, ChosenKey(opts, promptedKey))
        else SetEffect(config.fields, ChosenKey(opts, promptedKey), ChosenValue(opts, promptedValue), opts.add)
  }

  /** The `config` action. It writes the config at most once, and exactly
      once when it writes anything; nothing but the config file changes. */
  method ConfigAction(project: Project, opts: ConfigOptions, promptedKey: string, promptedValue: string)
    returns (outcome: ConfigOutcome)
    modifies project
    ensures var e := ConfigSpec(old(project.configFile), opts, promptedKey, promptedValue);
            && outcome == e.outcome
            && (e.written.Some? ==>
                  project.configFile == Written(JObj(e.written.value))
                  && project.configWrites == old(project.configWrites) + 1)
            && (e.written.None? ==>
                  project.configFile == old(project.configFile)
                  && project.configWrites == old(project.configWrites))
    ensures project.publicDir == old(project.publicDir) && project.dist == old(project.dist)
  {
    if project.configFile.Missing? {
      return NoConfig;
    }
    var read := ReadJson(project.configFile);
    if read.None? || !Truthy(Val(read.value)) {
      return NoConfig;
    }
    if !read.value.JObj? {
      return NotAnObject;
    }
    var config := new JsObject(read.value.fields);
    var key := if opts.key.Some? then opts.key.value else "";
    if opts.remove {
      if key == "" {
        key := promptedKey;
      }
      var removed := RemoveConfigKey(config, key, project);
      match removed
      case Failure(e) =>
        return Crashed(e);
      case Success(b) =>
        return Removed(b);
    }
    var value := if opts.value.Some? then opts.value.value else promptedValue;
    if key == "" {
      key := promptedKey;
    }
    var parsed := ParseConfigValue(value);
    var existing := GetProperty(config.fields, key);
    var mergeable := false;
    if opts.add {
      var check := CheckIfKeyIsMergeableObject(existing, parsed, Undefined);
      if check.Failure? {
        return Crashed(check.error);
      }
      mergeable := check.value;
    }
    config.fields := config.fields[key := if mergeable then Merged(existing, parsed) else parsed];
    project.WriteConfig(config.fields);
    return Updated(key);
  }

  /** Without a readable, truthy config the action writes nothing. */
  lemma NoConfigNoWrite(file: JsonFile, opts: ConfigOptions, promptedKey: string, promptedValue: string)
    requires file.Missing? || ReadJson(file).None? || !Truthy(Val(ReadJson(file).value))
    ensures ConfigSpec(file, opts, promptedKey, promptedValue) == ConfigEffect(NoConfig, None)
  {
  }

  /** Remove mode ignores `--value` and never asks for one. */
  lemma RemoveIgnoresValue(file: JsonFile, opts: ConfigOptions, otherValue: Option<string>,
                           promptedKey: string, promptedValue: string, otherPromptedValue: string)
    requires opts.remove
    ensures ConfigSpec(file, opts, promptedKey, promptedValue)
              == ConfigSpec(file, opts.(value := otherValue), promptedKey, otherPromptedValue)
  {
  }

  /** Set mode without `--add` replaces the key's value by the parsed value:
      the key reads back as that value and every other property reads as
      before. */
  lemma SetReplaces(fields: map<string, Json>, key: string, value: string)
    ensures var e := SetEffect(fields, key, value, false);
            && e.outcome == Updated(key)
            && e.written.Some?
            && e.written.value.Keys == fields.Keys + {key}
            && GetProperty(e.written.value, key) == Val(ParseConfigValue(value))
            && (forall k :: k != key ==> GetProperty(e.written.value, k) == GetProperty(fields, k))
  {
  }

  /** `--add` never merges: it either does what plain set mode does or
      crashes, and it crashes exactly when the existing value is `undefined`,
      `null`, or an object owning a `hasOwnProperty` field, or when the parsed
      value cannot be turned into a property key. */
  lemma AddNeverMerges(fields: map<string, Json>, key: string, value: string)
    ensures var existing := GetProperty(fields, key);
            var crashes := || existing.Undefined?
                           || existing == Val(JNull)
                           || (existing.Val? && existing.json.JObj? && "hasOwnProperty" in existing.json.fields)
                           || HasUnconvertibleObject(ParseConfigValue(value));
            && (crashes ==> SetEffect(fields, key, value, true).outcome.Crashed?
                            && SetEffect(fields, key, value, true).written.None?)
            && (!crashes ==> SetEffect(fields, key, value, true) == SetEffect(fields, key, value, false))
  {
    var parsed := ParseConfigValue(value);
    NeverMergeableWithoutValue(GetProperty(fields, key), parsed);
  }

  /** `--add` on a key the config does not have calls `hasOwnProperty` on
      `undefined`: a TypeError, and nothing is written. */
  lemma AddToAbsentKeyCrashes(fields: map<string, Json>, key: string, value: string)
    requires key !in fields && key !in ObjectPrototypeNames
    ensures SetEffect(fields, key, value, true)
              == ConfigEffect(Crashed(CannotReadProperty("undefined", "hasOwnProperty")), None)
  {
  }

  /** `foo` holds `"bar"`; `--add` with `{"toString":1}` throws while turning
      the object into a property key, and nothing is written. */
  lemma AddObjectOwningToStringCrashes()
    ensures SetEffect(map["foo" := JStr("bar")], "foo", "{\"toString\":1}", true)
              == ConfigEffect(Crashed(CannotConvertToPrimitive), None)
  {
    ParseSmallObject("toString", 1);
    assert "{\"" + "toString" + "\":" + IntToDecimal(1) + "}" == "{\"toString\":1}";
  }

  /** `arr` holds `[1,2,3]`; `--add` with `[2,3,4]` leaves `[2,3,4]`, not the
      union `[1,2,3,4]`. */
  lemma AddArrayReplaces()
    ensures var before := map["arr" := JArr([JNum(1), JNum(2), JNum(3)])];
            SetEffect(before, "arr", "[2,3,4]", true)
              == ConfigEffect(Updated("arr"), Some(map["arr" := JArr([JNum(2), JNum(3), JNum(4)])]))
  {
    var before := map["arr" := JArr([JNum(1), JNum(2), JNum(3)])];
    ParseConfigValueExamples();
    AddNeverMerges(before, "arr", "[2,3,4]");
    assert before["arr" := JArr([JNum(2), JNum(3), JNum(4)])] == map["arr" := JArr([JNum(2), JNum(3), JNum(4)])];
  }

  /** Setting `foo` to `{"baz":2}` stores the object, whatever `foo` held. */
  lemma SetObjectValue(fields: map<string, Json>)
    ensures var e := SetEffect(fields, "foo", "{\"baz\":2}", false);
            e.written.Some? && e.written.value["foo"] == JObj(map["baz" := JNum(2)])
  {
    ParseConfigValueOfObject();
  }

  /** `foo` holds `"bar"`; `--add` with `baz` leaves `"baz"`. */
  lemma AddStringReplaces()
    ensures var before := map["foo" := JStr("bar")];
            SetEffect(before, "foo", "baz", true)
              == ConfigEffect(Updated("foo"), Some(map["foo" := JStr("baz")]))
  {
    var before := map["foo" := JStr("bar")];
    ParseConfigValueOfWord("baz");
    AddNeverMerges(before, "foo", "baz");
    assert before["foo" := JStr("baz")] == map["foo" := JStr("baz")];
  }
}
