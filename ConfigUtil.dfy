/** The helpers behind `rolo config` (packages/cli/utils/configUtil.ts):
    parsing a value given on the command line, merging objects, removing a
    key, and the mergeability check. */
module ConfigUtil {
  import opened Wrappers
  import opened Text
  import opened JsonValues
  import opened JsonParse
  import opened Workspace

  /** `parseConfigValue`: the JSON value the text denotes, or the text itself
      as a string when `JSON.parse` throws. */
  function ParseConfigValue(value: string): (r: Json)
    ensures Parse(value).Some? ==> r == Parse(value).value
    ensures Parse(value).None? ==> r == JStr(value)
  {
    match Parse(value)
    case Some(v) => v
    case None => JStr(value)
  }

  /** The JSON text of a value is parsed back to that value. */
  lemma ParseConfigValueOfJson(v: Json)
    requires Plain(v)
    ensures ParseConfigValue(Serialize(v)) == v
  {
    ParseSerialize(v);
  }

  /** Text whose first non-blank character cannot start a JSON value is kept
      as it is, as a string. */
  lemma ParseConfigValueOfWord(value: string)
    requires SkipWs(value) != []
    requires SkipWs(value)[0] !in {'n', 't', 'f', '"', '[', '{', '-'} && !IsDigit(SkipWs(value)[0])
    ensures ParseConfigValue(value) == JStr(value)
  {
    var s := SkipWs(value);
    assert DigitRun(s) == 0;
    assert ParseValue(s) == None;
  }

  /** A brace that does not open a JSON object is kept as text. */
  lemma ParseConfigValueOfBraces()
    ensures ParseConfigValue("{notjson}") == JStr("{notjson}")
  {
    var s := "{notjson}";
    assert SkipWs(s) == s;
    assert s[1..] == "notjson}";
    assert SkipWs(s[1..]) == s[1..];
    assert ParseMembers(s[1..]) == None;
  }

  /** The values the command-line tests give: plain words stay text, and an
      array literal becomes an array. */
  lemma ParseConfigValueExamples()
    ensures ParseConfigValue("Test Extension") == JStr("Test Extension")
    ensures ParseConfigValue("bar") == JStr("bar")
    ensures ParseConfigValue("[2,3,4]") == JArr([JNum(2), JNum(3), JNum(4)])
  {
    ParseConfigValueOfWord("Test Extension");
    ParseConfigValueOfWord("bar");
    var v := JArr([JNum(2), JNum(3), JNum(4)]);
    assert Serialize(v) == "[2,3,4]";
    ParseConfigValueOfJson(v);
  }

  /** The JSON text of an object with one integer member. */
  lemma SerializeSmallObject(k: string, n: int)
    ensures Serialize(JObj(map[k := JNum(n)])) == "{\"" + k + "\":" + IntToDecimal(n) + "}"
  {
    var v := JObj(map[k := JNum(n)]);
    assert v.fields.Keys == {k};
    assert PickKey({k}) == k;
    assert SerializeMembers(v, {k}) == "\"" + k + "\":" + IntToDecimal(n);
  }

  /** An object literal with one integer member becomes that object. */
  lemma ParseSmallObject(k: string, n: int)
    requires PlainText(k)
    ensures ParseConfigValue("{\"" + k + "\":" + IntToDecimal(n) + "}") == JObj(map[k := JNum(n)])
  {
    var v := JObj(map[k := JNum(n)]);
    SerializeSmallObject(k, n);
    assert Plain(v) by {
      assert v.fields.Keys == {k};
    }
    ParseConfigValueOfJson(v);
  }

  /** An object literal becomes an object. */
  lemma ParseConfigValueOfObject()
    ensures ParseConfigValue("{\"baz\":2}") == JObj(map["baz" := JNum(2)])
  {
    ParseSmallObject("baz", 2);
    assert "{\"" + "baz" + "\":" + IntToDecimal(2) + "}" == "{\"baz\":2}";
  }

  /** `mergeConfigObjects`: `{ ...existing, ...incoming }`. */
  function MergeConfigObjects(existing: map<string, Json>, incoming: map<string, Json>): (r: map<string, Json>)
    ensures r.Keys == existing.Keys + incoming.Keys
    ensures forall k :: k in incoming ==> r[k] == incoming[k]
    ensures forall k :: k in existing && k !in incoming ==> r[k] == existing[k]
  {
    existing + incoming
  }

  /** `checkIfKeyIsMergeableObject(config, key, parsedValue)`: `key` is an own
      property of `config` holding a non-null, non-array object, and
      `parsedValue` is one too. `key` is whatever value the caller passes;
      `config.hasOwnProperty(key)` turns it into a property key. The call
      throws when `config` is `undefined` or `null`, when it owns a
      `hasOwnProperty` field, or when `key` cannot be turned into a string. */
  function CheckIfKeyIsMergeableObject(config: JsValue, key: Json, parsedValue: JsValue): (r: Result<bool, TypeError>)
    ensures r.Failure? <==>
      (|| config.Undefined?
       || config == Val(JNull)
       || (config.Val? && config.json.JObj? && "hasOwnProperty" in config.json.fields)
       || HasUnconvertibleObject(key))
    ensures r.Success? ==>
      (r.value <==>
        && config.Val? && HasOwn(config.json, ToPropertyKey(key).value)
        && IsPlainObject(OwnProperty(config.json, ToPropertyKey(key).value))
        && IsPlainObject(parsedValue))
  {
    match CallHasOwnProperty(config, key)
    case Failure(e) => Failure(e)
    case Success(own) =>
      var member := if config.Val? then OwnProperty(config.json, ToPropertyKey(key).value) else Undefined;
      Success(own && IsPlainObject(member) && IsPlainObject(parsedValue))
  }

  /** On a config object, the check says exactly: the key is present, holds an
      object, and the new value is an object. */
  lemma MergeableOnObject(fields: map<string, Json>, key: string, parsedValue: JsValue)
    requires "hasOwnProperty" !in fields
    ensures CheckIfKeyIsMergeableObject(Val(JObj(fields)), JStr(key), parsedValue)
              == Success(key in fields && fields[key].JObj? && parsedValue.Val? && parsedValue.json.JObj?)
  {
  }

  /** With no third argument the check never answers `true`. */
  lemma NeverMergeableWithoutValue(config: JsValue, key: Json)
    ensures CheckIfKeyIsMergeableObject(config, key, Undefined) != Success(true)
  {
  }

  /** `removeConfigKey(config, key)`: when `config` owns `key`, delete it,
      write the config once and answer `true`; otherwise answer `false` and
      write nothing. */
  method RemoveConfigKey(config: JsObject, key: string, project: Project) returns (r: Result<bool, TypeError>)
    modifies config, project
    ensures "hasOwnProperty" in old(config.fields) ==>
              r == Failure(NotAFunction("hasOwnProperty"))
              && config.fields == old(config.fields)
              && project.configFile == old(project.configFile)
              && project.configWrites == old(project.configWrites)
    ensures "hasOwnProperty" !in old(config.fields) && key in old(config.fields) ==>
              r == Success(true)
              && config.fields == old(config.fields) - {key}
              && project.configFile == Written(JObj(config.fields))
              && project.configWrites == old(project.configWrites) + 1
    ensures "hasOwnProperty" !in old(config.fields) && key !in old(config.fields) ==>
              r == Success(false)
              && config.fields == old(config.fields)
              && project.configFile == old(project.configFile)
              && project.configWrites == old(project.configWrites)
    ensures project.publicDir == old(project.publicDir) && project.dist == old(project.dist)
  {
    var owns := CallHasOwnProperty(Val(JObj(config.fields)), JStr(key));
    if owns.Failure? {
      return Failure(owns.error);
    }
    if owns.value {
      config.fields := config.fields - {key};
      project.WriteConfig(config.fields);
      return Success(true);
    }
    return Success(false);
  }
}
