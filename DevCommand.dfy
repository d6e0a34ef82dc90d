/** The action of `rolo dev` (packages/cli/commands/dev/index.ts): check for
    the config, read its `templateType`, and start the matching dev loop. */
module DevCommand {
  import opened Wrappers
  import opened JsonValues
  import opened Workspace
  import opened BuildCommand

  /** What the action does. */
  datatype DevDecision =
    | ExitWithError     // no rolo.config.json: logged, process.exit(1)
    | Crash             // JSON.parse or the property read threw: an unhandled rejection
    | StartVanillaDev   // vanillaDev() is started
    | ReactWip          // two "work in progress" messages; nothing starts
    | IncorrectTemplate // "Incorrect template used": nothing starts

  /** The decision on the config file, by `config.templateType` alone. */
  function DevAction(configFile: JsonFile): (d: DevDecision)
    ensures d == ExitWithError <==> configFile.Missing?
    ensures d == StartVanillaDev <==>
              && !configFile.Missing?
              && ReadJson(configFile).Some? && !ReadJson(configFile).value.JNull?
              && MemberOf(ReadJson(configFile).value, "templateType") == Val(JStr("vanilla"))
    ensures d == Crash <==>
              !configFile.Missing? && (ReadJson(configFile).None? || ReadJson(configFile).value.JNull?)
    ensures d == ReactWip <==>
              && !configFile.Missing?
              && ReadJson(configFile).Some? && !ReadJson(configFile).value.JNull?
              && MemberOf(ReadJson(configFile).value, "templateType") == Val(JStr("react"))
    ensures d == IncorrectTemplate <==>
              && !configFile.Missing?
              && ReadJson(configFile).Some? && !ReadJson(configFile).value.JNull?
              && MemberOf(ReadJson(configFile).value, "templateType") !in {Val(JStr("vanilla")), Val(JStr("react"))}
  {
    if configFile.Missing? then ExitWithError
    else
      match ReadJson(configFile)
      case None => Crash
      case Some(config) =>
        if config.JNull? then Crash
        else
          var templateType := MemberOf(config, "templateType");
          if templateType == Val(JStr("vanilla")) then StartVanillaDev
          else if templateType == Val(JStr("react")) then ReactWip
          else IncorrectTemplate
  }

  /** `dev` ignores `template`: adding or changing it never changes what
      `dev` does. */
  lemma DevIgnoresTemplate(fields: map<string, Json>, value: Json)
    ensures DevAction(Written(JObj(fields["template" := value]))) == DevAction(Written(JObj(fields)))
  {
    assert GetProperty(fields["template" := value], "templateType") == GetProperty(fields, "templateType");
  }

  /** A config naming its variant only under `template` is built as vanilla
      by `build` but rejected by `dev`. */
  lemma BuildAndDevDisagree()
    ensures var config := JObj(map["template" := JStr("vanilla")]);
            && BuildVariant(config) == Val(JStr("vanilla"))
            && DevAction(Written(config)) == IncorrectTemplate
  {
    var fields := map["template" := JStr("vanilla")];
    assert "templateType" !in fields && "templateType" !in ObjectPrototypeNames;
    assert "template" !in ObjectPrototypeNames;
  }

  /** When `templateType` is set, `dev` and `build` pick the same variant. */
  lemma AgreeOnTemplateType(fields: map<string, Json>)
    requires "templateType" in fields && Truthy(Val(fields["templateType"]))
    ensures var config := JObj(fields);
            && BuildVariant(config) == Val(fields["templateType"])
            && (DevAction(Written(config)) == StartVanillaDev <==> BuildVariant(config) == Val(JStr("vanilla")))
  {
  }
}
