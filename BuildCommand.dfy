/** The action of `rolo build` (packages/cli/commands/build/index.ts): read
    the config, pick the template variant, clear `dist/`, build it, and copy
    `public/` over the result. Every error is caught and logged as
    `Build failed: <message>`. */
module BuildCommand {
  import opened Wrappers
  import opened JsonValues
  import opened Workspace
  import opened BuildVanilla

  /** What `npx vite build --minify` leaves: the output directory, and its
      error when it fails. */
  datatype ViteOutcome = ViteOutcome(output: Dir, error: Option<string>)

  /** The error caught by the action. */
  datatype BuildFault =
    | ConfigSyntax                   // JSON.parse of the config threw (text outside the modelled part of JSON)
    | ConfigNull                     // the config is `null`; reading its template threw
    | CopyFailed                     // copying public/ in vanillaBuild threw
    | BundlerFailed(message: string) // the bundler's error, rethrown by vanillaBuild
    | ViteFailed(message: string)    // vite exited with an error

  /** How the action ends. */
  datatype BuildReport =
    | ConfigNotFound           // no rolo.config.json: logged, nothing else happens
    | UnknownTemplate          // a variant other than react and vanilla: logged
    | BuildSucceeded           // "Production build complete!"
    | BuildFailed(fault: BuildFault) // logged as "Build failed: <message>"

  /** The report and the `dist/` directory the action leaves. */
  datatype BuildResult = BuildResult(report: BuildReport, dist: Dir)

  /** `config.templateType || config.template`. */
  function BuildVariant(config: Json): JsValue
    requires !config.JNull?
  {
    var templateType := MemberOf(config, "templateType");
    if Truthy(templateType) then templateType else MemberOf(config, "template")
  }

  /** `fs.copy(publicDir, outDir, { overwrite: true })` when `public/` exists. */
  function CopyOver(dist: Dir, publicDir: Option<Dir>): (d: Dir)
    ensures publicDir.None? ==> d == dist
    ensures publicDir.Some? ==> d.Keys == dist.Keys + publicDir.value.Keys
    ensures publicDir.Some? ==> forall f :: f in publicDir.value ==> d[f] == publicDir.value[f]
    ensures publicDir.Some? ==> forall f :: f in dist && f !in publicDir.value ==> d[f] == dist[f]
  {
    match publicDir
    case None => dist
    case Some(files) => dist + files
  }

  /** The whole action, from `rolo.config.json`, `public/`, `dist/`, the
      bundler's and vite's outcomes. */
  function BuildSpec(configFile: JsonFile, publicDir: Option<Dir>, dist: Dir,
                     bundle: BundleOutcome, vite: ViteOutcome): BuildResult
  {
    if configFile.Missing? then BuildResult(ConfigNotFound, dist)
    else
      match ReadJson(configFile)
      case None => BuildResult(BuildFailed(ConfigSyntax), dist)
      case Some(config) =>
        if config.JNull? then BuildResult(BuildFailed(ConfigNull), dist)
        else
          var variant := BuildVariant(config);
          if variant == Val(JStr("react")) then
            match vite.error
            case Some(message) => BuildResult(BuildFailed(ViteFailed(message)), vite.output)
            case None => BuildResult(BuildSucceeded, CopyOver(vite.output, publicDir))
          else if variant == Val(JStr("vanilla")) then
            var built := VanillaBuildDist(publicDir, bundle);
            match VanillaBuildResult(publicDir, bundle)
            case Failure(NoPublicDir) => BuildResult(BuildFailed(CopyFailed), built)
            case Failure(BundleFailed(message)) => BuildResult(BuildFailed(BundlerFailed(message)), built)
            case Success(_) => BuildResult(BuildSucceeded, CopyOver(built, publicDir))
          else BuildResult(UnknownTemplate, map[])
  }

  /** The `build` action. */
  method BuildAction(project: Project, bundle: BundleOutcome, vite: ViteOutcome) returns (report: BuildReport)
    modifies project
    ensures var spec := BuildSpec(old(project.configFile), old(project.publicDir), old(project.dist), bundle, vite);
            report == spec.report && project.dist == spec.dist
    ensures project.publicDir == old(project.publicDir)
    ensures project.configFile == old(project.configFile) && project.configWrites == old(project.configWrites)
  {
    if project.configFile.Missing? {
      return ConfigNotFound;
    }
    var read := ReadJson(project.configFile);
    if read.None? {
      return BuildFailed(ConfigSyntax);
    }
    var config := read.value;
    if config.JNull? {
      return BuildFailed(ConfigNull);
    }
    var templateType := BuildVariant(config);
    project.RemoveDist();
    if templateType == Val(JStr("react")) {
      project.ReplaceDist(vite.output);
      if vite.error.Some? {
        return BuildFailed(ViteFailed(vite.error.value));
      }
    } else if templateType == Val(JStr("vanilla")) {
      var built := VanillaBuild(project, bundle);
      match built
      case Failure(NoPublicDir) =>
        return BuildFailed(CopyFailed);
      case Failure(BundleFailed(message)) =>
        return BuildFailed(BundlerFailed(message));
      case Success(_) =>
    } else {
      return UnknownTemplate;
    }
    if project.publicDir.Some? {
      var copied := project.CopyPublic();
    }
    return BuildSucceeded;
  }

  /** Without `rolo.config.json` the action leaves `dist/` alone. */
  lemma MissingConfigLeavesDist(publicDir: Option<Dir>, dist: Dir, bundle: BundleOutcome, vite: ViteOutcome)
    ensures BuildSpec(Missing, publicDir, dist, bundle, vite) == BuildResult(ConfigNotFound, dist)
  {
  }

  /** `dist/` is removed before the variant is looked at: an unknown variant
      leaves no `dist/` and copies nothing. */
  lemma UnknownVariantClearsDist(config: Json, publicDir: Option<Dir>, dist: Dir, bundle: BundleOutcome, vite: ViteOutcome)
    requires !config.JNull?
    requires BuildVariant(config) != Val(JStr("react")) && BuildVariant(config) != Val(JStr("vanilla"))
    ensures BuildSpec(Written(config), publicDir, dist, bundle, vite) == BuildResult(UnknownTemplate, map[])
  {
  }

  /** The variant falls back to `template` only when `templateType` is
      absent or falsy (`""`, `null`, `false`, `0`): `||`, not `??`. */
  lemma VariantFallback(fields: map<string, Json>)
    ensures "templateType" !in fields && "template" in fields ==>
              BuildVariant(JObj(fields)) == Val(fields["template"])
    ensures "templateType" in fields && Truthy(Val(fields["templateType"])) ==>
              BuildVariant(JObj(fields)) == Val(fields["templateType"])
    ensures "templateType" in fields && !Truthy(Val(fields["templateType"])) ==>
              BuildVariant(JObj(fields)) == GetProperty(fields, "template")
  {
  }

  /** After a successful build every file of `public/` is in `dist/` as it is
      in `public/`: public files win every name clash, `index.js` included,
      and `manifest.json` is public's own, never overlaid with config values. */
  lemma PublicWins(configFile: JsonFile, files: Dir, dist: Dir, bundle: BundleOutcome, vite: ViteOutcome)
    requires BuildSpec(configFile, Some(files), dist, bundle, vite).report == BuildSucceeded
    ensures forall f :: f in files ==>
              f in BuildSpec(configFile, Some(files), dist, bundle, vite).dist
              && BuildSpec(configFile, Some(files), dist, bundle, vite).dist[f] == files[f]
  {
  }

  /** The config only chooses the variant: two configs with the same variant
      build the same `dist/`. */
  lemma ConfigOnlySelectsVariant(c1: Json, c2: Json, publicDir: Option<Dir>, dist: Dir,
                                 bundle: BundleOutcome, vite: ViteOutcome)
    requires !c1.JNull? && !c2.JNull? && BuildVariant(c1) == BuildVariant(c2)
    ensures BuildSpec(Written(c1), publicDir, dist, bundle, vite) == BuildSpec(Written(c2), publicDir, dist, bundle, vite)
  {
  }

  /** A vanilla build whose bundler fails reports the bundler's message and
      leaves the copied public files in `dist/`. */
  lemma BundlerErrorReported(config: Json, files: Dir, dist: Dir, message: string, vite: ViteOutcome)
    requires !config.JNull? && BuildVariant(config) == Val(JStr("vanilla"))
    ensures BuildSpec(Written(config), Some(files), dist, BundleError(message), vite)
              == BuildResult(BuildFailed(BundlerFailed(message)), files)
  {
  }

  /** A vanilla build with a bundle and no `index.js` in `public/` serves the
      bundle as `dist/index.js`. */
  lemma VanillaServesBundle(config: Json, files: Dir, dist: Dir, code: string, vite: ViteOutcome)
    requires !config.JNull? && BuildVariant(config) == Val(JStr("vanilla"))
    requires "index.js" !in files
    ensures var r := BuildSpec(Written(config), Some(files), dist, Bundled(code), vite);
            r.report == BuildSucceeded && "index.js" in r.dist && r.dist["index.js"] == code
  {
  }
}
