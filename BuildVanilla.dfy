/** The production build of a vanilla project
    (packages/cli/commands/build/vanilla.ts): clear `dist/`, copy `public/`
    into it, and bundle `src/index.js` into `dist/index.js`. */
module BuildVanilla {
  import opened Wrappers
  import opened Workspace

  /** Why `vanillaBuild` throws. */
  datatype VanillaError =
    | NoPublicDir                 // copying public/ threw
    | BundleFailed(message: string) // rethrown as an Error with the bundler's message

  /** What `vanillaBuild` returns or throws. */
  function VanillaBuildResult(publicDir: Option<Dir>, bundle: BundleOutcome): Result<bool, VanillaError> {
    match publicDir
    case None => Failure(NoPublicDir)
    case Some(_) =>
      match bundle
      case Bundled(_) => Success(true)
      case BundleError(message) => Failure(BundleFailed(message))
  }

  /** `dist/` after `vanillaBuild`: public's files, plus the bundle when the
      bundler succeeds. Nothing is cleaned up after a failure. */
  function VanillaBuildDist(publicDir: Option<Dir>, bundle: BundleOutcome): (d: Dir)
    ensures publicDir.None? ==> d == map[]
    ensures publicDir.Some? ==> d.Keys == publicDir.value.Keys + (if bundle.Bundled? then {"index.js"} else {})
    ensures publicDir.Some? && bundle.Bundled? ==> d["index.js"] == bundle.code
    ensures publicDir.Some? ==>
              forall f :: f in publicDir.value && (f != "index.js" || bundle.BundleError?) ==>
                d[f] == publicDir.value[f]
  {
    match publicDir
    case None => map[]
    case Some(files) =>
      match bundle
      case Bundled(code) => files["index.js" := code]
      case BundleError(_) => files
  }

  /** `vanillaBuild({srcDir, publicDir, distDir})`. */
  method VanillaBuild(project: Project, bundle: BundleOutcome) returns (r: Result<bool, VanillaError>)
    modifies project
    ensures r == VanillaBuildResult(old(project.publicDir), bundle)
    ensures project.dist == VanillaBuildDist(old(project.publicDir), bundle)
    ensures project.publicDir == old(project.publicDir)
    ensures project.configFile == old(project.configFile) && project.configWrites == old(project.configWrites)
  {
    project.RemoveDist();
    var copied := project.CopyPublic();
    if !copied {
      return Failure(NoPublicDir);
    }
    assert project.dist == project.publicDir.value;
    match bundle
    case Bundled(code) =>
      project.WriteDistFile("index.js", code);
      return Success(true);
    case BundleError(message) =>
      return Failure(BundleFailed(message));
  }
}
