/** The vanilla dev loop (packages/cli/commands/dev/vanilla.ts): rebuild
    `dist/` from `public/` and `src/`, inject the live-reload snippet into
    `dist/index.html`, and tell connected pages to reload. The bundler is an
    outcome given as a parameter; the WebSocket server is seen only through
    the reload notifications it is asked to send. */
module DevVanilla {
  import opened Wrappers
  import opened Text
  import opened Workspace

  /** The address of the live-reload WebSocket; its presence marks a page
      that already carries the snippet. */
  const Marker: string := "ws://localhost:35729"

  /** The snippet up to the WebSocket address. */
  const ScriptHead: string :=
    "\n        <script>\n          (() => {\n            try {\n              const ws = new WebSocket(\""

  /** The snippet after the WebSocket address. */
  const ScriptTail: string :=
    "\");\n              ws.onmessage = () => {\n                console.log(\"[rolo] Reloading extension...\");\n                chrome.runtime.reload();\n              };\n            } catch (e) {\n              console.warn(\"[rolo] Live reload disabled:\", e.message);\n            }\n          })();\n        </script>"

  /** The live-reload `<script>` element injected into the page. */
  const ReloadScript: string := ScriptHead + Marker + ScriptTail

  /** The tag the snippet is placed before. */
  const BodyClose: string := "</body>"

  /** The snippet carries the marker. */
  lemma ReloadScriptHasMarker()
    ensures Contains(ReloadScript, Marker)
  {
    OccursBetween(ScriptHead, Marker, ScriptTail);
  }

  /** The page after injecting `snippet`: unchanged when it already holds the
      marker, otherwise the snippet goes before its first `</body>`. */
  function InjectSnippet(html: string, snippet: string): (r: string)
    ensures Contains(html, Marker) ==> r == html
    ensures !Contains(html, BodyClose) ==> r == html
    ensures Contains(snippet, Marker) ==>
              (Contains(r, Marker) <==> Contains(html, Marker) || Contains(html, BodyClose))
  {
    if Contains(html, Marker) then html
    else
      var r := ReplaceFirst(html, BodyClose, snippet + BodyClose);
      if Contains(html, BodyClose) then
        var k := IndexOf(html, BodyClose).value;
        var rest := BodyClose + html[k + |BodyClose|..];
        assert r == html[..k] + snippet + rest;
        ContainsWithin(html[..k], snippet, rest, Marker);
        r
      else r
  }

  /** The page `buildAll` writes for `html`. */
  function InjectReloadScript(html: string): string {
    InjectSnippet(html, ReloadScript)
  }

  /** Injection places the snippet right before the first `</body>` and
      changes nothing else; later `</body>` tags are left alone. */
  lemma InjectBeforeFirstBodyClose(html: string, snippet: string, k: nat)
    requires !Contains(html, Marker)
    requires OccursAt(html, BodyClose, k) && forall j: nat :: j < k ==> !OccursAt(html, BodyClose, j)
    ensures InjectSnippet(html, snippet) == html[..k] + snippet + html[k..]
  {
    var tail := html[k + |BodyClose|..];
    var r := ReplaceFirst(html, BodyClose, snippet + BodyClose);
    assert InjectSnippet(html, snippet) == r;
    ReplaceFirstAt(html, BodyClose, snippet + BodyClose, k);
    assert html[..k] + (snippet + BodyClose) + tail == html[..k] + snippet + (BodyClose + tail);
  }

  /** Injecting a snippet that carries the marker twice is injecting it once. */
  lemma InjectIdempotent(html: string, snippet: string)
    requires Contains(snippet, Marker)
    ensures InjectSnippet(InjectSnippet(html, snippet), snippet) == InjectSnippet(html, snippet)
  {
  }

  /** The page `buildAll` writes: the reload snippet once, before the first
      `</body>`, and only when the page has neither the marker already nor
      lacks a `</body>`; writing it again changes nothing. */
  lemma ReloadInjection(html: string)
    ensures Contains(InjectReloadScript(html), Marker) <==> Contains(html, Marker) || Contains(html, BodyClose)
    ensures InjectReloadScript(InjectReloadScript(html)) == InjectReloadScript(html)
  {
    ReloadScriptHasMarker();
    InjectIdempotent(html, ReloadScript);
  }

  /** How one `buildAll` ends. */
  datatype BuildAllOutcome =
    | BuildComplete             // the bundle was written to dist/index.js
    | BuildFailedLogged(message: string) // the bundler failed; the error is logged
    | PublicMissing             // copying public/ threw; buildAll rejects

  /** `dist/` after the copy and the injection: public's files, with the
      snippet injected into `index.html` when there is one. The build and the
      dev loop below take the snippet as a parameter, `reloadScript`, so their
      proofs do not depend on its text; `vanillaDev` passes `ReloadScript`. */
  function InjectedDist(publicFiles: Dir, reloadScript: string): (d: Dir)
    ensures d.Keys == publicFiles.Keys
    ensures forall f :: f in publicFiles && f != "index.html" ==> d[f] == publicFiles[f]
    ensures "index.html" in d ==> d["index.html"] == InjectSnippet(publicFiles["index.html"], reloadScript)
  {
    if "index.html" in publicFiles then
      publicFiles["index.html" := InjectSnippet(publicFiles["index.html"], reloadScript)]
    else publicFiles
  }

  /** `dist/` after the bundler has run on it. */
  function BundledDist(d: Dir, bundle: BundleOutcome): Dir {
    match bundle
    case Bundled(code) => d["index.js" := code]
    case BundleError(_) => d
  }

  /** How `buildAll` ends, given `public/` and the bundler's outcome. */
  function BuildAllResult(publicDir: Option<Dir>, bundle: BundleOutcome): BuildAllOutcome {
    match publicDir
    case None => PublicMissing
    case Some(_) =>
      match bundle
      case Bundled(_) => BuildComplete
      case BundleError(message) => BuildFailedLogged(message)
  }

  /** `dist/` after `buildAll`; it does not depend on what `dist/` held before. */
  function BuildAllDist(publicDir: Option<Dir>, bundle: BundleOutcome, reloadScript: string): Dir {
    match publicDir
    case None => map[]
    case Some(files) => BundledDist(InjectedDist(files, reloadScript), bundle)
  }

  /** `buildAll()`: remove `dist/`, copy `public/` into it, inject
      `reloadScript` into `dist/index.html` when it exists, then bundle
      `src/index.js` into `dist/index.js`. A bundler error is logged, not
      rethrown. */
  method BuildAll(project: Project, bundle: BundleOutcome, reloadScript: string) returns (outcome: BuildAllOutcome)
    modifies project
    ensures outcome == BuildAllResult(old(project.publicDir), bundle)
    ensures project.dist == BuildAllDist(old(project.publicDir), bundle, reloadScript)
    ensures project.publicDir == old(project.publicDir)
    ensures project.configFile == old(project.configFile) && project.configWrites == old(project.configWrites)
  {
    project.RemoveDist();
    var copied := project.CopyPublic();
    if !copied {
      return PublicMissing;
    }
    assert project.dist == project.publicDir.value;
    if "index.html" in project.dist {
      var html := project.dist["index.html"];
      if !Contains(html, Marker) {
        html := ReplaceFirst(html, BodyClose, reloadScript + BodyClose);
        project.WriteDistFile("index.html", html);
      }
    }
    assert project.dist == InjectedDist(project.publicDir.value, reloadScript);
    match bundle
    case Bundled(code) =>
      project.WriteDistFile("index.js", code);
      return BuildComplete;
    case BundleError(message) =>
      return BuildFailedLogged(message);
  }

  /** A bundler failure leaves `dist/` holding the copied public files, with
      the snippet injected into the page. */
  lemma BundleErrorKeepsCopy(files: Dir, message: string)
    ensures BuildAllDist(Some(files), BundleError(message), ReloadScript) == InjectedDist(files, ReloadScript)
    ensures forall f :: f in files && f != "index.html" ==>
              f in BuildAllDist(Some(files), BundleError(message), ReloadScript)
              && BuildAllDist(Some(files), BundleError(message), ReloadScript)[f] == files[f]
  {
  }

  /** After a build with a page that has a `</body>`, the page in `dist/`
      loads the live-reload snippet. */
  lemma BuiltPageReloads(files: Dir, bundle: BundleOutcome)
    requires "index.html" in files && Contains(files["index.html"], BodyClose)
    ensures "index.html" in BuildAllDist(Some(files), bundle, ReloadScript)
    ensures Contains(BuildAllDist(Some(files), bundle, ReloadScript)["index.html"], Marker)
  {
    ReloadInjection(files["index.html"]);
  }

  /** What the watcher sees when a file under `src/` or `public/` changes:
      the state of `public/` then, and what the bundler does on the rebuild. */
  datatype Change = Change(publicDir: Option<Dir>, bundle: BundleOutcome)

  /** What the dev loop does, in order: ask pages to reload, or finish a build. */
  datatype DevEvent = Reload | Built(outcome: BuildAllOutcome)

  /** The events the change handlers produce for `changes`, one after the
      other: a build, then a reload once the build has completed. A build
      that rejects (no `public/`) is an unhandled rejection, which ends the
      process. */
  function ChangesTrace(changes: seq<Change>): seq<DevEvent>
    decreases |changes|
  {
    if changes == [] then []
    else
      var outcome := BuildAllResult(changes[0].publicDir, changes[0].bundle);
      if outcome.PublicMissing? then [Built(outcome)]
      else [Built(outcome), Reload] + ChangesTrace(changes[1..])
  }

  /** The events of a whole dev session: a reload request at startup, the
      first build, then the change handlers'. */
  function DevTrace(publicDir: Option<Dir>, bundle: BundleOutcome, changes: seq<Change>): seq<DevEvent> {
    var first := BuildAllResult(publicDir, bundle);
    if first.PublicMissing? then [Reload, Built(first)]
    else [Reload, Built(first)] + ChangesTrace(changes)
  }

  /** In the handlers' events, every reload request comes right after a
      build that completed (successfully or with a logged bundler error). */
  lemma {:induction false} ChangesTraceReloadsAfterBuild(changes: seq<Change>)
    ensures var t := ChangesTrace(changes);
            && (t != [] ==> t[0].Built?)
            && forall i :: 0 <= i < |t| && t[i] == Reload ==>
                 i > 0 && t[i - 1].Built? && !t[i - 1].outcome.PublicMissing?
    decreases |changes|
  {
    if changes != [] {
      var outcome := BuildAllResult(changes[0].publicDir, changes[0].bundle);
      if !outcome.PublicMissing? {
        ChangesTraceReloadsAfterBuild(changes[1..]);
        var rest := ChangesTrace(changes[1..]);
        var t := [Built(outcome), Reload] + rest;
        forall i | 0 <= i < |t| && t[i] == Reload
          ensures i > 0 && t[i - 1].Built? && !t[i - 1].outcome.PublicMissing?
        {
          if i > 2 {
            assert t[i] == rest[i - 2] && t[i - 1] == rest[i - 3];
          }
        }
      }
    }
  }

  /** A session starts by asking pages to reload before anything is built,
      and every later reload request follows a completed build. */
  lemma DevTraceReloads(publicDir: Option<Dir>, bundle: BundleOutcome, changes: seq<Change>)
    ensures var t := DevTrace(publicDir, bundle, changes);
            && |t| >= 2 && t[0] == Reload && t[1] == Built(BuildAllResult(publicDir, bundle))
            && forall i :: 0 < i < |t| && t[i] == Reload ==>
                 t[i - 1].Built? && !t[i - 1].outcome.PublicMissing?
  {
    var t := DevTrace(publicDir, bundle, changes);
    if !BuildAllResult(publicDir, bundle).PublicMissing? {
      ChangesTraceReloadsAfterBuild(changes);
      var rest := ChangesTrace(changes);
      forall i | 0 < i < |t| && t[i] == Reload
        ensures t[i - 1].Built? && !t[i - 1].outcome.PublicMissing?
      {
        if i > 2 {
          assert t[i] == rest[i - 2] && t[i - 1] == rest[i - 3];
        }
      }
    }
  }

  /** While `public/` exists, every change is handled, bundler errors
      included: a build and then a reload per change. */
  lemma {:induction false} ChangesAllHandled(changes: seq<Change>)
    requires forall i :: 0 <= i < |changes| ==> changes[i].publicDir.Some?
    ensures var t := ChangesTrace(changes);
            && |t| == 2 * |changes|
            && forall j :: 0 <= j < |changes| ==>
                 t[2 * j] == Built(BuildAllResult(changes[j].publicDir, changes[j].bundle))
                 && t[2 * j + 1] == Reload
    decreases |changes|
  {
    if changes != [] {
      ChangesAllHandled(changes[1..]);
      var rest := ChangesTrace(changes[1..]);
      var t := ChangesTrace(changes);
      forall j | 0 <= j < |changes|
        ensures t[2 * j] == Built(BuildAllResult(changes[j].publicDir, changes[j].bundle))
        ensures t[2 * j + 1] == Reload
      {
        if j > 0 {
          assert changes[j] == changes[1..][j - 1];
          assert t[2 * j] == rest[2 * (j - 1)];
          assert t[2 * j + 1] == rest[2 * (j - 1) + 1];
        }
      }
    }
  }

  /** How many of the changes get handled before the session ends. */
  function HandledCount(changes: seq<Change>): (n: nat)
    ensures n <= |changes|
    decreases |changes|
  {
    if changes == [] then 0
    else if changes[0].publicDir.None? then 1
    else 1 + HandledCount(changes[1..])
  }

  /** The state of `public/` and the bundler outcome of the last build of a
      session. */
  function LastBuild(publicDir: Option<Dir>, bundle: BundleOutcome, changes: seq<Change>): Change {
    if publicDir.None? || HandledCount(changes) == 0 then Change(publicDir, bundle)
    else changes[HandledCount(changes) - 1]
  }

  /** One change handler's events, followed by the later handlers'. */
  lemma ChangesTraceStep(changes: seq<Change>, i: nat)
    requires i < |changes|
    ensures var outcome := BuildAllResult(changes[i].publicDir, changes[i].bundle);
            ChangesTrace(changes[i..]) ==
              if outcome.PublicMissing? then [Built(outcome)]
              else [Built(outcome), Reload] + ChangesTrace(changes[i + 1..])
    ensures HandledCount(changes[i..]) ==
              if changes[i].publicDir.None? then 1 else 1 + HandledCount(changes[i + 1..])
  {
    assert changes[i..][1..] == changes[i + 1..];
  }

  /** Events recorded so far, then a build, a reload and the later events. */
  lemma TraceExtend(trace: seq<DevEvent>, built: DevEvent, later: seq<DevEvent>)
    ensures trace + ([built, Reload] + later) == (trace + [built] + [Reload]) + later
  {
  }

  /** The watcher's change handler: `public/` as the change left it, then
      `buildAll()`. */
  method HandleChange(project: Project, change: Change, reloadScript: string) returns (outcome: BuildAllOutcome)
    modifies project
    ensures outcome == BuildAllResult(change.publicDir, change.bundle)
    ensures project.publicDir == change.publicDir
    ensures project.dist == BuildAllDist(change.publicDir, change.bundle, reloadScript)
    ensures project.configFile == old(project.configFile) && project.configWrites == old(project.configWrites)
  {
    project.EditPublic(change.publicDir);
    outcome := BuildAll(project, change.bundle, reloadScript);
  }

  /** The watcher at work: every change runs the handler, which builds and
      then asks pages to reload; a build that rejects ends the session. The
      project ends up as the last handled change built it. */
  method WatchChanges(project: Project, changes: seq<Change>, reloadScript: string) returns (events: seq<DevEvent>)
    requires project.publicDir.Some?
    modifies project
    ensures events == ChangesTrace(changes)
    ensures HandledCount(changes) == 0 ==>
              project.publicDir == old(project.publicDir) && project.dist == old(project.dist)
    ensures HandledCount(changes) > 0 ==>
              var last := changes[HandledCount(changes) - 1];
              project.publicDir == last.publicDir
              && project.dist == BuildAllDist(last.publicDir, last.bundle, reloadScript)
    ensures project.configFile == old(project.configFile) && project.configWrites == old(project.configWrites)
  {
    events := [];
    assert changes[0..] == changes;
    var i := 0;
    while i < |changes|
      invariant 0 <= i <= |changes|
      invariant events + ChangesTrace(changes[i..]) == ChangesTrace(changes)
      invariant HandledCount(changes) == i + HandledCount(changes[i..])
      invariant project.publicDir.Some?
      invariant i == 0 ==> project.publicDir == old(project.publicDir) && project.dist == old(project.dist)
      invariant i > 0 ==>
                  project.publicDir == changes[i - 1].publicDir
                  && project.dist == BuildAllDist(changes[i - 1].publicDir, changes[i - 1].bundle, reloadScript)
      invariant project.configFile == old(project.configFile) && project.configWrites == old(project.configWrites)
    {
      ChangesTraceStep(changes, i);
      var outcome := HandleChange(project, changes[i], reloadScript);
      if outcome.PublicMissing? {
        events := events + [Built(outcome)];
        return;
      }
      TraceExtend(events, Built(outcome), ChangesTrace(changes[i + 1..]));
      events := events + [Built(outcome)] + [Reload];
      i := i + 1;
    }
    assert changes[i..] == [];
  }

  /** `vanillaDev()`: notify, build, then rebuild and notify on every change.
      Edits to `public/` take effect before the build that follows them.
      `reloadScript` is the snippet every build injects (`ReloadScript`). */
  method VanillaDev(project: Project, bundle: BundleOutcome, changes: seq<Change>, reloadScript: string)
    returns (trace: seq<DevEvent>)
    modifies project
    ensures trace == DevTrace(old(project.publicDir), bundle, changes)
    ensures var last := LastBuild(old(project.publicDir), bundle, changes);
            project.publicDir == last.publicDir && project.dist == BuildAllDist(last.publicDir, last.bundle, reloadScript)
    ensures project.configFile == old(project.configFile) && project.configWrites == old(project.configWrites)
  {
    trace := [Reload];
    var outcome := BuildAll(project, bundle, reloadScript);
    trace := trace + [Built(outcome)];
    if outcome.PublicMissing? {
      return;
    }
    var events := WatchChanges(project, changes, reloadScript);
    trace := trace + events;
  }
}
