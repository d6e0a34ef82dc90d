# rolo CLI core, modelled in Dafny

rolo is a command-line tool for building browser extensions. This project models the small rules behind three of its commands and two of its helpers:

- **`rolo config`** reads `rolo.config.json`, then sets, adds to or removes one key, and writes the file back. The model covers the value parsing, the merge helper, key removal and the mergeability check.
- **`rolo build`** removes `dist/`. It then runs the template variant's build (vanilla: copy `public/`, bundle `src/index.js` with esbuild; react: `npx vite build`) and copies `public/` over the output.
- **`rolo dev`** checks the config and starts the vanilla dev loop. The loop rebuilds `dist/` on every change, injects a live-reload `<script>` into `index.html`, and asks open pages to reload.
- **The manifest overlay** copies config keys onto `manifest.json`.
- **The process cache** and the **namespace/key strings** are small stateful and string helpers.
- **The prompt-answering helpers** run a child process and answer its prompts: `executeWithPrompts`, `executeCliWithPrompts`, `executeNpmCommand`, the `CommandPromptBuilder` class and `executeWithConfirmations`.

The actions are modelled as written, whether or not the entry point registers them: packages/cli/bin/rolo.ts:14-15 registers only `init` and `dev`, so the shipped `rolo` binary does not reach `config` or `build`.

## Modelling choices

- **Mutable objects.** The config, the manifest and the project directory are mutated in place. They are classes (`JsonValues.JsObject`, `Workspace.Project`, `ProcessCache.ProcessCache`, `CommandPrompt.CommandPromptBuilder`) whose methods carry `modifies` clauses. Directories are `map<path, contents>`.
- **Pure code is functions with lemmas.** This covers value parsing, merging, the variant choice, the reload injection, the key strings and the prompt list mapping.
- **Step-by-step code is a method proved against a specification function.** Examples: `ConfigAction` against `ConfigSpec`, `BuildAction` against `BuildSpec`, `VanillaDev` against `DevTrace`, and `ExecuteWithPrompts` against `Run`.
- **Tools are parameters.** The bundler (esbuild) and vite are outcome parameters. The file changes the watcher sees are a sequence of `Change` values. The child process's output is a sequence of chunks.
- **`JSON.parse`** is a parser for the part of JSON that config values use: `null`, booleans, integers, strings without escapes, arrays, objects and whitespace. `ParseSerialize` proves that it reads back every value of that part that is written as JSON text.
- **JavaScript semantics are modelled where the code depends on them.** These are property lookup (including the names an object inherits from `Object.prototype`), truthiness, turning a value into a property key, and `hasOwnProperty` throwing on `undefined` and `null`.

### Where the code differs from what its tests and comments describe

The model follows the code.

- **`--add` never merges.** At packages/cli/commands/config/index.ts:70 the mergeability check is called with two arguments, `(existingValue, parsedValue)`, but it takes three (packages/cli/utils/configUtil.ts:87-91). Its third parameter is therefore `undefined`, so it never answers `true`. As a result:
  - `--add` replaces the value like a plain set (`AddNeverMerges`, `AddArrayReplaces`).
  - On a key the config lacks, it throws a `TypeError` and writes nothing (`AddToAbsentKeyCrashes`).
  - The test at packages/cli/__tests__/CLIConfig.test.ts:84-101 expects a union. The code does not produce one.
- **Setting an object value replaces.** The test at packages/cli/__tests__/CLIConfig.test.ts:58-69 is titled as a merge, but the code stores the parsed object in place of the old value (`SetObjectValue`).
- **The build never calls the manifest overlay.** `build` imports it (packages/cli/commands/build/index.ts:7) but never calls it. So the built `manifest.json` is `public/manifest.json`, and `BuildSpec` contains no overlay.
- **`build` and `dev` choose the variant differently.**
  - `build` uses `templateType || template` (packages/cli/commands/build/index.ts:24).
  - `dev` reads `templateType` only (packages/cli/commands/dev/index.ts:20).
  - A config with only `template: "vanilla"` therefore builds but does not start a dev loop (`BuildAndDevDisagree`).

## Model

| member | source | states |
|---|---|---|
| ConfigUtil.ParseConfigValue | packages/cli/utils/configUtil.ts:21-27 | the result is the parsed JSON value when the text parses, and otherwise the text itself as a string; it never fails |
| ConfigUtil.ParseConfigValueOfJson | packages/cli/utils/configUtil.ts:21-27 | the JSON text of any value (integers, escape-free strings, arrays, objects) is parsed back to that same value |
| ConfigUtil.ParseConfigValueOfBraces | packages/cli/__tests__/CLIConfig.test.ts:121-130 | `{notjson}` is not JSON, so the value kept is the string `"{notjson}"` |
| ConfigUtil.ParseConfigValueExamples | packages/cli/__tests__/CLIConfig.test.ts:32-43 | plain words stay strings, and `[2,3,4]` becomes an array of three numbers |
| ConfigUtil.ParseConfigValueOfObject | packages/cli/__tests__/CLIConfig.test.ts:58-69 | the text `{"baz":2}` becomes the object with one key `baz` holding 2 |
| ConfigUtil.ParseSmallObject | packages/cli/utils/configUtil.ts:21-27 | an object literal with one integer member, under an escape-free key, becomes that one-member object |
| ConfigUtil.MergeConfigObjects | packages/cli/utils/configUtil.ts:29-31 | the result's keys are the union of both objects' keys; incoming's values win, and keys only in existing keep their values |
| ConfigUtil.CheckIfKeyIsMergeableObject | packages/cli/utils/configUtil.ts:87-101 | it throws exactly when `config` is undefined or null, when it owns a `hasOwnProperty` field (a JSON value, so not callable), or when `key` cannot be turned into a property key; otherwise it is true exactly when `config` owns the key `key` converts to, `config[key]` is a non-null non-array object, and `parsedValue` is a non-null non-array object |
| ConfigUtil.MergeableOnObject | packages/cli/utils/configUtil.ts:87-101 | on a config object the check holds iff the key is present and both its value and the parsed value are plain objects |
| ConfigUtil.NeverMergeableWithoutValue | packages/cli/utils/configUtil.ts:87-101 | when the third argument is missing, the check never answers true |
| ConfigUtil.RemoveConfigKey | packages/cli/utils/configUtil.ts:75-85 | on a present key, the key is deleted, all other keys are kept, the config is written once and the result is true; on an absent key, the result is false and nothing changes or is written |
| ConfigCommand.ConfigAction | packages/cli/commands/config/index.ts:26-79 | the action ends as `ConfigSpec` says; the config file is written once with the resulting config when the spec writes, and left untouched otherwise; with `--add`, the mergeability check's TypeErrors escape in the source's order: the existing value is undefined or null, then it owns `hasOwnProperty`, then the parsed value cannot be turned into a property key |
| ConfigCommand.NoConfigNoWrite | packages/cli/commands/config/index.ts:27-28 | a missing, unreadable or falsy config ends the action with nothing written |
| ConfigCommand.RemoveIgnoresValue | packages/cli/commands/config/index.ts:30-37 | in remove mode, `--value` and the value prompt make no difference, and the effect is removing the key |
| ConfigCommand.SetReplaces | packages/cli/commands/config/index.ts:65-76 | set mode without `--add` writes `config[key] = parseConfigValue(value)` and keeps every other key |
| ConfigCommand.SetObjectValue | packages/cli/__tests__/CLIConfig.test.ts:58-69 | setting `foo` to `{"baz":2}` stores that object in place of whatever `foo` held |
| ConfigCommand.AddNeverMerges | packages/cli/commands/config/index.ts:68-75 | `--add` either has exactly the effect of plain set mode or fails with a TypeError, and never writes a merged object; it fails exactly when the existing value is undefined, null or an object owning `hasOwnProperty`, or when the parsed value is (or holds inside arrays) an object owning `toString` |
| ConfigCommand.AddObjectOwningToStringCrashes | packages/cli/utils/configUtil.ts:93 | with `foo = "bar"`, `--add` of `{"toString":1}` throws "cannot convert object to primitive value" and writes nothing |
| ConfigCommand.AddToAbsentKeyCrashes | packages/cli/commands/config/index.ts:66-71 | `--add` on an absent key calls `hasOwnProperty` on undefined, fails with a TypeError and writes nothing |
| ConfigCommand.AddArrayReplaces | packages/cli/__tests__/CLIConfig.test.ts:84-101 | with `arr = [1,2,3]`, `--add` of `[2,3,4]` writes `[2,3,4]`, not the union the test expects |
| ConfigCommand.AddStringReplaces | packages/cli/__tests__/CLIConfig.test.ts:104-118 | with `foo = "bar"`, `--add` of `baz` writes `"baz"` |
| ConfigToManifest.Overlay | packages/cli/utils/configToManifest.ts:11-19 | every copied config key (any key but `templateType` and `template`) holds the config's value; the manifest's own `templateType` and `template` and the keys absent from the config are kept |
| ConfigToManifest.OverlayIdempotent | packages/cli/utils/configToManifest.ts:11-19 | overlaying the same config twice gives the same manifest as overlaying it once |
| ConfigToManifest.ApplyConfigToManifest | packages/cli/utils/configToManifest.ts:11-19 | the loop mutates the manifest in place into `Overlay(old manifest, config)` and returns that same object |
| ConfigToManifest.InjectConfigIntoManifest | packages/cli/utils/configToManifest.ts:24-34 | a missing `manifest.json` is left alone; an existing one is rewritten as the overlay of what it held |
| ProcessCache.ProcessCache.constructor | packages/cli/utils/processCache.ts:4-5 | a new cache holds no entries |
| ProcessCache.ProcessCache.Get | packages/cli/utils/processCache.ts:11-13 | the result is the key's value when the key has an entry, and None otherwise |
| ProcessCache.ProcessCache.Has | packages/cli/utils/processCache.ts:15-17 | true exactly when `get` finds an entry |
| ProcessCache.ProcessCache.Set | packages/cli/utils/processCache.ts:7-9 | afterwards `get(key)` is the value and `has(key)` holds; every other key's entry is unchanged |
| ProcessCache.ProcessCache.Delete | packages/cli/utils/processCache.ts:19-21 | afterwards `has(key)` is false; other entries are unchanged; deleting an absent key changes nothing |
| ProcessCache.ProcessCache.Clear | packages/cli/utils/processCache.ts:23-25 | afterwards no key has an entry |
| ProjectNamespace.SetupProjectNamespace | packages/cli/utils/projectNamespace.ts:1-3 | the namespace is the command, a colon, then the project name |
| ProjectNamespace.CreateKey | packages/cli/utils/projectNamespace.ts:5-7 | the key is the namespace, a colon, then the key |
| ProjectNamespace.KeyInNamespace | packages/cli/utils/projectNamespace.ts:1-7 | a key made in a project's namespace is `command:projectName:key` |
| ProjectNamespace.NamespaceInjective | packages/cli/utils/projectNamespace.ts:1-3 | for commands without a colon, equal namespaces mean equal command and project name |
| ProjectNamespace.NamespaceCollision | packages/cli/utils/projectNamespace.ts:1-3 | colons are not escaped: `a:b` with `c` and `a` with `b:c` share a namespace |
| ProjectNamespace.FormatProjectName | packages/cli/utils/projectNamespace.ts:9-11 | the length is kept; each output character is `[A-Za-z0-9]` or `-`; ASCII alphanumerics stay in place and every other character becomes `-` |
| ProjectNamespace.FormatIdempotent | packages/cli/utils/projectNamespace.ts:9-11 | formatting a formatted name changes nothing |
| ProjectNamespace.FormatKeepsFormatted | packages/cli/utils/projectNamespace.ts:9-11 | a name made only of `[A-Za-z0-9-]` is its own format |
| ProjectNamespace.FormatCollision | packages/cli/utils/projectNamespace.ts:9-11 | distinct names can format alike: `my app` and `my.app` both give `my-app` |
| Workspace.Project.RemoveDist | packages/cli/commands/build/vanilla.ts:14 | `fs.remove` leaves `dist/` empty and touches nothing else |
| Workspace.Project.CopyPublic | packages/cli/commands/build/vanilla.ts:15 | `fs.copy` succeeds iff `public/` exists, and then adds public's files over `dist/`; otherwise `dist/` is unchanged |
| BuildVanilla.VanillaBuildDist | packages/cli/commands/build/vanilla.ts:14-27 | `dist/` holds exactly public's files plus `index.js` when the bundle succeeded (the bundle's code); no public directory leaves it empty |
| BuildVanilla.VanillaBuild | packages/cli/commands/build/vanilla.ts:5-28 | remove, copy, then bundle: it returns true or throws the bundler's message (or the copy error), and leaves `VanillaBuildDist` with no cleanup on failure |
| BuildCommand.CopyOver | packages/cli/commands/build/index.ts:55-59 | a copy with overwrite: public's files win on name clashes, and other files of `dist/` stay |
| BuildCommand.BuildAction | packages/cli/commands/build/index.ts:13-71 | the report and `dist/` are those of `BuildSpec`; `public/` and the config are not changed |
| BuildCommand.MissingConfigLeavesDist | packages/cli/commands/build/index.ts:17-22 | without `rolo.config.json`, the report is "config not found" and `dist/` is untouched |
| BuildCommand.UnknownVariantClearsDist | packages/cli/commands/build/index.ts:28 | an unknown variant is reported after `dist/` has been removed, and `dist/` is left empty |
| BuildCommand.VariantFallback | packages/cli/commands/build/index.ts:24 | the variant is `template` when `templateType` is absent or present but falsy (`""`, `null`, `false`, `0`), and `templateType` when it is truthy |
| BuildCommand.PublicWins | packages/cli/commands/build/index.ts:55-63 | after a successful build, every file of `public/` is in `dist/` with public's contents |
| BuildCommand.ConfigOnlySelectsVariant | packages/cli/commands/build/index.ts:7 | two configs with the same variant give the same build, so no other config key reaches the output (the overlay is never called) |
| BuildCommand.BundlerErrorReported | packages/cli/commands/build/index.ts:64-70 | the bundler's failure in a vanilla build is caught and reported with its message, and nothing propagates |
| BuildCommand.VanillaServesBundle | packages/cli/commands/build/index.ts:46-63 | a successful vanilla build with no `public/index.js` reports success, with the bundle as `dist/index.js` |
| DevCommand.DevAction | packages/cli/commands/dev/index.ts:10-35 | a missing config exits with an error; otherwise `templateType` alone decides: `vanilla` starts the dev loop, `react` only logs, and any other value, `undefined` included, is an error; a config that is not in the modelled part of JSON (see "## Left out"), or is `null`, crashes; each outcome is stated as an if-and-only-if |
| DevCommand.DevIgnoresTemplate | packages/cli/commands/dev/index.ts:20 | adding or changing `template` never changes what `dev` does |
| DevCommand.BuildAndDevDisagree | packages/cli/commands/build/index.ts:24 | a config with only `template: "vanilla"` is built as vanilla by `build` but rejected by `dev` |
| DevCommand.AgreeOnTemplateType | packages/cli/commands/dev/index.ts:20-28 | when `templateType` is truthy, `dev` starts the vanilla loop exactly when `build` chooses the vanilla variant |
| DevVanilla.ReloadScriptHasMarker | packages/cli/commands/dev/vanilla.ts:35-48 | the reload snippet contains the marker `ws://localhost:35729` |
| DevVanilla.InjectSnippet | packages/cli/commands/dev/vanilla.ts:50-54 | a page that has the marker, or no `</body>`, is unchanged; a snippet carrying the marker ends up in the result |
| DevVanilla.InjectBeforeFirstBodyClose | packages/cli/commands/dev/vanilla.ts:52 | the snippet goes right before the first `</body>`, and the rest of the page is kept |
| DevVanilla.InjectIdempotent | packages/cli/commands/dev/vanilla.ts:50-54 | injecting a snippet that carries the marker twice equals injecting it once |
| DevVanilla.ReloadInjection | packages/cli/commands/dev/vanilla.ts:35-54 | the built page has the marker iff the source page had the marker or a `</body>`, and injection is idempotent |
| DevVanilla.InjectedDist | packages/cli/commands/dev/vanilla.ts:28-55 | `dist/` holds public's files with only `index.html`, when it exists, injected |
| DevVanilla.BuildAll | packages/cli/commands/dev/vanilla.ts:26-68 | remove, copy, inject, bundle: the outcome is `BuildAllResult` and `dist/` is `BuildAllDist`, whatever it held before |
| DevVanilla.BundleErrorKeepsCopy | packages/cli/commands/dev/vanilla.ts:57-67 | a bundler failure is swallowed, and `dist/` keeps the copied files and the injected page |
| DevVanilla.BuiltPageReloads | packages/cli/commands/dev/vanilla.ts:31-54 | after a build, a page with `</body>` in `dist/` carries the reload snippet |
| DevVanilla.ChangesTraceReloadsAfterBuild | packages/cli/commands/dev/vanilla.ts:20-24 | in the change handlers' events, every reload comes right after a finished build |
| DevVanilla.DevTraceReloads | packages/cli/commands/dev/vanilla.ts:15-24 | a session asks pages to reload first, before any build; every later reload follows a finished build |
| DevVanilla.ChangesAllHandled | packages/cli/commands/dev/vanilla.ts:20-24 | while `public/` exists, each change produces its build and then a reload, in order, and bundler errors do not stop the loop |
| DevVanilla.HandledCount | packages/cli/commands/dev/vanilla.ts:20-24 | no more changes are handled than occurred |
| DevVanilla.HandleChange | packages/cli/commands/dev/vanilla.ts:20-23 | one change handler: `public/` as the change left it, then a full `buildAll` |
| DevVanilla.WatchChanges | packages/cli/commands/dev/vanilla.ts:20-24 | the watcher's events are `ChangesTrace(changes)`, and `dist/` is what the last handled change built |
| DevVanilla.VanillaDev | packages/cli/commands/dev/vanilla.ts:7-69 | the session's events are `DevTrace`: reload, build, then build and reload per change; `dist/` is the last build's output |
| CommandExecute.ExecuteWithPrompts | packages/cli/utils/commandExecute.ts:238-324 | the child is spawned with the command, the arguments and the remaining spawn options; the handlers update `output`, `errorOutput` and `promptNo` chunk by chunk into `Run(prompts, events)`; the result is its output with the exit code |
| CommandExecute.StepAdvance | packages/cli/utils/commandExecute.ts:255-290 | one event moves the cursor by at most one, and only a stdout chunk that contains the waiting prompt's pattern moves it |
| CommandExecute.OutputIsEveryChunk | packages/cli/utils/commandExecute.ts:255-257 | the resolved stdout and stderr are all chunks of each stream, concatenated in order |
| CommandExecute.PromptsAnsweredInOrder | packages/cli/utils/commandExecute.ts:264-288 | the cursor never passes the last prompt, and stdin receives the answers of prompts 0, 1, … in order, with `response + "\n"`, or a handler call instead, and an end after `endAfter` |
| CommandExecute.NoAnswersAfterLastPrompt | packages/cli/utils/commandExecute.ts:264 | once every prompt is answered, later output writes nothing more to stdin |
| CommandExecute.AnswersEndLast | packages/cli/utils/commandExecute.ts:283-285 | when only the last prompt has `endAfter`, the answers end stdin nowhere but at their very end, and not at all before the last prompt is answered |
| CommandExecute.NoActionAfterEnd | packages/cli/utils/commandExecute.ts:274-285 | when only the last prompt has `endAfter`, nothing is written to stdin, and no handler is called, after `stdin.end()` |
| CommandExecute.MatchedChunks | packages/cli/utils/commandExecute.ts:268-271 | one matched chunk per prompt answered, never more than there are prompts |
| CommandExecute.PromptsOfTuples | packages/cli/utils/commandExecute.ts:341-347 | one prompt per tuple, in order, with `endAfter` false when not given |
| CommandExecute.ExecuteCliWithPrompts | packages/cli/utils/commandExecute.ts:335-350 | it runs `executeWithPrompts` on the mapped prompts and spawns the child with the given options |
| CommandExecute.NpmInvocation | packages/cli/utils/commandExecute.ts:188-201 | the binary is `npm.cmd` on win32 and `npm` elsewhere; the arguments are the command's space-separated words; `cwd` is the given one unless the options set it |
| CommandExecute.NpmArgumentsRoundTrip | packages/cli/utils/commandExecute.ts:195 | words without spaces joined by spaces are split back into exactly those words |
| CommandPrompt.CommandPromptBuilder.constructor | packages/cli/utils/commandPrompt.ts:21-24 | a new builder has the command and arguments, no prompts, debug off, and no cwd or env |
| CommandPrompt.CommandPromptBuilder.AddPrompt | packages/cli/utils/commandPrompt.ts:32-43 | exactly one prompt `{pattern, response, endAfter}` is appended; nothing else changes; the same builder is returned |
| CommandPrompt.CommandPromptBuilder.AddCustomPromptHandler | packages/cli/utils/commandPrompt.ts:50-60 | exactly one prompt with response `''` and the handler is appended; nothing else changes |
| CommandPrompt.CommandPromptBuilder.WithWorkingDir | packages/cli/utils/commandPrompt.ts:66-69 | only the working directory changes; the same builder is returned |
| CommandPrompt.CommandPromptBuilder.WithEnv | packages/cli/utils/commandPrompt.ts:75-78 | only the environment changes; the same builder is returned |
| CommandPrompt.CommandPromptBuilder.WithDebug | packages/cli/utils/commandPrompt.ts:83-86 | only the debug flag changes, to on; the same builder is returned |
| CommandPrompt.CommandPromptBuilder.Execute | packages/cli/utils/commandPrompt.ts:92-99 | it spawns the builder's command and arguments with the builder's working directory and environment, and answers with the builder's prompts in insertion order |
| CommandPrompt.CommandPromptBuilder.ForNodeScript | packages/cli/utils/commandPrompt.ts:106-108 | a fresh builder for `node` with the script path followed by the arguments |
| CommandPrompt.CommandPromptBuilder.ForNpm | packages/cli/utils/commandPrompt.ts:115-119 | a fresh builder for `npm.cmd` on win32 or `npm` elsewhere, with the npm command followed by the arguments |
| CommandPrompt.ConfirmationPrompts | packages/cli/utils/commandPrompt.ts:129-141 | one prompt per confirmation, in order, each answering `y` when `yesForAll` and `n` otherwise |
| CommandPrompt.ExecuteWithConfirmations | packages/cli/utils/commandPrompt.ts:129-142 | the loop builds exactly `ConfirmationPrompts` and runs them; the child is spawned with no working directory or environment set |
| CommandPrompt.ConfirmationAnswers | packages/cli/utils/commandPrompt.ts:137-139 | every answer a confirmation run writes is the same `y` (or `n`) |
| JsonParse.ParseSerialize | packages/cli/utils/configUtil.ts:23 | `JSON.parse` reads the JSON text of every value in the modelled part of JSON back to that value |
| JsonParse.NumberRoundTrip | packages/cli/utils/configUtil.ts:23 | the decimal text of any integer, negative ones included, parses back to that integer |
| JsonParse.ValueRoundTrip | packages/cli/utils/configUtil.ts:23 | a value's JSON text followed by a delimiter parses to the value, with the remaining input intact |
| JsonValues.CallHasOwnProperty | packages/cli/utils/configUtil.ts:93 | `target.hasOwnProperty(key)` throws on undefined and null, on an object owning a `hasOwnProperty` field, and when `key` cannot be turned into a property key; on a JSON value it otherwise answers whether the value owns the converted key |
| JsonValues.ToPropertyKey | packages/cli/utils/configUtil.ts:93 | turning a value into a property key throws exactly when it is, or holds inside arrays, an object owning `toString`; a string is its own key, and any other object is `[object Object]` |
| Text.IndexOf | packages/cli/commands/dev/vanilla.ts:51 | the first position where the pattern occurs, or none exactly when it does not occur |
| Text.ReplaceFirst | packages/cli/commands/dev/vanilla.ts:52 | `replace` with a string pattern: the text is unchanged when the pattern is absent, and otherwise only the first occurrence is replaced |
| Text.Split | packages/cli/utils/commandExecute.ts:195 | `split(' ')` gives at least one piece, none of which holds the separator, and joining the pieces gives back the text |
| Text.SplitJoin | packages/cli/utils/commandExecute.ts:195 | splitting joined separator-free pieces gives those pieces back |

## Left out

- **The real file system, esbuild, vite and chokidar.**
  - Directories are maps and files are strings.
  - The bundler's and vite's results are outcome parameters.
  - The watcher's changes are a sequence of values.
  - Write failures of `fs.writeJson` and `fs.writeFile` are not modelled, and nor are their error logs.
- **The WebSocket server** (`reloadSocketUtils.ts`). `notifyClients` is a `Reload` event in the trace. Connections and messages are not modelled.
- **Overlapping rebuilds.** A second change can arrive while a build is still running. The model handles changes one after another.
- **An unhandled rejection ends the dev loop.** When `public/` is gone, `fs.copy` in `buildAll` rejects. The model ends the session there, as Node does by default for an unhandled rejection; later changes are not handled.
- **`JSON.parse` beyond the modelled part.** Fractions, exponents and string escape sequences are not parsed. Such text is treated as unparseable and kept as a string. JavaScript numbers are modelled as integers.
- ReadJson: a `rolo.config.json` or `manifest.json` that is valid JSON but holds a fraction, an exponent or a string escape sequence is outside the modelled part of JSON, so it counts as unreadable. `ConfigAction` then ends in `NoConfig`, `BuildAction` in `BuildFailed(ConfigSyntax)`, `DevAction` in `Crash` and `InjectConfigIntoManifest` in `ReadFailed`, where the source reads such a file normally.
- **`fs.writeJson` formatting.** The written config is stored as the value written, not as indented text. `Workspace.WrittenReadsBack` connects the two through the serializer.
- **The key `__proto__` and prototype setters.** Own properties are a plain map. Names inherited from `Object.prototype` are looked up as built-in values, without their exact identity.
- **`Array.from('[1, 2, 3]')`** at packages/cli/commands/config/index.ts:78 has no effect and is not modelled.
- **Key order.** `applyConfigToManifest` and `mergeConfigObjects` produce objects whose key order is not modelled, because objects are maps.
- **The `ProcessCache.get` prototype lookup.** `get` reads through the prototype chain; the model treats the cache as a plain map.
- ConfigAction: a config file holding a truthy array or primitive ends in `NotAnObject` with nothing written. This stands in for two behaviours of the source. With an array, the action goes on, sets or deletes the property on it and writes it back. With a primitive, assigning or deleting a property throws a TypeError, because modules run in strict mode.
- InjectConfigIntoManifest: a `manifest.json` holding an array or a primitive likewise ends in `NotAnObject`, with nothing written. When the config has a key to copy, the source overlays onto an array and writes it back, and throws on a primitive or on `null`; when it has none (it is empty, or holds only `templateType`/`template`), the source writes the value back unchanged.
- ExecuteWithPrompts: a prompt with `endAfter` that is not the last one can be followed by a matching chunk for the next prompt. The source then writes the answer to the ended stdin, and the unhandled stream error ends the process. The model records an ordinary `Write` and goes on. `NoActionAfterEnd` proves the model exact when only the last prompt has `endAfter`.
- **Inherited built-ins as receivers.** `CallHasOwnProperty` on a built-in that an object inherits (reached through a key such as `constructor` or `__proto__`) answers only for `length` and `name`, not for every property the built-in owns.
- **Log messages and debug output.** Error and success texts, the `debug` logging in `executeWithPrompts`, and the `onComplete` callback are not modelled; outcomes are datatype values.
- **RegExp prompt patterns.** Only string patterns, matched by substring, are modelled. Custom handlers are recorded as named calls; their own effects are not modelled.
- **Process details.** Aborting a prompt, a spawn error, options that are not strings in `executeNpmCommand`, and the platform are parameters or left out.
- **`executeCommand`, `spawnInteractiveCommand` and `cleanupChildProcess`** in commandExecute.ts are stream plumbing, and are not part of this model.
- **Other files.** `dev/react.ts`, the `init` scaffolding, `copyTemplate.ts`, the logger, `bin/rolo.ts` and the build configs are not part of this model.
- **UTF-16 surrogate pairs in `formatProjectName`.** Strings are sequences of characters; the per-code-unit replacement of a surrogate pair is not modelled.
- **The reload snippet is a parameter.** `InjectedDist`, `BuildAll`, `HandleChange`, `WatchChanges` and `VanillaDev` take the snippet as a parameter; `vanillaDev` passes `ReloadScript`, the literal of packages/cli/commands/dev/vanilla.ts:35-48. The lemmas about the built page are stated with `ReloadScript`.
