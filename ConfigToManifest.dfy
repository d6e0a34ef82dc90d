/** Copying config values onto an extension manifest
    (packages/cli/utils/configToManifest.ts). */
module ConfigToManifest {
  import opened Wrappers
  import opened JsonValues
  import opened Workspace

  /** Config keys that describe the project template, not the extension. */
  const Reserved: set<string> := {"templateType", "template"}

  /** The config's keys that are copied onto the manifest. */
  function CopiedKeys(config: map<string, Json>): set<string> {
    config.Keys - Reserved
  }

  /** The manifest after copying the config's keys in `keys` onto it. */
  function OverlayKeys(manifest: map<string, Json>, config: map<string, Json>, keys: set<string>): map<string, Json>
    requires keys <= config.Keys
  {
    manifest + map k | k in keys :: config[k]
  }

  /** The manifest after every copied key of the config is assigned onto it. */
  function Overlay(manifest: map<string, Json>, config: map<string, Json>): (r: map<string, Json>)
    ensures r.Keys == manifest.Keys + CopiedKeys(config)
    ensures forall k :: k in CopiedKeys(config) ==> r[k] == config[k]
    ensures forall k :: k in Reserved && k in manifest ==> r[k] == manifest[k]
    ensures forall k :: k in manifest && k !in config ==> r[k] == manifest[k]
  {
    OverlayKeys(manifest, config, CopiedKeys(config))
  }

  /** Overlaying the same config twice is overlaying it once. */
  lemma OverlayIdempotent(manifest: map<string, Json>, config: map<string, Json>)
    ensures Overlay(Overlay(manifest, config), config) == Overlay(manifest, config)
  {
    var once := Overlay(manifest, config);
    var twice := Overlay(once, config);
    assert twice.Keys == once.Keys;
    forall k | k in once
      ensures twice[k] == once[k]
    {
      if k in CopiedKeys(config) {
        assert twice[k] == config[k] == once[k];
      }
    }
  }

  /** `applyConfigToManifest(manifest, config)`: assign every config key other
      than `templateType` and `template` onto the manifest object, in place,
      and return that same object. */
  method ApplyConfigToManifest(manifest: JsObject, config: map<string, Json>) returns (r: JsObject)
    modifies manifest
    ensures r == manifest
    ensures manifest.fields == Overlay(old(manifest.fields), config)
  {
    var keys := CopiedKeys(config);
    ghost var done: set<string> := {};
    while keys != {}
      invariant keys !! done && keys + done == CopiedKeys(config)
      invariant manifest.fields == OverlayKeys(old(manifest.fields), config, done)
      decreases keys
    {
      var key :| key in keys;
      manifest.fields := manifest.fields[key := config[key]];
      keys := keys - {key};
      done := done + {key};
    }
    return manifest;
  }

  /** The file `<distDir>/manifest.json`. */
  class ManifestFile {
    var content: JsonFile

    constructor (content: JsonFile)
      ensures this.content == content
    {
      this.content := content;
    }
  }

  /** How `injectConfigIntoManifest` ends. */
  datatype InjectOutcome =
    | NoManifest    // there is no manifest.json: nothing happens
    | Injected      // the overlaid manifest was written
    | ReadFailed    // manifest.json is not in the modelled part of JSON: the read throws
    | NotAnObject   // manifest.json holds JSON that is not an object

  /** `injectConfigIntoManifest(distDir, config)`: when the manifest exists,
      read it, overlay the config and write it back. */
  method InjectConfigIntoManifest(file: ManifestFile, config: map<string, Json>) returns (outcome: InjectOutcome)
    modifies file
    ensures old(file.content).Missing? ==> outcome == NoManifest && file.content == old(file.content)
    ensures !old(file.content).Missing? ==>
              match ReadJson(old(file.content))
              case Some(JObj(fields)) =>
                outcome == Injected && file.content == Written(JObj(Overlay(fields, config)))
              case Some(_) => outcome == NotAnObject && file.content == old(file.content)
              case None => outcome == ReadFailed && file.content == old(file.content)
  {
    if file.content.Missing? {
      return NoManifest;
    }
    var read := ReadJson(file.content);
    if read.None? {
      return ReadFailed;
    }
    if !read.value.JObj? {
      return NotAnObject;
    }
    var manifest := new JsObject(read.value.fields);
    var updated := ApplyConfigToManifest(manifest, config);
    file.content := Written(JObj(updated.fields));
    return Injected;
  }
}
