/** The parts of an extension project on disk that the commands read and
    write: `rolo.config.json`, the `public/` directory and the `dist/`
    output directory. Directories are maps from relative path to contents. */
module Workspace {
  import opened Wrappers
  import opened JsonValues
  import opened JsonParse

  /** A directory's files: relative path to contents. */
  type Dir = map<string, string>

  /** A JSON file: absent, text as a person left it, or a document written
      by `fs.writeJson`. */
  datatype JsonFile = Missing | Text(raw: string) | Written(doc: Json)

  /** Reading a present JSON file (`fs.readJson`, or `JSON.parse` of its
      text): `None` where the text is not in the modelled part of JSON
      (see JsonParse), which stands for the read throwing. */
  function ReadJson(f: JsonFile): (r: Option<Json>)
    requires !f.Missing?
  {
    match f
    case Text(raw) => Parse(raw)
    case Written(doc) => Some(doc)
  }

  /** A written document reads back as the value that was written: reading
      the JSON text of the value gives the same result as reading `Written`. */
  lemma WrittenReadsBack(doc: Json)
    requires Plain(doc)
    ensures ReadJson(Text(Serialize(doc))) == ReadJson(Written(doc))
  {
    ParseSerialize(doc);
  }

  /** What esbuild does when it bundles `src/index.js`: the bundle, or the
      error it throws. */
  datatype BundleOutcome = Bundled(code: string) | BundleError(message: string)

  /** The project directory the commands run in. */
  class Project {
    /** `rolo.config.json`. */
    var configFile: JsonFile
    /** How many times `rolo.config.json` has been written. */
    var configWrites: nat
    /** `public/`, when it exists. */
    var publicDir: Option<Dir>
    /** `dist/`; an absent directory is an empty one. */
    var dist: Dir

    constructor (configFile: JsonFile, publicDir: Option<Dir>, dist: Dir)
      ensures this.configFile == configFile && this.publicDir == publicDir && this.dist == dist
      ensures configWrites == 0
    {
      this.configFile := configFile;
      this.publicDir := publicDir;
      this.dist := dist;
      configWrites := 0;
    }

    /** `fs.writeJson('rolo.config.json', config)`. */
    method WriteConfig(fields: map<string, Json>)
      modifies this
      ensures configFile == Written(JObj(fields))
      ensures configWrites == old(configWrites) + 1
      ensures publicDir == old(publicDir) && dist == old(dist)
    {
      configFile := Written(JObj(fields));
      configWrites := configWrites + 1;
    }

    /** `fs.remove(distDir)`: the output directory is gone. */
    method RemoveDist()
      modifies this
      ensures dist == map[]
      ensures configFile == old(configFile) && configWrites == old(configWrites)
      ensures publicDir == old(publicDir)
    {
      dist := map[];
    }

    /** `fs.copy(publicDir, distDir)`, which overwrites by default. It throws
        when `public/` does not exist, reported here as `false`. */
    method CopyPublic() returns (ok: bool)
      modifies this
      ensures ok <==> publicDir.Some?
      ensures ok ==> dist == old(dist) + publicDir.value
      ensures !ok ==> dist == old(dist)
      ensures configFile == old(configFile) && configWrites == old(configWrites)
      ensures publicDir == old(publicDir)
    {
      match publicDir
      case None =>
        ok := false;
      case Some(files) =>
        dist := dist + files;
        ok := true;
    }

    /** An external tool (vite) leaves `files` as the output directory. */
    method ReplaceDist(files: Dir)
      modifies this
      ensures dist == files
      ensures publicDir == old(publicDir)
      ensures configFile == old(configFile) && configWrites == old(configWrites)
    {
      dist := files;
    }

    /** Files under `public/` are edited while the dev loop runs. */
    method EditPublic(files: Option<Dir>)
      modifies this
      ensures publicDir == files
      ensures dist == old(dist)
      ensures configFile == old(configFile) && configWrites == old(configWrites)
    {
      publicDir := files;
    }

    /** `fs.writeFile` of one file in `dist/`. */
    method WriteDistFile(path: string, contents: string)
      modifies this
      ensures dist == old(dist)[path := contents]
      ensures configFile == old(configFile) && configWrites == old(configWrites)
      ensures publicDir == old(publicDir)
    {
      dist := dist[path := contents];
    }
  }
}
