/** Cache keys scoped by command and project
    (packages/cli/utils/projectNamespace.ts). */
module ProjectNamespace {

  /** `setupProjectNamespace(command, projectName)`: `command:projectName`. */
  function SetupProjectNamespace(command: string, projectName: string): (ns: string)
    ensures |ns| == |command| + 1 + |projectName|
    ensures ns[..|command|] == command && ns[|command|] == ':' && ns[|command| + 1..] == projectName
  {
    command + ":" + projectName
  }

  /** `createKey(projectNamespace, key)`: `projectNamespace:key`. */
  function CreateKey(projectNamespace: string, key: string): (k: string)
    ensures |k| == |projectNamespace| + 1 + |key|
    ensures k[..|projectNamespace|] == projectNamespace && k[|projectNamespace|] == ':'
    ensures k[|projectNamespace| + 1..] == key
  {
    projectNamespace + ":" + key
  }

  /** A key made in a project's namespace is `command:projectName:key`. */
  lemma KeyInNamespace(command: string, projectName: string, key: string)
    ensures CreateKey(SetupProjectNamespace(command, projectName), key) == command + ":" + projectName + ":" + key
  {
  }

  /** A command without a colon is recovered from its namespace: different
      commands or different projects give different namespaces. */
  lemma NamespaceInjective(c1: string, p1: string, c2: string, p2: string)
    requires ':' !in c1 && ':' !in c2
    requires SetupProjectNamespace(c1, p1) == SetupProjectNamespace(c2, p2)
    ensures c1 == c2 && p1 == p2
  {
    var ns := SetupProjectNamespace(c1, p1);
    if |c1| != |c2| {
      assert false;
    }
    assert c1 == ns[..|c1|] == c2;
  }

  /** Colons in a command are not escaped: two different command/project
      pairs can share a namespace. */
  lemma NamespaceCollision()
    ensures SetupProjectNamespace("a:b", "c") == SetupProjectNamespace("a", "b:c")
  {
  }

  /** The characters `[a-zA-Z0-9]` that `formatProjectName` keeps. */
  predicate IsAsciiAlphanumeric(c: char) {
    ('a' <= c <= 'z') || ('A' <= c <= 'Z') || ('0' <= c <= '9')
  }

  /** `formatProjectName(projectName)`: every character outside `[a-zA-Z0-9]`
      becomes `-`, position by position. */
  function FormatProjectName(projectName: string): (r: string)
    ensures |r| == |projectName|
    ensures forall i :: 0 <= i < |r| ==> IsAsciiAlphanumeric(r[i]) || r[i] == '-'
    ensures forall i :: 0 <= i < |r| ==>
              r[i] == (if IsAsciiAlphanumeric(projectName[i]) then projectName[i] else '-')
    decreases |projectName|
  {
    if projectName == [] then []
    else
      var c := projectName[0];
      [if IsAsciiAlphanumeric(c) then c else '-'] + FormatProjectName(projectName[1..])
  }

  /** Formatting a formatted name changes nothing. */
  lemma FormatIdempotent(projectName: string)
    ensures FormatProjectName(FormatProjectName(projectName)) == FormatProjectName(projectName)
  {
    var once := FormatProjectName(projectName);
    var twice := FormatProjectName(once);
    assert |twice| == |once|;
    forall i | 0 <= i < |once|
      ensures twice[i] == once[i]
    {
    }
  }

  /** A name made only of `[a-zA-Z0-9-]` is left as it is. */
  lemma FormatKeepsFormatted(projectName: string)
    requires forall i :: 0 <= i < |projectName| ==> IsAsciiAlphanumeric(projectName[i]) || projectName[i] == '-'
    ensures FormatProjectName(projectName) == projectName
  {
    var r := FormatProjectName(projectName);
    assert |r| == |projectName|;
    forall i | 0 <= i < |r|
      ensures r[i] == projectName[i]
    {
    }
  }

  /** Formatting merges names: `my app` and `my.app` both become `my-app`. */
  lemma FormatCollision()
    ensures FormatProjectName("my app") == FormatProjectName("my.app") == "my-app"
  {
    assert FormatProjectName("my-app") == "my-app" by {
      FormatKeepsFormatted("my-app");
    }
    var a := FormatProjectName("my app");
    var b := FormatProjectName("my.app");
    assert a[2] == '-' && b[2] == '-';
    assert a == "my-app";
    assert b == "my-app";
  }
}
