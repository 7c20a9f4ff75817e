/**
 * Which loaded assemblies the post-processor works on (AssemblyPostProcessor.cs,
 * lines 28-37). An assembly belongs to the project when its location, with
 * backslashes turned into slashes, starts with the project root: the data path
 * without its trailing "/Assets". Every loaded assembly's directory is
 * collected for the resolver, in the project or not.
 */
module ProjectFilter {
  import opened Options

  /** String.Replace('\\', '/'): every backslash becomes a slash, every other character stays. */
  function NormalizeSeparators(path: string): (r: string)
    ensures |r| == |path|
    ensures forall i | 0 <= i < |path| :: r[i] == (if path[i] == '\\' then '/' else path[i])
  {
    if path == [] then [] else [if path[0] == '\\' then '/' else path[0]] + NormalizeSeparators(path[1..])
  }

  /** A normalized path holds no backslash, so normalizing it again changes nothing. */
  lemma NormalizeSeparatorsIdempotent(path: string)
    ensures '\\' !in NormalizeSeparators(path)
    ensures NormalizeSeparators(NormalizeSeparators(path)) == NormalizeSeparators(path)
  {
    var r := NormalizeSeparators(path);
    forall i | 0 <= i < |r|
      ensures r[i] != '\\'
    {
    }
  }

  /**
   * Application.dataPath ends in "/Assets"; the project root is what comes
   * before it. String.Substring throws on a data path shorter than seven
   * characters, which is `None` here.
   */
  function ProjectRoot(dataPath: string): (r: Option<string>)
    ensures r.None? <==> |dataPath| < 7
    ensures r.Some? ==> |r.value| + 7 == |dataPath| && r.value + dataPath[|dataPath| - 7..] == dataPath
  {
    if |dataPath| < 7 then None else Some(dataPath[..|dataPath| - 7])
  }

  /** The root of a project whose data path is `root + "/Assets"` is `root`. */
  lemma ProjectRootOfDataPath(root: string)
    ensures ProjectRoot(root + "/Assets") == Some(root)
  {
    var dataPath := root + "/Assets";
    assert dataPath[..|dataPath| - 7] == root;
  }

  /** String.StartsWith, compared character by character. */
  predicate StartsWith(s: string, prefix: string)
  {
    |prefix| <= |s| && s[..|prefix|] == prefix
  }

  /** Line 31: the assembly at `location` lies under the project root. */
  predicate IsProjectAssembly(location: string, root: string)
  {
    StartsWith(NormalizeSeparators(location), root)
  }

  /**
   * A location under the project root, whatever separators follow the root,
   * is kept: the root holds none of the backslashes the test replaces.
   */
  lemma UnderRootIsProjectAssembly(root: string, rest: string)
    requires '\\' !in root
    ensures IsProjectAssembly(root + rest, root)
  {
    var n := NormalizeSeparators(root + rest);
    forall i | 0 <= i < |root|
      ensures n[i] == root[i]
    {
      assert (root + rest)[i] == root[i];
    }
  }

  predicate IsSeparator(c: char)
  {
    c == '/' || c == '\\'
  }

  /** The position of the last separator in `path`, if it has one. */
  function LastSeparator(path: string): (r: Option<nat>)
    ensures r.Some? ==>
      && r.value < |path| && IsSeparator(path[r.value])
      && forall i | r.value < i < |path| :: !IsSeparator(path[i])
    ensures r.None? ==> forall i | 0 <= i < |path| :: !IsSeparator(path[i])
  {
    if path == [] then None
    else if IsSeparator(path[|path| - 1]) then Some(|path| - 1)
    else LastSeparator(path[..|path| - 1])
  }

  /**
   * Path.GetDirectoryName: the part of `path` before its last separator, or
   * "" when it has none. The result is a prefix of the path and is followed
   * there by a separator, after which no separator comes.
   */
  function DirectoryName(path: string): (r: string)
    ensures StartsWith(path, r)
    ensures r == "" || (|r| < |path| && IsSeparator(path[|r|]))
    ensures forall i | |r| < i < |path| :: !IsSeparator(path[i])
  {
    match LastSeparator(path)
    case None => ""
    case Some(i) => path[..i]
  }

  /** Whether the assembly at `location` is kept for the data path `dataPath`. */
  predicate InProject(location: string, dataPath: string)
  {
    ProjectRoot(dataPath).Some? && IsProjectAssembly(location, ProjectRoot(dataPath).value)
  }

  /** The two hash sets the first loop fills. */
  datatype Collected = Collected(assemblyPaths: set<string>, searchDirectories: set<string>)

  /**
   * Lines 28-37: each loaded assembly's location is kept when it lies in the
   * project, and its directory is collected in any case. The data path is cut
   * in every iteration, so a data path too short for that throws as soon as
   * there is one assembly, and never when there is none.
   */
  method CollectAssemblies(locations: seq<string>, dataPath: string) returns (r: Option<Collected>)
    ensures r.None? <==> |locations| > 0 && |dataPath| < 7
    ensures r.Some? ==> r.value.assemblyPaths == set p | p in locations && InProject(p, dataPath)
    ensures r.Some? ==> r.value.searchDirectories == set p | p in locations :: DirectoryName(p)
  {
    var assemblyPaths: set<string> := {};
    var searchDirectories: set<string> := {};
    var i := 0;
    while i < |locations|
      invariant 0 <= i <= |locations|
      invariant i > 0 ==> |dataPath| >= 7
      invariant assemblyPaths == set p | p in locations[..i] && InProject(p, dataPath)
      invariant searchDirectories == set p | p in locations[..i] :: DirectoryName(p)
    {
      var location := locations[i];
      var root := ProjectRoot(dataPath);
      if root.None? {
        return None;
      }
      if IsProjectAssembly(location, root.value) {
        assemblyPaths := assemblyPaths + {location};
      }
      searchDirectories := searchDirectories + {DirectoryName(location)};
      assert locations[..i + 1] == locations[..i] + [location];
      i := i + 1;
    }
    assert locations[..i] == locations;
    r := Some(Collected(assemblyPaths, searchDirectories));
  }
}
