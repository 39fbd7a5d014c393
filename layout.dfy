/**
 * Where the extractor finds its inputs under the project root, by naming
 * convention: the build log of a breaking commit and the old and new jars of
 * the updated dependency. A path is the sequence of its name segments.
 */
module Layout {

  datatype Option<T> = None | Some(value: T)

  type Path = seq<string>

  /** Appending a name to a path; an empty name leaves the path as it is. */
  function Resolve(p: Path, name: string): (r: Path)
    ensures name != "" ==> |r| == |p| + 1 && r[..|p|] == p && r[|p|] == name
    ensures name == "" ==> r == p
  {
    if name == "" then p else p + [name]
  }

  /** The last name of a path (the empty name for the empty path). */
  function FileName(p: Path): (name: string)
    ensures p != [] ==> Parent(p) + [name] == p
    ensures p == [] ==> name == ""
  {
    if p == [] then "" else p[|p| - 1]
  }

  /** The path without its last name. */
  function Parent(p: Path): Path {
    if p == [] then [] else p[..|p| - 1]
  }

  /** The benchmark descriptor fields the extractor reads. */
  datatype Descriptor = Descriptor(
    project: string,
    breakingCommit: string,
    previousVersion: string,
    newVersion: string,
    dependencyArtifactId: string)

  /** The name and location of one side of the API comparison. */
  datatype ApiMetadata = ApiMetadata(name: string, path: Path)

  /** Every location the extractor derives from the project root and the descriptor. */
  datatype RunLayout = RunLayout(
    logFile: Path,
    newJar: Path,
    oldJar: Path,
    newApi: ApiMetadata,
    oldApi: ApiMetadata,
    projectDir: Path,
    classpath: seq<Path>)

  /** The jar file name of a dependency version: `<artifactID>-<version>.jar`. */
  function JarName(artifactId: string, version: string): (jar: string)
    ensures |jar| == |artifactId| + |version| + 5
    ensures jar[..|artifactId|] == artifactId && jar[|artifactId|] == '-'
    ensures jar[|artifactId| + 1..|jar| - 4] == version && jar[|jar| - 4..] == ".jar"
  {
    artifactId + "-" + version + ".jar"
  }

  /** The log file name of a breaking commit: `<breakingCommit>.log`. */
  function LogName(breakingCommit: string): (log: string)
    ensures |log| == |breakingCommit| + 4
    ensures log[..|breakingCommit|] == breakingCommit && log[|breakingCommit|..] == ".log"
  {
    breakingCommit + ".log"
  }

  /**
   * Reads the version back out of a jar file name of the given artifact;
   * None when the name does not follow the convention.
   */
  function JarVersion(artifactId: string, jar: string): (v: Option<string>)
    ensures v.Some? ==> |v.value| + |artifactId| + 5 == |jar|
  {
    var n := |artifactId|;
    if |jar| >= n + 5 && jar[..n] == artifactId && jar[n] == '-' && jar[|jar| - 4..] == ".jar"
    then Some(jar[n + 1..|jar| - 4])
    else None
  }

  /** The version can always be read back out of a jar name. */
  lemma JarNameRoundTrip(artifactId: string, version: string)
    ensures JarVersion(artifactId, JarName(artifactId, version)) == Some(version)
  {
    var jar := JarName(artifactId, version);
    var n := |artifactId|;
    assert jar[..n] == artifactId;
    assert jar[n] == '-';
    assert jar[|jar| - 4..] == ".jar";
    assert jar[n + 1..|jar| - 4] == version;
  }

  /** Every name that `JarVersion` accepts is the jar name of the version it reads. */
  lemma JarVersionSound(artifactId: string, jar: string)
    requires JarVersion(artifactId, jar).Some?
    ensures JarName(artifactId, JarVersion(artifactId, jar).value) == jar
  {
    var n := |artifactId|;
    var v := JarVersion(artifactId, jar).value;
    assert jar == jar[..n] + [jar[n]] + jar[n + 1..|jar| - 4] + jar[|jar| - 4..];
  }

  /** The old and new jar names differ exactly when the two versions differ. */
  lemma JarNamesDifferIffVersionsDiffer(artifactId: string, previousVersion: string, newVersion: string)
    ensures JarName(artifactId, previousVersion) != JarName(artifactId, newVersion) <==> previousVersion != newVersion
  {
    JarNameRoundTrip(artifactId, previousVersion);
    JarNameRoundTrip(artifactId, newVersion);
  }

  /** The build log of the breaking commit: root/commit/project/commit.log. */
  function LogFile(root: Path, breakingCommit: string, project: string): (p: Path)
    ensures FileName(p) == LogName(breakingCommit)
    ensures Parent(p) == Resolve(Resolve(root, breakingCommit), project)
  {
    Resolve(Resolve(Resolve(root, breakingCommit), project), LogName(breakingCommit))
  }

  /** A dependency jar of the breaking commit: root/commit/jar. */
  function JarFile(root: Path, breakingCommit: string, jar: string): (p: Path)
    requires jar != ""
    ensures FileName(p) == jar
    ensures Parent(p) == Resolve(root, breakingCommit)
  {
    Resolve(Resolve(root, breakingCommit), jar)
  }

  /** All locations of one run, as the extractor derives them. */
  function Locate(root: Path, d: Descriptor): (r: RunLayout)
    ensures r.logFile == LogFile(root, d.breakingCommit, d.project)
    ensures r.projectDir == Resolve(Resolve(root, d.breakingCommit), d.project)
    ensures FileName(r.newJar) == JarName(d.dependencyArtifactId, d.newVersion)
    ensures FileName(r.oldJar) == JarName(d.dependencyArtifactId, d.previousVersion)
    ensures r.newApi.path == r.newJar && r.oldApi.path == r.oldJar
    ensures r.newApi.name == FileName(r.newJar) && r.oldApi.name == FileName(r.oldJar)
    ensures Parent(r.logFile) == r.projectDir
    ensures Parent(r.newJar) == Parent(r.oldJar) == Resolve(root, d.breakingCommit)
    ensures r.classpath == [r.oldJar]
  {
    var previousJar := JarName(d.dependencyArtifactId, d.previousVersion);
    var newJar := JarName(d.dependencyArtifactId, d.newVersion);
    var newJarPath := JarFile(root, d.breakingCommit, newJar);
    var oldJarPath := JarFile(root, d.breakingCommit, previousJar);
    RunLayout(
      LogFile(root, d.breakingCommit, d.project),
      newJarPath,
      oldJarPath,
      ApiMetadata(FileName(newJarPath), newJarPath),
      ApiMetadata(FileName(oldJarPath), oldJarPath),
      Resolve(Resolve(root, d.breakingCommit), d.project),
      [oldJarPath])
  }

  /** With non-empty commit and project names, the log sits three levels below the root. */
  lemma LogFileSegments(root: Path, breakingCommit: string, project: string)
    requires breakingCommit != "" && project != ""
    ensures LogFile(root, breakingCommit, project) == root + [breakingCommit, project, breakingCommit + ".log"]
  {
  }

  /** The two API sides name the jars of the two versions, and coincide exactly when the versions do. */
  lemma ApiSidesDistinct(root: Path, d: Descriptor)
    ensures Locate(root, d).oldApi.name == JarName(d.dependencyArtifactId, d.previousVersion)
    ensures Locate(root, d).newApi.name == JarName(d.dependencyArtifactId, d.newVersion)
    ensures Locate(root, d).oldApi != Locate(root, d).newApi <==> d.previousVersion != d.newVersion
  {
    var r := Locate(root, d);
    JarNamesDifferIffVersionsDiffer(d.dependencyArtifactId, d.previousVersion, d.newVersion);
    assert FileName(r.oldJar) == JarName(d.dependencyArtifactId, d.previousVersion);
  }
}
