# Extractor entry point: option parsing, run gate and input layout

The extractor of the breaking-dependency-update diagnosis tool attributes a
failed build to breaking API changes of an upgraded dependency. Its entry
point parses the command line into an option map. It refuses to run unless a
benchmark descriptor and a project root were given and no help was requested.
From the descriptor it then derives, by naming convention, where the build
log and the old and new dependency jars live under the project root.

This project models those three pieces of the entry point in Dafny:

- `CommandLine` (command_line.dfy): the tokenizer. `Parse` is its
  specification, a function of the token sequence alone. `ParseArgs` is the
  source's loop, which bumps its index inside the body to skip a consumed
  value; it is proved equal to `Parse`. Lemmas state what the tokenizer does
  with `--help`, with `--name value`, with a trailing `--name` and with stray
  tokens. Further lemmas state where every key and value comes from and that
  later occurrences win. `Dangles(p)` says that the scan of `p` ends on an
  option token that has no value yet. Most lemmas hold for any prefix `p`
  that does not dangle, that is, at any position the scan actually reaches.
- `Launch` (launch.dfy): the gate in `main` and what it hands on to the run.
- `Layout` (layout.dfy): jar and log names and their paths. A path is a
  sequence of name segments. Resolving a name appends it, and resolving the
  empty name leaves the path unchanged, as `Path.resolve` does.

## Model

| member | source | states |
|---|---|---|
| `CommandLine.ParseArgs` | extractor/src/main/java/se/kth/Main.java:110-121 | the loop's map equals `Parse(args)`; the loop terminates because the index strictly increases |
| `CommandLine.OptionName` | extractor/src/main/java/se/kth/Main.java:116 | the key is the token minus its leading `--` ("--" + key is the token) |
| `CommandLine.ParseAppend` | extractor/src/main/java/se/kth/Main.java:112-119 | if the scan of `p` does not dangle, parsing `p + q` is parsing `p`, then `q` from its first token, with `q`'s entries overriding |
| `CommandLine.HelpRecognised` | extractor/src/main/java/se/kth/Main.java:113-114 | a `--help` reached by the scan puts `help -> ""`, and the next token is examined as an option, not consumed |
| `CommandLine.OptionTakesSuccessor` | extractor/src/main/java/se/kth/Main.java:115-117 | an option token other than `--help` that has a successor maps its name to that successor, whatever it is, and the scan resumes after it |
| `CommandLine.HelpConsumedAsValue` | extractor/src/main/java/se/kth/Main.java:115-117 | `["--x", "--help"]` yields exactly `x -> "--help"` and no `help` key |
| `CommandLine.LastOccurrenceWins` | extractor/src/main/java/se/kth/Main.java:111-120 | a repeated option keeps the value of its last occurrence unless later tokens set that key again |
| `CommandLine.TrailingOptionDropped` | extractor/src/main/java/se/kth/Main.java:115 | an option token in the last position produces no entry |
| `CommandLine.StrayTokenIgnored` | extractor/src/main/java/se/kth/Main.java:112-119 | a token not starting with `--` and not consumed as a value leaves the map unchanged |
| `CommandLine.DanglingDropped` | extractor/src/main/java/se/kth/Main.java:115-119 | a dangling scan ends on an option token other than `--help`, and the map equals the map of the tokens before it |
| `CommandLine.EntryProvenance` | extractor/src/main/java/se/kth/Main.java:111-120 | key `help` always holds `""` and comes from a `--help` token; every other key is the name of an option token whose successor is its value |
| `CommandLine.OptionSource` | extractor/src/main/java/se/kth/Main.java:115-116 | an entry `name` other than `help` was given as a `--name` token immediately followed by its value |
| `CommandLine.KeysAndValuesFromTokens` | extractor/src/main/java/se/kth/Main.java:111-120 | every key is `help` or `t[2..]` for some token `t` starting with `--`; every value is `""` or one of the tokens |
| `Launch.Decide` | extractor/src/main/java/se/kth/Main.java:25-31 | the run goes ahead if and only if `help` is absent and `benchmark` and `project-root` are both present, and then it uses those two values |
| `Launch.HelpAlwaysStops` | extractor/src/main/java/se/kth/Main.java:23-28 | a `--help` the scan reaches shows the usage, whatever other options come before or after it |
| `Launch.AnalyzeNeedsBothOptions` | extractor/src/main/java/se/kth/Main.java:23-31 | a run that goes ahead was given `--benchmark` and `--project-root` tokens, each followed by the value the run uses |
| `Launch.DocumentedInvocation` | extractor/src/main/java/se/kth/Main.java:23-31 | `--benchmark B --project-root R`, followed by tokens that set none of the three keys, starts the run with B and R |
| `Layout.Resolve` | extractor/src/main/java/se/kth/Main.java:48-50 | resolving a non-empty name appends exactly that segment; resolving the empty name changes nothing |
| `Layout.JarName` | extractor/src/main/java/se/kth/Main.java:45-46 | the jar name is the artifact ID, then `-`, then the version, then `.jar`, and nothing else |
| `Layout.LogName` | extractor/src/main/java/se/kth/Main.java:50 | the log name is the breaking commit followed by `.log`, and nothing else |
| `Layout.FileName` | extractor/src/main/java/se/kth/Main.java:60-61 | the file name is the last segment: the parent path followed by it gives back the path; the empty path has the empty name |
| `Layout.JarNameRoundTrip` | extractor/src/main/java/se/kth/Main.java:45-46 | the version can be read back out of `<artifactID>-<version>.jar` |
| `Layout.JarVersionSound` | extractor/src/main/java/se/kth/Main.java:45-46 | every name accepted by the reader is the jar name of the version it reads |
| `Layout.JarNamesDifferIffVersionsDiffer` | extractor/src/main/java/se/kth/Main.java:45-46 | the old and new jar names differ exactly when the two versions differ |
| `Layout.LogFile` | extractor/src/main/java/se/kth/Main.java:48-50 | the log is named `<breakingCommit>.log` and lies in root/commit/project |
| `Layout.LogFileSegments` | extractor/src/main/java/se/kth/Main.java:48-50 | with non-empty commit and project, the log path is root/commit/project/(commit + ".log") |
| `Layout.JarFile` | extractor/src/main/java/se/kth/Main.java:57-58 | a jar path ends in the jar name and lies in root/commit |
| `Layout.Locate` | extractor/src/main/java/se/kth/Main.java:45-66 | the log file is root/commit/project/commit.log and the project directory given to source analysis is root/commit/project, the log's parent; the new and old jars are named `<artifactID>-<version>.jar` of their versions and lie side by side in root/commit; each API side carries its jar's file name and path; the classpath is exactly the old jar |
| `Layout.ApiSidesDistinct` | extractor/src/main/java/se/kth/Main.java:45-61 | the old and new API sides are `<artifactID>-<version>.jar` of their versions and coincide exactly when the versions are equal |

## Left out

- Reading the benchmark descriptor with Jackson (extractor/src/main/java/se/kth/Main.java:33-43) is file I/O and a library call. The model starts from a `Descriptor` whose fields are already strings. A missing field, which the source would format as the text `null` or pass as null to `Path.resolve`, is not modelled.
- Layout.Resolve: a name is taken as one segment. Names that contain a path separator or are absolute, which `Path.resolve` splits or lets replace the path, are not modelled. Nor is how the file system interprets the resulting path.
- Layout.Locate: takes the project root as a path already split into segments. Turning the `project-root` option string into a path with `Path.of` (extractor/src/main/java/se/kth/Main.java:31) is not modelled: splitting on separators, absolute and empty root strings, and the `InvalidPathException` for an invalid string. So the model does not link the `projectRoot` string that `Launch.Decide` hands on to the `root` that `Layout.Locate` takes.
- The log parser `MavenErrorInformation`, the API comparison `JApiCmpAnalyze`, the source-analysis `Client`/`SpoonUtilities` and the causing-construct correlation `SpoonConstructExtractor` (extractor/src/main/java/se/kth/Main.java:52-74) are separate components (log parsing, API diffing, static analysis and the correlation built on them), outside the scope of this model.
- Printing the usage text and the result report (extractor/src/main/java/se/kth/Main.java:76-103, 123-132) is console output only. `Launch.Decide` returns `ShowUsage` where the source prints the usage and returns.
- The wrapping of an `IOException` into a `RuntimeException` (extractor/src/main/java/se/kth/Main.java:105-107) belongs to the collaborators left out above.
- The breaking-classifier entry point (breaking-classifier/src/main/java/se/kth/Main.java) is left out. It calls `parseArgs` and `printUsage` without defining them, and its gate at line 16 lacks a closing parenthesis, so it does not compile as written. Its `help`/`log` gate follows the same pattern as `Launch.Decide`.
- The generated patch file under results/ is a reflection lookup over libraries that are not part of this model.
- Java `String` values are modelled as sequences of characters. UTF-16 code units and surrogate pairs are not distinguished.
