/**
 * The extractor's option gate: the run goes ahead only when no help was
 * requested and both the benchmark descriptor and the project root were
 * given; otherwise the usage text is shown and nothing else happens.
 */
module Launch {
  import opened CommandLine

  /** The keys the gate requires, and the tokens that set them. */
  const BenchmarkKey: string := "benchmark"
  const ProjectRootKey: string := "project-root"
  const BenchmarkFlag: string := "--" + BenchmarkKey
  const ProjectRootFlag: string := "--" + ProjectRootKey

  /** What `main` does with the parsed options. */
  datatype Decision =
    | ShowUsage
    | Analyze(benchmark: string, projectRoot: string)

  /** The gate, and the two option values the run is started with. */
  function Decide(options: map<string, string>): (d: Decision)
    ensures d.Analyze? <==> HelpKey !in options && BenchmarkKey in options && ProjectRootKey in options
    ensures d.Analyze? ==> d.benchmark == options[BenchmarkKey] && d.projectRoot == options[ProjectRootKey]
  {
    if HelpKey in options || BenchmarkKey !in options || ProjectRootKey !in options then ShowUsage
    else Analyze(options[BenchmarkKey], options[ProjectRootKey])
  }

  /** A "--help" that the scan reaches stops the run, whatever else is given before or after it. */
  lemma HelpAlwaysStops(p: seq<string>, q: seq<string>)
    requires !Dangles(p)
    ensures Decide(Parse(p + [HelpFlag] + q)) == ShowUsage
  {
    HelpRecognised(p, q);
    if HelpKey in Parse(q) {
      EntryProvenance(q, HelpKey);
    }
  }

  /**
   * A run that goes ahead was given BenchmarkFlag and ProjectRootFlag
   * tokens, each followed by the value the run uses, and "help" is not set.
   */
  lemma AnalyzeNeedsBothOptions(args: seq<string>)
    requires Decide(Parse(args)).Analyze?
    ensures HelpKey !in Parse(args)
    ensures exists i :: 1 <= i < |args| && args[i - 1] == BenchmarkFlag && args[i] == Decide(Parse(args)).benchmark
    ensures exists i :: 1 <= i < |args| && args[i - 1] == ProjectRootFlag && args[i] == Decide(Parse(args)).projectRoot
  {
    OptionSource(args, BenchmarkKey);
    OptionSource(args, ProjectRootKey);
  }

  /** The documented invocation starts the run with the two paths it names. */
  lemma DocumentedInvocation(benchmark: string, root: string, rest: seq<string>)
    requires HelpKey !in Parse(rest) && BenchmarkKey !in Parse(rest) && ProjectRootKey !in Parse(rest)
    ensures Decide(Parse([BenchmarkFlag, benchmark, ProjectRootFlag, root] + rest)) == Analyze(benchmark, root)
  {
    var args := [BenchmarkFlag, benchmark, ProjectRootFlag, root] + rest;
    assert OptionName(BenchmarkFlag) == BenchmarkKey;
    assert OptionName(ProjectRootFlag) == ProjectRootKey;
    OptionTakesSuccessor([], BenchmarkFlag, benchmark, [ProjectRootFlag, root] + rest);
    OptionTakesSuccessor([], ProjectRootFlag, root, rest);
    assert [] + [BenchmarkFlag, benchmark] + ([ProjectRootFlag, root] + rest) == args;
    assert [] + [ProjectRootFlag, root] + rest == [ProjectRootFlag, root] + rest;
  }
}
