/**
 * The extractor's command-line tokenizer: one left-to-right pass over the
 * argument array that fills a string-to-string map.
 *
 *   --help          puts  help -> ""
 *   --name value    puts  name -> value, and the value token is consumed
 *   --name (last)   puts  nothing
 *   anything else   is ignored
 *
 * `Parse` is the specification, defined on the token sequence alone; the
 * method `ParseArgs` is the loop of the source, proved equal to it.
 */
module CommandLine {

  /** The token that requests the usage text. */
  const HelpFlag: string := "--help"

  /** The key that `HelpFlag` puts into the option map. */
  const HelpKey: string := "help"

  /** A token that starts with "--". */
  predicate IsOption(token: string) {
    |token| >= 2 && token[..2] == "--"
  }

  /** The option name a token stands for: the token minus its leading "--". */
  function OptionName(token: string): (name: string)
    requires IsOption(token)
    ensures "--" + name == token
  {
    token[2..]
  }

  /** The map the tokenizer builds from `args`; entries of later tokens win. */
  function Parse(args: seq<string>): map<string, string>
    decreases |args|
  {
    if args == [] then map[]
    else if args[0] == HelpFlag then map[HelpKey := ""] + Parse(args[1..])
    else if IsOption(args[0]) && |args| > 1 then map[OptionName(args[0]) := args[1]] + Parse(args[2..])
    else Parse(args[1..])
  }

  /**
   * True when the scan of `args` ends on an option token (not "--help") that
   * has no successor: the one situation in which a token appended after
   * `args` would be consumed as a value.
   */
  predicate Dangles(args: seq<string>)
    decreases |args|
  {
    if args == [] then false
    else if args[0] == HelpFlag then Dangles(args[1..])
    else if IsOption(args[0]) then |args| == 1 || Dangles(args[2..])
    else Dangles(args[1..])
  }

  /** The tokenizer loop, with the index bumped inside the body to skip a consumed value. */
  method ParseArgs(args: seq<string>) returns (options: map<string, string>)
    ensures options == Parse(args)
  {
    options := map[];
    var i := 0;
    while i < |args|
      invariant 0 <= i <= |args|
      invariant options + Parse(args[i..]) == Parse(args)
      decreases |args| - i
    {
      ghost var before := options;
      if args[i] == HelpFlag {
        options := options[HelpKey := ""];
        UnionShift(before, HelpKey, "", Parse(args[i + 1..]));
      } else if IsOption(args[i]) && i + 1 < |args| {
        options := options[OptionName(args[i]) := args[i + 1]];
        UnionShift(before, OptionName(args[i]), args[i + 1], Parse(args[i + 2..]));
        i := i + 1;
      }
      i := i + 1;
    }
    assert args[i..] == [];
    assert options + map[] == options;
  }

  /** Putting one entry and then adding `rest` is the same as adding the one-entry map and `rest` in turn. */
  lemma UnionShift(m: map<string, string>, k: string, v: string, rest: map<string, string>)
    ensures m[k := v] + rest == m + (map[k := v] + rest)
  {
  }

  /** Map union, right operand winning, is associative. */
  lemma UnionAssoc(a: map<string, string>, b: map<string, string>, c: map<string, string>)
    ensures (a + b) + c == a + (b + c)
  {
  }

  /**
   * The tokenizer is compositional: when the scan of `p` does not end on a
   * valueless option, `q` is scanned from its first token, and the entries
   * of `q` override those of `p`.
   */
  lemma {:induction false} ParseAppend(p: seq<string>, q: seq<string>)
    requires !Dangles(p)
    ensures Parse(p + q) == Parse(p) + Parse(q)
    decreases |p|
  {
    if p == [] {
      assert p + q == q;
    } else if p[0] == HelpFlag {
      assert (p + q)[1..] == p[1..] + q;
      ParseAppend(p[1..], q);
      UnionAssoc(map[HelpKey := ""], Parse(p[1..]), Parse(q));
    } else if IsOption(p[0]) {
      assert (p + q)[2..] == p[2..] + q;
      ParseAppend(p[2..], q);
      UnionAssoc(map[OptionName(p[0]) := p[1]], Parse(p[2..]), Parse(q));
    } else {
      assert (p + q)[1..] == p[1..] + q;
      ParseAppend(p[1..], q);
    }
  }

  /**
   * A "--help" token reached by the scan puts help -> "", and the token after
   * it is not consumed: the scan carries on at that token.
   */
  lemma HelpRecognised(p: seq<string>, q: seq<string>)
    requires !Dangles(p)
    ensures Parse(p + [HelpFlag] + q) == Parse(p) + map[HelpKey := ""] + Parse(q)
  {
    ParseAppend(p, [HelpFlag] + q);
    assert ([HelpFlag] + q)[1..] == q;
    UnionAssoc(Parse(p), map[HelpKey := ""], Parse(q));
    assert p + [HelpFlag] + q == p + ([HelpFlag] + q);
  }

  /**
   * An option token other than "--help" reached by the scan, with a successor,
   * maps its name to that successor, whatever the successor is; the scan
   * carries on after the successor, which is never examined as an option.
   */
  lemma OptionTakesSuccessor(p: seq<string>, o: string, v: string, q: seq<string>)
    requires !Dangles(p) && IsOption(o) && o != HelpFlag
    ensures Parse(p + [o, v] + q) == Parse(p) + map[OptionName(o) := v] + Parse(q)
  {
    ParseAppend(p, [o, v] + q);
    assert ([o, v] + q)[2..] == q;
    UnionAssoc(Parse(p), map[OptionName(o) := v], Parse(q));
    assert p + [o, v] + q == p + ([o, v] + q);
  }

  /** The two-token example: "--x" consumes "--help" as its value, so no help key appears. */
  lemma HelpConsumedAsValue()
    ensures Parse(["--x", HelpFlag]) == map["x" := HelpFlag]
    ensures HelpKey !in Parse(["--x", HelpFlag])
  {
    var args := ["--x", HelpFlag];
    assert args[2..] == [];
    assert OptionName("--x") == "x";
  }

  /** For a repeated option, the last occurrence wins unless a later token sets the key again. */
  lemma LastOccurrenceWins(p: seq<string>, o: string, v: string, q: seq<string>)
    requires !Dangles(p) && IsOption(o) && o != HelpFlag
    requires OptionName(o) !in Parse(q)
    ensures OptionName(o) in Parse(p + [o, v] + q)
    ensures Parse(p + [o, v] + q)[OptionName(o)] == v
  {
    OptionTakesSuccessor(p, o, v, q);
  }

  /** An option token in the last position that the scan reaches produces no entry. */
  lemma TrailingOptionDropped(p: seq<string>, o: string)
    requires !Dangles(p) && IsOption(o) && o != HelpFlag
    ensures Parse(p + [o]) == Parse(p)
  {
    ParseAppend(p, [o]);
    assert [o][1..] == [];
    assert Parse(p) + map[] == Parse(p);
  }

  /** A token that does not start with "--" and is not consumed as a value leaves the map unchanged. */
  lemma StrayTokenIgnored(p: seq<string>, t: string, q: seq<string>)
    requires !Dangles(p) && !IsOption(t)
    ensures Parse(p + [t] + q) == Parse(p + q)
  {
    ParseAppend(p, [t] + q);
    assert ([t] + q)[1..] == q;
    ParseAppend(p, q);
    assert p + [t] + q == p + ([t] + q);
  }

  /**
   * A dangling scan ends on an option token whose only effect is to be
   * dropped: the map is the one for the tokens before it.
   */
  lemma {:induction false} DanglingDropped(args: seq<string>)
    requires Dangles(args)
    ensures |args| > 0 && IsOption(args[|args| - 1]) && args[|args| - 1] != HelpFlag
    ensures !Dangles(args[..|args| - 1])
    ensures Parse(args) == Parse(args[..|args| - 1])
    decreases |args|
  {
    var n := |args|;
    if args[0] == HelpFlag {
      DanglingDropped(args[1..]);
      assert args[1..][..n - 2] == args[..n - 1][1..];
    } else if IsOption(args[0]) {
      if n == 1 {
        assert args[..0] == [];
      } else {
        DanglingDropped(args[2..]);
        assert args[2..][..n - 3] == args[..n - 1][2..];
      }
    } else {
      DanglingDropped(args[1..]);
      assert args[1..][..n - 2] == args[..n - 1][1..];
    }
  }

  /** The only key that "--name" tokens cannot produce is the help key. */
  lemma OptionNameNotHelp(token: string)
    requires IsOption(token) && token != HelpFlag
    ensures OptionName(token) != HelpKey
  {
    assert "--" + OptionName(token) == token;
  }

  /**
   * Where every entry comes from. The help key always holds "", and every
   * other key is the name of an option token whose successor is its value.
   */
  lemma {:induction false} EntryProvenance(args: seq<string>, k: string)
    requires k in Parse(args)
    ensures k == HelpKey ==> Parse(args)[k] == "" && HelpFlag in args
    ensures k != HelpKey ==>
      exists i :: 1 <= i < |args| && IsOption(args[i - 1]) && OptionName(args[i - 1]) == k && Parse(args)[k] == args[i]
    decreases |args|
  {
    var r := Parse(args);
    if args[0] == HelpFlag {
      if k == HelpKey && k !in Parse(args[1..]) {
      } else {
        EntryProvenance(args[1..], k);
        ShiftWitness(args, 1, k, r[k]);
      }
    } else if IsOption(args[0]) && |args| > 1 {
      OptionNameNotHelp(args[0]);
      if k in Parse(args[2..]) {
        EntryProvenance(args[2..], k);
        ShiftWitness(args, 2, k, r[k]);
      } else {
        assert k == OptionName(args[0]) && r[k] == args[1];
      }
    } else {
      EntryProvenance(args[1..], k);
      ShiftWitness(args, 1, k, r[k]);
    }
  }

  /** A witness of "option named k followed by v" in a suffix is one in the whole sequence. */
  lemma ShiftWitness(args: seq<string>, d: nat, k: string, v: string)
    requires d <= |args|
    requires k != HelpKey ==>
      exists i :: 1 <= i < |args[d..]| && IsOption(args[d..][i - 1]) && OptionName(args[d..][i - 1]) == k && v == args[d..][i]
    requires k == HelpKey ==> HelpFlag in args[d..]
    ensures k != HelpKey ==>
      exists i :: 1 <= i < |args| && IsOption(args[i - 1]) && OptionName(args[i - 1]) == k && v == args[i]
    ensures k == HelpKey ==> HelpFlag in args
  {
    if k != HelpKey {
      var i :| 1 <= i < |args[d..]| && IsOption(args[d..][i - 1]) && OptionName(args[d..][i - 1]) == k && v == args[d..][i];
      assert args[d..][i - 1] == args[i + d - 1];
      assert args[d..][i] == args[i + d];
    } else {
      var j :| 0 <= j < |args[d..]| && args[d..][j] == HelpFlag;
      assert args[j + d] == HelpFlag;
    }
  }

  /** Every key is "help" or the name of some option token, and every value is "" or one of the tokens. */
  lemma KeysAndValuesFromTokens(args: seq<string>)
    ensures forall k :: k in Parse(args) ==>
      k == HelpKey || exists t :: t in args && IsOption(t) && OptionName(t) == k
    ensures forall k :: k in Parse(args) ==> Parse(args)[k] == "" || Parse(args)[k] in args
  {
    forall k | k in Parse(args)
      ensures k == HelpKey || exists t :: t in args && IsOption(t) && OptionName(t) == k
      ensures Parse(args)[k] == "" || Parse(args)[k] in args
    {
      EntryProvenance(args, k);
      if k != HelpKey {
        var i :| 1 <= i < |args| && IsOption(args[i - 1]) && OptionName(args[i - 1]) == k && Parse(args)[k] == args[i];
        assert args[i - 1] in args;
      }
    }
  }

  /** An option entry other than help names the "--" token it came from and the value token right after it. */
  lemma OptionSource(args: seq<string>, name: string)
    requires name in Parse(args) && name != HelpKey
    ensures exists i :: 1 <= i < |args| && args[i - 1] == "--" + name && args[i] == Parse(args)[name]
  {
    EntryProvenance(args, name);
    var i :| 1 <= i < |args| && IsOption(args[i - 1]) && OptionName(args[i - 1]) == name && Parse(args)[name] == args[i];
    assert args[i - 1] == "--" + name;
  }
}
