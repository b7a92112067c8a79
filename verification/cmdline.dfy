/**
 The command line of execpty: the option loop of `main`, which stops at the
 first argument that is not a recognised option, and the display name taken
 from `argv[0]`.
 */
module CommandLine {

  /** The options that only set a switch and let the scan continue. */
  datatype Flag = Quiet | NoEcho | CrNl | Blind

  /** What one argument means to the option loop. */
  datatype ArgKind = HelpArg | VersionArg | FlagArg(flag: Flag) | Operand

  /** Every spelling the option loop recognises. */
  const OptionSpellings: set<string> :=
    {"-h", "--help", "-v", "--version", "-q", "--quiet",
     "-e", "--no-echo", "-2", "--crnl", "-b", "--blind"}

  /** Classifies one argument by exact string comparison with the short and
      long spellings; anything else is the command. */
  function Classify(arg: string): (k: ArgKind)
  {
    if arg == "-h" || arg == "--help" then HelpArg
    else if arg == "-v" || arg == "--version" then VersionArg
    else if arg == "-q" || arg == "--quiet" then FlagArg(Quiet)
    else if arg == "-e" || arg == "--no-echo" then FlagArg(NoEcho)
    else if arg == "-2" || arg == "--crnl" then FlagArg(CrNl)
    else if arg == "-b" || arg == "--blind" then FlagArg(Blind)
    else Operand
  }

  /** An argument is the command exactly when it is none of the recognised
      spellings; every option starts with '-', so an argument without one is
      always the command. */
  lemma ClassifyBySpelling(arg: string)
    ensures Classify(arg) == Operand <==> arg !in OptionSpellings
    ensures Classify(arg) != Operand ==> 2 <= |arg| && arg[0] == '-'
  {
  }

  /** The switches `quiet`, `noecho`, `cr_output` and "-b" (which makes the first
      poll round include stdin). */
  datatype Options = Options(quiet: bool, noEcho: bool, crOutput: bool, blind: bool) {

    predicate Has(f: Flag) {
      match f
      case Quiet => quiet
      case NoEcho => noEcho
      case CrNl => crOutput
      case Blind => blind
    }

    /** Turns on one switch and leaves the others alone. */
    function With(f: Flag): (r: Options)
      ensures r.Has(f)
      ensures forall g :: g != f ==> (r.Has(g) <==> Has(g))
    {
      match f
      case Quiet => this.(quiet := true)
      case NoEcho => this.(noEcho := true)
      case CrNl => this.(crOutput := true)
      case Blind => this.(blind := true)
    }
  }

  /** All switches off, as the globals start. */
  const NoOptions := Options(false, false, false, false)

  /** What the option loop decides: print help, print the version, or run
      `argv[command..]` with the given options. */
  datatype Invocation = ShowHelp | ShowVersion | Launch(opts: Options, command: nat)

  /** Every argument in `argv[lo..hi)` is a switch. */
  predicate SwitchesOnly(argv: seq<string>, lo: nat, hi: nat)
    requires lo <= hi <= |argv|
  {
    forall j :: lo <= j < hi ==> Classify(argv[j]).FlagArg?
  }

  /** Scanning from `lo`, the first argument that is not a switch is of kind
      `kind`. */
  predicate StopsAt(argv: seq<string>, lo: nat, kind: ArgKind)
    requires lo <= |argv|
  {
    exists k :: lo <= k < |argv| && Classify(argv[k]) == kind && SwitchesOnly(argv, lo, k)
  }

  /** Switch `f` is named somewhere in `argv[lo..hi)`. */
  predicate Named(argv: seq<string>, lo: nat, hi: nat, f: Flag)
    requires lo <= hi <= |argv|
  {
    exists j :: lo <= j < hi && Classify(argv[j]) == FlagArg(f)
  }

  /** A switch at `lo` is skipped over: the facts the scan promises from `lo`
      are those from `lo + 1`, with that switch added to the ones named. */
  lemma SkipSwitch(argv: seq<string>, lo: nat)
    requires lo < |argv| && Classify(argv[lo]).FlagArg?
    ensures forall hi :: lo < hi <= |argv| ==> (SwitchesOnly(argv, lo, hi) <==> SwitchesOnly(argv, lo + 1, hi))
    ensures forall kind: ArgKind :: !kind.FlagArg? ==> (StopsAt(argv, lo, kind) <==> StopsAt(argv, lo + 1, kind))
    ensures forall hi, f :: lo < hi <= |argv| ==>
              (Named(argv, lo, hi, f) <==> f == Classify(argv[lo]).flag || Named(argv, lo + 1, hi, f))
  {
  }

  /** An argument at `lo` that is not a switch is where the scan stops. */
  lemma StopHere(argv: seq<string>, lo: nat)
    requires lo < |argv| && !Classify(argv[lo]).FlagArg?
    ensures forall kind: ArgKind :: StopsAt(argv, lo, kind) <==> kind == Classify(argv[lo])
    ensures !SwitchesOnly(argv, lo, |argv|)
  {
  }

  /** The argument scan from index `i` with the switches collected so far. */
  function Scan(argv: seq<string>, i: nat, opts: Options): (r: Invocation)
    requires i <= |argv|
    decreases |argv| - i
    ensures r.Launch? ==>
              && i <= r.command < |argv|
              && Classify(argv[r.command]) == Operand
              && SwitchesOnly(argv, i, r.command)
              && (forall f :: r.opts.Has(f) <==> opts.Has(f) || Named(argv, i, r.command, f))
    ensures r.ShowVersion? <==> StopsAt(argv, i, VersionArg)
    ensures r.ShowHelp? <==> SwitchesOnly(argv, i, |argv|) || StopsAt(argv, i, HelpArg)
  {
    if i == |argv| then ShowHelp
    else
      match Classify(argv[i])
      case FlagArg(f) =>
        var r := Scan(argv, i + 1, opts.With(f));
        SkipSwitch(argv, i);
        r
      case HelpArg => StopHere(argv, i); ShowHelp
      case VersionArg => StopHere(argv, i); ShowVersion
      case Operand => StopHere(argv, i); Launch(opts, i)
  }

  /** The option loop of `main`. The command is the first argument from index 1
      that is not -q/-e/-2/-b (or a long form); the switches are exactly those
      named before it; -h or -v met first, or no command at all, means no
      launch. */
  function ParseArgs(argv: seq<string>): (r: Invocation)
    requires |argv| >= 1
    ensures r.Launch? ==>
              && 1 <= r.command < |argv|
              && Classify(argv[r.command]) == Operand
              && SwitchesOnly(argv, 1, r.command)
              && (forall f :: r.opts.Has(f) <==> Named(argv, 1, r.command, f))
    ensures r.ShowVersion? <==> StopsAt(argv, 1, VersionArg)
    ensures r.ShowHelp? <==> SwitchesOnly(argv, 1, |argv|) || StopsAt(argv, 1, HelpArg)
  {
    Scan(argv, 1, NoOptions)
  }

  /** Scanning only looks at arguments up to the one where it stops: two
      vectors that agree on a run of switches from `i` followed by an operand
      at `k` are scanned alike. */
  lemma {:induction false} ScanStopsAtCommand(argv: seq<string>, other: seq<string>, i: nat, opts: Options, k: nat)
    requires i <= k < |argv| && k < |other|
    requires other[..k + 1] == argv[..k + 1]
    requires SwitchesOnly(argv, i, k)
    requires Classify(argv[k]) == Operand
    ensures Scan(other, i, opts) == Scan(argv, i, opts)
    ensures Scan(argv, i, opts).Launch? && Scan(argv, i, opts).command == k
    decreases k - i
  {
    assert other[i] == argv[i] by {
      assert other[..k + 1][i] == argv[..k + 1][i];
    }
    var c := Classify(argv[i]);
    if c.FlagArg? {
      ScanStopsAtCommand(argv, other, i + 1, opts.With(c.flag), k);
    }
  }

  /** Everything from the command onward is passed through unparsed: replacing
      the arguments after the command never changes the decision. */
  lemma ArgumentsAfterCommandIgnored(argv: seq<string>, tail: seq<string>)
    requires |argv| >= 1
    requires ParseArgs(argv).Launch?
    ensures ParseArgs(argv[..ParseArgs(argv).command + 1] + tail) == ParseArgs(argv)
  {
    var k := ParseArgs(argv).command;
    var other := argv[..k + 1] + tail;
    assert other[..k + 1] == argv[..k + 1];
    ScanStopsAtCommand(argv, other, 1, NoOptions, k);
  }

  /** The program's display name: the part of `argv[0]` after its last '/',
      found by remembering the position after each '/' met. */
  method BaseName(arg0: string) returns (name: string)
    ensures '/' !in name
    ensures |name| <= |arg0| && name == arg0[|arg0| - |name|..]
    ensures |name| == |arg0| || arg0[|arg0| - |name| - 1] == '/'
    ensures '/' !in arg0 ==> name == arg0
  {
    var start := 0;
    var i := 0;
    while i < |arg0|
      invariant 0 <= start <= i <= |arg0|
      invariant '/' !in arg0[start..i]
      invariant start == 0 || arg0[start - 1] == '/'
    {
      if arg0[i] == '/' {
        start := i + 1;
      }
      i := i + 1;
    }
    name := arg0[start..];
  }
}
