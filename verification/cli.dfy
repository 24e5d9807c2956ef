/**
 The program's entry point: the `cargo mutants` subcommand gate, then
 either listing the mutations (as text or JSON) or running the experiment.

 Everything `main` reaches outside this file is a value of `Environment`:
 the argument after the program name, what argument parsing produced, and
 the results of opening the source tree, discovering its mutations and
 running the experiment. Printing and exiting are recorded in a `Run`.
 */
module Cli {
  import opened Wrappers
  import opened ExitCodes
  import opened Mutate

  /** The command-line flags after `mutants`. */
  datatype Args = Args(
    dir: string,
    list: bool,
    json: bool,
    diff: bool,
    allLogs: bool,
    check: bool,
    noTimes: bool)

  /** How the console reports progress while the experiment runs. */
  datatype ConsoleOptions = ConsoleOptions(showAllLogs: bool, showTimes: bool)

  /** How the experiment treats each mutant. */
  datatype ExperimentOptions = ExperimentOptions(checkOnly: bool)

  /** Why argument parsing ended the process before `main` saw the flags: help
      was asked for (printed on stdout, exit 0), or the arguments did not
      parse (the error printed on stderr, exit 1). */
  datatype EarlyExit = HelpRequested | ParseError

  /**
   What `main` gets from outside:
   `argv1`      the argument after the program name, if any;
   `parsed`     the flags, or why argument parsing ended the process early;
   `tree`       the outcome of opening the directory named by `--dir`;
   `mutations`  the outcome of discovering the tree's mutations;
   `experiment` the outcome of the experiment run with the given options and
                console, as the exit code it asks for, or an error.
   */
  datatype Environment = Environment(
    argv1: Option<string>,
    parsed: Result<Args, EarlyExit>,
    tree: Result<(), string>,
    mutations: Result<seq<Mutation>, string>,
    experiment: (ExperimentOptions, ConsoleOptions) -> Result<ExitCode, string>)

  /** What goes to standard output. */
  datatype Output =
    | NoOutput
    | ArgumentHelp                       // argument parsing's help text
    | TextListing(listed: seq<Mutation>, showDiffs: bool)
    | JsonListing(listed: seq<Mutation>)
    | ExperimentReport(console: ConsoleOptions, options: ExperimentOptions)  // the experiment's progress and results

  /** What goes to standard error. */
  datatype Diagnostic =
    | NoDiagnostic
    | UsageHint                          // "usage: cargo mutants <ARGS> ..."
    | UnrecognizedSubcommand(name: string)
    | ArgumentError                      // argument parsing's error text
    | ListDiffJsonUnsupported            // "--list --diff --json is not (yet) supported"
    | ErrorReport(message: string)       // an error `main` returns

  /** How the process ends: an explicit exit, or `main` returning. */
  datatype Ending = Exit(code: ExitCode) | ReturnOk | ReturnErr(message: string)

  datatype Run = Run(stdout: Output, stderr: Diagnostic, ending: Ending)

  /** The process status: an explicit exit uses its code; returning `Ok`
      gives 0 and returning an error gives 1. */
  function Status(e: Ending): (status: int)
    ensures e.ReturnOk? ==> status == Code(Success)
    ensures e.ReturnErr? ==> status == 1
    ensures e.Exit? ==> FromCode(status) == Some(e.code)
  {
    match e
    case Exit(code) =>
      CodeRoundTrip(code);
      Code(code)
    case ReturnOk => 0
    case ReturnErr(_) => 1
  }

  /** `main` returning an error: the error is reported and the status is 1. */
  function Failed(message: string): Run {
    Run(NoOutput, ErrorReport(message), ReturnErr(message))
  }

  /** The console settings taken from the flags. */
  function ConsoleFor(args: Args): (console: ConsoleOptions)
    ensures console.showAllLogs <==> args.allLogs
    ensures console.showTimes <==> !args.noTimes
  {
    ConsoleOptions(args.allLogs, !args.noTimes)
  }

  /** The experiment settings taken from the flags. */
  function OptionsFor(args: Args): (options: ExperimentOptions)
    ensures options.checkOnly <==> args.check
  {
    ExperimentOptions(args.check)
  }

  /** The program's `main`. */
  function Main(env: Environment): (run: Run)
    // Without the `mutants` subcommand nothing is printed on stdout and the exit code is USAGE.
    ensures env.argv1 != Some("mutants") ==>
      run.stdout == NoOutput && run.ending == Exit(Usage) &&
      run.stderr == (if env.argv1.None? then UsageHint else UnrecognizedSubcommand(env.argv1.value))
    // Anything on stdout comes after the gate.
    ensures run.stdout != NoOutput ==> env.argv1 == Some("mutants")
    // Argument parsing that ends early prints help on stdout and exits 0, or an error on stderr and exits 1.
    ensures env.argv1 == Some("mutants") && env.parsed.Err? ==>
      (run.stdout == ArgumentHelp <==> env.parsed.error == HelpRequested) &&
      (run.stderr == ArgumentError <==> env.parsed.error == ParseError) &&
      run.ending == Exit(if env.parsed.error == HelpRequested then Success else Usage)
    // Listings appear only with `--list`, JSON only with `--json` and never together with `--diff`.
    ensures run.stdout.TextListing? ==>
      env.parsed.Ok? && env.parsed.value.list && !env.parsed.value.json &&
      run.stdout.showDiffs == env.parsed.value.diff && env.mutations == Ok(run.stdout.listed)
    ensures run.stdout.JsonListing? ==>
      env.parsed.Ok? && env.parsed.value.list && env.parsed.value.json && !env.parsed.value.diff &&
      env.mutations == Ok(run.stdout.listed)
    // Past the gate, with the flags parsed and the tree opened, no `--list` always runs the
    // experiment with the console and options taken from the flags.
    ensures env.argv1 == Some("mutants") && env.parsed.Ok? && env.tree.Ok? && !env.parsed.value.list ==>
      run.stdout == ExperimentReport(ConsoleFor(env.parsed.value), OptionsFor(env.parsed.value))
    // The experiment runs only without `--list`; the process exits with the code it asks for,
    // or `main` returns its error.
    ensures run.stdout.ExperimentReport? ==>
      env.parsed.Ok? && !env.parsed.value.list &&
      run.stdout.options.checkOnly == env.parsed.value.check &&
      run.stdout.console.showTimes == !env.parsed.value.noTimes &&
      run.stdout.console.showAllLogs == env.parsed.value.allLogs &&
      ((run.ending.Exit? && env.experiment(run.stdout.options, run.stdout.console) == Ok(run.ending.code)) ||
       (run.ending.ReturnErr? && env.experiment(run.stdout.options, run.stdout.console) == Err(run.ending.message)))
    // An error anywhere after the gate is returned, and then exits with status 1.
    ensures run.ending.ReturnErr? ==> run.stderr == ErrorReport(run.ending.message) && Status(run.ending) == 1
    // A tree that does not open, or discovery failing under `--list`, is such an error, with nothing on stdout.
    ensures env.argv1 == Some("mutants") && env.parsed.Ok? && env.tree.Err? ==> run == Failed(env.tree.error)
    ensures env.argv1 == Some("mutants") && env.parsed.Ok? && env.tree.Ok? && env.parsed.value.list && env.mutations.Err? ==>
      run == Failed(env.mutations.error)
    // `--list --json --diff` is refused with its own message; listings, help and a
    // successful experiment leave stderr empty.
    ensures run.stderr == ListDiffJsonUnsupported <==>
      env.argv1 == Some("mutants") && env.parsed.Ok? && env.tree.Ok? && env.mutations.Ok? &&
      env.parsed.value.list && env.parsed.value.json && env.parsed.value.diff
    ensures run.stderr == ListDiffJsonUnsupported ==> run.stdout == NoOutput && run.ending == Exit(Usage)
    ensures run.stdout.TextListing? || run.stdout.JsonListing? || run.stdout == ArgumentHelp ==> run.stderr == NoDiagnostic
    ensures run.stdout.ExperimentReport? && run.ending.Exit? ==> run.stderr == NoDiagnostic
  {
    if env.argv1.None? then
      Run(NoOutput, UsageHint, Exit(Usage))
    else if env.argv1.value != "mutants" then
      Run(NoOutput, UnrecognizedSubcommand(env.argv1.value), Exit(Usage))
    else
      match env.parsed
      case Err(HelpRequested) => Run(ArgumentHelp, NoDiagnostic, Exit(Success))
      case Err(ParseError) => Run(NoOutput, ArgumentError, Exit(Usage))
      case Ok(args) =>
        if env.tree.Err? then Failed(env.tree.error)
        else
          var console := ConsoleFor(args);
          var options := OptionsFor(args);
          if args.list then
            match env.mutations
            case Err(message) => Failed(message)
            case Ok(mutations) =>
              if args.json then
                if args.diff then Run(NoOutput, ListDiffJsonUnsupported, Exit(Usage))
                else Run(JsonListing(mutations), NoDiagnostic, ReturnOk)
              else Run(TextListing(mutations, args.diff), NoDiagnostic, ReturnOk)
          else
            // The experiment reports on stdout as it goes, whether or not it then fails.
            match env.experiment(options, console)
            case Err(message) => Run(ExperimentReport(console, options), ErrorReport(message), ReturnErr(message))
            case Ok(code) => Run(ExperimentReport(console, options), NoDiagnostic, Exit(code))
  }

  // ---------------------------------------------------------------------
  // The dispatch as a decision over the flags
  // ---------------------------------------------------------------------

  /** What the program sets out to do, from the subcommand and the flags alone. */
  datatype Action = UsageError | ListText(showDiffs: bool) | ListJson | RunExperiment

  /** The decision `main` makes, when opening the tree and discovering
      mutations succeed. */
  function Decide(argv1: Option<string>, list: bool, json: bool, diff: bool): (a: Action)
    ensures a == UsageError <==> argv1 != Some("mutants") || (list && json && diff)
    ensures a == ListJson <==> argv1 == Some("mutants") && list && json && !diff
    ensures a.ListText? <==> argv1 == Some("mutants") && list && !json
    ensures a.ListText? ==> a.showDiffs == diff
    ensures a == RunExperiment <==> argv1 == Some("mutants") && !list
  {
    if argv1 != Some("mutants") then UsageError
    else if !list then RunExperiment
    else if !json then ListText(diff)
    else if diff then UsageError
    else ListJson
  }

  /** `run` carries out `a`, chosen for subcommand `argv1`: what it prints on
      stdout and stderr and the status it ends with, `code` being what the
      experiment asks for. A usage error past the gate is the refused
      `--list --json --diff`. */
  predicate Realises(run: Run, argv1: Option<string>, a: Action, mutations: seq<Mutation>, code: ExitCode) {
    match a
    case UsageError =>
      run.stdout == NoOutput && Status(run.ending) == Code(Usage) &&
      (argv1 == Some("mutants") ==> run.stderr == ListDiffJsonUnsupported)
    case ListText(showDiffs) =>
      run.stdout == TextListing(mutations, showDiffs) && run.stderr == NoDiagnostic && Status(run.ending) == Code(Success)
    case ListJson =>
      run.stdout == JsonListing(mutations) && run.stderr == NoDiagnostic && Status(run.ending) == Code(Success)
    case RunExperiment =>
      run.stdout.ExperimentReport? && run.stderr == NoDiagnostic && Status(run.ending) == Code(code)
  }

  /** When the flags parse, the tree opens, and whichever of discovery (with
      `--list`) or the experiment (without) the flags call for succeeds, `main`
      does what `Decide` selects: prints the listing it names, or exits with
      USAGE and prints nothing, or exits with the experiment's code. */
  lemma MainFollowsDecision(env: Environment, args: Args, mutations: seq<Mutation>, code: ExitCode)
    requires env.parsed == Ok(args) && env.tree.Ok?
    requires args.list ==> env.mutations == Ok(mutations)
    requires !args.list ==> env.experiment(OptionsFor(args), ConsoleFor(args)) == Ok(code)
    ensures Realises(Main(env), env.argv1, Decide(env.argv1, args.list, args.json, args.diff), mutations, code)
  {
    var a := Decide(env.argv1, args.list, args.json, args.diff);
    if a == RunExperiment {
      CodeRoundTrip(code);
    }
  }
}
