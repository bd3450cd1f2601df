/** The older top-level script: a greeter without validation, argument
    parsing outside the `try`, and one catch-all handler.  The lemmas at the
    end state how it differs from the packaged entry point. */
module LegacyScript {
  import opened Python
  import opened Logging
  import opened Process
  import ProjectMain

  /** `sample_function`: formats the greeting for every string, blank or not. */
  function SampleFunction(name: string): (r: string)
    ensures ProjectMain.NameOfGreeting(r) == Some(name)
  {
    ProjectMain.GreetingRoundTrip(name);
    ProjectMain.Greeting(name)
  }

  /** `parse_args`: `--name` defaults to "World"; a supplied value is passed on unchanged. */
  function ParseArgs(nameFlag: Option<string>): (name: string)
    ensures nameFlag.None? ==> name == "World"
    ensures nameFlag.Some? ==> name == nameFlag.value
  {
    match nameFlag
    case None => "World"
    case Some(n) => n
  }

  /** The greeter the script calls; it never raises. */
  const LegacyGreeter: Greeter := (n: string) => Success(SampleFunction(n))

  /** `main`: what argparse raises escapes unhandled, before anything is
      logged; a greeting is logged at INFO and `main` returns; any Exception
      from the greeter is logged at ERROR and exits 1; KeyboardInterrupt,
      SystemExit and the other classes outside Exception escape. */
  function Main(args: ArgsOutcome, greet: Greeter): (t: Termination)
    ensures args.ArgparseRaises? ==> t.log == [] && !t.Normal?
    ensures t.Normal? <==> args.Parsed? && greet(ParseArgs(args.nameFlag)).Success?
    ensures t.Normal? ==> t.log == [Info(greet(ParseArgs(args.nameFlag)).value)]
    ensures t.Exit? && t.log != [] ==> t.code == 1 && |t.log| == 1 && t.log[0].level == ERROR
    ensures t.Uncaught? ==> t.log == [] && (!t.error.IsException() || args.ArgparseRaises?)
  {
    match args
    case ArgparseRaises(e) => Escape([], e)
    case Parsed(flag) =>
      match greet(ParseArgs(flag))
      case Success(message) => Normal([Info(message)])
      case Failure(e) =>
        if e.IsException() then Exit(1, [Error("An error occurred: " + e.Message())])
        else Escape([], e)
  }

  /** With its own greeter the script greets every name and returns normally. */
  lemma MainAlwaysGreets(flag: Option<string>)
    ensures Main(Parsed(flag), LegacyGreeter) == Normal([Info(ProjectMain.Greeting(ParseArgs(flag)))])
  {
  }

  /** The catch-all: any Exception from the greeter logs "An error occurred: "
      followed by its text and exits 1. */
  lemma MainCatchAll(flag: Option<string>, greet: Greeter)
    requires greet(ParseArgs(flag)).Failure? && greet(ParseArgs(flag)).error.IsException()
    ensures Main(Parsed(flag), greet)
         == Exit(1, [Error("An error occurred: " + greet(ParseArgs(flag)).error.Message())])
  {
  }

  /** Both versions default the name to "World" and greet the same way. */
  lemma SameDefaultAndTemplate(flag: Option<string>, name: string)
    ensures ParseArgs(flag) == ProjectMain.ParseArgs(flag)
    ensures SampleFunction(name) == ProjectMain.Greeting(name)
  {
  }

  /** On a name with a visible character both greeters agree, and both
      entry points log the same greeting; the packaged one then exits 0
      where the script returns. */
  lemma AgreesOnVisibleNames(name: string, i: nat)
    requires i < |name| && !IsWhitespaceChar(name[i])
    ensures ProjectMain.SampleFunction(ProjectMain.Str(name)) == Success(SampleFunction(name))
    ensures Main(Parsed(Some(name)), LegacyGreeter) == Normal([Info(SampleFunction(name))])
    ensures ProjectMain.Main(Parsed(Some(name)), ProjectMain.SampleGreeter) == Exit(0, [Info(SampleFunction(name))])
  {
  }

  /** On a blank name the script still greets and returns normally, where
      the packaged entry point rejects the name and exits 1. */
  lemma DiffersOnBlankNames(name: string)
    requires ProjectMain.IsBlank(name)
    ensures Main(Parsed(Some(name)), LegacyGreeter) == Normal([Info(ProjectMain.Greeting(name))])
    ensures ProjectMain.SampleFunction(ProjectMain.Str(name)).Failure?
    ensures ProjectMain.Main(Parsed(Some(name)), ProjectMain.SampleGreeter)
         == Exit(1, [Error(ProjectMain.InvalidInputPrefix + ProjectMain.EmptyNameMessage)])
  {
  }

  /** An Exception raised while parsing arguments escapes the script
      unlogged, because `parse_args` runs before the `try`; the packaged
      entry point catches it, logs it at ERROR and exits 1. */
  lemma ParseErrorsEscapeOnlyHere(e: PyException, greet: Greeter)
    requires e.IsException()
    ensures Main(ArgparseRaises(e), greet) == Uncaught(e, [])
    ensures var t := ProjectMain.Main(ArgparseRaises(e), greet);
      t.code == 1 && |t.log| == 1 && t.log[0].level == ERROR
  {
  }

  /** A cancellation during the greeter escapes the script (it is not an
      Exception), where the packaged entry point exits 0. */
  lemma CancellationEscapesOnlyHere(flag: Option<string>, greet: Greeter)
    requires greet(ParseArgs(flag)) == Failure(KeyboardInterrupt)
    ensures Main(Parsed(flag), greet) == Uncaught(KeyboardInterrupt, [])
    ensures ProjectMain.Main(Parsed(flag), greet) == Exit(0, [Info(ProjectMain.CancelledMessage)])
  {
  }
}
