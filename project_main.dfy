/** The packaged entry point: a validating greeter, the `--name` option and
    the `main` function that maps the greeter's outcome to a log record and
    an exit code. */
module ProjectMain {
  import opened Python
  import opened Logging
  import opened Process

  /** The argument of `sample_function`.  Python checks its type at run time,
      so a non-string value is represented by the name of its type
      (`type(x).__name__`). */
  datatype PyValue = Str(s: string) | NonStr(typeName: string)

  const GreetingPrefix: string := "Hello, "
  const WelcomeTail: string := " Welcome to the template repository."
  const GreetingSuffix: string := "!" + WelcomeTail
  const EmptyNameMessage: string := "Name cannot be empty or contain only whitespace"
  const TypeErrorPrefix: string := "Expected string for name, got "
  const DefaultName: string := "World"

  // The openings of the records `main` logs
  const InvalidInputPrefix: string := "Invalid input value: "
  const TypeErrorLogPrefix: string := "Type error: "
  const CancelledMessage: string := "Operation cancelled by user"
  const UnexpectedErrorPrefix: string := "An unexpected error occurred: "

  /** The greeting template shared by both greeters: the fixed opening, the
      name as it is, then the fixed ending. */
  function Greeting(name: string): (g: string)
    ensures |g| == |GreetingPrefix| + |name| + |GreetingSuffix|
    ensures g[..|GreetingPrefix|] == GreetingPrefix
    ensures g[|GreetingPrefix|..|g| - |GreetingSuffix|] == name
    ensures g[|g| - |GreetingSuffix|..] == GreetingSuffix
  {
    GreetingPrefix + name + GreetingSuffix
  }

  /** The name a greeting was made for, or None when `g` is not a greeting. */
  function NameOfGreeting(g: string): (r: Option<string>)
    ensures r.Some? ==> Greeting(r.value) == g
  {
    if |g| >= |GreetingPrefix| + |GreetingSuffix|
       && g[..|GreetingPrefix|] == GreetingPrefix
       && g[|g| - |GreetingSuffix|..] == GreetingSuffix
    then
      var name := g[|GreetingPrefix|..|g| - |GreetingSuffix|];
      assert g == g[..|GreetingPrefix|] + name + g[|g| - |GreetingSuffix|..];
      Some(name)
    else None
  }

  /** Every greeting names the person it greets. */
  lemma GreetingRoundTrip(name: string)
    ensures NameOfGreeting(Greeting(name)) == Some(name)
  {
  }

  /** Different names give different greetings. */
  lemma GreetingInjective(a: string, b: string)
    ensures Greeting(a) == Greeting(b) <==> a == b
  {
    if Greeting(a) == Greeting(b) {
      GreetingRoundTrip(a);
      GreetingRoundTrip(b);
    }
  }

  /** What the tests look for in a greeting: the name itself and the
      "Hello, <name>!" opening. */
  lemma GreetingContainsName(name: string)
    ensures Contains(name, Greeting(name))
    ensures Contains(GreetingPrefix + name + "!", Greeting(name))
  {
    ContainsInfix(Greeting(name), GreetingPrefix, name, GreetingSuffix);
    ContainsInfix(Greeting(name), [], GreetingPrefix + name + "!", WelcomeTail);
  }

  /** `not name or name.isspace()`: blank exactly when the name has no
      non-whitespace character, the empty name included. */
  predicate IsBlank(name: string)
    ensures IsBlank(name) <==> forall i | 0 <= i < |name| :: IsWhitespaceChar(name[i])
  {
    |name| == 0 || IsSpace(name)
  }

  /** `sample_function`: the type check first, then the blank check, then
      the greeting. */
  function SampleFunction(name: PyValue): (r: Result<string>)
    ensures name.NonStr? ==> r == Failure(TypeError(TypeErrorPrefix + name.typeName))
    ensures name.Str? && IsBlank(name.s) ==> r == Failure(ValueError(EmptyNameMessage))
    ensures name.Str? && !IsBlank(name.s) ==> r.Success? && NameOfGreeting(r.value) == Some(name.s)
    ensures r.Failure? ==> r.error.ValueError? || r.error.TypeError?
  {
    if name.NonStr? then
      Failure(TypeError(TypeErrorPrefix + name.typeName))
    else if IsBlank(name.s) then
      Failure(ValueError(EmptyNameMessage))
    else
      GreetingRoundTrip(name.s);
      Success(Greeting(name.s))
  }

  /** A string with at least one non-whitespace character is greeted with
      exactly the template. */
  lemma GreetsVisibleName(name: string, i: nat)
    requires i < |name| && !IsWhitespaceChar(name[i])
    ensures SampleFunction(Str(name)) == Success(Greeting(name))
  {
  }

  /** The empty string, and any string of spaces, tabs and newlines, is
      rejected with the same ValueError. */
  lemma RejectsBlankNames(name: string)
    requires forall i | 0 <= i < |name| :: name[i] in {' ', '\t', '\n'}
    ensures SampleFunction(Str(name)) == Failure(ValueError(EmptyNameMessage))
  {
  }

  /** Non-strings are rejected with a TypeError naming their type, never with
      a ValueError. */
  lemma RejectsNonStrings(typeName: string)
    ensures SampleFunction(NonStr(typeName)).Failure?
    ensures SampleFunction(NonStr(typeName)).error == TypeError("Expected string for name, got " + typeName)
    ensures !SampleFunction(NonStr(typeName)).error.IsValueError()
  {
  }

  /** `parse_args`: `--name` defaults to "World"; a supplied value is passed on unchanged. */
  function ParseArgs(nameFlag: Option<string>): (name: string)
    ensures nameFlag.None? ==> name == DefaultName
    ensures nameFlag.Some? ==> name == nameFlag.value
  {
    match nameFlag
    case None => DefaultName
    case Some(n) => n
  }

  /** The greeter `main` calls: argparse always yields a string. */
  const SampleGreeter: Greeter := (n: string) => SampleFunction(Str(n))

  /** The body of the `try` in `main`: parse, greet, log, then `sys.exit(0)`.
      The body always ends by raising, since `sys.exit(0)` raises
      SystemExit(0); the result is the records logged and the exception
      raised. */
  function TryBody(args: ArgsOutcome, greet: Greeter): (r: (seq<LogEntry>, PyException))
    ensures r.0 != [] <==> args.Parsed? && greet(ParseArgs(args.nameFlag)).Success?
    ensures r.0 != [] ==> r == ([Info(greet(ParseArgs(args.nameFlag)).value)], SystemExit(0))
    ensures r.0 == [] && args.ArgparseRaises? ==> r.1 == args.error
    ensures r.0 == [] && args.Parsed? ==> greet(ParseArgs(args.nameFlag)) == Failure(r.1)
  {
    match args
    case ArgparseRaises(e) => ([], e)
    case Parsed(flag) =>
      match greet(ParseArgs(flag))
      case Success(message) => ([Info(message)], SystemExit(0))
      case Failure(e) => ([], e)
  }

  /** The `except` clauses of `main`, tried in order.  Each handler logs one
      record after what was logged already and ends in `sys.exit`: code 0 and
      INFO exactly for KeyboardInterrupt, code 1 and ERROR for every
      Exception.  SystemExit, and the other classes outside Exception, are
      caught by none of them.  A UnicodeDecodeError is a ValueError, so the
      first clause takes it. */
  function Handle(log: seq<LogEntry>, e: PyException): (t: Termination)
    ensures !t.Normal?
    ensures t.Uncaught? <==> e.OtherBaseException?
    ensures t.Uncaught? ==> t == Uncaught(e, log)
    ensures e.SystemExit? ==> t == Exit(e.code, log)
    ensures !e.SystemExit? && t.Exit? ==>
      && |t.log| == |log| + 1 && t.log[..|log|] == log
      && (t.code == 0 <==> e.KeyboardInterrupt?) && (t.code == 1 <==> e.IsException())
      && (t.log[|log|].level == INFO <==> e.KeyboardInterrupt?)
    ensures e.UnicodeDecodeError? ==> t == Exit(1, log + [Error(InvalidInputPrefix + e.msg)])
  {
    if e.IsValueError() then
      Exit(1, log + [Error(InvalidInputPrefix + e.Message())])
    else if e.IsTypeError() then
      Exit(1, log + [Error(TypeErrorLogPrefix + e.Message())])
    else if e.KeyboardInterrupt? then
      Exit(0, log + [Info(CancelledMessage)])
    else if e.IsException() then
      Exit(1, log + [Error(UnexpectedErrorPrefix + e.Message())])
    else
      Escape(log, e)
  }

  /** `main`: it never returns normally and logs at most one record.  When it
      logs a record, that record is at INFO exactly when the exit code is 0
      (a SystemExit(0) from argparse, as for `--help`, exits 0 with nothing
      logged).  An exit code other than 0 and 1 only passes on a SystemExit
      that argparse or the greeter raised, and then nothing is logged.  Only
      an exception outside Exception other than KeyboardInterrupt and
      SystemExit leaves it uncaught, with nothing logged. */
  function Main(args: ArgsOutcome, greet: Greeter): (t: Termination)
    ensures !t.Normal?
    ensures |t.log| <= 1
    ensures t.Uncaught? ==>
      && t.log == [] && t.error.OtherBaseException?
      && (|| args == ArgparseRaises(t.error)
          || (args.Parsed? && greet(ParseArgs(args.nameFlag)) == Failure(t.error)))
    ensures t.Exit? ==> forall i | 0 <= i < |t.log| :: t.log[i].level == INFO <==> t.code == 0
    ensures args.ArgparseRaises? && args.error.SystemExit? ==> t == Exit(args.error.code, [])
    ensures t.Exit? && t.code != 0 && t.code != 1 ==>
      && t.log == []
      && (|| args == ArgparseRaises(SystemExit(t.code))
          || (args.Parsed? && greet(ParseArgs(args.nameFlag)) == Failure(SystemExit(t.code))))
  {
    var (log, raised) := TryBody(args, greet);
    Handle(log, raised)
  }

  /** The dispatch of `main` over the greeter's outcome. */
  lemma MainDispatch(flag: Option<string>, greet: Greeter)
    ensures var out, t := greet(ParseArgs(flag)), Main(Parsed(flag), greet);
      && (out.Success? ==> t == Exit(0, [Info(out.value)]))
      && (out.Failure? && out.error.IsValueError() ==>
            t == Exit(1, [Error(InvalidInputPrefix + out.error.Message())]))
      && (out.Failure? && out.error.IsTypeError() ==>
            t == Exit(1, [Error(TypeErrorLogPrefix + out.error.Message())]))
      && (out == Failure(KeyboardInterrupt) ==> t == Exit(0, [Info(CancelledMessage)]))
      && (out.Failure? && out.error.IsException() && !out.error.IsValueError() && !out.error.IsTypeError() ==>
            t == Exit(1, [Error(UnexpectedErrorPrefix + out.error.Message())]))
      && (out.Failure? && out.error.SystemExit? ==> t == Exit(out.error.code, []))
  {
  }

  /** `main` with the real greeter: exit 0 and the greeting at INFO when the
      name has a visible character, otherwise exit 1 and the "Invalid input
      value" record; the TypeError handler is never reached, since argparse
      yields strings. */
  lemma MainWithSampleGreeter(flag: Option<string>)
    ensures var name, t := ParseArgs(flag), Main(Parsed(flag), SampleGreeter);
      && (!IsBlank(name) ==> t == Exit(0, [Info(Greeting(name))]))
      && (IsBlank(name) ==> t == Exit(1, [Error(InvalidInputPrefix + EmptyNameMessage)]))
      && (SampleGreeter(name).Failure? ==> !SampleGreeter(name).error.IsTypeError())
  {
  }

  /** `main` with no `--name` greets the World and exits 0. */
  lemma MainDefaultRun()
    ensures Main(Parsed(None), SampleGreeter) == Exit(0, [Info(Greeting(DefaultName))])
    ensures Logged(Main(Parsed(None), SampleGreeter).log, INFO, GreetingPrefix + DefaultName + "!")
  {
    MainWithSampleGreeter(None);
    assert !IsBlank(DefaultName) by { assert !IsWhitespaceChar(DefaultName[0]); }
    LoggedInfix(INFO, Greeting(DefaultName), [], GreetingPrefix + DefaultName + "!", WelcomeTail);
  }

  /** `main` with a visible name logs the name and the "Hello, <name>!" opening. */
  lemma MainGreetsName(name: string, i: nat)
    requires i < |name| && !IsWhitespaceChar(name[i])
    ensures Main(Parsed(Some(name)), SampleGreeter) == Exit(0, [Info(Greeting(name))])
    ensures Logged(Main(Parsed(Some(name)), SampleGreeter).log, INFO, name)
    ensures Logged(Main(Parsed(Some(name)), SampleGreeter).log, INFO, GreetingPrefix + name + "!")
  {
    assert !IsBlank(name);
    MainWithSampleGreeter(Some(name));
    LoggedInfix(INFO, Greeting(name), GreetingPrefix, name, GreetingSuffix);
    assert Greeting(name) == [] + (GreetingPrefix + name + "!") + WelcomeTail;
    LoggedInfix(INFO, Greeting(name), [], GreetingPrefix + name + "!", WelcomeTail);
  }

  /** `main` with an empty or blank `--name` exits 1 and logs an ERROR
      record opening with "Invalid input value: ". */
  lemma MainRejectsBlankName(name: string)
    requires IsBlank(name)
    ensures Main(Parsed(Some(name)), SampleGreeter).code == 1
    ensures Logged(Main(Parsed(Some(name)), SampleGreeter).log, ERROR, InvalidInputPrefix)
  {
    MainWithSampleGreeter(Some(name));
    LoggedInfix(ERROR, InvalidInputPrefix + EmptyNameMessage, [], InvalidInputPrefix, EmptyNameMessage);
  }

  /** A cancellation during the greeter exits 0 and logs "Operation cancelled by user" at INFO. */
  lemma MainCancelled(flag: Option<string>, greet: Greeter)
    requires greet(ParseArgs(flag)) == Failure(KeyboardInterrupt)
    ensures Main(Parsed(flag), greet).code == 0
    ensures Logged(Main(Parsed(flag), greet).log, INFO, CancelledMessage)
  {
    MainDispatch(flag, greet);
    LoggedInfix(INFO, CancelledMessage, [], CancelledMessage, []);
  }

  /** Any other Exception from the greeter exits 1 and logs an ERROR record
      opening with "An unexpected error occurred: ". */
  lemma MainUnexpectedError(flag: Option<string>, greet: Greeter)
    requires greet(ParseArgs(flag)).Failure?
    requires var e := greet(ParseArgs(flag)).error; e.IsException() && !e.IsValueError() && !e.IsTypeError()
    ensures Main(Parsed(flag), greet).code == 1
    ensures Logged(Main(Parsed(flag), greet).log, ERROR, UnexpectedErrorPrefix)
  {
    var e := greet(ParseArgs(flag)).error;
    MainDispatch(flag, greet);
    LoggedInfix(ERROR, UnexpectedErrorPrefix + e.Message(), [], UnexpectedErrorPrefix, e.Message());
  }

  /** Whatever argparse raises is handled by the same clauses, since the
      call sits inside the `try`; with nothing logged before it. */
  lemma MainHandlesArgparseErrors(e: PyException, greet: Greeter)
    ensures var t := Main(ArgparseRaises(e), greet);
      && (e.IsException() ==> t.code == 1 && |t.log| == 1 && t.log[0].level == ERROR)
      && (e == KeyboardInterrupt ==> t == Exit(0, [Info(CancelledMessage)]))
      && (e.SystemExit? ==> t == Exit(e.code, []))
  {
  }
}
