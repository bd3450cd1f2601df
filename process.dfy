/** How a run of a command-line entry point begins and ends. */
module Process {
  import opened Python
  import opened Logging

  /** What `parser.parse_args()` does with the command line: it yields the
      value of `--name` (absent or a string), or raises (argparse raises
      SystemExit for `--help` and for malformed options). */
  datatype ArgsOutcome = Parsed(nameFlag: Option<string>) | ArgparseRaises(error: PyException)

  /** How the entry point ends, with the records it logged on the way. */
  datatype Termination =
    | Exit(code: int, log: seq<LogEntry>)            // a SystemExit left the function
    | Uncaught(error: PyException, log: seq<LogEntry>) // another exception left the function
    | Normal(log: seq<LogEntry>)                     // the function returned

  /** An exception no handler caught leaves the entry point: a SystemExit
      ends the process with its code, anything else propagates. */
  function Escape(log: seq<LogEntry>, e: PyException): (t: Termination)
    ensures !t.Normal? && t.log == log
    ensures t.Exit? <==> e.SystemExit?
    ensures t.Exit? ==> t.code == e.code
    ensures t.Uncaught? ==> t.error == e
  {
    if e.SystemExit? then Exit(e.code, log) else Uncaught(e, log)
  }

  /** The name greeter that the entry point calls; tests replace it. */
  type Greeter = string -> Result<string>
}
