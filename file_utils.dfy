/** `read_file_content`: reads a whole text file and classifies the ways the
    read can fail.  The file system and the UTF-8 codec are not modelled:
    what `open(...)` and `f.read()` do is an input. */
module FileUtils {
  import opened Python
  import opened Logging

  /** What opening the path and reading it as UTF-8 text does. */
  datatype ReadOutcome = Read(content: string) | Raises(error: PyException)

  /** How `read_file_content` ends: it returns `Optional[str]` or raises. */
  datatype ReadResult = Returned(content: Option<string>) | Raised(error: PyException)

  datatype ReadReport = ReadReport(result: ReadResult, log: seq<LogEntry>)

  /** The failures with a handler of their own, which logs and re-raises. */
  predicate IsReRaised(e: PyException)
    // all four are Exceptions, so their clauses come before the catch-all one
    ensures IsReRaised(e) ==> e.IsException()
    // of the ValueErrors only the decode failure is re-raised
    ensures e.IsValueError() ==> (IsReRaised(e) <==> e.UnicodeDecodeError?)
  {
    e.FileNotFoundError? || e.PermissionError? || e.IsADirectoryError? || e.UnicodeDecodeError?
  }

  // The openings of the records `read_file_content` logs
  const AttemptPrefix: string := "Attempting to read file: "
  const SuccessPrefix: string := "Successfully read file: "
  const NotFoundPrefix: string := "File not found: "
  const PermissionPrefix: string := "Permission denied for file: "
  const IsDirectoryPrefix: string := "Expected a file but found a directory: "
  const NotUtf8Tail: string := " is not UTF-8 encoded or contains invalid characters."
  const UnexpectedReadPrefix: string := "An unexpected error occurred while reading the file at "

  function AttemptRecord(filepath: string): LogEntry
  {
    Info(AttemptPrefix + filepath)
  }

  /** The result and the log of `read_file_content(filepath)` when reading
      the file does `outcome`.  The attempt is always logged first; content
      is returned unchanged; an exception is either re-raised as it is or
      swallowed into None, never a new one; and every Exception is logged at
      ERROR before it propagates or is swallowed. */
  function ReadFileContent(filepath: string, outcome: ReadOutcome): (r: ReadReport)
    ensures 1 <= |r.log| <= 2 && r.log[0] == AttemptRecord(filepath)
    ensures r.result.Returned? && r.result.content.Some? <==> outcome.Read?
    ensures outcome.Read? ==> r.result.content.value == outcome.content
    ensures r.result.Raised? ==> outcome == Raises(r.result.error)
    ensures outcome.Raises? && outcome.error.IsException() ==>
      |r.log| == 2 && r.log[1].level == ERROR
  {
    var attempt := AttemptRecord(filepath);
    match outcome
    case Read(content) =>
      ReadReport(Returned(Some(content)), [attempt, Info(SuccessPrefix + filepath)])
    case Raises(e) =>
      if e.FileNotFoundError? then
        ReadReport(Raised(e), [attempt, Error(NotFoundPrefix + filepath)])
      else if e.PermissionError? then
        ReadReport(Raised(e), [attempt, Error(PermissionPrefix + filepath)])
      else if e.IsADirectoryError? then
        ReadReport(Raised(e), [attempt, Error(IsDirectoryPrefix + filepath)])
      else if e.UnicodeDecodeError? then
        ReadReport(Raised(e), [attempt, Error("File at " + filepath + NotUtf8Tail)])
      else if e.IsException() then
        ReadReport(Returned(None), [attempt, Error(UnexpectedReadPrefix + filepath + ": " + e.Message())])
      else
        // KeyboardInterrupt, SystemExit and the other classes outside Exception pass through `except Exception`
        ReadReport(Raised(e), [attempt])
  }

  /** Which inputs give which result: content exactly for a successful read,
      None exactly for an Exception without its own handler, and the same
      exception re-raised exactly for the four named failures and for
      exceptions that are not Exceptions. */
  lemma ReadClassification(filepath: string, outcome: ReadOutcome)
    ensures var r := ReadFileContent(filepath, outcome).result;
      && (r == Returned(None) <==>
            outcome.Raises? && outcome.error.IsException() && !IsReRaised(outcome.error))
      && (r.Raised? <==>
            outcome.Raises? && (IsReRaised(outcome.error) || !outcome.error.IsException()))
      && (r.Raised? ==> r.error == outcome.error)
  {
  }

  /** A successful read returns the content unchanged, whatever it is, after
      logging the attempt and the success at INFO. */
  lemma ReadReturnsContent(filepath: string, content: string)
    ensures ReadFileContent(filepath, Read(content))
         == ReadReport(Returned(Some(content)), [AttemptRecord(filepath), Info(SuccessPrefix + filepath)])
    ensures Logged(ReadFileContent(filepath, Read(content)).log, INFO, AttemptPrefix)
    ensures Logged(ReadFileContent(filepath, Read(content)).log, INFO, SuccessPrefix)
  {
    var first, second := [AttemptRecord(filepath)], [Info(SuccessPrefix + filepath)];
    assert ReadFileContent(filepath, Read(content)).log == first + second;
    LoggedInfix(INFO, AttemptPrefix + filepath, [], AttemptPrefix, filepath);
    LoggedAppend(first, second, INFO, AttemptPrefix);
    LoggedInfix(INFO, SuccessPrefix + filepath, [], SuccessPrefix, filepath);
    LoggedAppend(first, second, INFO, SuccessPrefix);
  }

  /** An empty file gives the empty string, which is not None. */
  lemma EmptyFileIsNotAbsent(filepath: string)
    ensures ReadFileContent(filepath, Read("")).result == Returned(Some(""))
    ensures ReadFileContent(filepath, Read("")).result != Returned(None)
  {
  }

  /** The four named failures are logged at ERROR with their own message and
      re-raised unchanged. */
  lemma ReRaisesNamedFailures(filepath: string, m: string)
    ensures ReadFileContent(filepath, Raises(FileNotFoundError(m)))
         == ReadReport(Raised(FileNotFoundError(m)), [AttemptRecord(filepath), Error(NotFoundPrefix + filepath)])
    ensures ReadFileContent(filepath, Raises(PermissionError(m)))
         == ReadReport(Raised(PermissionError(m)), [AttemptRecord(filepath), Error(PermissionPrefix + filepath)])
    ensures ReadFileContent(filepath, Raises(IsADirectoryError(m)))
         == ReadReport(Raised(IsADirectoryError(m)), [AttemptRecord(filepath), Error(IsDirectoryPrefix + filepath)])
    ensures ReadFileContent(filepath, Raises(UnicodeDecodeError(m)))
         == ReadReport(Raised(UnicodeDecodeError(m)), [AttemptRecord(filepath), Error("File at " + filepath + NotUtf8Tail)])
  {
  }

  /** Each of those ERROR records carries its failure's phrase: "File not
      found", "Permission denied for file", "Expected a file but found a
      directory", "is not UTF-8 encoded". */
  lemma NamedFailurePhrases(filepath: string, m: string)
    ensures Logged(ReadFileContent(filepath, Raises(FileNotFoundError(m))).log, ERROR, NotFoundPrefix)
    ensures Logged(ReadFileContent(filepath, Raises(PermissionError(m))).log, ERROR, PermissionPrefix)
    ensures Logged(ReadFileContent(filepath, Raises(IsADirectoryError(m))).log, ERROR, IsDirectoryPrefix)
    ensures Logged(ReadFileContent(filepath, Raises(UnicodeDecodeError(m))).log, ERROR, NotUtf8Tail)
  {
    ReRaisesNamedFailures(filepath, m);
    FailureRecordLogs(filepath, NotFoundPrefix + filepath, [], NotFoundPrefix, filepath);
    FailureRecordLogs(filepath, PermissionPrefix + filepath, [], PermissionPrefix, filepath);
    FailureRecordLogs(filepath, IsDirectoryPrefix + filepath, [], IsDirectoryPrefix, filepath);
    FailureRecordLogs(filepath, "File at " + filepath + NotUtf8Tail, "File at " + filepath, NotUtf8Tail, []);
  }

  /** The attempt record followed by an ERROR record logs what that record's message carries. */
  lemma FailureRecordLogs(filepath: string, message: string, a: string, phrase: string, b: string)
    requires message == a + phrase + b
    ensures Logged([AttemptRecord(filepath), Error(message)], ERROR, phrase)
  {
    LoggedInfix(ERROR, message, a, phrase, b);
    assert [AttemptRecord(filepath), Error(message)] == [AttemptRecord(filepath)] + [Error(message)];
    LoggedAppend([AttemptRecord(filepath)], [Error(message)], ERROR, phrase);
  }

  /** Any other Exception is logged at ERROR with its text and swallowed:
      the caller gets None. */
  lemma SwallowsOtherErrors(filepath: string, e: PyException)
    requires e.IsException() && !IsReRaised(e)
    ensures ReadFileContent(filepath, Raises(e))
         == ReadReport(Returned(None),
                       [AttemptRecord(filepath), Error(UnexpectedReadPrefix + filepath + ": " + e.Message())])
  {
  }

  /** An exception outside Exception (KeyboardInterrupt, SystemExit, ...) propagates without an ERROR record. */
  lemma InterruptsPropagate(filepath: string, e: PyException)
    requires !e.IsException()
    ensures ReadFileContent(filepath, Raises(e)) == ReadReport(Raised(e), [AttemptRecord(filepath)])
  {
  }
}
