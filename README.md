# My Python Project Template, modelled in Dafny

The modelled application is a small command-line greeter and a file-reading helper.

- The packaged entry point (`src/my_project/main.py`) has three parts:
  - a greeter `sample_function`, which checks that its argument is a string and not blank, then formats `"Hello, <name>! Welcome to the template repository."`;
  - `parse_args`, whose `--name` option defaults to `"World"`;
  - `main`, which maps the greeter's outcome to at most one log record and a process exit code.
- The file helper `read_file_content` (`src/my_project/file_utils.py`) reads a text file. It sorts the ways the read can fail into three groups: failures it logs and re-raises, failures it logs and turns into `None`, and exceptions outside `Exception` (`KeyboardInterrupt`, `SystemExit`, ...), which it re-raises with no ERROR record.
- The older top-level script (`main.py`) has a greeter with no validation and a `main` with a single catch-all handler. It is modelled beside the packaged entry point so that the lemmas can state exactly how the two behave differently.

Apart from logging, raising and `sys.exit`, the Python functions here have two effects: `read_file_content` opens and reads a file, and `parse_args` reads `sys.argv`. Those two are inputs to the model: `ReadOutcome` says what the read did and `ArgsOutcome` what argparse did. Each function then becomes a Dafny function that returns its other effects as data:

- a log is a `seq<LogEntry>` of (level, message) records;
- an exception is a `PyException` value;
- the end of a run is a `Termination`: `Exit(code, log)` when a `SystemExit` leaves `main`, `Uncaught(e, log)` when another exception leaves it, or `Normal(log)` when `main` returns.

Files and modules:

- `python.dfy` (`Python`): the runtime facts the code relies on.
  - The exception classes, with the subclass tests that `except` clauses make. `UnicodeDecodeError` is a `ValueError`. `KeyboardInterrupt`, `SystemExit` and `OtherBaseException` (GeneratorExit, BaseExceptionGroup, a user class deriving from BaseException) are not `Exception`s.
  - `str(e)`.
  - `str.isspace`, from CPython's whitespace table.
  - The `in` operator on strings.
- `logging.dfy` (`Logging`): log levels and records.
- `process.dfy` (`Process`): how a run starts (the outcome of argparse) and how it ends. It also defines the greeter type. Tests substitute their own greeter; here the greeter is a parameter.
- `project_main.dfy` (`ProjectMain`): `src/my_project/main.py`.
- `file_utils.dfy` (`FileUtils`): `src/my_project/file_utils.py`. What `open(...)`/`f.read()` does is an input: either `Read(content)` or `Raises(e)`.
- `legacy_script.dfy` (`LegacyScript`): `main.py`, and the lemmas comparing it with the packaged entry point.

Some places where the code is more precise than a plain description of it:

- In the packaged `main`, `sys.exit(0)` sits inside the `try`. The `SystemExit` it raises gets past every `except` clause, because `SystemExit` is not an `Exception`. For the same reason, a `SystemExit` raised by argparse keeps its code. A malformed option therefore exits 2, not 0 or 1. `Main`'s contract says so: any exit code other than 0 or 1 is a `SystemExit` passed on from argparse or from the greeter.
- `read_file_content` logs an ERROR record for every failure that is an `Exception`. `KeyboardInterrupt`, `SystemExit` and the other classes outside `Exception` pass through its handlers with only the "Attempting to read file" record logged.
- A `UnicodeDecodeError` raised inside the packaged `main` would be caught by its `except ValueError` clause. `Handle` follows the class hierarchy here.

## Model

| member | source | states |
|---|---|---|
| `ProjectMain.Greeting` | src/my_project/main.py:36 | The greeting is the fixed opening "Hello, ", then the name unchanged, then the fixed ending "! Welcome to the template repository.". |
| `ProjectMain.NameOfGreeting` | src/my_project/main.py:36 | Inverse of the greeting template: any name it recovers from a string gives back exactly that string when re-greeted. |
| `ProjectMain.GreetingRoundTrip` | src/my_project/main.py:36 | The name can always be recovered from its greeting. |
| `ProjectMain.GreetingInjective` | src/my_project/main.py:36 | Two greetings are equal if and only if the names are equal. |
| `ProjectMain.GreetingContainsName` | src/my_project/main.py:36 | The greeting contains the name and the opening "Hello, <name>!". The tests look for both. |
| `Python.IsWhitespaceChar` | src/my_project/main.py:33 | The characters `str.isspace` accepts. On ASCII they are exactly space, tab, newline, carriage return, vertical tab, form feed and the separators U+001C to U+001F. No letter, digit or underscore is one. |
| `Python.IsSpace` | src/my_project/main.py:33 | `s.isspace()` is false for the empty string. On a non-empty string it holds if and only if the first character is whitespace and so is the rest, if there is a rest. |
| `ProjectMain.IsBlank` | src/my_project/main.py:33 | `not name or name.isspace()` holds if and only if every character is whitespace. This includes the empty string. |
| `ProjectMain.SampleFunction` | src/my_project/main.py:30-36 | A non-string gives TypeError "Expected string for name, got <type>", so the type check comes first. A blank string gives the ValueError with the fixed message. Any other string is greeted, and the name can be recovered from the result. The only errors are ValueError and TypeError. |
| `ProjectMain.GreetsVisibleName` | src/my_project/main.py:33-36 | A string with at least one non-whitespace character gets exactly `"Hello, " + name + "! Welcome to the template repository."`. |
| `ProjectMain.RejectsBlankNames` | src/my_project/main.py:33-34 | The empty string, and any string of spaces, tabs and newlines, is rejected with ValueError "Name cannot be empty or contain only whitespace". |
| `ProjectMain.RejectsNonStrings` | src/my_project/main.py:30-31 | A non-string is rejected with TypeError "Expected string for name, got <type>". It is never rejected with a ValueError. |
| `ProjectMain.ParseArgs` | src/my_project/main.py:47 | Without `--name` the name is "World". A supplied name is passed on unchanged. |
| `Process.Escape` | src/my_project/main.py:58-78 | An exception that no handler catches leaves the entry point with the log so far. A SystemExit ends the run with its own code; any other exception propagates as it is. |
| `ProjectMain.TryBody` | src/my_project/main.py:58-62 | The `try` body always ends by raising. It logs a record exactly when argparse and the greeter both succeed; it then logs the greeting at INFO and raises SystemExit(0). Otherwise it logs nothing and raises what argparse or the greeter raised. |
| `ProjectMain.Handle` | src/my_project/main.py:64-78 | The `except` chain never returns. SystemExit is caught by no clause and keeps its code. An exception outside Exception other than KeyboardInterrupt and SystemExit propagates. Every other exception adds exactly one record: code 0 and INFO exactly for KeyboardInterrupt, code 1 for every Exception. A UnicodeDecodeError goes to the ValueError clause. |
| `ProjectMain.Main` | src/my_project/main.py:51-78 | `main` never returns normally, as its docstring promises. It logs at most one record, and a logged record is at INFO exactly when the exit code is 0. A SystemExit from argparse keeps its code and nothing is logged, so `--help` exits 0 with an empty log. An exit code other than 0 or 1 only passes on a SystemExit from argparse or the greeter, and then nothing is logged. The run ends uncaught only on an exception outside Exception other than KeyboardInterrupt and SystemExit, with nothing logged. |
| `ProjectMain.MainDispatch` | src/my_project/main.py:58-78 | The dispatch table from the greeter's outcome to the result. Success gives exit 0 and the greeting at INFO. ValueError gives exit 1 and "Invalid input value: ". TypeError gives exit 1 and "Type error: ". KeyboardInterrupt gives exit 0 and INFO "Operation cancelled by user". Any other Exception gives exit 1 and "An unexpected error occurred: ". A SystemExit keeps its code and logs nothing. |
| `ProjectMain.MainWithSampleGreeter` | src/my_project/main.py:58-70 | With the real greeter: exit 0 and the greeting when the name is not blank. Otherwise exit 1 and the "Invalid input value" record. The TypeError handler is never reached. |
| `ProjectMain.MainDefaultRun` | src/my_project/main.py:58-62 | With no `--name`, exit 0 with "Hello, World!" logged at INFO. |
| `ProjectMain.MainGreetsName` | src/my_project/main.py:59-62 | With a visible name, exit 0. The INFO log contains the name and "Hello, <name>!". |
| `ProjectMain.MainRejectsBlankName` | src/my_project/main.py:64-66 | With an empty or blank `--name`, exit 1 and an ERROR record that opens with "Invalid input value: ". |
| `ProjectMain.MainCancelled` | src/my_project/main.py:72-74 | A KeyboardInterrupt from the greeter gives exit 0 and "Operation cancelled by user" at INFO. |
| `ProjectMain.MainUnexpectedError` | src/my_project/main.py:76-78 | Any other Exception from the greeter gives exit 1 and an ERROR record that opens with "An unexpected error occurred: ". |
| `ProjectMain.MainHandlesArgparseErrors` | src/my_project/main.py:58-59 | The argparse call is inside the `try`. An Exception it raises is logged at ERROR and exits 1. A KeyboardInterrupt exits 0. A SystemExit keeps its code. |
| `FileUtils.IsReRaised` | src/my_project/file_utils.py:32-49 | The four classes with their own re-raising clause are all Exceptions, so their clauses come before the catch-all. Of the ValueErrors, only UnicodeDecodeError is re-raised. |
| `FileUtils.ReadFileContent` | src/my_project/file_utils.py:9-57 | The attempt is always logged first. A successful read returns the content unchanged. A raised exception is the read's own exception, never a new one. Every Exception gets an ERROR record before it propagates or is swallowed. |
| `FileUtils.ReadClassification` | src/my_project/file_utils.py:25-57 | The result is None if and only if the read raised an Exception without its own handler. The function re-raises if and only if the read raised one of the four named failures or a non-Exception. Whatever is re-raised is the read's own exception. |
| `FileUtils.ReadReturnsContent` | src/my_project/file_utils.py:25-30 | A successful read returns the content unchanged, whatever it is. The log is "Attempting to read file: <path>" then "Successfully read file: <path>", both at INFO. |
| `FileUtils.EmptyFileIsNotAbsent` | src/my_project/file_utils.py:27-30 | An empty file returns `Some("")`, which is distinct from None. |
| `FileUtils.ReRaisesNamedFailures` | src/my_project/file_utils.py:32-49 | FileNotFoundError, PermissionError, IsADirectoryError and UnicodeDecodeError are each re-raised unchanged. Each is logged after the attempt record with its own exact ERROR message. |
| `FileUtils.NamedFailurePhrases` | src/my_project/file_utils.py:32-49 | Those ERROR records contain "File not found: ", "Permission denied for file: ", "Expected a file but found a directory: " and " is not UTF-8 encoded or contains invalid characters.". |
| `FileUtils.SwallowsOtherErrors` | src/my_project/file_utils.py:51-57 | Any other Exception is logged at ERROR as "An unexpected error occurred while reading the file at <path>: <text>", and the caller gets None. |
| `FileUtils.InterruptsPropagate` | src/my_project/file_utils.py:51 | KeyboardInterrupt, SystemExit and every other exception outside Exception propagate with only the attempt record logged. |
| `LegacyScript.SampleFunction` | main.py:11-21 | Formats the greeting for every string, including empty and whitespace-only ones. The name can be recovered from the result. |
| `LegacyScript.ParseArgs` | main.py:31 | Without `--name` the name is "World". A supplied name is passed on unchanged. |
| `LegacyScript.Main` | main.py:34-45 | Anything argparse raises escapes before anything is logged. `main` returns normally exactly when the greeter returns, having logged its message at INFO. Any other exit that logs has code 1 and a single ERROR record. An exception that escapes the greeter is not an Exception. |
| `LegacyScript.MainAlwaysGreets` | main.py:38-42 | With its own greeter, the script greets every name at INFO and returns normally, with no explicit exit. |
| `LegacyScript.MainCatchAll` | main.py:43-45 | Any Exception from the greeter logs "An error occurred: <text>" at ERROR and exits 1. |
| `LegacyScript.SameDefaultAndTemplate` | main.py:21-31 | Both versions default to "World" and use the same greeting template. |
| `LegacyScript.AgreesOnVisibleNames` | main.py:11-21 | For a name with a visible character, both greeters give the same greeting and both entry points log it. The packaged one exits 0; the script returns. |
| `LegacyScript.DiffersOnBlankNames` | main.py:11-21 | For a blank name, the script greets and returns. The packaged entry point rejects the name and exits 1 with "Invalid input value". |
| `LegacyScript.ParseErrorsEscapeOnlyHere` | main.py:38-40 | An Exception from argparse escapes the script unlogged, because `parse_args` runs before the `try`. The packaged entry point logs it at ERROR and exits 1. |
| `LegacyScript.CancellationEscapesOnlyHere` | main.py:40-45 | A KeyboardInterrupt from the greeter escapes the script's `except Exception`. The packaged entry point exits 0 on it. |

## Left out

- The file system and the UTF-8 codec. What `open`/`read` does is the `ReadOutcome` input, and the cause of each failure is not modelled.
- argparse itself: how `--help` is printed, the option syntax, and the messages for malformed options. Its outcome is the `ArgsOutcome` input, and a `SystemExit` it raises is passed on with its code.
- Logging configuration (`basicConfig`), timestamps, the line format, and the traceback that `logger.exception` appends. A log is the sequence of (level, message) records.
- Process termination. `sys.exit(c)` is the `SystemExit(c)` exception, and the code a run exits with is `Termination.Exit`'s `code`. The interpreter's exit status after an uncaught exception is not modelled; such a run ends in `Uncaught`.
- The asynchronous delivery of KeyboardInterrupt. It is one more outcome the greeter or the read may produce.
- `type(x).__name__` is kept as an opaque type-name string on `NonStr`.
- The whitespace table in `Python.IsWhitespaceChar` is CPython's list of whitespace code points, written out by hand; it is not derived from a Unicode database.
- `OtherError` stands for every Exception that is an instance of none of ValueError, TypeError, FileNotFoundError, PermissionError and IsADirectoryError, including a plain OSError and its other subclasses. Its class name is not modelled, because no message uses it.
- A subclass of one of the named classes, such as UnicodeEncodeError or a user subclass of TypeError, is represented by its base class's constructor, because the `except` clauses match by `isinstance` and only `str(e)` is used. A UnicodeDecodeError has its own constructor, because the file reader names it.
- A class that inherits from two of the named classes cannot be represented. An example is a user class deriving from both ValueError and FileNotFoundError: `main` and `read_file_content` would each take the first matching clause.
- LegacyScript.SampleFunction: takes only strings, because its one caller passes the parsed `--name`. On a non-string, the Python f-string would format `str(x)`.
- Names that a Dafny `string` cannot hold. Python's `str` may contain lone surrogates, and on POSIX argparse receives undecodable command-line bytes as such surrogates (the `surrogateescape` handler). They are not whitespace, so `sample_function` would greet such a name, but the model cannot represent one.
- `OtherBaseException` carries only its class name: `str(e)` of such an exception is never used by the code.
- The test files and fixtures are not modelled.
