/** The few facts about the Python runtime that the application relies on:
    the exception classes it raises, catches or lets through (with the
    subclass relation its `except` clauses test), `Optional` values, the
    `str.isspace` method and the `in` operator on strings. */
module Python {

  datatype Option<+T> = None | Some(value: T)

  /** One constructor per exception class that an `except` clause of the
      application names.  The `except` clauses match by `isinstance`, and the
      handlers use only `str(e)`, so any subclass of one of these classes
      (other than UnicodeDecodeError, which the file reader names) is
      represented by its base class's constructor: a UnicodeEncodeError or a
      JSONDecodeError is a `ValueError`.  `msg` is what `str(e)` gives. */
  datatype PyException =
    | ValueError(msg: string)
    | UnicodeDecodeError(msg: string)    // a subclass of ValueError
    | TypeError(msg: string)
    | FileNotFoundError(msg: string)     // FileNotFoundError, PermissionError and
    | PermissionError(msg: string)       // IsADirectoryError are the OSError
    | IsADirectoryError(msg: string)     // subclasses the file reader names
    | OtherError(msg: string)            // an Exception that is an instance of none of the classes
                                         // above (RuntimeError, a plain OSError, ...)
    | KeyboardInterrupt                  // derives from BaseException only
    | SystemExit(code: int)              // raised by sys.exit; derives from BaseException only
    | OtherBaseException(className: string)
                                         // any other class outside Exception: GeneratorExit,
                                         // BaseExceptionGroup, a user class deriving from BaseException
  {
    /** `isinstance(e, ValueError)` */
    predicate IsValueError() {
      ValueError? || UnicodeDecodeError?
    }

    /** `isinstance(e, TypeError)` */
    predicate IsTypeError() {
      TypeError?
    }

    /** `isinstance(e, Exception)`: everything except the classes that derive
        from BaseException without deriving from Exception */
    predicate IsException() {
      !KeyboardInterrupt? && !SystemExit? && !OtherBaseException?
    }

    /** `str(e)` for an instance of Exception */
    function Message(): string
      requires IsException()
    {
      match this
      case ValueError(m) => m
      case UnicodeDecodeError(m) => m
      case TypeError(m) => m
      case FileNotFoundError(m) => m
      case PermissionError(m) => m
      case IsADirectoryError(m) => m
      case OtherError(m) => m
    }
  }

  /** What a Python call does: returns a value or raises. */
  datatype Result<+T> = Success(value: T) | Failure(error: PyException)

  /** The characters CPython's `str.isspace` treats as whitespace: the
      characters of Unicode category Zs or of bidirectional class WS, B or S. */
  predicate IsWhitespaceChar(c: char)
    // on ASCII it is exactly `bytes.isspace` plus the four separators U+001C .. U+001F
    ensures c < '\U{80}' ==> (IsWhitespaceChar(c) <==> c in " \t\n\r\U{0B}\U{0C}\U{1C}\U{1D}\U{1E}\U{1F}")
    // no letter, digit or underscore is whitespace
    ensures ('a' <= c <= 'z' || 'A' <= c <= 'Z' || '0' <= c <= '9' || c == '_') ==> !IsWhitespaceChar(c)
  {
    || ('\t' <= c <= '\r')                 // U+0009 .. U+000D
    || ('\U{1C}' <= c <= ' ')              // U+001C .. U+0020
    || c == '\U{85}' || c == '\U{A0}' || c == '\U{1680}'
    || ('\U{2000}' <= c <= '\U{200A}')
    || c == '\U{2028}' || c == '\U{2029}' || c == '\U{202F}' || c == '\U{205F}'
    || c == '\U{3000}'
  }

  /** `s.isspace()`: true when `s` has at least one character and every
      character is whitespace; false for the empty string. */
  predicate IsSpace(s: string)
    ensures s == [] ==> !IsSpace(s)
    // one character at a time: the first is whitespace and so is the rest, if any
    ensures s != [] ==> (IsSpace(s) <==> IsWhitespaceChar(s[0]) && (|s| == 1 || IsSpace(s[1..])))
  {
    |s| > 0 && forall i | 0 <= i < |s| :: IsWhitespaceChar(s[i])
  }

  predicate IsPrefix(p: string, s: string)
  {
    |p| <= |s| && s[..|p|] == p
  }

  /** `sub in s` for strings */
  predicate Contains(sub: string, s: string)
  {
    exists k | 0 <= k <= |s| :: IsPrefix(sub, s[k..])
  }

  /** A string contains every infix it is built around. */
  lemma ContainsInfix(s: string, a: string, sub: string, b: string)
    requires s == a + sub + b
    ensures Contains(sub, s)
  {
    assert s[|a|..][..|sub|] == sub;
    assert IsPrefix(sub, s[|a|..]);
  }
}
