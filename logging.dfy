/** Log records as data.  A run's log is the sequence of (level, message)
    records it emits, in order; sinks, timestamps and formatting are not
    modelled. */
module Logging {
  import opened Python

  /** The two levels the application logs at (`logger.exception` logs at ERROR). */
  datatype Level = INFO | ERROR

  datatype LogEntry = LogEntry(level: Level, message: string)

  function Info(message: string): LogEntry {
    LogEntry(INFO, message)
  }

  function Error(message: string): LogEntry {
    LogEntry(ERROR, message)
  }

  /** Some record of `log` at `level` carries `phrase` in its message. */
  predicate Logged(log: seq<LogEntry>, level: Level, phrase: string)
  {
    exists i | 0 <= i < |log| :: log[i].level == level && Contains(phrase, log[i].message)
  }

  /** A one-record log at `level` whose message is built around `phrase` logs that phrase. */
  lemma LoggedInfix(level: Level, message: string, a: string, phrase: string, b: string)
    requires message == a + phrase + b
    ensures Logged([LogEntry(level, message)], level, phrase)
  {
    ContainsInfix(message, a, phrase, b);
    assert [LogEntry(level, message)][0].message == message;
  }

  /** A record logged in either part of a log is logged in the whole. */
  lemma LoggedAppend(a: seq<LogEntry>, b: seq<LogEntry>, level: Level, phrase: string)
    requires Logged(a, level, phrase) || Logged(b, level, phrase)
    ensures Logged(a + b, level, phrase)
  {
    if Logged(a, level, phrase) {
      var i :| 0 <= i < |a| && a[i].level == level && Contains(phrase, a[i].message);
      assert (a + b)[i] == a[i];
    } else {
      var i :| 0 <= i < |b| && b[i].level == level && Contains(phrase, b[i].message);
      assert (a + b)[|a| + i] == b[i];
    }
  }
}
