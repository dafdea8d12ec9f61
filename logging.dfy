/** The levelled logger: a package-wide current level (INFO at start-up), one
    entry point per level that writes a line only when the current level is at
    or below it, and the per-request log call. A call returns the line it
    would write, or None when it writes nothing. */
module Logging {
  import opened Common
  import opened Text

  datatype LogLevel = Debug | Info | Warn | Error

  /** The integer value of each level (`iota` order). */
  function Rank(level: LogLevel): (r: nat)
    ensures r <= 3
  {
    match level
    case Debug => 0
    case Info => 1
    case Warn => 2
    case Error => 3
  }

  /** The levels are totally ordered DEBUG < INFO < WARN < ERROR, and no two
      levels share a value. */
  lemma LevelOrder(a: LogLevel, b: LogLevel)
    ensures Rank(Debug) < Rank(Info) < Rank(Warn) < Rank(Error)
    ensures Rank(a) == Rank(b) ==> a == b
    ensures Rank(a) <= Rank(b) || Rank(b) <= Rank(a)
  {
  }

  function LevelName(level: LogLevel): string {
    match level
    case Debug => "DEBUG"
    case Info => "INFO"
    case Warn => "WARN"
    case Error => "ERROR"
  }

  /** The text logMessage's format string produces: "[<unix seconds>] LEVEL
      message", followed by " - <data as JSON>" only when there is data.
      log.Printf writes it after the standard logger's date and time prefix,
      which is not part of this value. */
  function FormatLine(unixSeconds: nat, level: string, message: string, data: Option<string>): (line: string)
    ensures HasPrefix(line, "[" + DecimalText(unixSeconds) + "] " + level + " " + message)
    ensures data.None? ==> line == "[" + DecimalText(unixSeconds) + "] " + level + " " + message
    ensures data.Some? ==> HasSuffix(line, " - " + data.value)
  {
    var head := "[" + DecimalText(unixSeconds) + "] " + level + " " + message;
    if data.Some? then head + " - " + data.value else head
  }

  /** The line with data is the line without it, extended; the two differ,
      so the payload is present exactly when there is data. */
  lemma DataOnlyWhenPresent(t: nat, level: string, message: string, d: string)
    ensures FormatLine(t, level, message, Some(d)) == FormatLine(t, level, message, None) + " - " + d
    ensures FormatLine(t, level, message, Some(d)) != FormatLine(t, level, message, None)
  {
    var a := FormatLine(t, level, message, Some(d));
    var b := FormatLine(t, level, message, None);
    assert |a| > |b|;
  }

  class Logger {
    var currentLevel: LogLevel

    constructor ()
      ensures currentLevel == Info
    {
      currentLevel := Info;
    }

    method SetLogLevel(level: LogLevel)
      modifies this
      ensures currentLevel == level
    {
      currentLevel := level;
    }

    /** The gate shared by the four entry points. */
    predicate Enabled(level: LogLevel)
      reads this
    {
      Rank(currentLevel) <= Rank(level)
    }

    function Log(level: LogLevel, unixSeconds: nat, message: string, data: Option<string>): (line: Option<string>)
      reads this
      ensures line.Some? <==> Rank(currentLevel) <= Rank(level)
      ensures line.Some? ==> line.value == FormatLine(unixSeconds, LevelName(level), message, data)
    {
      if Enabled(level) then Some(FormatLine(unixSeconds, LevelName(level), message, data)) else None
    }

    function LogInfo(unixSeconds: nat, message: string, data: Option<string>): (line: Option<string>)
      reads this
      ensures line.Some? <==> currentLevel in {Debug, Info}
      ensures line.Some? ==> line.value == FormatLine(unixSeconds, "INFO", message, data)
    {
      Log(Info, unixSeconds, message, data)
    }

    function LogError(unixSeconds: nat, message: string, data: Option<string>): (line: Option<string>)
      reads this
      ensures line.Some?
      ensures line.value == FormatLine(unixSeconds, "ERROR", message, data)
    {
      Log(Error, unixSeconds, message, data)
    }

    function LogWarn(unixSeconds: nat, message: string, data: Option<string>): (line: Option<string>)
      reads this
      ensures line.Some? <==> currentLevel != Error
      ensures line.Some? ==> line.value == FormatLine(unixSeconds, "WARN", message, data)
    {
      Log(Warn, unixSeconds, message, data)
    }

    function LogDebug(unixSeconds: nat, message: string, data: Option<string>): (line: Option<string>)
      reads this
      ensures line.Some? <==> currentLevel == Debug
      ensures line.Some? ==> line.value == FormatLine(unixSeconds, "DEBUG", message, data)
    {
      Log(Debug, unixSeconds, message, data)
    }

    /** LogRequest: a failed request is logged at ERROR, so it is written
        whatever the current level; any other at INFO. */
    function LogRequest(unixSeconds: nat, failed: bool, entry: string): (line: Option<string>)
      reads this
      ensures failed ==> line == Some(FormatLine(unixSeconds, "ERROR", "HTTP Request", Some(entry)))
      ensures !failed ==> line == LogInfo(unixSeconds, "HTTP Request", Some(entry))
      ensures line.Some? <==> failed || currentLevel in {Debug, Info}
    {
      if failed then LogError(unixSeconds, "HTTP Request", Some(entry))
      else LogInfo(unixSeconds, "HTTP Request", Some(entry))
    }
  }
}
