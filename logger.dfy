/**
 * The logger: a threshold filter on an ordered level, a fixed line layout
 * and two sinks (the console and an optional log file opened for append).
 * The timestamp is an input; the console and each file are sequences of
 * lines.
 */
module Logging {
  import opened Wrappers
  import opened Strings

  /** The levels in declaration order: DEBUG < INFO < WARNING < ERROR. */
  datatype Level = Debug | Info | Warning | Error

  /** The position of a level in its declaration, as the enum's underlying value. */
  function Rank(level: Level): nat {
    match level
    case Debug => 0
    case Info => 1
    case Warning => 2
    case Error => 3
  }

  /** The threshold test of `log`: a message is written unless its level is below the threshold. */
  predicate Emits(threshold: Level, level: Level) {
    !(Rank(level) < Rank(threshold))
  }

  /** `levelToString`. */
  function LevelToString(level: Level): (s: string)
    ensures ']' !in s && s != []
  {
    match level
    case Debug => "DEBUG"
    case Info => "INFO"
    case Warning => "WARNING"
    case Error => "ERROR"
  }

  /** The layout of an emitted line. */
  function FormatLine(timestamp: string, level: Level, message: string): (line: string)
    ensures |line| == |timestamp| + |LevelToString(level)| + |message| + 6
    ensures line[0] == '[' && line[1..|timestamp| + 1] == timestamp
    ensures line[|line| - |message|..] == message
  {
    var head := "[" + timestamp + "] [" + LevelToString(level) + "] ";
    assert head[1..|timestamp| + 1] == timestamp;
    head + message
  }

  /** The level a name stands for, if any. */
  function LevelFromString(s: string): (r: Option<Level>)
    ensures forall level :: r == Some(level) <==> LevelToString(level) == s
  {
    if s == "DEBUG" then Some(Debug)
    else if s == "INFO" then Some(Info)
    else if s == "WARNING" then Some(Warning)
    else if s == "ERROR" then Some(Error)
    else None
  }

  /** The timestamp, level and message of a log line. */
  datatype Entry = Entry(timestamp: string, level: Level, message: string)

  /** How a reader of the log splits a line back into its parts. */
  function ParseLine(line: string): Option<Entry> {
    if line == [] || line[0] != '[' then None else ParseAfterBracket(line[1..])
  }

  /** The part of a line after its opening `[`: the timestamp up to the first `]`, then ` [`. */
  function ParseAfterBracket(s: string): Option<Entry> {
    match IndexOf(s, ']')
    case None => None
    case Some(i) =>
      if |s| < i + 3 || s[i + 1] != ' ' || s[i + 2] != '[' then None
      else
        match ParseLevelMessage(s[i + 3..])
        case None => None
        case Some(lm) => Some(Entry(s[..i], lm.0, lm.1))
  }

  /** The level name up to the next `]`, then a space, then the message. */
  function ParseLevelMessage(t: string): Option<(Level, string)> {
    match IndexOf(t, ']')
    case None => None
    case Some(j) =>
      if |t| < j + 2 || t[j + 1] != ' ' then None
      else
        match LevelFromString(t[..j])
        case None => None
        case Some(level) => Some((level, t[j + 2..]))
  }

  /** Every level name is read back as its level. */
  lemma LevelNameRoundTrip(level: Level)
    ensures LevelFromString(LevelToString(level)) == Some(level)
  {
  }

  lemma LevelMessageRoundTrip(level: Level, message: string)
    ensures ParseLevelMessage(LevelToString(level) + "] " + message) == Some((level, message))
  {
    var name := LevelToString(level);
    var t := name + "] " + message;
    assert t == name + ("] " + message);
    IndexOfAfter(name, "] " + message, ']');
    assert IndexOf(t, ']') == Some(|name|);
    assert t[..|name|] == name;
    assert t[|name| + 2..] == message;
    LevelNameRoundTrip(level);
  }

  lemma AfterBracketRoundTrip(timestamp: string, tail: string)
    requires ']' !in timestamp
    ensures ParseAfterBracket(timestamp + "] [" + tail) ==
      match ParseLevelMessage(tail)
      case None => None
      case Some(lm) => Some(Entry(timestamp, lm.0, lm.1))
  {
    var s := timestamp + "] [" + tail;
    var i := |timestamp|;
    assert s == timestamp + ("] [" + tail);
    IndexOfAfter(timestamp, "] [" + tail, ']');
    assert IndexOf(s, ']') == Some(i);
    assert s[i + 1] == ' ' && s[i + 2] == '[';
    assert s[i + 3..] == tail;
    assert s[..i] == timestamp;
  }

  /**
   * The line layout can be read back: as long as the timestamp holds no `]`
   * (a `%Y-%m-%d %H:%M:%S.mmm` timestamp never does), the timestamp, the
   * level and the message are recovered exactly.
   */
  lemma FormatLineRoundTrip(timestamp: string, level: Level, message: string)
    requires ']' !in timestamp
    ensures ParseLine(FormatLine(timestamp, level, message)) == Some(Entry(timestamp, level, message))
  {
    var tail := LevelToString(level) + "] " + message;
    var line := FormatLine(timestamp, level, message);
    assert line == "[" + (timestamp + "] [" + tail);
    assert line[1..] == timestamp + "] [" + tail;
    AfterBracketRoundTrip(timestamp, tail);
    LevelMessageRoundTrip(level, message);
  }

  /** The two sinks: the lines written to the console and to each log file. */
  datatype Sinks = Sinks(console: seq<string>, files: map<string, seq<string>>)

  /** Writing one line: to the console when console output is on, and appended to the open log file, if any. */
  function Deliver(sinks: Sinks, consoleOutput: bool, logFile: Option<string>, line: string): Sinks {
    Sinks(
      sinks.console + (if consoleOutput then [line] else []),
      match logFile
      case None => sinks.files
      case Some(f) => sinks.files[f := (if f in sinks.files then sinks.files[f] else []) + [line]])
  }

  /** The effect of one `log(level, message)` call on the sinks, given the logger's settings. */
  function LogEffect(threshold: Level, consoleOutput: bool, logFile: Option<string>, sinks: Sinks,
                     level: Level, message: string, timestamp: string): Sinks
  {
    if Emits(threshold, level) then Deliver(sinks, consoleOutput, logFile, FormatLine(timestamp, level, message))
    else sinks
  }

  /**
   * A log call below the threshold writes nothing. Otherwise it adds exactly
   * one line to the console when console output is on, and exactly one line
   * at the end of the open log file, if any; every other file is untouched.
   */
  lemma LogEffectAppends(threshold: Level, consoleOutput: bool, logFile: Option<string>, sinks: Sinks,
                         level: Level, message: string, timestamp: string)
    ensures var after := LogEffect(threshold, consoleOutput, logFile, sinks, level, message, timestamp);
      var line := FormatLine(timestamp, level, message);
      && (!Emits(threshold, level) ==> after == sinks)
      && (Emits(threshold, level) ==>
            && after.console == sinks.console + (if consoleOutput then [line] else [])
            && (forall g :: g in sinks.files && logFile != Some(g) ==> g in after.files && after.files[g] == sinks.files[g])
            && (forall g :: g in after.files ==> g in sinks.files || logFile == Some(g))
            && (logFile.Some? ==>
                  && logFile.value in after.files
                  && |after.files[logFile.value]| >= 1
                  && after.files[logFile.value][..|after.files[logFile.value]| - 1]
                     == (if logFile.value in sinks.files then sinks.files[logFile.value] else [])
                  && after.files[logFile.value][|after.files[logFile.value]| - 1] == line))
  {
    if Emits(threshold, level) {
      var line := FormatLine(timestamp, level, message);
      var after := Deliver(sinks, consoleOutput, logFile, line);
      assert LogEffect(threshold, consoleOutput, logFile, sinks, level, message, timestamp) == after;
      match logFile {
        case None =>
        case Some(f) =>
          var before := if f in sinks.files then sinks.files[f] else [];
          assert after.files == sinks.files[f := before + [line]];
          assert (before + [line])[..|before|] == before;
      }
    }
  }

  /**
   * Every line a log call writes can be read back into the timestamp, level
   * and message it was written with, as long as the timestamp holds no `]`.
   */
  lemma LoggedLineReadsBack(threshold: Level, consoleOutput: bool, logFile: Option<string>, sinks: Sinks,
                            level: Level, message: string, timestamp: string)
    requires ']' !in timestamp
    requires Emits(threshold, level) && consoleOutput
    ensures var after := LogEffect(threshold, consoleOutput, logFile, sinks, level, message, timestamp);
      && |after.console| == |sinks.console| + 1
      && ParseLine(after.console[|after.console| - 1]) == Some(Entry(timestamp, level, message))
  {
    FormatLineRoundTrip(timestamp, level, message);
  }

  class Logger {
    var currentLevel: Level
    var consoleOutput: bool
    /** The name of the open log file, if one is open. */
    var logFile: Option<string>
    /** The lines written to the console. */
    var console: seq<string>
    /** The lines written to each log file. */
    var files: map<string, seq<string>>

    ghost predicate Valid()
      reads this
    {
      logFile.Some? ==> logFile.value in files
    }

    function Output(): Sinks
      reads this
    {
      Sinks(console, files)
    }

    /** The defaults: threshold INFO, console output on, no log file. */
    constructor ()
      ensures Valid()
      ensures currentLevel == Level.Info && consoleOutput && logFile == None
      ensures console == [] && files == map[]
    {
      currentLevel := Level.Info;
      consoleOutput := true;
      logFile := None;
      console := [];
      files := map[];
    }

    /** `setLogFile`: closes the current file and opens `filename` for append; `didOpen` is whether that succeeded. */
    method SetLogFile(filename: string, didOpen: bool)
      requires Valid()
      modifies this
      ensures Valid()
      ensures logFile == (if didOpen then Some(filename) else None)
      ensures didOpen ==> files == old(if filename in files then files else files[filename := []])
      ensures !didOpen ==> files == old(files)
      ensures currentLevel == old(currentLevel) && consoleOutput == old(consoleOutput) && console == old(console)
    {
      logFile := None;
      if didOpen {
        if filename !in files {
          files := files[filename := []];
        }
        logFile := Some(filename);
      }
    }

    /** `setLevel` changes the threshold and nothing else. */
    method SetLevel(level: Level)
      modifies this
      ensures currentLevel == level
      ensures consoleOutput == old(consoleOutput) && logFile == old(logFile)
      ensures console == old(console) && files == old(files)
    {
      currentLevel := level;
    }

    /**
     * `log`: nothing below the threshold; otherwise the formatted line goes to
     * the console when console output is on and to the log file when one is
     * open. Disabled sinks are untouched.
     */
    method Log(level: Level, message: string, timestamp: string)
      requires Valid()
      modifies this
      ensures Valid()
      ensures currentLevel == old(currentLevel) && consoleOutput == old(consoleOutput) && logFile == old(logFile)
      ensures Output() == LogEffect(currentLevel, consoleOutput, logFile, old(Output()), level, message, timestamp)
    {
      if Rank(level) < Rank(currentLevel) {
        return;
      }
      var levelStr := LevelToString(level);
      var logMessage := "[" + timestamp + "] [" + levelStr + "] " + message;
      if consoleOutput {
        console := console + [logMessage];
      }
      if logFile.Some? {
        files := files[logFile.value := files[logFile.value] + [logMessage]];
      }
    }

    /** `debug`: `log` at DEBUG, which writes only when the threshold is DEBUG. */
    method Debug(message: string, timestamp: string)
      requires Valid()
      modifies this
      ensures Valid()
      ensures currentLevel == old(currentLevel) && consoleOutput == old(consoleOutput) && logFile == old(logFile)
      ensures Output() == LogEffect(currentLevel, consoleOutput, logFile, old(Output()), Level.Debug, message, timestamp)
      ensures currentLevel != Level.Debug ==> Output() == old(Output())
      ensures currentLevel == Level.Debug ==>
        Output() == Deliver(old(Output()), consoleOutput, logFile, FormatLine(timestamp, Level.Debug, message))
    {
      Log(Level.Debug, message, timestamp);
    }

    /** `info`: `log` at INFO, which writes when the threshold is DEBUG or INFO. */
    method Info(message: string, timestamp: string)
      requires Valid()
      modifies this
      ensures Valid()
      ensures currentLevel == old(currentLevel) && consoleOutput == old(consoleOutput) && logFile == old(logFile)
      ensures Output() == LogEffect(currentLevel, consoleOutput, logFile, old(Output()), Level.Info, message, timestamp)
      ensures !(currentLevel in {Level.Debug, Level.Info}) ==> Output() == old(Output())
      ensures currentLevel in {Level.Debug, Level.Info} ==>
        Output() == Deliver(old(Output()), consoleOutput, logFile, FormatLine(timestamp, Level.Info, message))
    {
      Log(Level.Info, message, timestamp);
    }

    /** `warning`: `log` at WARNING, which writes unless the threshold is ERROR. */
    method Warning(message: string, timestamp: string)
      requires Valid()
      modifies this
      ensures Valid()
      ensures currentLevel == old(currentLevel) && consoleOutput == old(consoleOutput) && logFile == old(logFile)
      ensures Output() == LogEffect(currentLevel, consoleOutput, logFile, old(Output()), Level.Warning, message, timestamp)
      ensures currentLevel == Level.Error ==> Output() == old(Output())
      ensures currentLevel != Level.Error ==>
        Output() == Deliver(old(Output()), consoleOutput, logFile, FormatLine(timestamp, Level.Warning, message))
    {
      Log(Level.Warning, message, timestamp);
    }

    /** `error`: `log` at ERROR, which passes every threshold. */
    method Error(message: string, timestamp: string)
      requires Valid()
      modifies this
      ensures Valid()
      ensures currentLevel == old(currentLevel) && consoleOutput == old(consoleOutput) && logFile == old(logFile)
      ensures Output() == LogEffect(currentLevel, consoleOutput, logFile, old(Output()), Level.Error, message, timestamp)
      ensures Output() == Deliver(old(Output()), consoleOutput, logFile, FormatLine(timestamp, Level.Error, message))
    {
      Log(Level.Error, message, timestamp);
    }
  }

  /**
   * With the default threshold `debug` writes nothing; after `setLevel(DEBUG)`
   * the same call writes one line to the console.
   */
  method DebugSuppressedByDefault(message: string, timestamp: string)
    returns (before: seq<string>, after: seq<string>)
    ensures before == []
    ensures after == [FormatLine(timestamp, Level.Debug, message)]
  {
    var logger := new Logger();
    logger.Debug(message, timestamp);
    before := logger.console;
    logger.SetLevel(Level.Debug);
    logger.Debug(message, timestamp);
    after := logger.console;
  }
}
