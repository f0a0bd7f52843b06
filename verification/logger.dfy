/** The leveled logger of logger.ts: four totally ordered levels, the
    threshold chosen from LOG_LEVEL, the threshold filter, and the console
    sink and optional file append for each emitted entry. */
module Logger {
  import opened Wrappers

  datatype Level = Debug | Info | Warn | Error

  /** The enum's numeric value. */
  function Rank(l: Level): (n: nat)
    ensures n < 4
  {
    match l
    case Debug => 0
    case Info => 1
    case Warn => 2
    case Error => 3
  }

  /** Ranks order the levels strictly: distinct levels have distinct ranks. */
  lemma RankInjective(a: Level, b: Level)
    ensures Rank(a) == Rank(b) <==> a == b
  {
  }

  /** The enum's values: DEBUG 0 < INFO 1 < WARN 2 < ERROR 3. So an ERROR
      call passes a WARN threshold and a WARN call does not pass an ERROR
      one. */
  lemma LevelOrder()
    ensures Rank(Debug) == 0 && Rank(Info) == 1 && Rank(Warn) == 2 && Rank(Error) == 3
    ensures Emits(Error, AtLevel(Warn)) && !Emits(Warn, AtLevel(Error))
    ensures Emits(Info, AtLevel(Debug)) && !Emits(Debug, AtLevel(Info))
  {
  }

  function Name(l: Level): string {
    match l
    case Debug => "DEBUG"
    case Info => "INFO"
    case Warn => "WARN"
    case Error => "ERROR"
  }

  /** The level whose enum key is `s`, if any. */
  function LevelNamed(s: string): (r: Option<Level>)
    ensures r.Some? ==> Name(r.value) == s
    ensures r.None? ==> forall l: Level :: Name(l) != s
  {
    if s == "DEBUG" then Some(Debug)
    else if s == "INFO" then Some(Info)
    else if s == "WARN" then Some(Warn)
    else if s == "ERROR" then Some(Error)
    else None
  }

  /** The enum's reverse-mapping keys, "0" to "3": `in` accepts them too. */
  function RankKey(s: string): (r: Option<Level>)
    ensures r.Some? ==> s == [('0' as int + Rank(r.value)) as char]
    ensures r.None? ==> forall l: Level :: s != [('0' as int + Rank(l)) as char]
  {
    if s == "0" then Some(Debug)
    else if s == "1" then Some(Info)
    else if s == "2" then Some(Warn)
    else if s == "3" then Some(Error)
    else None
  }

  /** The logger's threshold. A reverse-mapping key stores the level's NAME
      (a string) as the threshold; a number never compares as >= to such a
      string, so nothing passes it. */
  datatype Threshold = AtLevel(level: Level) | NameString(name: string)

  /** ASCII upper-casing, as `toUpperCase` acts on ASCII text. */
  function ToUpper(s: string): (r: string)
    ensures |r| == |s|
    ensures forall i :: 0 <= i < |s| ==> r[i] == UpperChar(s[i])
  {
    seq(|s|, i requires 0 <= i < |s| => UpperChar(s[i]))
  }

  function UpperChar(c: char): char {
    if 'a' <= c <= 'z' then (c as int - 32) as char else c
  }

  lemma ToUpperIdempotent(s: string)
    ensures ToUpper(ToUpper(s)) == ToUpper(s)
  {
    assert forall i :: 0 <= i < |s| ==> UpperChar(UpperChar(s[i])) == UpperChar(s[i]);
  }

  /** The constructor's threshold: INFO unless LOG_LEVEL, upper-cased, is a
      key of the enum. Upper-casing keeps inherited keys such as `toString`
      out of reach of `in`, so only level names and the digit keys match. */
  function ThresholdFromEnv(logLevel: Option<string>): (t: Threshold)
    ensures logLevel.None? || logLevel == Some("") ==> t == AtLevel(Info)
    ensures logLevel.Some? && LevelNamed(ToUpper(logLevel.value)).Some? ==>
              t == AtLevel(LevelNamed(ToUpper(logLevel.value)).value)
    ensures logLevel.Some? && LevelNamed(ToUpper(logLevel.value)).None? && RankKey(logLevel.value).None? ==>
              t == AtLevel(Info)
    ensures logLevel.Some? && RankKey(logLevel.value).Some? ==>
              t == NameString(Name(RankKey(logLevel.value).value))
  {
    if logLevel.None? then AtLevel(Info)
    else
      var upper := ToUpper(logLevel.value);
      if upper == "" then AtLevel(Info)
      else if LevelNamed(upper).Some? then AtLevel(LevelNamed(upper).value)
      else if RankKey(upper).Some? then NameString(Name(RankKey(upper).value))
      else AtLevel(Info)
  }

  /** LOG_LEVEL is case-insensitive: any spelling selects what its
      upper-case spelling selects. */
  lemma ThresholdIgnoresCase(s: string)
    ensures ThresholdFromEnv(Some(s)) == ThresholdFromEnv(Some(ToUpper(s)))
  {
    ToUpperIdempotent(s);
  }

  /** `targetLevel >= this.level`. */
  predicate Emits(target: Level, t: Threshold) {
    match t
    case AtLevel(l) => Rank(target) >= Rank(l)
    case NameString(_) => false
  }

  /** Under a level threshold a call is emitted exactly when its level is at
      least the threshold, so the emitted levels are an upward-closed set. */
  lemma EmitsUpwardClosed(a: Level, b: Level, t: Threshold)
    requires Emits(a, t) && Rank(a) <= Rank(b)
    ensures Emits(b, t)
    ensures t.AtLevel?
  {
  }

  /** A numeric LOG_LEVEL such as "1" silences every level. */
  lemma NumericLevelSilences(k: string, target: Level)
    requires RankKey(k).Some?
    ensures !Emits(target, ThresholdFromEnv(Some(k)))
  {
    assert ToUpper(k) == k;
  }

  datatype Sink = ConsoleError | ConsoleWarn | ConsoleLog

  /** ERROR goes to console.error, WARN to console.warn, the rest to
      console.log. */
  function SinkFor(l: Level): (s: Sink)
    ensures s == ConsoleError <==> l == Error
    ensures s == ConsoleWarn <==> l == Warn
    ensures s == ConsoleLog <==> Rank(l) <= 1
  {
    match l
    case Error => ConsoleError
    case Warn => ConsoleWarn
    case _ => ConsoleLog
  }

  datatype LoggerState = LoggerState(threshold: Threshold, logFile: Option<string>)

  /** The constructor. The log file is LOG_FILE when non-empty; resolving it
      against the working directory and creating its directory happen
      outside the model. */
  function NewLogger(logLevel: Option<string>, logFile: Option<string>): (lg: LoggerState)
    ensures lg.threshold == ThresholdFromEnv(logLevel)
    ensures lg.logFile.Some? <==> logFile.Some? && logFile.value != ""
    ensures lg.logFile.Some? ==> lg.logFile == logFile
  {
    LoggerState(ThresholdFromEnv(logLevel), if logFile.Some? && logFile.value != "" then logFile else None)
  }

  /** A formatted entry: the level name and the message (the timestamp and
      argument rendering are outside the model). */
  datatype Entry = Entry(levelName: string, message: string)

  datatype Output =
    | Console(sink: Sink, entry: Entry)
    /** The entry followed by a newline, appended to the file. */
    | AppendLine(path: string, entry: Entry)
    /** console.error reporting a failed append. */
    | AppendFailed

  /** One call at `target`. `appendOk` says whether the file append succeeds.
      A suppressed call writes nothing anywhere; an emitted one writes to its
      console sink and then, when a file is configured, to the file. */
  function Log(lg: LoggerState, target: Level, message: string, appendOk: bool): (out: seq<Output>)
    ensures !Emits(target, lg.threshold) <==> out == []
    ensures out != [] ==> out[0] == Console(SinkFor(target), Entry(Name(target), message))
    ensures out != [] ==> |out| == (if lg.logFile.Some? then 2 else 1)
    ensures out != [] && lg.logFile.Some? ==>
              out[1] == (if appendOk then AppendLine(lg.logFile.value, Entry(Name(target), message)) else AppendFailed)
  {
    if !Emits(target, lg.threshold) then []
    else
      var entry := Entry(Name(target), message);
      [Console(SinkFor(target), entry)]
      + match lg.logFile
        case None => []
        case Some(path) => [if appendOk then AppendLine(path, entry) else AppendFailed]
  }

  function LogDebug(lg: LoggerState, message: string, appendOk: bool): seq<Output> {
    Log(lg, Debug, message, appendOk)
  }

  function LogInfo(lg: LoggerState, message: string, appendOk: bool): seq<Output> {
    Log(lg, Info, message, appendOk)
  }

  function LogWarn(lg: LoggerState, message: string, appendOk: bool): seq<Output> {
    Log(lg, Warn, message, appendOk)
  }

  function LogError(lg: LoggerState, message: string, appendOk: bool): seq<Output> {
    Log(lg, Error, message, appendOk)
  }

  /** Each wrapper emits under its own level's name, to its own sink, and is
      filtered by its own level. */
  lemma WrappersUseOwnLevel(lg: LoggerState, message: string, appendOk: bool)
    ensures LogDebug(lg, message, appendOk) != [] <==> Emits(Debug, lg.threshold)
    ensures LogInfo(lg, message, appendOk) != [] <==> Emits(Info, lg.threshold)
    ensures LogWarn(lg, message, appendOk) != [] <==> Emits(Warn, lg.threshold)
    ensures LogError(lg, message, appendOk) != [] <==> Emits(Error, lg.threshold)
    ensures LogDebug(lg, message, appendOk) != [] ==>
              LogDebug(lg, message, appendOk)[0] == Console(ConsoleLog, Entry("DEBUG", message))
    ensures LogInfo(lg, message, appendOk) != [] ==>
              LogInfo(lg, message, appendOk)[0] == Console(ConsoleLog, Entry("INFO", message))
    ensures LogWarn(lg, message, appendOk) != [] ==>
              LogWarn(lg, message, appendOk)[0] == Console(ConsoleWarn, Entry("WARN", message))
    ensures LogError(lg, message, appendOk) != [] ==>
              LogError(lg, message, appendOk)[0] == Console(ConsoleError, Entry("ERROR", message))
  {
  }

  /** With LOG_LEVEL unset the default INFO threshold drops debug calls only. */
  lemma DefaultThresholdDropsDebugOnly(logFile: Option<string>, message: string, appendOk: bool)
    ensures var lg := NewLogger(None, logFile);
      && LogDebug(lg, message, appendOk) == []
      && LogInfo(lg, message, appendOk) != []
      && LogWarn(lg, message, appendOk) != []
      && LogError(lg, message, appendOk) != []
  {
  }

  /** "warn" and "WARN" select the same threshold, WARN. */
  lemma LowerCaseWarn()
    ensures ThresholdFromEnv(Some("warn")) == ThresholdFromEnv(Some("WARN")) == AtLevel(Warn)
  {
    assert ToUpper("warn") == "WARN";
    assert ToUpper("WARN") == "WARN";
  }
}
