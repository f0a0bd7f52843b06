/** Configuration loading of config.ts: which config file is read, what a
    missing or unparsable file leaves, and the left-biased precedence
    environment > config file > default under JavaScript's `||`. File
    existence, the file's parse result and `parseInt` are inputs. */
module Config {
  import opened Wrappers

  const DEFAULT_PORT := 8080
  const DEFAULT_LOG_LEVEL := "INFO"

  /** The `log` object of a config file; None is an absent property. */
  datatype LogSection = LogSection(level: Option<string>, file: Option<string>)

  /** `Partial<AppConfig>` as `JSON.parse` returned it; a port is taken to be
      an integer. */
  datatype UserConfig = UserConfig(port: Option<int>, log: Option<LogSection>)

  const EMPTY_USER_CONFIG := UserConfig(None, None)

  /** The value `JSON.parse` leaves in `userConfig`: an object, or `null`.
      Any other JSON value has no `port` or `log` property and reads like an
      object without them. */
  datatype FileValue = Object(config: UserConfig) | Null

  /** Reading and parsing the config file: its value, or an exception. */
  datatype ParseOutcome = Parsed(value: FileValue) | ParseFailed

  /** The three environment variables; None when unset. */
  datatype Env = Env(port: Option<string>, logLevel: Option<string>, logFile: Option<string>)

  datatype AppConfig = AppConfig(port: int, logLevel: string, logFile: Option<string>)

  /** `a || b`: the left operand when truthy, otherwise the right one. */
  function Or<T(==)>(a: Option<T>, b: Option<T>, falsy: T): (r: Option<T>)
    ensures Truthy(a, falsy) ==> r == a
    ensures !Truthy(a, falsy) ==> r == b
  {
    if Truthy(a, falsy) then a else b
  }

  /** The index of the first candidate that exists (`Array.prototype.find`). */
  function FirstExisting(paths: seq<string>, existing: set<string>): (r: Option<nat>)
    ensures r.Some? ==> r.value < |paths| && paths[r.value] in existing
    ensures r.Some? ==> forall j :: 0 <= j < r.value ==> paths[j] !in existing
    ensures r.None? ==> forall j :: 0 <= j < |paths| ==> paths[j] !in existing
    decreases |paths|
  {
    if |paths| == 0 then None
    else if paths[0] in existing then Some(0)
    else
      match FirstExisting(paths[1..], existing)
      case None => None
      case Some(i) => Some(i + 1)
  }

  /** The config path: the first existing candidate, or the first candidate
      when none exists. In config.ts the candidates are `config.json`
      beside the script and one directory up. */
  function ConfigPath(candidates: seq<string>, existing: set<string>): (p: string)
    requires |candidates| > 0
    ensures p in candidates
    ensures p in existing <==> exists c :: c in candidates && c in existing
    ensures p !in existing ==> p == candidates[0]
    ensures p in existing ==> exists i :: 0 <= i < |candidates| && candidates[i] == p
                                && forall j :: 0 <= j < i ==> candidates[j] !in existing
  {
    match FirstExisting(candidates, existing)
    case Some(i) => candidates[i]
    case None => candidates[0]
  }

  /** The file's value when the chosen path exists and parses; otherwise
      the empty configuration the module starts with. */
  function LoadUserConfig(path: string, existing: set<string>, parse: ParseOutcome): (v: FileValue)
    ensures path !in existing || parse.ParseFailed? ==> v == Object(EMPTY_USER_CONFIG)
    ensures path in existing && parse.Parsed? ==> v == parse.value
  {
    if path in existing && parse.Parsed? then parse.value else Object(EMPTY_USER_CONFIG)
  }

  function FileLevel(u: UserConfig): Option<string> {
    if u.log.Some? then u.log.value.level else None
  }

  function FileLogFile(u: UserConfig): Option<string> {
    if u.log.Some? then u.log.value.file else None
  }

  /** The exported `config`. `parseInt` stands for the JavaScript function,
      None for NaN. Every field is taken from the environment when truthy,
      else from the file when truthy, else from the default; so the port is
      never 0 and the level never empty. */
  function BuildConfig(env: Env, u: UserConfig, parseInt: string -> Option<int>): (c: AppConfig)
    ensures c.port != 0 && c.logLevel != ""
    ensures c.port == DEFAULT_PORT || Some(c.port) == parseInt(env.port.GetOr("")) || Some(c.port) == u.port
    ensures c.logLevel == DEFAULT_LOG_LEVEL || Some(c.logLevel) == env.logLevel || Some(c.logLevel) == FileLevel(u)
    ensures c.logFile.None? || (c.logFile.value != "" && (c.logFile == env.logFile || c.logFile == FileLogFile(u)))
  {
    AppConfig(
      Or(Or(parseInt(env.port.GetOr("")), u.port, 0), Some(DEFAULT_PORT), 0).value,
      Or(Or(env.logLevel, FileLevel(u), ""), Some(DEFAULT_LOG_LEVEL), "").value,
      Or(Or(env.logFile, FileLogFile(u), ""), None, ""))
  }

  /** The exported `config` built from whatever `userConfig` holds; None is
      the TypeError thrown at load time. Reading `port` or `log` of `null`
      throws, so a `null` document is survived only when each of PORT,
      LOG_LEVEL and LOG_FILE is truthy and short-circuits its `||`. */
  function ConfigFrom(env: Env, v: FileValue, parseInt: string -> Option<int>): (r: Option<AppConfig>)
    ensures v.Object? ==> r == Some(BuildConfig(env, v.config, parseInt))
    ensures v.Null? ==> (r.Some? <==> Truthy(parseInt(env.port.GetOr("")), 0)
                                      && Truthy(env.logLevel, "") && Truthy(env.logFile, ""))
    ensures v.Null? && r.Some? ==>
              r.value == AppConfig(parseInt(env.port.GetOr("")).value, env.logLevel.value, env.logFile)
  {
    match v
    case Object(u) => Some(BuildConfig(env, u, parseInt))
    case Null =>
      if Truthy(parseInt(env.port.GetOr("")), 0) && Truthy(env.logLevel, "") && Truthy(env.logFile, "")
      then Some(BuildConfig(env, EMPTY_USER_CONFIG, parseInt))
      else None
  }

  /** Configuration as the module computes it at load time: the path choice,
      then the file, then the precedence; None when loading throws. */
  function LoadConfig(env: Env, candidates: seq<string>, existing: set<string>, parse: ParseOutcome,
                      parseInt: string -> Option<int>): (r: Option<AppConfig>)
    requires |candidates| > 0
    ensures (exists c :: c in candidates && c in existing) && parse.Parsed? && parse.value.Object? ==>
              r == Some(BuildConfig(env, parse.value.config, parseInt))
    ensures parse.ParseFailed? || (forall c :: c in candidates ==> c !in existing) ==>
              r == Some(BuildConfig(env, EMPTY_USER_CONFIG, parseInt))
    ensures r.None? <==> && parse == Parsed(Null) && (exists c :: c in candidates && c in existing)
                         && !(Truthy(parseInt(env.port.GetOr("")), 0)
                              && Truthy(env.logLevel, "") && Truthy(env.logFile, ""))
  {
    ConfigFrom(env, LoadUserConfig(ConfigPath(candidates, existing), existing, parse), parseInt)
  }

  /** Port precedence: a nonzero `parseInt(PORT)`, else a truthy file port,
      else 8080. An unset, empty, non-numeric or zero PORT falls through. */
  lemma PortPrecedence(env: Env, u: UserConfig, parseInt: string -> Option<int>)
    ensures var n := parseInt(env.port.GetOr(""));
      && (Truthy(n, 0) ==> BuildConfig(env, u, parseInt).port == n.value)
      && (!Truthy(n, 0) && Truthy(u.port, 0) ==> BuildConfig(env, u, parseInt).port == u.port.value)
      && (!Truthy(n, 0) && !Truthy(u.port, 0) ==> BuildConfig(env, u, parseInt).port == DEFAULT_PORT)
  {
  }

  /** An unset PORT reaches `parseInt` as "", which is NaN, so the port comes
      from the file or the default. */
  lemma UnsetPortFallsThrough(env: Env, u: UserConfig, parseInt: string -> Option<int>)
    requires parseInt("") == None
    requires env.port.None? || env.port == Some("")
    ensures BuildConfig(env, u, parseInt).port == (if Truthy(u.port, 0) then u.port.value else DEFAULT_PORT)
  {
  }

  /** Log level and log file precedence. The environment's level is taken as
      given, without checking it names a level. */
  lemma LogPrecedence(env: Env, u: UserConfig, parseInt: string -> Option<int>)
    ensures var c := BuildConfig(env, u, parseInt);
      && (Truthy(env.logLevel, "") ==> c.logLevel == env.logLevel.value)
      && (!Truthy(env.logLevel, "") && Truthy(FileLevel(u), "") ==> c.logLevel == FileLevel(u).value)
      && (!Truthy(env.logLevel, "") && !Truthy(FileLevel(u), "") ==> c.logLevel == DEFAULT_LOG_LEVEL)
      && (Truthy(env.logFile, "") ==> c.logFile == env.logFile)
      && (!Truthy(env.logFile, "") && Truthy(FileLogFile(u), "") ==> c.logFile == FileLogFile(u))
      && (!Truthy(env.logFile, "") && !Truthy(FileLogFile(u), "") ==> c.logFile == None)
  {
  }

  /** Without a readable, parsable config file every field comes from the
      environment or the defaults. */
  lemma MissingFileUsesEnvOrDefaults(env: Env, candidates: seq<string>, existing: set<string>,
                                     parse: ParseOutcome, parseInt: string -> Option<int>)
    requires |candidates| > 0
    requires parse.ParseFailed? || forall c :: c in candidates ==> c !in existing
    ensures LoadConfig(env, candidates, existing, parse, parseInt)
         == Some(BuildConfig(env, EMPTY_USER_CONFIG, parseInt))
    ensures var c := LoadConfig(env, candidates, existing, parse, parseInt).value;
      && c.port == (if Truthy(parseInt(env.port.GetOr("")), 0) then parseInt(env.port.GetOr("")).value else DEFAULT_PORT)
      && c.logLevel == (if Truthy(env.logLevel, "") then env.logLevel.value else DEFAULT_LOG_LEVEL)
      && c.logFile == (if Truthy(env.logFile, "") then env.logFile else None)
  {
  }

  /** A config file holding `null` parses without error and is kept, and
      with PORT unset the first read of `userConfig.port` throws: the module
      fails to load. */
  lemma NullDocumentThrows(env: Env, candidates: seq<string>, existing: set<string>,
                           parseInt: string -> Option<int>)
    requires |candidates| > 0 && candidates[0] in existing
    requires parseInt("") == None && env.port.None?
    ensures LoadConfig(env, candidates, existing, Parsed(Null), parseInt).None?
  {
    assert ConfigPath(candidates, existing) in existing;
  }
}
