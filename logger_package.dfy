/** The logger package's import-time wiring: the two lookup tables from
    setting strings to levels and formats, each with its own default, the
    module-level `logger` built from the settings, and `get_logger`. */
module LoggerPackage {
  import opened LogLevels
  import opened Logging
  import AppSettings
  import opened Text

  /** `log_levels.get(name, LogLevel.INFO)`. */
  function LevelFromSetting(name: string): (l: LogLevel)
    ensures (exists k :: k in ALL_LEVELS && Name(k) == name) ==> Name(l) == name
    ensures (forall k :: k in ALL_LEVELS ==> Name(k) != name) ==> l == INFO
  {
    match name
    case "DEBUG" => DEBUG
    case "INFO" => INFO
    case "WARNING" => WARNING
    case "ERROR" => ERROR
    case "CRITICAL" => CRITICAL
    case "EXCEPTION" => EXCEPTION
    case _ => INFO
  }

  /** `log_formats.get(name, LogFormat.JSON)`. */
  function FormatFromSetting(name: string): (f: LogFormat)
    ensures name == "TEXT" <==> f == TEXT
    ensures name == "JSON" ==> f == JSON
  {
    match name
    case "JSON" => JSON
    case "TEXT" => TEXT
    case _ => JSON
  }

  /** Every level's `str` is a key of the table, and it maps back to that
      level. */
  lemma LevelTableInvertsStr(l: LogLevel)
    ensures LevelFromSetting(Str(l)) == l
  {
  }

  /** An unrecognised format string (lower-case "text" included) selects
      JSON, while a `Logger` constructed without a format uses TEXT; the
      level defaults agree. */
  lemma FormatDefaultsDisagree()
    ensures FormatFromSetting("xml") == JSON != DEFAULT_FORMAT
    ensures FormatFromSetting("text") == JSON
    ensures LevelFromSetting("verbose") == DEFAULT_MIN_LEVEL
  {
  }

  /** The package module after import: it holds the one logger. */
  class Package {
    const logger: Logger

    /** Import time: `logger = Logger(min_level=..., log_format=...)`,
        with the id generator left at its uuid4 default. */
    constructor (cls: LoggerClass, settings: AppSettings.Settings)
      modifies cls, cls.instance
      ensures logger == cls.instance
      ensures logger.minLevel == LevelFromSetting(settings.logLevel)
      ensures logger.logFormat == FormatFromSetting(settings.logFormat)
      ensures logger.idGenerator == Some(Uuid4)
    {
      var l := cls.Call(FormatFromSetting(settings.logFormat), LevelFromSetting(settings.logLevel));
      logger := l;
    }

    /** `get_logger`: always the module's logger. */
    method GetLogger() returns (l: Logger)
      ensures l == logger
    {
      l := logger;
    }
  }

  /** With valid settings the configured level and format are the ones
      named, never a default. */
  lemma ValidSettingsSelectNamedLevel(s: AppSettings.Settings)
    requires AppSettings.Valid(s)
    ensures Name(LevelFromSetting(s.logLevel)) == s.logLevel
    ensures LevelFromSetting(s.logLevel) != EXCEPTION
    ensures (FormatFromSetting(s.logFormat) == TEXT) <==> s.logFormat == "TEXT"
  {
  }
}
