# FastAPI template core, modelled in Dafny

This project models the logic of a FastAPI service template: its settings, its logger, its retry decorator, its trace-id middleware, and its domain object guards. Each part is stated as Dafny definitions and proved against its own specification.

- **Settings** (`settings.dfy`, module `AppSettings`). The computed properties of `Settings`:
  - `DATABASE_URL` and `REDIS_URL`, each with a parser that reads the URL back and a round-trip lemma.
  - The fixed `EXCLUDED_PATHS` list.
  - The `CORS` origin list: split on commas, strip each piece, drop blank pieces, or fall back to the default pair.
  - `Valid`, the field range constraints that settings loading enforces.
- **Log levels** (`log_levels.dfy`, `LogLevels`). The six levels and their values 10..60, the six comparison operators against a level or an `int`, and `str`/`repr`.
- **Logger** (`logger.dfy`, `Logging`). The singleton `Logger` is a class:
  - `log_format`, `min_level` and `id_generator` are fields.
  - The ambient trace-id slot (default `"N/A"`) is a field.
  - Standard output is a `seq<string>` field that each accepted call appends one line to.
  - The record builder is a pure function, and so are the TEXT layout and the `json.dumps` layout (escaping with `ensure_ascii=False`, with its decoder).
  - `LoggerClass` holds `_instance`: every call returns the same object and re-runs `__init__` on it.
- **Logger package** (`logger_package.dfy`, `LoggerPackage`). The `log_levels`/`log_formats` tables with their `.get` defaults, the module-level `logger` built from the settings, and `get_logger`.
- **Retry** (`retry.dfy`, `Retry`). The decorator's `wrapper` is a `while` loop proved against the recursive specification `RunFrom`:
  - The successive outcomes of the wrapped call are an input.
  - Sleeps and debug calls are recorded.
  - The loop returns the first success, re-raises the last error when attempts run out, sleeps only between attempts with geometrically growing delays, and makes no call when `retries <= 0`.
- **Trace-id middleware** (`trace_id.dfy`, `TraceIdMiddleware`). `dispatch` acts on the logger's fields:
  - Excluded paths pass straight through.
  - Otherwise it takes the trace id from the header, or a fresh uuid when the header is missing or empty, installs it in the slot, and logs the start of the request.
  - When the downstream call responds, it also logs the finish with the status.
- **Object guards** (`immutable.py`, `incomparable.py` and `sealed.py` become modules `Immutable`, `Incomparable` and `Sealed`):
  - `Immutable`: the `_frozen` write guard, and the freeze at the end of `__init__`, which an exception from the cooperative `super().__init__` chain skips.
  - `Incomparable`: the six comparison operators and `hash`, which always raise.
  - `Sealed`: the `__init_subclass__` sealing rule, over a registry of class objects.
- **Exceptions** (`exceptions.dfy` and `base.py`, modules `Exceptions` and `AppException`):
  - `ImmutableAttributeError` and `SealedClassError`, with their constructors' arities and defaults.
  - Their shared `"<value> - <message>"` string form.
  - `ApplicationException`: its construction as two plain attribute writes, its accessors, and the comparison and hash refusals it inherits.
- **Python helpers** (`text.dfy`, `Text`). Python's `str(int)`, `str.strip`, `str.isspace`, `str.split` and `str.join` for one-character separators, each with its inverse or its characterisation.

Three behaviours of the code shape the model:

- **Class creation checks the bases before `Sealed`'s hook runs.**
  - Python first linearises the new class's bases. Among the cases where that fails with `TypeError` are a duplicated base and a base listed before one of its own descendants (`Sealed.BaseListConflicts`); these two are the ones the model detects.
  - Only then, and only for a class with `Sealed` among its ancestors, does `__init_subclass__` read `_is_sealed`, and it reads it from the first declared base alone (`cls.__bases__[0]`).
  - A first base outside that hierarchy, such as an `object`-derived mixin, has no `_is_sealed`, so the lookup raises `AttributeError` (`Sealed.FirstBaseOutsideHierarchy`).
  - Together, these refuse every class that names a sealed class among its bases, in any position (`Sealed.SealedBaseNeverAccepted`).
- **`ApplicationException` is not immutable.**
  - In the method resolution order of `ApplicationException(Exception, Incomparable, Immutable)`, `BaseException` comes before `Immutable`. `BaseException` defines its own `__setattr__`, the generic attribute write.
  - That `__setattr__` shadows `Immutable`'s `_frozen` guard. Every write takes effect, even after `_frozen` has been set truthy (`AppException.NeverFrozen`, `AppException.FrozenFlagIgnored`).
  - Its `__init__` does not call `Immutable.__init__` either, so construction never sets `_frozen`.
  - `Incomparable`'s comparison and hash methods are still the ones reached.
- **An unrecognised `LOG_FORMAT` selects JSON**, while a `Logger` built without a format uses TEXT (`LoggerPackage.FormatDefaultsDisagree`).

## Model

| member | source | states |
|---|---|---|
| Text.StripSpec | src/settings.py:110 | `strip()` leaves no whitespace at either end and removes only whitespace: the result is a slice of the input whose dropped prefix and suffix are all whitespace |
| Text.StripEmptyIffAllSpace | src/settings.py:109 | `s.strip()` is empty (false) exactly when `s` is whitespace only |
| Text.JoinSplit | src/settings.py:110 | joining the pieces of `split(',')` with ',' gives the original string back |
| Text.SplitJoin | src/settings.py:110 | splitting a ','-join of separator-free parts gives the parts back |
| Text.NatToStringRoundTrip | src/settings.py:99 | the decimal text of a number, as an f-string renders it, parses back to the number |
| Text.IntToString | src/settings.py:92 | an `int` in an f-string renders as the decimal digits of its magnitude, with a leading '-' exactly when it is negative; the text is never empty |
| Text.Strip | src/settings.py:110 | `strip()` leaves no whitespace at either end (with `StripSpec`, it removes nothing else) |
| Text.Split | src/settings.py:110 | `split(',')` gives at least one piece and no piece contains the separator |
| Text.JoinLayout | src/settings.py:110 | `Join`, the reference inverse of `split`: no parts give "", the first part opens the text, and with two or more parts the separator follows it |
| AppSettings.ValidBoundaries | src/settings.py:13-64 | the constraints `Valid` states: the declared defaults (5432, 6379, database 0, INFO, TEXT) pass with a 32-character key; ports 1 and 65535 pass; ports 0 and 65536, database -1, a 31-character key and lower-case level or format names fail |
| AppSettings.DatabaseUrl | src/settings.py:88-93 | the URL starts with the `postgresql+asyncpg://` scheme |
| AppSettings.DatabaseUrlRoundTrip | src/settings.py:88-93 | for valid settings whose user and host contain no ':' and whose password contains no '@', parsing the URL gives back user, password, host, port and name |
| AppSettings.DatabaseUrlAmbiguousWithoutEscaping | src/settings.py:90-93 | fields are substituted without escaping: two settings with different passwords can give the same URL |
| AppSettings.RedisAuth | src/settings.py:98 | the `:<password>@` segment is present exactly when the password is neither None nor empty |
| AppSettings.RedisUrl | src/settings.py:96-99 | the URL starts with `redis://` |
| AppSettings.RedisLocationRoundTrip | src/settings.py:99 | `host:port/db` with a ':'-free host parses back to host, port and database |
| AppSettings.RedisUrlRoundTrip | src/settings.py:96-99 | for valid settings whose host contains no '@' or ':' and whose password contains no '@', the URL parses back to host, port and database, and to the password exactly when it is truthy |
| AppSettings.ExcludedPaths | src/settings.py:101-104 | the five paths `/docs`, `/redoc`, `/openapi.json`, `/ping`, `/health`, whatever the settings hold |
| AppSettings.ExcludedPathsExact | src/settings.py:104 | examples of the exact match: `/docs`, `/health` and `/ping` are in the list, and `/docs/oauth2-redirect`, `/health/` and `/` are not |
| AppSettings.NonBlankStripped | src/settings.py:110 | the comprehension keeps at most as many pieces as it is given, each non-empty and stripped |
| AppSettings.NonBlankStrippedMembers | src/settings.py:110 | a string is in the list exactly when it is non-empty and some piece strips to it |
| AppSettings.NonBlankStrippedConcat | src/settings.py:110 | the list distributes over concatenation of the pieces, so the origins keep the order of the pieces they come from |
| AppSettings.NonBlankStrippedSingle | src/settings.py:110 | one piece contributes its stripped form when that is non-empty, and nothing otherwise |
| AppSettings.Cors | src/settings.py:106-111 | every origin in the list is non-empty, stripped and free of commas |
| AppSettings.CorsDefault | src/settings.py:109-111 | a None or whitespace-only `CORS_ORIGINS` gives the default pair; any other value gives the stripped non-blank pieces of its comma split, in order |
| AppSettings.CorsRoundTrip | src/settings.py:109-110 | a list of non-empty, stripped, comma-free origins joined with commas parses back to the same list |
| AppSettings.CorsOfCommasOnly | src/settings.py:109-111 | `" , ,"` is not blank, so it gives the empty list and not the default pair |
| AppSettings.SplitOfCommasOnly | src/settings.py:110 | example: `" , ,".split(',')` is `[" ", " ", ""]` |
| AppSettings.NonBlankOfBlanks | src/settings.py:110 | example: the pieces `" "`, `" "` and `""` all strip to nothing, so none is kept |
| LogLevels.Position | src/infrastructure/logger/log_levels.py:4-10 | each level has its own place in declaration order |
| LogLevels.Rank | src/infrastructure/logger/log_levels.py:5-10 | the values are 10, 20, ..., 60 in declaration order |
| LogLevels.Eq | src/infrastructure/logger/log_levels.py:18-23 | between levels `==` is identity; against an int it compares the value with that int |
| LogLevels.Ne | src/infrastructure/logger/log_levels.py:25-26 | `!=` is the negation of `==` |
| LogLevels.Lt | src/infrastructure/logger/log_levels.py:28-33 | between levels `<` is "earlier in declaration order"; against an int it compares the value |
| LogLevels.Le | src/infrastructure/logger/log_levels.py:35-40 | `<=` holds exactly when `<` or `==` does |
| LogLevels.Gt | src/infrastructure/logger/log_levels.py:42-47 | `>` is the negation of `<=`, and between levels it is the converse of `<` |
| LogLevels.Ge | src/infrastructure/logger/log_levels.py:49-54 | `>=` is the negation of `<`; between levels, "not earlier in declaration order" |
| LogLevels.Str | src/infrastructure/logger/log_levels.py:12-13 | `str(level)` is a non-empty upper-case name that belongs to that level alone |
| LogLevels.RankText | src/infrastructure/logger/log_levels.py:5-10 | each value prints as two digits: the level's ordinal, then 0 |
| LogLevels.ReprTableLower | src/infrastructure/logger/log_levels.py:15-16 | `repr` of DEBUG, INFO and WARNING is `[10, 'DEBUG']`, `[20, 'INFO']`, `[30, 'WARNING']` |
| LogLevels.ReprTableUpper | src/infrastructure/logger/log_levels.py:15-16 | `repr` of ERROR, CRITICAL and EXCEPTION is `[40, 'ERROR']`, `[50, 'CRITICAL']`, `[60, 'EXCEPTION']` |
| LogLevels.ReprLayout | src/infrastructure/logger/log_levels.py:15-16 | every `repr` is `[`, the two-digit value (the level's ordinal, then 0), `, '`, the name and `']`, so value and name can be read back from fixed positions |
| LogLevels.LevelsTotallyOrdered | src/infrastructure/logger/log_levels.py:28-54 | between levels `<` is irreflexive, transitive and total, and `>=` is its complement |
| LogLevels.NamesAndRanksDistinct | src/infrastructure/logger/log_levels.py:4-10 | two different levels differ in both name and value |
| Logging.PrepareLogData | src/infrastructure/logger/logger.py:72-97 | the record carries the level name, message, trace slot and timestamp; the caller's file and line, or "unknown"/0 when the stack is too shallow; and a traceback exactly at EXCEPTION |
| Logging.TextTracebackOnlyAtException | src/infrastructure/logger/logger.py:107-113 | with single-line inputs, a TEXT record is one line below EXCEPTION; at EXCEPTION it is the head followed by `"\nTraceback:\n"` and the traceback |
| Logging.TextLayout | src/infrastructure/logger/logger.py:107-113 | the TEXT head opens with the timestamp and closes with the message, each set off by " - "; a record with a traceback is the head, `"\nTraceback:\n"` and the traceback, and a record without one is the head alone |
| Logging.EscapeChar | src/infrastructure/logger/logger.py:104 | each character's escape is non-empty and has no character below U+0020; it starts with a backslash unless the character is copied as itself; a quote is never copied, and every other character from U+0020 up, backslash aside, is (`ensure_ascii=False` leaves U+007F and above as they are) |
| Logging.EscapeJson | src/infrastructure/logger/logger.py:104 | the escaped contents of a string have no character below U+0020 (with `EscapeJsonRoundTrip`, decoding gives the string back) |
| Logging.EscapeJsonRoundTrip | src/infrastructure/logger/logger.py:104 | decoding the `json.dumps` escaping of a string gives the string back |
| Logging.JsonFields | src/infrastructure/logger/logger.py:85-95 | the JSON object has exactly timestamp, level, file, line, trace_id and message in that order, plus exception only when the record has a traceback |
| Logging.JsonRecordIsOneLine | src/infrastructure/logger/logger.py:103-104 | every character of a JSON record is at or above U+0020, so it has no newline and is always one line, traceback included |
| Logging.RenderLayout | src/infrastructure/logger/logger.py:103-113 | the JSON format writes one printable line that opens with `{` and closes with `}`; the TEXT format writes the TEXT head first, and the head alone when there is no traceback |
| Logging.Emitted | src/infrastructure/logger/logger.py:99-118 | a call writes one line, the rendered record plus a newline, exactly when the level is at or above the minimum; otherwise it writes nothing |
| Logging.FilterByMinimum | src/infrastructure/logger/logger.py:100 | levels below the minimum write nothing, and levels at or above it write one line |
| Logging.NextTraceId | src/infrastructure/logger/logger.py:52-59 | the id is the custom generator's next value, or the fresh uuid when there is no generator or only the default one |
| Logging.Logger.constructor | src/infrastructure/logger/logger.py:32-40 | the first construction stores the three arguments; the trace slot reads "N/A" and nothing has been written |
| Logging.Logger.Init | src/infrastructure/logger/logger.py:32-40 | re-running `__init__` overwrites format, minimum level and generator, and leaves the slot and the output alone |
| Logging.Logger.SetFormat | src/infrastructure/logger/logger.py:42-47 | a non-`LogFormat` value raises `ValueError` and leaves the format unchanged; a `LogFormat` value becomes the format |
| Logging.Logger.SetMinLevel | src/infrastructure/logger/logger.py:49-50 | the minimum level becomes the argument |
| Logging.Logger.NewTraceId | src/infrastructure/logger/logger.py:52-59 | the drawn id is installed in the slot and returned |
| Logging.Logger.SetTraceId | src/infrastructure/logger/logger.py:61-63 | the slot holds the given id |
| Logging.Logger.GetTraceId | src/infrastructure/logger/logger.py:65-66 | returns what the slot holds |
| Logging.Logger.ClearTraceId | src/infrastructure/logger/logger.py:68-70 | the slot reads "N/A" again |
| Logging.Logger.Log | src/infrastructure/logger/logger.py:99-118 | the output grows by exactly what `Emitted` gives for the current format, minimum level and trace slot |
| Logging.Logger.Debug | src/infrastructure/logger/logger.py:120-121 | `_log` at DEBUG |
| Logging.Logger.Info | src/infrastructure/logger/logger.py:123-124 | `_log` at INFO |
| Logging.Logger.Warning | src/infrastructure/logger/logger.py:126-127 | `_log` at WARNING |
| Logging.Logger.Error | src/infrastructure/logger/logger.py:129-130 | `_log` at ERROR |
| Logging.Logger.Critical | src/infrastructure/logger/logger.py:132-133 | `_log` at CRITICAL |
| Logging.Logger.Exception | src/infrastructure/logger/logger.py:135-136 | `_log` at EXCEPTION |
| Logging.LoggerClass.constructor | src/infrastructure/logger/logger.py:24 | no instance exists before the first construction |
| Logging.LoggerClass.Call | src/infrastructure/logger/logger.py:27-40 | the first call creates the instance and every later call returns that same object; each call overwrites its three fields and keeps its trace slot and output |
| Logging.ConstructTwice | src/infrastructure/logger/logger.py:27-40 | two constructions yield one object, configured by the second call's arguments |
| LoggerPackage.LevelFromSetting | src/infrastructure/logger/__init__.py:7-21 | a level name selects the level of that name, and any other string selects INFO |
| LoggerPackage.FormatFromSetting | src/infrastructure/logger/__init__.py:16-21 | "TEXT", and only "TEXT", selects TEXT; "JSON" and every other string select JSON |
| LoggerPackage.LevelTableInvertsStr | src/infrastructure/logger/__init__.py:7-14 | every level's `str` is a key of the table and maps back to that level |
| LoggerPackage.FormatDefaultsDisagree | src/infrastructure/logger/__init__.py:16-21 | an unknown or lower-case format string selects JSON, unlike the class default TEXT; the level defaults agree |
| LoggerPackage.Package.constructor | src/infrastructure/logger/__init__.py:21 | the module's logger is the singleton, with the table-selected level and format and the uuid4 generator |
| LoggerPackage.Package.GetLogger | src/infrastructure/logger/__init__.py:24-25 | `get_logger` always returns the module's logger |
| LoggerPackage.ValidSettingsSelectNamedLevel | src/infrastructure/logger/__init__.py:21 | with valid settings the selected level is the one named, never EXCEPTION, and TEXT is selected exactly for "TEXT" |
| Retry.Delays | src/infrastructure/utils/retry.py:40-41 | there are as many delays as requested |
| Retry.DelaysAt | src/infrastructure/utils/retry.py:40-41 | the j-th delay is `delay * backoff^j` |
| Retry.RunOutcome | src/infrastructure/utils/retry.py:28-41 | from attempt k, with n consecutive retried failures: either all remaining attempts fail, the last error is re-raised after n calls and n-1 sleeps, or attempt k+n's outcome ends the run after n+1 calls and n sleeps |
| Retry.RunLog | src/infrastructure/utils/retry.py:28-39 | one failure report per retried failure, one exhaustion notice exactly when the attempts ran out, and attempts announced as k, k+1, ... |
| Retry.RunFromStart | src/infrastructure/utils/retry.py:22-41 | the loop's specification keeps the wrapper's promises (below) |
| Retry.Wrapper | src/infrastructure/utils/retry.py:22-41 | no call when `retries <= 0`; otherwise at most `retries` calls numbered from 1, geometric sleeps only between attempts, and either the first outcome that is not a retried failure, returned or raised as it is, or after `retries` failures the last error with one exhaustion notice |
| Retry.TwoFailuresThenSuccess | src/infrastructure/utils/retry.py:28-41 | two failures and then a success, with three attempts allowed, return the value after sleeps of 1.0 and 2.0 |
| TraceIdMiddleware.Complete | src/presentation/middleware/trace_id.py:27-31 | the downstream response is returned unchanged, and a downstream exception propagates unchanged |
| TraceIdMiddleware.ChosenTraceId | src/presentation/middleware/trace_id.py:18-21 | a non-empty header is used verbatim; a missing or empty one is replaced by the fresh uuid |
| TraceIdMiddleware.StartedMessage | src/presentation/middleware/trace_id.py:25 | the started message opens with "Request started: " and ends with the trace id |
| TraceIdMiddleware.FinishedMessage | src/presentation/middleware/trace_id.py:29 | the finished message opens with "Request finished: " and ends with " - Status: " and the status |
| TraceIdMiddleware.MessagesCarryIdAndStatus | src/presentation/middleware/trace_id.py:25-29 | the started message ends with the trace id; the finished message ends with the status, which parses back |
| TraceIdMiddleware.StartedMessageDeterminesId | src/presentation/middleware/trace_id.py:25 | the started message determines the trace id |
| TraceIdMiddleware.TraceIdMiddleware.constructor | src/presentation/middleware/trace_id.py:9-11 | the middleware keeps the logger it is given |
| TraceIdMiddleware.TraceIdMiddleware.Dispatch | src/presentation/middleware/trace_id.py:13-31 | excluded paths leave the slot and the output untouched; otherwise the slot holds the chosen id (never cleared), the started line is logged, and the finished line is logged only when downstream responds; the downstream outcome is returned |
| Immutable.Refusal | src/application/domain/objects/immutable.py:31 | the refusal is an `ImmutableAttributeError` naming the key, with the default status |
| Immutable.WriteAttr | src/application/domain/objects/immutable.py:24-33 | a write is refused exactly when `_frozen` is truthy, with the error naming the key; otherwise the key takes the value and every other attribute is kept |
| Immutable.AppliedEffect | src/application/domain/objects/immutable.py:33 | plain attribute writes never remove an attribute, add every written key, and leave the last key written with the last value written |
| Immutable.UnfrozenWriteTakesEffect | src/application/domain/objects/immutable.py:30-33 | an unfrozen object takes the write, keeps every other attribute, and is frozen afterwards only if the write froze it |
| Immutable.FrozenRefusesEveryWrite | src/application/domain/objects/immutable.py:30-31 | a frozen object refuses every write with the error naming the key, including a write that clears `_frozen` |
| Immutable.MissingFlagIsUnfrozen | src/application/domain/objects/immutable.py:30 | an object without `_frozen` is treated as unfrozen |
| Immutable.FrozenIsFinal | src/application/domain/objects/immutable.py:30-31 | on a frozen object any run of writes fails at its first write and changes nothing |
| Immutable.UnfrozenWritesSucceed | src/application/domain/objects/immutable.py:24-33 | while unfrozen, writes that leave `_frozen` alone all succeed, as plain dictionary updates, and leave every written key present |
| Immutable.KeyKept | src/application/domain/objects/immutable.py:24-33 | writes never remove an attribute |
| Immutable.InitFreezes | src/application/domain/objects/immutable.py:14-22 | a completed `__init__` leaves the object frozen, and the cooperative `super().__init__` chain raised nothing; on an unfrozen object, with initialisers that do not touch `_frozen`, `__init__` fails exactly when that chain raises, and then the chain's exception propagates and the object is left unfrozen; either way the initialisers' attributes are present |
| Immutable.ObjectInit | src/application/domain/objects/immutable.py:21 | `object.__init__`, where the chain ends, raises exactly when arguments are left over for it |
| Immutable.DirectSubclassInit | src/application/domain/objects/immutable.py:14-22 | a direct subclass without its own `__init__` is constructed, frozen, exactly when it is given no argument; with any argument `object.__init__` raises the arity `TypeError` and `_frozen` stays False |
| Immutable.InitAgainRefused | src/application/domain/objects/immutable.py:14-22 | running `__init__` again on a constructed object fails at its first write and changes nothing, whatever the chain would do |
| Immutable.ImmutableObject.SetAttr | src/application/domain/objects/immutable.py:24-33 | fails exactly when the object is frozen, then with the refusal and no change; otherwise the key is updated |
| Immutable.ImmutableObject.Init | src/application/domain/objects/immutable.py:14-22 | the attributes and the outcome are those of `InitOutcome`: `_frozen` cleared, the initialisers' writes, the chain's own exception if it raises one, then `_frozen` set |
| Incomparable.Compare | src/application/domain/objects/incomparable.py:13-35 | every comparison operator raises `IncomparableObjectError` with "<ClassName> objects cannot be compared" |
| Incomparable.Hash | src/application/domain/objects/incomparable.py:37-39 | hashing raises with "<ClassName> objects cannot be hashed" |
| Incomparable.MessagesNameTheClass | src/application/domain/objects/incomparable.py:13-39 | both messages give the runtime class name back, and the comparison and hash messages differ |
| Incomparable.ReflexiveComparisonRefused | src/application/domain/objects/incomparable.py:13-19 | even `x == x` and `x != x` raise rather than return |
| Sealed.Rejection | src/application/domain/objects/sealed.py:24 | the intended rejection: a `SealedClassError` with status INTERNAL_SERVER_ERROR and the message naming the sealed base |
| Sealed.RejectionAsWrittenRaisesArityError | src/application/domain/objects/sealed.py:24 | the one-argument call raises the arity `TypeError` and never builds a `SealedClassError` |
| Sealed.RejectionRenders | src/application/domain/objects/sealed.py:24 | the intended rejection renders as "500 - " followed by the message |
| Sealed.DefineWith | src/application/domain/objects/sealed.py:14-26 | a base list with one of the two modelled linearisation failures (a duplicated base, a base before its own descendant) fails with that `TypeError` before the hook; an accepted definition appends exactly one class, with its name, bases and ancestors, leaves every existing class as it was, and flags the new class (true) exactly when it is in the hierarchy |
| Sealed.BaseListError | src/application/domain/objects/sealed.py:14 | the two modelled linearisation failures: the check fails, with a `TypeError`, exactly when a base is duplicated or listed before one of its own descendants; a duplicate is reported first |
| Sealed.AncestorsOf | src/application/domain/objects/sealed.py:14 | a new class's ancestors include itself and every ancestor of each of its bases |
| Sealed.Define | src/application/domain/objects/sealed.py:14-26 | the hook with the corrected rejection: it accepts exactly what the hook as written accepts, and refuses with the same error except where it raises the `SealedClassError` |
| Sealed.DefineAsWritten | src/application/domain/objects/sealed.py:14-26 | the hook as written never raises a `SealedClassError` |
| Sealed.RejectionOnlyDiffers | src/application/domain/objects/sealed.py:23-24 | the two readings of the hook agree on every accepted definition and on every refusal other than the corrected `SealedClassError` |
| Sealed.SealedSubclassAsWritten | src/application/domain/objects/sealed.py:23-24 | subclassing a sealed class as written fails with the arity error; the corrected hook fails with the `SealedClassError` naming the base |
| Sealed.DefinePreservesConsistent | src/application/domain/objects/sealed.py:12-26 | each definition keeps the built-ins first and every class among its own ancestors, and flags a class exactly when `Sealed` is among its ancestors, with true for all but `Sealed` |
| Sealed.AncestorsInHierarchy | src/application/domain/objects/sealed.py:14 | a new class is in the hierarchy exactly when one of its bases is, which is when the hook runs |
| Sealed.DirectSubclassOfSealedAccepted | src/application/domain/objects/sealed.py:12-26 | `Sealed` itself is unsealed, so a class whose only base is `Sealed` is accepted, with `object`, `Sealed` and itself as ancestors, and becomes sealed |
| Sealed.PlainClassUnflagged | src/application/domain/objects/sealed.py:14-26 | a class outside the hierarchy gets no hook: it is accepted exactly when its bases pass the modelled linearisation check, and gets no flag |
| Sealed.SealedFirstBaseRejected | src/application/domain/objects/sealed.py:23-24 | with bases that pass the modelled linearisation check, a sealed first base is rejected: by the corrected hook with the `SealedClassError` naming it, and as written with the arity `TypeError`; otherwise the linearisation error comes first |
| Sealed.SealedBaseNeverAccepted | src/application/domain/objects/sealed.py:14-26 | in a consistent registry, a class that names a sealed class anywhere among its bases is never accepted, as written or corrected |
| Sealed.FirstBaseOutsideHierarchy | src/application/domain/objects/sealed.py:23 | only the first base's flag is read: with bases that pass the modelled linearisation check and some base in the hierarchy, a first base outside it raises `AttributeError` for `_is_sealed`, as written and corrected |
| Sealed.BaseListConflicts | src/application/domain/objects/sealed.py:14 | examples refused before the hook: `(Sealed, Sealed)` as a duplicate base; `(object, Sealed)` and `(Sealed, S)` with `S` sealed as inconsistent orders |
| Sealed.OneLevelThenClosed | src/application/domain/objects/sealed.py:23-26 | after `A(Sealed)` is defined, `B(A)` is rejected: by the corrected hook naming `A`, and as written with the arity `TypeError` |
| Sealed.Registry.constructor | src/application/domain/objects/sealed.py:12 | the registry starts with `object`, and `Sealed` with `_is_sealed = False` |
| Sealed.Registry.DefineClass | src/application/domain/objects/sealed.py:14-26 | with the corrected rejection: succeeds exactly when `Define` does, then appends the class and returns its id; any refusal, the linearisation `TypeError` included, leaves the registry unchanged |
| Exceptions.StatusMessageStr | src/application/domain/exceptions/base.py:22-23 | renders `"<status value> - <message>"` when the status is a `StatusCode`, and fails with `AttributeError` on `.value` otherwise |
| Exceptions.StatusMessageStrRoundTrip | src/application/domain/exceptions/base.py:22-23 | the rendered text splits at its first space back into the status value and "- " plus the message |
| Exceptions.NewImmutableAttributeError | src/application/domain/exceptions/immutable_attribute_error.py:8-10 | one or two positional arguments (message, then status defaulting to INTERNAL_SERVER_ERROR), and an arity error otherwise |
| Exceptions.ImmutableAttributeErrorDefault | src/application/domain/exceptions/immutable_attribute_error.py:4-21 | with the default status the accessors return the message and 500, and `str` is "500 - <message>" |
| Exceptions.ImmutableAttributeErrorStr | src/application/domain/exceptions/immutable_attribute_error.py:20-21 | `str` succeeds exactly when the status is a `StatusCode`, and is then its value, " - " and the message |
| Exceptions.NewSealedClassError | src/application/domain/exceptions/sealed_class_error.py:8-10 | exactly two positional arguments, status then message, with no defaults; any other count is an arity error |
| Exceptions.SealedClassErrorNeedsTwoArguments | src/application/domain/exceptions/sealed_class_error.py:4-10 | a single argument raises an arity `TypeError` |
| Exceptions.SealedClassErrorStr | src/application/domain/exceptions/sealed_class_error.py:20-21 | `str` succeeds exactly when the status is a `StatusCode`, and is then its value, " - " and the message |
| AppException.StatusCodeOf | src/application/domain/exceptions/base.py:14-16 | returns the stored status code, and raises `AttributeError` when it is missing |
| AppException.MessageOf | src/application/domain/exceptions/base.py:18-20 | returns the stored message, and raises `AttributeError` when it is missing |
| AppException.StrOf | src/application/domain/exceptions/base.py:22-23 | `str` reads `status_code` and its `.value`, then `message`: a missing `_status_code` raises `AttributeError` naming it; a present status that is not a `StatusCode` raises `AttributeError` for `value` whether or not `_message` is there; a `StatusCode` with `_message` missing raises `AttributeError` naming `_message`; otherwise the text is the value, " - " and the message |
| AppException.ConstructedAccessors | src/application/domain/exceptions/base.py:10-23 | construction sets exactly the two slots; `status_code` and `message` give the arguments back, and `str` is the status value, " - " and the message |
| AppException.ConstructedStrRoundTrip | src/application/domain/exceptions/base.py:22-23 | `str` of a constructed exception splits back into the status value and the message |
| AppException.NeverFrozen | src/application/domain/exceptions/base.py:6-12 | construction never sets `_frozen`, and every later run of writes takes effect whatever it does to `_frozen`: the slots stay, every written key is present and the last write wins; through `Immutable`'s guard the same writes after a truthy `_frozen` would be refused |
| AppException.ApplicationException.constructor | src/application/domain/exceptions/base.py:10-12 | the attributes are those of the two plain slot writes |
| AppException.ApplicationException.SetAttr | src/application/domain/exceptions/base.py:6 | `BaseException.__setattr__`, which shadows `Immutable`'s guard: every write takes effect, whatever `_frozen` holds |
| AppException.ApplicationException.Compare | src/application/domain/exceptions/base.py:6 | comparisons raise the `Incomparable` error naming the runtime class |
| AppException.ApplicationException.Hash | src/application/domain/exceptions/base.py:6 | hashing raises the `Incomparable` error naming the runtime class |
| AppException.FrozenFlagIgnored | src/application/domain/exceptions/base.py:6-12 | after `e._frozen = True`, writing `e._message` still succeeds: the flag is truthy, `message` returns the new value and `status_code` is unchanged |

## Left out

- `src/presentation/middleware/timing.py` (wall-clock timing and one debug line), `src/infrastructure/utils/hash.py` and its contract (bcrypt, a foreign call), the database engine and ORM files, `src/main.py` (application wiring and routes), and the exception handlers (thin response wrappers) are not part of this model.
- `src/application/domain/enums/status_code.py` is not part of this model. A `StatusCode` is modelled as a name and an integer value, and only INTERNAL_SERVER_ERROR = 500 is fixed.
- The `IncomparableObjectError` class file is not part of this model. The error is modelled by its message alone.
- `src/infrastructure/logger/log_format.py` is folded into `Logging.LogFormat`.
- Settings loading is left out: `.env` discovery, pydantic parsing and coercion, `lru_cache`, and the fields no computed property reads. `AppSettings.Valid` states the field constraints instead.
- The trace slot is a `ContextVar` in the source, but it is one field of the logger here. Per-task isolation is concurrency and is not modelled.
- `datetime.now()`, stack-frame inspection, `traceback.format_exc()` and `uuid4()` are parameters of the calls that use them.
- Standard output is a `seq<string>`, with one element per `_write` call.
- Retry.Wrapper: `asyncio.sleep` is recorded as a delay rather than awaited, and delays are exact reals rather than IEEE doubles.
- Retry.Wrapper: the debug calls are recorded as structured events rather than formatted text sent through the logger. The `:.1f` delay formatting and the `__qualname__` lookup are not modelled.
- LogLevels.Eq: comparisons with operands that are neither a `LogLevel` nor an `int` return `NotImplemented`, and that case is not modelled. The same holds for `Ne`, `Lt`, `Le`, `Gt` and `Ge`. `bool` operands count as `int`.
- TraceIdMiddleware.TraceIdMiddleware.Dispatch: the header lookup is given as an optional value, so case-insensitive header matching is not modelled. The request URL is a string.
- Immutable.Frozen: it reads `_frozen` from the instance's attributes only. `getattr(self, '_frozen', False)` would also find a class attribute `_frozen`, and a subclass that defines one is not modelled.
- Immutable.ImmutableObject.SetAttr: `__delattr__` is not guarded in the source, and neither are direct `object.__setattr__` calls. Neither path is modelled.
- Sealed.Registry.DefineClass: it follows the corrected hook (`Sealed.Define`), so a sealed first base raises the `SealedClassError`. The hook as written raises the arity `TypeError` instead (see Findings and `Sealed.DefineAsWritten`).
- Sealed.Registry.DefineClass: classes are registry ids, with no metaclass or `**kwargs`. A user class that sets `_is_sealed` in its own body is not modelled. `Sealed`'s own base `ABC` is folded into `object`.
- Sealed.BaseListError: it detects only a duplicated base and a base listed before one of its own descendants. Python also refuses orders that the bases' own resolution orders make inconsistent, such as `Z(X, Y)` with `X(A, B)` and `Y(B, A)`; the model accepts those.
- Sealed.DefineWith: of the ways the C3 linearisation can fail, only two are detected: a duplicated base, and a base listed before one of its own descendants. Other orders that the bases' own resolution orders make inconsistent are accepted. The class names in Python's error text are not modelled.
- Incomparable.Compare: Python's reflected-operand dispatch, where the other operand's operator is tried first, is not modelled.

## Findings

| source | as written | input that shows it | evidently intended | confidence | as-written member | corrected member |
|---|---|---|---|---|---|---|
| src/application/domain/objects/sealed.py:24 | `SealedClassError(message)` passes one argument to `__init__(self, status_code, message)` | define `class A(Sealed)`, then `class B(A)`: the hook raises an arity `TypeError`, not `SealedClassError` | raise a `SealedClassError` with a status code and the message naming the sealed base | not executed | Sealed.RejectionAsWrittenRaisesArityError | Sealed.Rejection |
