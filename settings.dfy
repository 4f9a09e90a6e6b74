/** The computed properties of the service settings: the database and
    Redis connection URLs, the paths the middlewares skip, and the parsed
    CORS origin list, together with the range constraints that settings
    loading enforces on the fields. */
module AppSettings {
  import opened Text

  /** The settings fields the computed properties read. */
  datatype Settings = Settings(
    databaseHost: string,
    databasePort: int,
    databaseName: string,
    databaseUser: string,
    databasePassword: string,
    secretKey: string,
    redisHost: string,
    redisPort: int,
    redisPassword: Option<string>,
    redisDb: int,
    logLevel: string,
    logFormat: string,
    corsOrigins: Option<string>)

  /** The field constraints settings loading enforces: both ports in
      1..65535, a non-negative Redis database number, a secret key of at
      least 32 characters, and the two logging literals. */
  predicate Valid(s: Settings)
  {
    && 1 <= s.databasePort <= 65535
    && 1 <= s.redisPort <= 65535
    && s.redisDb >= 0
    && |s.secretKey| >= 32
    && s.logLevel in {"DEBUG", "INFO", "WARNING", "ERROR", "CRITICAL"}
    && s.logFormat in {"JSON", "TEXT"}
  }

  /** The declared defaults (database port 5432, Redis port 6379, Redis
      database 0, `INFO`, `TEXT`) pass with any 32-character key; each bound
      is inclusive, and one step past it fails. */
  lemma ValidBoundaries(s: Settings)
    requires |s.secretKey| >= 32 && s.databasePort == 5432 && s.redisPort == 6379 && s.redisDb == 0
    requires s.logLevel == "INFO" && s.logFormat == "TEXT"
    ensures Valid(s)
    ensures Valid(s.(databasePort := 65535, redisPort := 1)) && Valid(s.(databasePort := 1, redisPort := 65535))
    ensures !Valid(s.(databasePort := 0)) && !Valid(s.(databasePort := 65536))
    ensures !Valid(s.(redisPort := 0)) && !Valid(s.(redisPort := 65536)) && !Valid(s.(redisDb := -1))
    ensures !Valid(s.(secretKey := s.secretKey[..31]))
    ensures !Valid(s.(logLevel := "info")) && !Valid(s.(logFormat := "json"))
  {
  }

  // ------------------------------------------------------------ DATABASE_URL

  const DATABASE_SCHEME: string := "postgresql+asyncpg://"

  /** `DATABASE_URL`: the fields substituted as they are, without escaping. */
  function DatabaseUrl(s: Settings): (r: string)
    ensures |r| > |DATABASE_SCHEME| && r[..|DATABASE_SCHEME|] == DATABASE_SCHEME
  {
    DATABASE_SCHEME + s.databaseUser + ":" + s.databasePassword
    + "@" + s.databaseHost + ":" + IntToString(s.databasePort) + "/" + s.databaseName
  }

  datatype DatabaseParts = DatabaseParts(user: string, password: string, host: string, port: nat, name: string)

  /** Reads a database URL back into its parts: user up to the first ':',
      password up to the next '@', host up to the next ':', port digits up
      to the next '/', then the name. */
  function ParseDatabaseUrl(url: string): (r: Option<DatabaseParts>)
  {
    if |url| < |DATABASE_SCHEME| || url[..|DATABASE_SCHEME|] != DATABASE_SCHEME then None
    else
      var rest := url[|DATABASE_SCHEME|..];
      match SplitAtFirst(rest, ':')
      case None => None
      case Some((user, rest1)) =>
        match SplitAtFirst(rest1, '@')
        case None => None
        case Some((password, rest2)) =>
          match SplitAtFirst(rest2, ':')
          case None => None
          case Some((host, rest3)) =>
            match SplitAtFirst(rest3, '/')
            case None => None
            case Some((portText, name)) =>
              match ParseNat(portText)
              case None => None
              case Some(port) => Some(DatabaseParts(user, password, host, port, name))
  }

  /** For valid settings whose user and host hold no ':' and whose password
      holds no '@', the URL gives every field back. */
  lemma DatabaseUrlRoundTrip(s: Settings)
    requires Valid(s)
    requires ':' !in s.databaseUser && '@' !in s.databasePassword && ':' !in s.databaseHost
    ensures ParseDatabaseUrl(DatabaseUrl(s)) == Some(DatabaseParts(
      s.databaseUser, s.databasePassword, s.databaseHost, s.databasePort, s.databaseName))
  {
    var port := NatToString(s.databasePort);
    var tail3 := port + "/" + s.databaseName;
    var tail2 := s.databaseHost + ":" + tail3;
    var tail1 := s.databasePassword + "@" + tail2;
    var rest := s.databaseUser + ":" + tail1;
    assert DatabaseUrl(s) == DATABASE_SCHEME + rest;
    assert (DATABASE_SCHEME + rest)[|DATABASE_SCHEME|..] == rest;
    SplitAtFirstOf(s.databaseUser, ':', tail1);
    SplitAtFirstOf(s.databasePassword, '@', tail2);
    SplitAtFirstOf(s.databaseHost, ':', tail3);
    assert '/' !in port;
    SplitAtFirstOf(port, '/', s.databaseName);
    NatToStringRoundTrip(s.databasePort);
  }

  /** Nothing is escaped: a password holding '@' gives the same URL as a
      different split between password and host. */
  lemma DatabaseUrlAmbiguousWithoutEscaping()
    ensures exists s1: Settings, s2: Settings ::
      s1.databasePassword != s2.databasePassword && DatabaseUrl(s1) == DatabaseUrl(s2)
  {
    var key := "0123456789abcdef0123456789abcdef";
    var s1 := Settings("db", 5432, "app", "user", "p@ss", key, "localhost", 6379, None, 0, "INFO", "TEXT", None);
    var s2 := s1.(databasePassword := "p", databaseHost := "ss@db");
    assert DatabaseUrl(s1) == DatabaseUrl(s2);
  }

  // --------------------------------------------------------------- REDIS_URL

  const REDIS_SCHEME: string := "redis://"

  /** The `:<password>@` segment, present only for a truthy password. */
  function RedisAuth(password: Option<string>): (r: string)
    ensures r != "" <==> password.Some? && password.value != ""
  {
    if password.Some? && password.value != "" then ":" + password.value + "@" else ""
  }

  /** `REDIS_URL`. */
  function RedisUrl(s: Settings): (r: string)
    ensures |r| > |REDIS_SCHEME| && r[..|REDIS_SCHEME|] == REDIS_SCHEME
  {
    REDIS_SCHEME + RedisAuth(s.redisPassword) + s.redisHost + ":" + IntToString(s.redisPort)
    + "/" + IntToString(s.redisDb)
  }

  datatype RedisParts = RedisParts(password: Option<string>, host: string, port: nat, db: nat)

  /** Reads a Redis URL back: an optional `:<password>@` before the first
      '@', the host up to ':', the port up to '/', then the database. */
  function ParseRedisUrl(url: string): (r: Option<RedisParts>)
  {
    if |url| < |REDIS_SCHEME| || url[..|REDIS_SCHEME|] != REDIS_SCHEME then None
    else
      var rest := url[|REDIS_SCHEME|..];
      match SplitAtFirst(rest, '@')
      case None => ParseRedisLocation(None, rest)
      case Some((auth, location)) =>
        if auth == [] || auth[0] != ':' then None
        else ParseRedisLocation(Some(auth[1..]), location)
  }

  function ParseRedisLocation(password: Option<string>, location: string): (r: Option<RedisParts>)
  {
    match SplitAtFirst(location, ':')
    case None => None
    case Some((host, rest)) =>
      match SplitAtFirst(rest, '/')
      case None => None
      case Some((portText, dbText)) =>
        match (ParseNat(portText), ParseNat(dbText))
        case (Some(port), Some(db)) => Some(RedisParts(password, host, port, db))
        case _ => None
  }

  lemma RedisLocationRoundTrip(password: Option<string>, host: string, port: nat, db: nat)
    requires ':' !in host
    ensures ParseRedisLocation(password, host + ":" + NatToString(port) + "/" + NatToString(db))
         == Some(RedisParts(password, host, port, db))
  {
    var portText := NatToString(port);
    var tail := portText + "/" + NatToString(db);
    assert host + ":" + portText + "/" + NatToString(db) == host + [':'] + tail;
    SplitAtFirstOf(host, ':', tail);
    assert tail == portText + ['/'] + NatToString(db);
    SplitAtFirstOf(portText, '/', NatToString(db));
    NatToStringRoundTrip(port);
    NatToStringRoundTrip(db);
  }

  /** For valid settings whose host holds neither '@' nor ':' and whose
      password holds no '@', the URL gives every field back, and it carries
      a password exactly when the password is neither None nor empty. */
  lemma RedisUrlRoundTrip(s: Settings)
    requires Valid(s)
    requires '@' !in s.redisHost && ':' !in s.redisHost
    requires s.redisPassword.Some? ==> '@' !in s.redisPassword.value
    ensures ParseRedisUrl(RedisUrl(s)) == Some(RedisParts(
      if s.redisPassword.Some? && s.redisPassword.value != "" then s.redisPassword else None,
      s.redisHost, s.redisPort, s.redisDb))
  {
    var location := s.redisHost + ":" + NatToString(s.redisPort) + "/" + NatToString(s.redisDb);
    var auth := RedisAuth(s.redisPassword);
    var rest := auth + location;
    assert RedisUrl(s) == REDIS_SCHEME + rest;
    assert (REDIS_SCHEME + rest)[|REDIS_SCHEME|..] == rest;
    if auth != "" {
      var pw := s.redisPassword.value;
      assert rest == (":" + pw) + ['@'] + location;
      SplitAtFirstOf(":" + pw, '@', location);
      assert (":" + pw)[1..] == pw;
      RedisLocationRoundTrip(Some(pw), s.redisHost, s.redisPort, s.redisDb);
    } else {
      assert rest == location;
      assert '@' !in location;
      RedisLocationRoundTrip(None, s.redisHost, s.redisPort, s.redisDb);
    }
  }

  // --------------------------------------------------------- EXCLUDED_PATHS

  /** `EXCLUDED_PATHS`: the same five paths whatever the settings hold. */
  function ExcludedPaths(s: Settings): (r: seq<string>)
    ensures r == ["/docs", "/redoc", "/openapi.json", "/ping", "/health"]
  {
    ["/docs", "/redoc", "/openapi.json", "/ping", "/health"]
  }

  /** Examples of the exact match the middlewares make against the list:
      the documentation and probe paths are skipped, while a sub-path or a
      trailing slash is not. */
  lemma ExcludedPathsExact(s: Settings)
    ensures "/docs" in ExcludedPaths(s) && "/health" in ExcludedPaths(s) && "/ping" in ExcludedPaths(s)
    ensures "/docs/oauth2-redirect" !in ExcludedPaths(s) && "/health/" !in ExcludedPaths(s) && "/" !in ExcludedPaths(s)
  {
  }

  // -------------------------------------------------------------------- CORS

  const DEFAULT_CORS: seq<string> := ["http://localhost:3000", "http://localhost:8000"]

  /** Strips every piece and keeps the non-blank ones, in order. */
  function NonBlankStripped(pieces: seq<string>): (r: seq<string>)
    ensures |r| <= |pieces|
    ensures forall k :: 0 <= k < |r| ==> r[k] != "" && Stripped(r[k])
  {
    if pieces == [] then []
    else
      var rest := NonBlankStripped(pieces[1..]);
      var head := Strip(pieces[0]);
      if head != "" then [head] + rest else rest
  }

  /** A string is in the list exactly when it is non-empty and some piece
      strips to it. */
  lemma {:induction false} NonBlankStrippedMembers(pieces: seq<string>, x: string)
    ensures x in NonBlankStripped(pieces) <==> x != "" && exists j :: 0 <= j < |pieces| && Strip(pieces[j]) == x
    decreases |pieces|
  {
    if pieces != [] {
      var tail := pieces[1..];
      var rest := NonBlankStripped(tail);
      NonBlankStrippedMembers(tail, x);
      StrippedToShift(pieces, x);
      if Strip(pieces[0]) != "" {
        assert NonBlankStripped(pieces) == [Strip(pieces[0])] + rest;
        InAppend(x, [Strip(pieces[0])], rest);
      } else {
        assert NonBlankStripped(pieces) == rest;
      }
    }
  }

  /** Some piece strips to `x` exactly when the first one does or some
      later one does. */
  lemma StrippedToShift(pieces: seq<string>, x: string)
    requires pieces != []
    ensures (exists j :: 0 <= j < |pieces| && Strip(pieces[j]) == x)
        <==> Strip(pieces[0]) == x || exists j :: 0 <= j < |pieces[1..]| && Strip(pieces[1..][j]) == x
  {
    var tail := pieces[1..];
    if exists j :: 0 <= j < |tail| && Strip(tail[j]) == x {
      var j :| 0 <= j < |tail| && Strip(tail[j]) == x;
      assert pieces[j + 1] == tail[j];
    }
    if exists j :: 0 <= j < |pieces| && Strip(pieces[j]) == x {
      var j :| 0 <= j < |pieces| && Strip(pieces[j]) == x;
      if j > 0 {
        assert tail[j - 1] == pieces[j];
      }
    }
  }

  /** The list keeps the order of the pieces: it distributes over
      concatenation, so, with `NonBlankStrippedSingle`, each piece
      contributes its stripped form in place when that is non-empty and
      nothing otherwise. */
  lemma {:induction false} NonBlankStrippedConcat(a: seq<string>, b: seq<string>)
    ensures NonBlankStripped(a + b) == NonBlankStripped(a) + NonBlankStripped(b)
    decreases |a|
  {
    if a == [] {
      assert a + b == b;
    } else {
      var tail := a[1..];
      assert (a + b)[1..] == tail + b;
      NonBlankStrippedConcat(tail, b);
      if Strip(a[0]) != "" {
        var front := [Strip(a[0])];
        assert NonBlankStripped(a + b) == front + NonBlankStripped(tail + b);
        assert NonBlankStripped(a) == front + NonBlankStripped(tail);
        AppendAssoc(front, NonBlankStripped(tail), NonBlankStripped(b));
      } else {
        assert NonBlankStripped(a + b) == NonBlankStripped(tail + b);
        assert NonBlankStripped(a) == NonBlankStripped(tail);
      }
    }
  }

  /** One piece contributes its stripped form when that is non-empty, and
      nothing otherwise. */
  lemma NonBlankStrippedSingle(p: string)
    ensures NonBlankStripped([p]) == if Strip(p) != "" then [Strip(p)] else []
  {
    assert [p][1..] == [];
  }

  lemma InAppend<T>(x: T, f: seq<T>, r: seq<T>)
    ensures x in f + r <==> x in f || x in r
  {
  }

  lemma AppendAssoc<T>(f: seq<T>, x: seq<T>, y: seq<T>)
    ensures f + (x + y) == (f + x) + y
  {
  }

  lemma {:induction false} NonBlankStrippedKeepsOut(pieces: seq<string>, c: char)
    requires forall j :: 0 <= j < |pieces| ==> c !in pieces[j]
    ensures forall k :: 0 <= k < |NonBlankStripped(pieces)| ==> c !in NonBlankStripped(pieces)[k]
    decreases |pieces|
  {
    if pieces != [] {
      NonBlankStrippedKeepsOut(pieces[1..], c);
      StripKeepsOut(pieces[0], c);
    }
  }

  /** `CORS`: the comma-separated origins, each stripped, blank ones
      dropped; the default pair when `CORS_ORIGINS` is None or blank. */
  function Cors(s: Settings): (r: seq<string>)
    ensures forall k :: 0 <= k < |r| ==> r[k] != "" && Stripped(r[k]) && ',' !in r[k]
  {
    if s.corsOrigins.Some? && Strip(s.corsOrigins.value) != "" then
      NonBlankStrippedKeepsOut(Split(s.corsOrigins.value, ','), ',');
      NonBlankStripped(Split(s.corsOrigins.value, ','))
    else DEFAULT_CORS
  }

  /** A missing or whitespace-only `CORS_ORIGINS` falls back to the default
      pair, and only then. */
  lemma CorsDefault(s: Settings)
    ensures s.corsOrigins.None? || AllSpace(s.corsOrigins.value) ==> Cors(s) == DEFAULT_CORS
    ensures s.corsOrigins.Some? && !AllSpace(s.corsOrigins.value) ==>
              Cors(s) == NonBlankStripped(Split(s.corsOrigins.value, ','))
  {
    if s.corsOrigins.Some? {
      StripEmptyIffAllSpace(s.corsOrigins.value);
    }
  }

  /** A list of stripped, non-empty, comma-free origins joined with commas
      parses back to the same list. */
  lemma {:induction false} CorsRoundTrip(s: Settings, origins: seq<string>)
    requires |origins| >= 1
    requires forall k :: 0 <= k < |origins| ==> origins[k] != "" && Stripped(origins[k]) && ',' !in origins[k]
    requires s.corsOrigins == Some(Join(origins, ','))
    ensures Cors(s) == origins
  {
    var text := Join(origins, ',');
    SplitJoin(origins, ',');
    KeepsStripped(origins);
    assert text[0] == origins[0][0] by { JoinHead(origins, ','); }
    StripEmptyIffAllSpace(text);
  }

  lemma {:induction false} JoinHead(parts: seq<string>, sep: char)
    requires |parts| >= 1 && parts[0] != ""
    ensures |Join(parts, sep)| >= 1 && Join(parts, sep)[0] == parts[0][0]
  {
  }

  lemma NonBlankStrippedCons(p: string, rest: seq<string>)
    ensures NonBlankStripped([p] + rest)
         == if Strip(p) != "" then [Strip(p)] + NonBlankStripped(rest) else NonBlankStripped(rest)
  {
    assert ([p] + rest)[1..] == rest;
  }

  lemma {:induction false} KeepsStripped(pieces: seq<string>)
    requires forall k :: 0 <= k < |pieces| ==> pieces[k] != "" && Stripped(pieces[k])
    ensures NonBlankStripped(pieces) == pieces
    decreases |pieces|
  {
    if pieces != [] {
      var p, rest := pieces[0], pieces[1..];
      assert [p] + rest == pieces;
      KeepsStripped(rest);
      StripOfStripped(p);
      NonBlankStrippedCons(p, rest);
    }
  }

  /** A non-blank string of commas and spaces yields no origins at all,
      not the default pair. */
  lemma CorsOfCommasOnly(s: Settings)
    requires s.corsOrigins == Some(" , ,")
    ensures Cors(s) == []
  {
    var text := " , ,";
    assert !IsSpace(text[1]);
    StripEmptyIffAllSpace(text);
    SplitOfCommasOnly();
    NonBlankOfBlanks();
  }

  /** An example: `" , ,".split(',')` is two single spaces and an empty
      piece. */
  lemma SplitOfCommasOnly()
    ensures Split(" , ,", ',') == [" ", " ", ""]
  {
    var text := " , ,";
    assert text == " " + [','] + " ,";
    assert " ," == " " + [','] + "";
    SplitPrefix(" ", ',', " ,");
    SplitPrefix(" ", ',', "");
  }

  /** An example: the pieces `" "`, `" "` and `""` all strip to nothing,
      so none of them is kept. */
  lemma NonBlankOfBlanks()
    ensures NonBlankStripped([" ", " ", ""]) == []
  {
    StripEmptyIffAllSpace(" ");
    StripEmptyIffAllSpace("");
    NonBlankStrippedCons("", []);
    NonBlankStrippedCons(" ", [""]);
    NonBlankStrippedCons(" ", [" ", ""]);
  }
}
