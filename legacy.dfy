/** main.go: the older single-file server. Its handlers duplicate the package ones;
    each is modelled here with its own body and proved against the same specification
    functions, so that the two versions are shown to agree, and to differ where the
    code differs. */
module Legacy {
  import opened Wrappers
  import opened Strings
  import opened Models
  import opened Storage
  import Config
  import AuthHandlers
  import UrlHandlers
  import StatsHandlers

  const DefaultExpirationDays: int := 365
  const MaxExpirationDays: int := 365 * 10
  const NoExpirationValue: int := 0

  /** The server's copies of the expiration constants are the package's. */
  lemma ConstantsAgree()
    ensures DefaultExpirationDays == Config.DefaultExpirationDays
    ensures MaxExpirationDays == Config.MaxExpirationDays == 3650
    ensures NoExpirationValue == Config.NoExpirationValue
  {
  }

  const DefaultSqlitePath: string := "./riidme_stats.db"

  /** The SQLite path init() uses: it reads SQLITE_DB_PATH with os.Getenv, so a variable
      that is set but empty counts as unset and the default is used. */
  function SqlitePath(env: Config.Env): (path: string)
    ensures path != ""
    ensures "SQLITE_DB_PATH" in env && env["SQLITE_DB_PATH"] != "" ==> path == env["SQLITE_DB_PATH"]
    ensures "SQLITE_DB_PATH" !in env || env["SQLITE_DB_PATH"] == "" ==> path == DefaultSqlitePath
  {
    var value := Config.GetEnv(env, "SQLITE_DB_PATH", "");
    if value == "" then DefaultSqlitePath else value
  }

  /** The server's path agrees with the package's LoadEnv, which keeps a set-but-empty
      value, exactly when SQLITE_DB_PATH is not set to "". */
  lemma SqlitePathAgreement(env: Config.Env)
    ensures SqlitePath(env) == Config.GetEnv(env, "SQLITE_DB_PATH", DefaultSqlitePath)
            <==> !("SQLITE_DB_PATH" in env && env["SQLITE_DB_PATH"] == "")
  {
  }

  /** The package-level variables init() fills in: the `config` struct and
      `validAuthCodes`, plus the SQLite path it opens. */
  class Globals {
    var port: string
    var domain: string
    var scheme: string
    var redisURL: string
    var redisPW: string
    var redisDB: int
    var validAuthCodes: seq<string>
    var sqliteDBPath: string

    /** The zero values Go gives the variables before init() runs. */
    constructor ()
      ensures port == "" && domain == "" && scheme == "" && redisURL == "" && redisPW == ""
      ensures redisDB == 0 && validAuthCodes == [] && sqliteDBPath == ""
    {
      port, domain, scheme, redisURL, redisPW := "", "", "", "", "";
      redisDB, validAuthCodes, sqliteDBPath := 0, [], "";
    }

    /** The configuration part of init(), over the environment after the .env file has
        been merged in. REDIS_DB is never read: the field keeps its zero value. */
    method Init(env: Config.Env)
      modifies this
      ensures port == Config.GetEnv(env, "PORT", "3000")
      ensures domain == Config.GetEnv(env, "APP_DOMAIN", "localhost:3000")
      ensures scheme == Config.GetEnv(env, "APP_SCHEME", "http")
      ensures redisURL == Config.GetEnv(env, "REDIS_ADDR", "localhost:6379")
      ensures redisPW == Config.GetEnv(env, "REDIS_PASSWORD", "")
      ensures redisDB == old(redisDB)
      ensures validAuthCodes == Config.AuthCodeList(Config.GetEnv(env, "VALID_AUTH_CODES", ""))
      ensures sqliteDBPath == SqlitePath(env)
    {
      port := Config.GetEnv(env, "PORT", "3000");
      domain := Config.GetEnv(env, "APP_DOMAIN", "localhost:3000");
      scheme := Config.GetEnv(env, "APP_SCHEME", "http");
      redisURL := Config.GetEnv(env, "REDIS_ADDR", "localhost:6379");
      redisPW := Config.GetEnv(env, "REDIS_PASSWORD", "");

      var authCodesEnv := Config.GetEnv(env, "VALID_AUTH_CODES", "");
      if authCodesEnv != "" {
        validAuthCodes := Split(authCodesEnv, ',');
      } else {
        validAuthCodes := [];
      }

      var path := if "SQLITE_DB_PATH" in env then env["SQLITE_DB_PATH"] else "";
      if path == "" {
        path := DefaultSqlitePath;
      }
      sqliteDBPath := path;
    }
  }

  /** createShortURL, after the body has been decoded: the same checks in the same
      order, the same statuses and messages and the same single store write as the
      package handler, which is what its contract says. */
  method CreateShortURL(g: Globals, store: LinkStore, req: URLRequest,
                        generated: Option<string>, existsFails: bool, setFails: bool)
    returns (resp: UrlHandlers.CreateResponse)
    modifies store
    ensures var plan := UrlHandlers.CreatePlan(g.validAuthCodes, old(store.entries), req, generated, existsFails);
            resp == UrlHandlers.Respond(plan, setFails, g.scheme, g.domain) &&
            store.entries == UrlHandlers.Commit(old(store.entries), plan, setFails)
  {
    ghost var plan := UrlHandlers.CreatePlan(g.validAuthCodes, store.entries, req, generated, existsFails);
    if req.longURL == "" {
      assert plan == UrlHandlers.Reject(StatusBadRequest, "URL is required");
      return UrlHandlers.CreateFailed(StatusBadRequest, "URL is required");
    }
    var normalizedURL := UrlHandlers.NormalizeURL(req.longURL);
    var codeToUse: string;
    var redisExpirationDays: nat := DefaultExpirationDays;

    if req.customHandle != "" {
      // main.go repeats the package's custom-handle checks statement for statement.
      var decision := UrlHandlers.CheckCustomHandle(g.validAuthCodes, store, req, existsFails, normalizedURL);
      assert plan == decision;
      if decision.Reject? {
        return UrlHandlers.CreateFailed(decision.status, decision.error);
      }
      codeToUse, redisExpirationDays := decision.code, decision.link.ttlDays;
    } else {
      if generated.None? {
        assert plan == UrlHandlers.Reject(StatusInternalServerError, "Error generating short code");
        return UrlHandlers.CreateFailed(StatusInternalServerError, "Error generating short code");
      }
      codeToUse := generated.value;
    }
    assert plan == UrlHandlers.Write(codeToUse, Link(normalizedURL, redisExpirationDays));

    var ok := store.Set(codeToUse, Link(normalizedURL, redisExpirationDays), setFails);
    if !ok {
      return UrlHandlers.CreateFailed(StatusInternalServerError, "Error storing URL");
    }
    resp := UrlHandlers.Shortened(g.scheme + "://" + g.domain + "/" + codeToUse);
  }

  /** redirectToLongURL's answer for the code the router extracted: no path filter and
      no empty-code case, only the lookup. */
  function RedirectOutcome(entries: map<string, Link>, code: string, getFails: bool): (resp: UrlHandlers.RedirectResponse)
    ensures resp.Redirect? <==> !getFails && code in entries
    ensures resp.Redirect? ==> resp == UrlHandlers.Redirect(StatusMovedPermanently, entries[code].target)
    ensures getFails ==> resp == UrlHandlers.RedirectFailed(StatusInternalServerError, "Error retrieving URL")
    ensures !getFails && code !in entries ==> resp == UrlHandlers.RedirectFailed(StatusNotFound, "Short URL not found")
  {
    if getFails then UrlHandlers.RedirectFailed(StatusInternalServerError, "Error retrieving URL")
    else if code !in entries then UrlHandlers.RedirectFailed(StatusNotFound, "Short URL not found")
    else UrlHandlers.Redirect(StatusMovedPermanently, entries[code].target)
  }

  /** redirectToLongURL. Like the package handler it never writes to the store and
      appends one click row exactly when it answers 301 and the insert succeeds. */
  method RedirectToLongURL(store: LinkStore, log: ClickLog, code: string, userAgent: string, referrer: string,
                           now: nat, getFails: bool, insertFails: bool)
    returns (resp: UrlHandlers.RedirectResponse)
    modifies log
    ensures resp == RedirectOutcome(store.entries, code, getFails)
    ensures resp.status == StatusMovedPermanently && !insertFails ==>
              log.rows == old(log.rows) + [UrlHandlers.ClickFor(code, userAgent, referrer, now)]
    ensures resp.status != StatusMovedPermanently || insertFails ==> log.rows == old(log.rows)
  {
    var reply := store.Get(code, getFails);
    if reply.Nil? {
      return UrlHandlers.RedirectFailed(StatusNotFound, "Short URL not found");
    } else if reply.GetError? {
      return UrlHandlers.RedirectFailed(StatusInternalServerError, "Error retrieving URL");
    }
    var longURL := reply.target;

    var _ := log.Insert(code, userAgent, referrer, now, insertFails);
    resp := UrlHandlers.Redirect(StatusMovedPermanently, longURL);
  }

  /** For a code whose path is not reserved, the two redirect handlers give the same
      answer. */
  lemma RedirectAgrees(entries: map<string, Link>, code: string, getFails: bool)
    requires code != "" && !UrlHandlers.IsReservedPath("/" + code)
    ensures UrlHandlers.RedirectOutcome(entries, "/" + code, getFails) == RedirectOutcome(entries, code, getFails)
  {
    assert HasPrefix("/" + code, "/") && ("/" + code)[1..] == code;
  }

  /** They differ on reserved paths: a link stored under "logo.png" is followed by the
      server's handler but refused with 404 by the package's. */
  lemma ReservedSuffixDiffers(entries: map<string, Link>)
    requires "logo.png" in entries
    ensures RedirectOutcome(entries, "logo.png", false).status == StatusMovedPermanently
    ensures UrlHandlers.RedirectOutcome(entries, "/logo.png", false).status == StatusNotFound
  {
    assert HasSuffix("/logo.png", ".png");
  }

  /** validateAuthCodeHandler: the flag loop over the global list, then the answer. */
  method ValidateAuthCode(g: Globals, authCode: string) returns (resp: AuthValidationResponse)
    ensures resp == AuthHandlers.AuthAnswer(g.validAuthCodes, authCode)
  {
    if authCode == "" {
      return AuthValidationResponse(StatusBadRequest, false, "Authorization code cannot be empty");
    }
    var isValidCode := false;
    for i := 0 to |g.validAuthCodes|
      invariant !isValidCode
      invariant forall k :: 0 <= k < i ==> g.validAuthCodes[k] != authCode
    {
      if authCode == g.validAuthCodes[i] {
        isValidCode := true;
        break;
      }
    }
    if isValidCode {
      resp := AuthValidationResponse(StatusOK, true, "");
    } else {
      resp := AuthValidationResponse(StatusOK, false, "Invalid authorization code");
    }
  }

  /** The server's ClickDetail: plain strings, so a NULL column becomes "". */
  datatype ClickText = ClickText(timestamp: nat, userAgent: string, referrer: string)

  datatype StatsBody = StatsBody(shortCode: string, totalClicks: int, clicks: seq<ClickText>)

  datatype StatsResult = Stats(body: StatsBody) | StatsFailed(status: int, error: string)

  /** sql.NullString's String field: the value, or "" for NULL. */
  function AsText(d: ClickDetail): (t: ClickText)
    ensures t.timestamp == d.timestamp
    ensures t.userAgent == d.userAgent.GetOr("") && t.referrer == d.referrer.GetOr("")
  {
    ClickText(d.timestamp, d.userAgent.GetOr(""), d.referrer.GetOr(""))
  }

  /** A NULL column and an empty string give the same detail. */
  lemma NullReadsAsEmpty(t: nat, referrer: Option<string>)
    ensures AsText(ClickDetail(t, None, referrer)) == AsText(ClickDetail(t, Some(""), referrer))
  {
  }

  /** The rows.Next() loop of getLinkStatsHandler: like the package's, but each row
      that scans is flattened to plain strings. */
  method CollectClicks(rows: seq<ClickRow>, scanFails: set<nat>) returns (clicks: seq<ClickText>)
    ensures |clicks| == |StatsHandlers.Scanned(rows, scanFails)|
    ensures forall i :: 0 <= i < |clicks| ==> clicks[i] == AsText(StatsHandlers.Scanned(rows, scanFails)[i])
  {
    clicks := [];
    var i := 0;
    while i < |rows|
      invariant 0 <= i <= |rows|
      invariant |clicks| == |StatsHandlers.Scanned(rows[..i], scanFails)|
      invariant forall k :: 0 <= k < |clicks| ==> clicks[k] == AsText(StatsHandlers.Scanned(rows[..i], scanFails)[k])
    {
      assert rows[..i + 1][..i] == rows[..i];
      if i !in scanFails {
        var cd := StatsHandlers.Detail(rows[i]);
        clicks := clicks + [ClickText(cd.timestamp, cd.userAgent.GetOr(""), cd.referrer.GetOr(""))];
      }
      i := i + 1;
    }
    assert rows[..|rows|] == rows;
  }

  /** getLinkStatsHandler, with the same failure points as the package handler. */
  method GetLinkStats(log: ClickLog, shortCode: string, queryFails: bool, scanFails: set<nat>, iterFails: bool)
    returns (result: StatsResult)
    ensures queryFails ==> result == StatsFailed(StatusInternalServerError, "{\"error\":\"Failed to retrieve statistics\"}")
    ensures !queryFails && iterFails ==>
              result == StatsFailed(StatusInternalServerError, "{\"error\":\"Failed to process statistics\"}")
    ensures !queryFails && !iterFails ==>
              var details := StatsHandlers.Scanned(StatsHandlers.StatsQuery(log.rows, shortCode), scanFails);
              && result.Stats? && result.body.shortCode == shortCode
              && |result.body.clicks| == |details|
              && (forall i :: 0 <= i < |details| ==> result.body.clicks[i] == AsText(details[i]))
    ensures result.Stats? ==> result.body.totalClicks == |result.body.clicks|
  {
    if queryFails {
      return StatsFailed(StatusInternalServerError, "{\"error\":\"Failed to retrieve statistics\"}");
    }
    var rows := StatsHandlers.StatsQuery(log.rows, shortCode);
    var clicks := CollectClicks(rows, scanFails);
    if iterFails {
      return StatsFailed(StatusInternalServerError, "{\"error\":\"Failed to process statistics\"}");
    }
    result := Stats(StatsBody(shortCode, |clicks|, clicks));
  }

  /** What the server's statistics answer promises: the clicks are newest first, and
      when every row scans and every logged row was written by a redirect (so neither
      text column is NULL), each click carries its row's strings unchanged. */
  lemma TextStatsAnswer(rows: seq<ClickRow>, shortCode: string, scanFails: set<nat>, clicks: seq<ClickText>)
    requires var details := StatsHandlers.Scanned(StatsHandlers.StatsQuery(rows, shortCode), scanFails);
             |clicks| == |details| && forall i :: 0 <= i < |details| ==> clicks[i] == AsText(details[i])
    ensures forall i, j :: 0 <= i < j < |clicks| ==> clicks[i].timestamp >= clicks[j].timestamp
    ensures var query := StatsHandlers.StatsQuery(rows, shortCode);
            (forall i :: 0 <= i < |query| ==> i !in scanFails) &&
            (forall i :: 0 <= i < |rows| ==> rows[i].userAgent.Some? && rows[i].referrer.Some?) ==>
              forall i :: 0 <= i < |clicks| ==>
                Some(clicks[i].userAgent) == query[i].userAgent && Some(clicks[i].referrer) == query[i].referrer
  {
    var query := StatsHandlers.StatsQuery(rows, shortCode);
    var details := StatsHandlers.Scanned(query, scanFails);
    StatsHandlers.StatsAnswer(rows, shortCode, scanFails);
    assert StatsHandlers.DetailsNewestFirst(details);
    if (forall i :: 0 <= i < |query| ==> i !in scanFails) &&
       (forall i :: 0 <= i < |rows| ==> rows[i].userAgent.Some? && rows[i].referrer.Some?)
    {
      forall i | 0 <= i < |clicks|
        ensures Some(clicks[i].userAgent) == query[i].userAgent && Some(clicks[i].referrer) == query[i].referrer
      {
        assert details[i] == StatsHandlers.Detail(query[i]);
        assert multiset(query)[query[i]] == multiset(rows)[query[i]];
        assert query[i] in multiset(rows);
        var k :| 0 <= k < |rows| && rows[k] == query[i];
      }
    }
  }

  /** The create cases the tests exercise: a URL with a scheme is shortened to an
      address that contains the configured domain, and an empty or missing long_url
      (both decode to "") is a 400 that stores nothing. */
  lemma CreateTestCases(validCodes: seq<string>, entries: map<string, Link>, scheme: string, domain: string, code: string)
    ensures var plan := UrlHandlers.CreatePlan(validCodes, entries, URLRequest("https://example.com", "", "", None), Some(code), false);
            var resp := UrlHandlers.Respond(plan, false, scheme, domain);
            && resp.Shortened?
            && resp.shortURL[|scheme| + 3..|scheme| + 3 + |domain|] == domain
            && UrlHandlers.Commit(entries, plan, false)[code].target == "https://example.com"
    ensures var plan := UrlHandlers.CreatePlan(validCodes, entries, URLRequest("", "", "", None), Some(code), false);
            && UrlHandlers.Respond(plan, false, scheme, domain) == UrlHandlers.CreateFailed(StatusBadRequest, "URL is required")
            && UrlHandlers.Commit(entries, plan, false) == entries
  {
    var u := "https://example.com";
    assert Trimmed(u) && TrimSpace(u) == u;
    assert HasPrefix(u, "https://");
  }

  /** The redirect cases the tests exercise: a stored code answers 301 with its target
      as the location, whatever its TTL (the test stores it for one hour, which a TTL in
      whole days cannot express), and an unknown code answers 404. */
  lemma RedirectTestCases(entries: map<string, Link>, ttl: nat)
    requires entries == map["testcode123" := Link("https://example.com", ttl)]
    ensures RedirectOutcome(entries, "testcode123", false) == UrlHandlers.Redirect(StatusMovedPermanently, "https://example.com")
    ensures RedirectOutcome(entries, "nonexistent", false).status == StatusNotFound
  {
    assert "nonexistent" != "testcode123" by { assert "nonexistent"[0] != "testcode123"[0]; }
  }
}
