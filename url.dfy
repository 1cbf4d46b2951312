/** POST /shorten and GET /{code} (pkg/handlers/url.go): URL normalisation, the create
    flow with its fixed order of checks and its single store write, and the redirect
    flow with its click row. */
module UrlHandlers {
  import opened Wrappers
  import opened Strings
  import opened Models
  import opened Storage
  import Config
  import AuthHandlers

  /** NormalizeURL: trims white space and puts "https://" in front unless the URL
      already starts with "http://" or "https://" (case-sensitive). */
  function NormalizeURL(url: string): (r: string)
    ensures HasPrefix(r, "http://") || HasPrefix(r, "https://")
    ensures Trimmed(r)
    ensures r == TrimSpace(url) || r == "https://" + TrimSpace(url)
  {
    var u := TrimSpace(url);
    if !HasPrefix(u, "http://") && !HasPrefix(u, "https://") then
      WithHttps(u);
      "https://" + u
    else u
  }

  /** Putting "https://" in front of a trimmed string keeps it trimmed. */
  lemma WithHttps(u: string)
    requires Trimmed(u)
    ensures HasPrefix("https://" + u, "https://") && Trimmed("https://" + u)
  {
    var r := "https://" + u;
    assert r[..8] == "https://";
    assert u != [] ==> r[|r| - 1] == u[|u| - 1];
  }

  /** A URL that already has a scheme is only trimmed. */
  lemma NormalizeKeepsScheme(url: string)
    requires HasPrefix(TrimSpace(url), "http://") || HasPrefix(TrimSpace(url), "https://")
    ensures NormalizeURL(url) == TrimSpace(url)
  {
  }

  /** Normalising twice is normalising once. */
  lemma NormalizeIdempotent(url: string)
    ensures NormalizeURL(NormalizeURL(url)) == NormalizeURL(url)
  {
    var r := NormalizeURL(url);
    assert TrimSpace(r) == r;
  }

  /** A trimmed URL without a scheme gets "https://" in front and nothing else. */
  lemma NormalizeAddsScheme(url: string)
    requires Trimmed(url) && !HasPrefix(url, "http://") && !HasPrefix(url, "https://")
    ensures NormalizeURL(url) == "https://" + url
  {
  }

  /** A URL without a scheme gets "https://". */
  lemma NormalizeAddsHttps()
    ensures NormalizeURL("example.com") == "https://" + "example.com"
  {
    var u := "example.com";
    assert !IsSpace(u[0]) && !IsSpace(u[|u| - 1]);
    assert u[..7][0] != 'h' && u[..8][0] != 'h';
    NormalizeAddsScheme(u);
  }

  /** The scheme test is case-sensitive: "HTTP://" does not count as a scheme. */
  lemma NormalizeCaseSensitive()
    ensures NormalizeURL("HTTP://example.com") == "https://" + "HTTP://example.com"
  {
    var u := "HTTP://example.com";
    assert !IsSpace(u[0]) && !IsSpace(u[|u| - 1]);
    assert u[..7][0] != 'h' && u[..8][0] != 'h';
    NormalizeAddsScheme(u);
  }

  /** A white-space-only URL, which passes the emptiness check, becomes "https://". */
  lemma NormalizeBlank()
    ensures NormalizeURL(" \t ") == "https://"
  {
    var u := " \t ";
    assert IsSpace(u[0]) && IsSpace(u[1]) && IsSpace(u[2]);
    AllSpaceTrims(u);
  }

  /** The external address of a code: scheme://domain/code. */
  function ShortURL(scheme: string, domain: string, code: string): (r: string)
    ensures |r| == |scheme| + |domain| + |code| + 4
    ensures HasPrefix(r, scheme + "://")
    ensures r[|scheme| + 3..|scheme| + 3 + |domain|] == domain
    ensures HasSuffix(r, "/" + code)
  {
    scheme + "://" + domain + "/" + code
  }

  /** The TTL that expiration_days asks for: 365 days when absent, none (0) for 0,
      that many days for 1..3650, and no valid TTL for anything else. */
  function ExpirationTTL(days: Option<int>): (ttl: Option<nat>)
    ensures ttl.Some? <==> days.None? || Config.NoExpirationValue <= days.value <= Config.MaxExpirationDays
    ensures days.None? ==> ttl == Some(Config.DefaultExpirationDays)
    ensures days.Some? && ttl.Some? ==> ttl.value == days.value
  {
    match days
    case None => Some(Config.DefaultExpirationDays)
    case Some(d) =>
      if d == Config.NoExpirationValue then Some(0)
      else if d > 0 && d <= Config.MaxExpirationDays then Some(d)
      else None
  }

  /** What the create flow settles on before it writes: a rejection, or the one key
      and value it stores. */
  datatype Decision = Reject(status: int, error: string) | Write(code: string, link: Link)

  /** The answer to POST /shorten. */
  datatype CreateResponse = Shortened(shortURL: string) | CreateFailed(status: int, error: string)

  /** The custom-handle checks of the create flow, in the source's order: auth code
      present, auth code allowed, handle length, availability, expiration. `target` is
      the normalised URL that a successful request stores. */
  function CustomHandlePlan(validCodes: seq<string>, entries: map<string, Link>, req: URLRequest,
                            existsFails: bool, target: string): (plan: Decision)
    ensures plan.Write? ==> && Authorised(validCodes, req) && HandleSized(req) && !existsFails
                            && req.customHandle !in entries && ExpirationTTL(req.expirationDays).Some?
                            && plan == Write(req.customHandle, Link(target, ExpirationTTL(req.expirationDays).value))
    ensures plan.Reject? ==> plan.status in {StatusBadRequest, StatusUnauthorized, StatusConflict, StatusInternalServerError}
  {
    if req.authCode == "" then
      Reject(StatusUnauthorized, "Authorization code required for custom handle.")
    else if req.authCode !in validCodes then
      Reject(StatusUnauthorized, "Invalid authorization code.")
    else if ByteLen(req.customHandle) < 3 || ByteLen(req.customHandle) > 30 then
      Reject(StatusBadRequest, "Custom handle must be between 3 and 30 characters.")
    else if existsFails then
      Reject(StatusInternalServerError, "Error checking custom handle availability.")
    else if req.customHandle in entries then
      Reject(StatusConflict, "Custom handle '" + req.customHandle + "' is already taken.")
    else
      match ExpirationTTL(req.expirationDays)
      case None => Reject(StatusBadRequest, "Expiration must be 0 (for no expiry) or between 1 and 3650 days.")
      case Some(ttl) => Write(req.customHandle, Link(target, ttl))
  }

  /** The create flow's decision, check by check in the source's order. `generated` is
      what the short-id generator returns (None for its error) and `existsFails` says
      whether the EXISTS call fails. */
  function CreatePlan(validCodes: seq<string>, entries: map<string, Link>, req: URLRequest,
                      generated: Option<string>, existsFails: bool): (plan: Decision)
    ensures req.longURL == "" ==> plan == Reject(StatusBadRequest, "URL is required")
    ensures plan.Write? ==> req.longURL != "" && plan.link.target == NormalizeURL(req.longURL)
    ensures plan.Write? && req.customHandle == "" ==> generated == Some(plan.code)
    ensures req.longURL != "" && req.customHandle == "" && generated.None? ==>
              plan == Reject(StatusInternalServerError, "Error generating short code")
    ensures plan.Write? && req.customHandle != "" ==> plan.code == req.customHandle && plan.code !in entries
  {
    if req.longURL == "" then
      Reject(StatusBadRequest, "URL is required")
    else if req.customHandle == "" then
      match generated
      case None => Reject(StatusInternalServerError, "Error generating short code")
      case Some(code) => Write(code, Link(NormalizeURL(req.longURL), Config.DefaultExpirationDays))
    else
      CustomHandlePlan(validCodes, entries, req, existsFails, NormalizeURL(req.longURL))
  }

  /** The store after the decision has been carried out; `setFails` says whether SET fails. */
  function Commit(entries: map<string, Link>, plan: Decision, setFails: bool): (after: map<string, Link>)
    ensures plan.Reject? || setFails ==> after == entries
    ensures plan.Write? && !setFails ==> after.Keys == entries.Keys + {plan.code} && after[plan.code] == plan.link
    ensures forall k :: k in entries && (plan.Reject? || k != plan.code) ==> k in after && after[k] == entries[k]
  {
    match plan
    case Reject(_, _) => entries
    case Write(code, link) => if setFails then entries else entries[code := link]
  }

  /** The response that goes with the decision. */
  function Respond(plan: Decision, setFails: bool, scheme: string, domain: string): (resp: CreateResponse)
    ensures resp.Shortened? <==> plan.Write? && !setFails
    ensures resp.Shortened? ==> resp.shortURL == ShortURL(scheme, domain, plan.code)
    ensures plan.Reject? ==> resp == CreateFailed(plan.status, plan.error)
    ensures plan.Write? && setFails ==> resp == CreateFailed(StatusInternalServerError, "Error storing URL")
  {
    match plan
    case Reject(status, error) => CreateFailed(status, error)
    case Write(code, _) =>
      if setFails then CreateFailed(StatusInternalServerError, "Error storing URL")
      else Shortened(ShortURL(scheme, domain, code))
  }

  /** The custom-handle block of CreateShortURL: the auth flag loop, the length check,
      EXISTS, and the expiration switch, each ending the request when it fails. */
  method CheckCustomHandle(validCodes: seq<string>, store: LinkStore, req: URLRequest,
                           existsFails: bool, normalizedURL: string)
    returns (decision: Decision)
    ensures decision == CustomHandlePlan(validCodes, store.entries, req, existsFails, normalizedURL)
  {
    if req.authCode == "" {
      return Reject(StatusUnauthorized, "Authorization code required for custom handle.");
    }
    var isValidAuthCode := AuthHandlers.ContainsCode(validCodes, req.authCode);
    if !isValidAuthCode {
      return Reject(StatusUnauthorized, "Invalid authorization code.");
    }
    var authorizedForCustom := true;

    if ByteLen(req.customHandle) < 3 || ByteLen(req.customHandle) > 30 {
      return Reject(StatusBadRequest, "Custom handle must be between 3 and 30 characters.");
    }
    var existing := store.Exists(req.customHandle, existsFails);
    if existing.None? {
      return Reject(StatusInternalServerError, "Error checking custom handle availability.");
    }
    if existing.value == 1 {
      return Reject(StatusConflict, "Custom handle '" + req.customHandle + "' is already taken.");
    }

    var ttlDays: nat := Config.DefaultExpirationDays;
    if authorizedForCustom && req.expirationDays.Some? {
      var days := req.expirationDays.value;
      if days == Config.NoExpirationValue {
        ttlDays := 0;
      } else if days > 0 && days <= Config.MaxExpirationDays {
        ttlDays := days;
      } else {
        return Reject(StatusBadRequest, "Expiration must be 0 (for no expiry) or between 1 and 3650 days.");
      }
    }
    decision := Write(req.customHandle, Link(normalizedURL, ttlDays));
  }

  /** CreateShortURL, after the body has been decoded. */
  method CreateShortURL(cfg: Config.AppConfig, store: LinkStore, req: URLRequest,
                        generated: Option<string>, existsFails: bool, setFails: bool)
    returns (resp: CreateResponse)
    modifies store
    ensures var plan := CreatePlan(cfg.validAuthCodes, old(store.entries), req, generated, existsFails);
            resp == Respond(plan, setFails, cfg.scheme, cfg.domain) &&
            store.entries == Commit(old(store.entries), plan, setFails)
  {
    ghost var plan := CreatePlan(cfg.validAuthCodes, store.entries, req, generated, existsFails);
    if req.longURL == "" {
      return CreateFailed(StatusBadRequest, "URL is required");
    }
    var normalizedURL := NormalizeURL(req.longURL);
    var codeToUse: string;
    var ttlDays: nat := Config.DefaultExpirationDays;

    if req.customHandle != "" {
      var decision := CheckCustomHandle(cfg.validAuthCodes, store, req, existsFails, normalizedURL);
      assert plan == decision;
      if decision.Reject? {
        return CreateFailed(decision.status, decision.error);
      }
      codeToUse, ttlDays := decision.code, decision.link.ttlDays;
    } else {
      if generated.None? {
        return CreateFailed(StatusInternalServerError, "Error generating short code");
      }
      codeToUse := generated.value;
    }
    assert plan == Write(codeToUse, Link(normalizedURL, ttlDays));

    var ok := store.Set(codeToUse, Link(normalizedURL, ttlDays), setFails);
    if !ok {
      return CreateFailed(StatusInternalServerError, "Error storing URL");
    }
    resp := Shortened(ShortURL(cfg.scheme, cfg.domain, codeToUse));
  }

  /** No failed create changes the store: every rejection, and a failed SET, leaves
      every key as it was. */
  lemma FailureKeepsStore(validCodes: seq<string>, entries: map<string, Link>, req: URLRequest,
                          generated: Option<string>, existsFails: bool, setFails: bool,
                          scheme: string, domain: string)
    ensures var plan := CreatePlan(validCodes, entries, req, generated, existsFails);
            Respond(plan, setFails, scheme, domain).CreateFailed? ==> Commit(entries, plan, setFails) == entries
  {
  }

  /** Whether a custom-handle request carries an allowed auth code. */
  predicate Authorised(validCodes: seq<string>, req: URLRequest) {
    req.authCode != "" && req.authCode in validCodes
  }

  /** Whether a custom handle has an acceptable length, counted in UTF-8 bytes. */
  predicate HandleSized(req: URLRequest) {
    3 <= ByteLen(req.customHandle) <= 30
  }

  /** With a custom handle, 401 comes exactly when the auth code is missing or not
      allowed, whatever the handle, the store and expiration_days are. */
  lemma CustomHandleUnauthorised(validCodes: seq<string>, entries: map<string, Link>, req: URLRequest,
                                 generated: Option<string>, existsFails: bool)
    requires req.longURL != "" && req.customHandle != ""
    ensures var plan := CreatePlan(validCodes, entries, req, generated, existsFails);
            plan.Reject? && plan.status == StatusUnauthorized <==> !Authorised(validCodes, req)
  {
    assert CreatePlan(validCodes, entries, req, generated, existsFails)
        == CustomHandlePlan(validCodes, entries, req, existsFails, NormalizeURL(req.longURL));
  }

  /** With a custom handle, 409 comes exactly when the request is authorised, the handle
      is well sized, the existence check works and finds the handle taken. */
  lemma CustomHandleConflict(validCodes: seq<string>, entries: map<string, Link>, req: URLRequest,
                             generated: Option<string>, existsFails: bool)
    requires req.longURL != "" && req.customHandle != ""
    ensures var plan := CreatePlan(validCodes, entries, req, generated, existsFails);
            plan.Reject? && plan.status == StatusConflict <==>
              Authorised(validCodes, req) && HandleSized(req) && !existsFails && req.customHandle in entries
  {
    var plan := CustomHandlePlan(validCodes, entries, req, existsFails, NormalizeURL(req.longURL));
    assert CreatePlan(validCodes, entries, req, generated, existsFails) == plan;
    if !Authorised(validCodes, req) {
      assert plan.status == StatusUnauthorized;
    } else if !HandleSized(req) {
      assert plan.status == StatusBadRequest;
    } else if existsFails {
      assert plan.status == StatusInternalServerError;
    } else if req.customHandle in entries {
      assert plan.status == StatusConflict;
    } else {
      assert plan.Write? || plan.status == StatusBadRequest;
    }
  }

  /** With a custom handle, 400 comes exactly for an authorised request whose handle has
      a bad length, or whose free handle comes with an out-of-range expiration_days. */
  lemma CustomHandleBadRequest(validCodes: seq<string>, entries: map<string, Link>, req: URLRequest,
                               generated: Option<string>, existsFails: bool)
    requires req.longURL != "" && req.customHandle != ""
    ensures var plan := CreatePlan(validCodes, entries, req, generated, existsFails);
            plan.Reject? && plan.status == StatusBadRequest <==>
              Authorised(validCodes, req) &&
              (!HandleSized(req) ||
               (!existsFails && req.customHandle !in entries && ExpirationTTL(req.expirationDays).None?))
  {
    assert CreatePlan(validCodes, entries, req, generated, existsFails)
        == CustomHandlePlan(validCodes, entries, req, existsFails, NormalizeURL(req.longURL));
  }

  /** With a custom handle, the store is written only when every check passes, and then
      under the handle itself with the normalised URL and the requested TTL. */
  lemma CustomHandleWrite(validCodes: seq<string>, entries: map<string, Link>, req: URLRequest,
                          generated: Option<string>, existsFails: bool)
    requires req.longURL != "" && req.customHandle != ""
    ensures var plan := CreatePlan(validCodes, entries, req, generated, existsFails);
            && (plan.Write? <==> Authorised(validCodes, req) && HandleSized(req) && !existsFails &&
                                 req.customHandle !in entries && ExpirationTTL(req.expirationDays).Some?)
            && (plan.Write? ==> plan.code == req.customHandle &&
                                plan.link == Link(NormalizeURL(req.longURL), ExpirationTTL(req.expirationDays).value))
  {
    assert CreatePlan(validCodes, entries, req, generated, existsFails)
        == CustomHandlePlan(validCodes, entries, req, existsFails, NormalizeURL(req.longURL));
  }

  /** Without a custom handle neither the auth code nor expiration_days is looked at:
      the generated code is stored with the default 365-day TTL. */
  lemma RandomCodeIgnoresAuthAndExpiration(validCodes: seq<string>, entries: map<string, Link>, req: URLRequest,
                                           generated: Option<string>, existsFails: bool,
                                           authCode: string, days: Option<int>)
    requires req.longURL != "" && req.customHandle == ""
    ensures CreatePlan(validCodes, entries, req, generated, existsFails)
         == CreatePlan(validCodes, entries, req.(authCode := authCode, expirationDays := days), generated, existsFails)
    ensures generated.Some? ==> CreatePlan(validCodes, entries, req, generated, existsFails)
                                == Write(generated.value, Link(NormalizeURL(req.longURL), 365))
  {
  }

  /** The generated code is written without an existence check, so it replaces a link
      already stored under the same code. */
  lemma RandomCodeOverwrites(validCodes: seq<string>, entries: map<string, Link>, req: URLRequest, code: string)
    requires req.longURL != "" && req.customHandle == "" && code in entries
    ensures var after := Commit(entries, CreatePlan(validCodes, entries, req, Some(code), false), false);
            after.Keys == entries.Keys && after[code] == Link(NormalizeURL(req.longURL), 365)
  {
  }

  /** A reply with a short address comes from a write of the normalised URL, under the
      custom handle when there is one, which was then free. */
  lemma ShortenedPlan(validCodes: seq<string>, entries: map<string, Link>, req: URLRequest,
                      generated: Option<string>, existsFails: bool, scheme: string, domain: string)
    requires Respond(CreatePlan(validCodes, entries, req, generated, existsFails), false, scheme, domain).Shortened?
    ensures var plan := CreatePlan(validCodes, entries, req, generated, existsFails);
            && plan.Write?
            && Respond(plan, false, scheme, domain).shortURL == ShortURL(scheme, domain, plan.code)
            && plan.link.target == NormalizeURL(req.longURL)
            && (req.customHandle != "" ==> plan.code == req.customHandle && req.customHandle !in entries)
  {
    if req.customHandle != "" {
      CustomHandleWrite(validCodes, entries, req, generated, existsFails);
    }
  }

  /** A successful create changes exactly one key, the code in the reply, which now
      holds the normalised URL; every other key keeps its value. */
  lemma CreateWritesOneKey(validCodes: seq<string>, entries: map<string, Link>, req: URLRequest,
                           generated: Option<string>, existsFails: bool, scheme: string, domain: string)
    requires Respond(CreatePlan(validCodes, entries, req, generated, existsFails), false, scheme, domain).Shortened?
    ensures var plan := CreatePlan(validCodes, entries, req, generated, existsFails);
            var after := Commit(entries, plan, false);
            && plan.Write?
            && Respond(plan, false, scheme, domain).shortURL == ShortURL(scheme, domain, plan.code)
            && after.Keys == entries.Keys + {plan.code}
            && after[plan.code].target == NormalizeURL(req.longURL)
            && (forall k :: k in entries && k != plan.code ==> after[k] == entries[k])
            && (req.customHandle != "" ==> plan.code == req.customHandle && req.customHandle !in entries)
  {
    var plan := CreatePlan(validCodes, entries, req, generated, existsFails);
    ShortenedPlan(validCodes, entries, req, generated, existsFails, scheme, domain);
  }

  /** Once a custom handle has been stored, the same request again is refused with 409
      and stores nothing. */
  lemma SecondCreateConflicts(validCodes: seq<string>, entries: map<string, Link>, req: URLRequest)
    requires req.customHandle != ""
    requires CreatePlan(validCodes, entries, req, None, false).Write?
    ensures var after := Commit(entries, CreatePlan(validCodes, entries, req, None, false), false);
            CreatePlan(validCodes, after, req, None, false).Reject? &&
            CreatePlan(validCodes, after, req, None, false).status == StatusConflict
  {
    var after := Commit(entries, CreatePlan(validCodes, entries, req, None, false), false);
    assert CreatePlan(validCodes, entries, req, None, false)
        == CustomHandlePlan(validCodes, entries, req, false, NormalizeURL(req.longURL));
    assert CreatePlan(validCodes, after, req, None, false)
        == CustomHandlePlan(validCodes, after, req, false, NormalizeURL(req.longURL));
  }

  /** An out-of-range expiration_days with a valid auth code is not always a 400: the
      handle is checked for availability first, so a taken handle gives 409. */
  lemma TakenHandleBeatsBadExpiration(entries: map<string, Link>)
    requires "mine" in entries
    ensures CreatePlan(["secret"], entries, URLRequest("example.com", "mine", "secret", Some(5000)), None, false)
            == Reject(StatusConflict, "Custom handle '" + "mine" + "' is already taken.")
  {
    assert ByteLen("mine") == 4;
  }

  /** The answer to GET /{code}. */
  datatype RedirectResponse = Redirect(status: int, location: string) | RedirectFailed(status: int, message: string)

  /** Paths the redirect handler refuses to treat as short codes. */
  predicate IsReservedPath(path: string) {
    || path == "/" || HasPrefix(path, "/api/") || HasPrefix(path, "/static/")
    || path == "/favicon.ico" || path == "/health" || path == "/test-route"
    || HasSuffix(path, ".ico") || HasSuffix(path, ".png") || HasSuffix(path, ".jpg")
    || HasSuffix(path, ".css") || HasSuffix(path, ".js")
  }

  /** The short code a path names: the path without one leading "/". */
  function CodeOfPath(path: string): (code: string)
    ensures HasPrefix(path, "/") ==> path == "/" + code
    ensures !HasPrefix(path, "/") ==> code == path
  {
    TrimPrefix(path, "/")
  }

  /** The reserved paths are those of the site itself: the root, the API and static
      trees, the fixed routes and the asset suffixes; an ordinary "/code" is not one. */
  lemma ReservedPathExamples()
    ensures IsReservedPath("/") && IsReservedPath("/api/" + "stats") && IsReservedPath("/static/" + "app.css")
    ensures IsReservedPath("/favicon.ico") && IsReservedPath("/health") && IsReservedPath("/test-route")
    ensures IsReservedPath("/logo" + ".png")
    ensures !IsReservedPath("/abc123")
  {
    assert HasPrefix("/api/" + "stats", "/api/");
    assert HasPrefix("/static/" + "app.css", "/static/");
    assert HasSuffix("/logo" + ".png", ".png");
    var p := "/abc123";
    assert p[..5][2] == 'b' && p[..7][1] == 'a' && p != "/health";
    assert p[|p| - 4..][0] == 'c' && p[|p| - 3..][0] == '1';
  }

  /** The redirect handler's answer for a path, given the stored links and whether GET fails. */
  function RedirectOutcome(entries: map<string, Link>, path: string, getFails: bool): (resp: RedirectResponse)
    ensures IsReservedPath(path) ==> resp == RedirectFailed(StatusNotFound, "404 page not found")
    ensures !IsReservedPath(path) && CodeOfPath(path) == "" ==> resp == Redirect(StatusFound, "/")
    ensures resp.status == StatusMovedPermanently <==>
              !IsReservedPath(path) && CodeOfPath(path) != "" && !getFails && CodeOfPath(path) in entries
    ensures resp.status == StatusMovedPermanently ==>
              resp == Redirect(StatusMovedPermanently, entries[CodeOfPath(path)].target)
    ensures !IsReservedPath(path) && CodeOfPath(path) != "" && getFails ==>
              resp == RedirectFailed(StatusInternalServerError, "Error retrieving URL")
    ensures !IsReservedPath(path) && CodeOfPath(path) != "" && !getFails && CodeOfPath(path) !in entries ==>
              resp == RedirectFailed(StatusNotFound, "Short URL not found")
  {
    if IsReservedPath(path) then RedirectFailed(StatusNotFound, "404 page not found")
    else if CodeOfPath(path) == "" then Redirect(StatusFound, "/")
    else if getFails then RedirectFailed(StatusInternalServerError, "Error retrieving URL")
    else if CodeOfPath(path) !in entries then RedirectFailed(StatusNotFound, "Short URL not found")
    else Redirect(StatusMovedPermanently, entries[CodeOfPath(path)].target)
  }

  /** The click row a successful redirect appends. */
  function ClickFor(code: string, userAgent: string, referrer: string, now: nat): ClickRow {
    ClickRow(code, now, Some(userAgent), Some(referrer))
  }

  /** RedirectToLongURL. It never writes to the store; it appends one click row exactly
      when it answers 301 and the insert succeeds, and a failed insert does not change
      the answer. */
  method RedirectToLongURL(store: LinkStore, log: ClickLog, path: string, userAgent: string, referrer: string,
                           now: nat, getFails: bool, insertFails: bool)
    returns (resp: RedirectResponse)
    modifies log
    ensures resp == RedirectOutcome(store.entries, path, getFails)
    ensures resp.status == StatusMovedPermanently && !insertFails ==>
              log.rows == old(log.rows) + [ClickFor(CodeOfPath(path), userAgent, referrer, now)]
    ensures resp.status != StatusMovedPermanently || insertFails ==> log.rows == old(log.rows)
  {
    if path == "/" || HasPrefix(path, "/api/") || HasPrefix(path, "/static/")
       || path == "/favicon.ico" || path == "/health" || path == "/test-route"
       || HasSuffix(path, ".ico") || HasSuffix(path, ".png") || HasSuffix(path, ".jpg")
       || HasSuffix(path, ".css") || HasSuffix(path, ".js")
    {
      return RedirectFailed(StatusNotFound, "404 page not found");
    }

    var code := TrimPrefix(path, "/");
    if code == "" {
      return Redirect(StatusFound, "/");
    }

    var reply := store.Get(code, getFails);
    if reply.Nil? {
      return RedirectFailed(StatusNotFound, "Short URL not found");
    } else if reply.GetError? {
      return RedirectFailed(StatusInternalServerError, "Error retrieving URL");
    }
    var longURL := reply.target;

    var _ := log.Insert(code, userAgent, referrer, now, insertFails);
    resp := Redirect(StatusMovedPermanently, longURL);
  }

  /** Reserved paths give 404 whatever the store holds; any other "/"-path names the
      code after the slash, which redirects to its stored target when present and gives
      404 when absent. */
  lemma RedirectByPath(entries: map<string, Link>, path: string)
    ensures IsReservedPath(path) ==> RedirectOutcome(entries, path, false).status == StatusNotFound
    ensures !IsReservedPath(path) && |path| > 1 && path[0] == '/' ==>
              var code := path[1..];
              && CodeOfPath(path) == code
              && (code in entries ==> RedirectOutcome(entries, path, false) == Redirect(StatusMovedPermanently, entries[code].target))
              && (code !in entries ==> RedirectOutcome(entries, path, false).status == StatusNotFound)
  {
    if !IsReservedPath(path) && |path| > 1 && path[0] == '/' {
      assert HasPrefix(path, "/");
    }
  }

  /** Shorten, then follow the short link: a URL without a scheme comes back with
      "https://" in front, as a permanent redirect. */
  lemma ShortenThenRedirect(validCodes: seq<string>, entries: map<string, Link>, longURL: string, code: string)
    requires longURL != "" && code != "" && !IsReservedPath("/" + code)
    ensures var plan := CreatePlan(validCodes, entries, URLRequest(longURL, "", "", None), Some(code), false);
            RedirectOutcome(Commit(entries, plan, false), "/" + code, false)
              == Redirect(StatusMovedPermanently, NormalizeURL(longURL))
  {
    assert HasPrefix("/" + code, "/") && ("/" + code)[1..] == code;
  }

  /** The example round trip: "example.com" is shortened and redirects to https://example.com. */
  lemma ExampleRoundTrip(entries: map<string, Link>, code: string)
    requires code != "" && !IsReservedPath("/" + code)
    ensures var plan := CreatePlan([], entries, URLRequest("example.com", "", "", None), Some(code), false);
            RedirectOutcome(Commit(entries, plan, false), "/" + code, false)
              == Redirect(StatusMovedPermanently, "https://" + "example.com")
  {
    ShortenThenRedirect([], entries, "example.com", code);
    NormalizeAddsHttps();
  }
}
