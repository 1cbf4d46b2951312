# riid.me short-link service: a Dafny model

riid.me turns long URLs into short codes. `POST /shorten` normalises the URL. It may
accept a caller-chosen handle, guarded by an allow-list of auth codes, and it may set an
expiration. It then writes one key into Redis. `GET /{code}` looks the code up, records
a click row in SQLite and answers with a permanent redirect. `GET /api/stats/{code}`
lists the clicks of a code, newest first. `POST /validate-auth` says whether an auth
code is on the allow-list. These routes are the ones `main.go` registers.
`GenerateQRCodeHandler` (`pkg/handlers/qr.go`) renders the short address of the
`shortcode` route variable as a QR code, with query options for size and colours.

The model covers the package handlers (`pkg/handlers`), the configuration rules
(`pkg/config`) and the older single-file server `main.go`, which repeats the same
handlers.

- The Redis key space is the class `Storage.LinkStore`, with a field
  `entries: map<string, Link>`. A link is its target and its TTL in days, where 0 means
  the key never expires.
- The `clicks` table is the class `Storage.ClickLog`, with a field `rows: seq<ClickRow>`
  that only ever grows.
- Every client call that can fail takes a flag saying whether it fails. The short-id
  generator is a parameter `generated: Option<string>`, with `None` for its error.
  The wall clock is a parameter `now`.
- Each handler is a method that changes these objects. Its contract ties the answer and
  the new state to a specification function: `UrlHandlers.CreatePlan` (which hands
  requests with a custom handle to `CustomHandlePlan`) with `Respond`
  and `Commit`, `UrlHandlers.RedirectOutcome`, `AuthHandlers.AuthAnswer` and
  `StatsHandlers.StatsQuery` with `Scanned`. The lemmas are stated about those functions.
- The `main.go` handlers (module `Legacy`) have their own bodies, except that
  `Legacy.CreateShortURL` hands its custom-handle block to `UrlHandlers.CheckCustomHandle`,
  because `main.go` repeats that block statement for statement. They are proved
  against the same functions, which shows that the two copies agree. Where the copies
  differ, lemmas show it.

Modules: `Wrappers` (Option), `Strings` (the Go `strings` functions used, plus UTF-8
byte length), `Strconv` (`strconv.Atoi` and two-digit hexadecimal `ParseUint`),
`Models` (status codes and the request/response records), `Storage`, `Config`,
`AuthHandlers`, `UrlHandlers`, `StatsHandlers`, `QrHandlers` and `Legacy`.

The model follows the code, including where the code does not do what a reader of the
service's intended behaviour would expect:

- One might expect an out-of-range `expiration_days` with a valid auth code to be
  always a 400. In the code, the handle is checked for availability first, so a taken
  handle gives 409 instead (`UrlHandlers.TakenHandleBeatsBadExpiration`). On the
  random-code path `expiration_days` is not looked at at all.
- One might expect handle reservation to be atomic. The code checks with
  EXISTS and then writes with SET, in two separate steps. A generated code is written
  without any check, so it replaces an existing key (`UrlHandlers.RandomCodeOverwrites`).
  The model claims no atomicity.
- A code with no clicks is meant to answer with an empty click list. Both stats handlers
  (pkg/handlers/stats.go:30, main.go:425) start from a nil slice and append to it, so
  when no row scans the list stays nil, which Go's JSON encoder writes as `null`, not
  `[]`. The model's list is the empty sequence (`StatsHandlers.NeverClicked`), and JSON
  encoding is outside it.
- `main.go` reads `SQLITE_DB_PATH` with `os.Getenv`, so a variable that is set but empty
  falls back to the default. The package's `getEnv` keeps the empty value
  (`Legacy.SqlitePathAgreement`).

## Model

| member | source | states |
|---|---|---|
| Config.GetEnv | pkg/config/config.go:40-45 | the variable's value whenever it is set, even when empty; the fallback only when it is unset; main.go:167-172 is the same rule and uses this function |
| Config.AuthCodeList | pkg/config/config.go:70-75 | "" gives an empty allow-list; otherwise the pieces between commas, as many as commas plus one, none containing a comma, which join back to the value |
| Config.AuthCodesKeepEmptyPieces | pkg/config/config.go:72 | empty pieces are kept: "a,,b" gives ["a", "", "b"] |
| Config.AuthCodeListJoin | pkg/config/config.go:72 | splitting a comma-joined list of comma-free codes gives the list back, in order |
| Config.RedisDBNumber | pkg/config/config.go:59-66 | REDIS_DB's integer value when it parses, 0 when it does not |
| Config.AppConfig.LoadEnv | pkg/config/config.go:49-79 | every field is set from its variable or its default: PORT "3000", APP_DOMAIN "localhost:3000", APP_SCHEME "http", REDIS_ADDR "localhost:6379", REDIS_PASSWORD "", REDIS_DB parsed or 0, SQLITE_DB_PATH "./riidme_stats.db", VALID_AUTH_CODES split |
| Config.AppConfig.constructor | pkg/config/config.go:27 | the zero value of every field before LoadEnv |
| Config.DefaultConfig | pkg/config/config.go:54-68 | with nothing set, the configuration holds the documented defaults and an empty allow-list |
| Strings.TrimSpace | pkg/handlers/url.go:39 | only Unicode white space at the two ends is removed: the input is the result with white space alone in front and behind, the result has none at either end, and an input that is already trimmed comes back unchanged |
| Strings.AllSpaceTrims | pkg/handlers/url.go:39 | a string of white space only trims to the empty string |
| Strings.TrimPrefix | pkg/handlers/url.go:192 | removes the prefix once when it is there, and otherwise returns the input |
| Strings.ByteLen | pkg/handlers/url.go:98 | the UTF-8 length lies between the number of characters and four times that number, and equals it for ASCII |
| Strings.Split | pkg/config/config.go:72 | as many pieces as separators plus one, none containing the separator |
| Strings.JoinSplit | pkg/config/config.go:72 | joining the pieces of a split gives the original string |
| Strings.SplitJoin | pkg/config/config.go:72 | splitting a join of separator-free pieces gives the pieces |
| Strconv.Atoi | pkg/handlers/qr.go:72 | succeeds exactly for an optional sign followed by one or more decimal digits whose signed value fits in 64 bits, and gives that signed decimal value |
| Strconv.AtoiItoa | pkg/config/config.go:60 | every 64-bit integer printed in decimal parses back to itself |
| Strconv.ParseHexUint8 | pkg/handlers/qr.go:25 | succeeds exactly for a non-empty string of hexadecimal digits whose value is below 256, and gives that value |
| Strconv.HexPairValue | pkg/handlers/qr.go:25-36 | two hexadecimal digits of either case parse to 16 times the first plus the second |
| Strconv.ParseHexByte | pkg/handlers/qr.go:25-37 | a byte printed as two upper-case hexadecimal digits parses back to itself |
| AuthHandlers.ContainsCode | pkg/handlers/auth.go:32-38 | the flag loop finds the code exactly when it is an element of the allow-list |
| AuthHandlers.AuthAnswer | pkg/handlers/auth.go:25-46 | an empty code is 400 and invalid; any other code is 200, valid exactly when it is in the list, with "Invalid authorization code" when it is not; an empty list makes every code invalid |
| AuthHandlers.ValidateAuthCode | pkg/handlers/auth.go:25-46 | the handler's answer is AuthAnswer for the configured list |
| AuthHandlers.ExactMatchOnly | pkg/handlers/auth.go:34 | matching is exact: " secret" and "SECRET" are refused when only "secret" is allowed |
| UrlHandlers.NormalizeURL | pkg/handlers/url.go:38-44 | the result starts with "http://" or "https://", is trimmed, and is either the trimmed input or "https://" followed by it; main.go:174-180 is the same rule and uses this function |
| UrlHandlers.NormalizeKeepsScheme | pkg/handlers/url.go:40-43 | a trimmed URL that already has a scheme comes back unchanged |
| UrlHandlers.NormalizeIdempotent | pkg/handlers/url.go:38-44 | normalising twice gives the same result as normalising once |
| UrlHandlers.NormalizeAddsScheme | pkg/handlers/url.go:40-41 | a trimmed URL without "http://" or "https://" gets "https://" in front and nothing else |
| UrlHandlers.NormalizeAddsHttps | pkg/handlers/url.go:40-41 | "example.com" becomes "https://example.com" |
| UrlHandlers.NormalizeCaseSensitive | pkg/handlers/url.go:40 | the scheme test is case-sensitive: "HTTP://example.com" gets a second scheme in front |
| UrlHandlers.NormalizeBlank | pkg/handlers/url.go:58-66 | white space alone passes the emptiness check and normalises to "https://" |
| UrlHandlers.ShortURL | pkg/handlers/url.go:163 | the short address starts with the scheme and "://", holds the domain right after them, and ends with "/" and the code |
| UrlHandlers.ExpirationTTL | pkg/handlers/url.go:125-139 | absent gives 365 days, 0 gives no expiry, 1..3650 gives that many days, and anything else gives no valid TTL |
| UrlHandlers.CustomHandlePlan | pkg/handlers/url.go:73-140 | a write happens only for an authorised request with a 3..30-byte handle that EXISTS found free and a valid expiration, under the handle with the target and that TTL; every rejection is a 400, 401, 409 or 500 |
| UrlHandlers.CreatePlan | pkg/handlers/url.go:58-151 | an empty URL is a 400 "URL is required"; a write stores the normalised URL, under the generated code when there is no custom handle and under the custom handle, then free, when there is one; a failing generator (no custom handle) is a 500 "Error generating short code" |
| UrlHandlers.Commit | pkg/handlers/url.go:153-154 | a rejection or a failed SET leaves the store as it was; a successful write adds or replaces exactly its key with its link, and every other key keeps its value |
| UrlHandlers.Respond | pkg/handlers/url.go:155-169 | the reply is a short address exactly when the write went through, and then it is ShortURL of the code; a rejection is answered with its own status and message, a failed SET with 500 "Error storing URL" |
| UrlHandlers.CheckCustomHandle | pkg/handlers/url.go:73-139 | the custom-handle checks decide what CustomHandlePlan decides: 401 without an auth code, 401 for one not allowed, 400 for a handle outside 3..30 bytes, 500 when EXISTS fails, 409 for a taken handle, 400 for a bad expiration, and otherwise a write under the handle |
| UrlHandlers.CreateShortURL | pkg/handlers/url.go:48-170 | the answer and the new store are those of CreatePlan, Respond and Commit |
| UrlHandlers.FailureKeepsStore | pkg/handlers/url.go:48-161 | every failed create, a rejection or a failed SET, leaves the store unchanged |
| UrlHandlers.CustomHandleUnauthorised | pkg/handlers/url.go:73-95 | with a custom handle, 401 comes exactly when the auth code is missing or not allowed |
| UrlHandlers.CustomHandleConflict | pkg/handlers/url.go:98-121 | with a custom handle, 409 comes exactly when the request is authorised, the handle is 3..30 bytes long, EXISTS works and the handle is taken |
| UrlHandlers.CustomHandleBadRequest | pkg/handlers/url.go:98-139 | with a custom handle, 400 comes exactly for an authorised request with a badly sized handle, or with a free handle and an out-of-range expiration |
| UrlHandlers.CustomHandleWrite | pkg/handlers/url.go:73-161 | with a custom handle, the store is written exactly when every check passes, under the handle, with the normalised URL and the requested TTL |
| UrlHandlers.RandomCodeIgnoresAuthAndExpiration | pkg/handlers/url.go:142-151 | without a custom handle the auth code and expiration_days change nothing, and the generated code is stored with the 365-day TTL |
| UrlHandlers.RandomCodeOverwrites | pkg/handlers/url.go:142-161 | a generated code that is already a key is overwritten: the key set stays the same and the key now holds the new URL |
| UrlHandlers.ShortenedPlan | pkg/handlers/url.go:142-169 | a reply with a short address comes from a write of the normalised URL under the code in the reply; a custom handle is that code and was free |
| UrlHandlers.CreateWritesOneKey | pkg/handlers/url.go:153-169 | a successful create adds or replaces exactly the code in the reply, stores the normalised URL there, keeps every other key, and a custom handle was free before |
| UrlHandlers.SecondCreateConflicts | pkg/handlers/url.go:107-121 | once a custom handle is stored, the same request again gives 409 |
| UrlHandlers.TakenHandleBeatsBadExpiration | pkg/handlers/url.go:115-139 | a taken handle with expiration_days 5000 gives 409, not 400, because availability is checked first |
| UrlHandlers.ReservedPathExamples | pkg/handlers/url.go:177-186 | "/", the API and static trees, the fixed routes and asset suffixes such as ".png" are reserved, while "/abc123" is not |
| UrlHandlers.CodeOfPath | pkg/handlers/url.go:192 | the code is the path after its leading "/", or the path itself when there is none |
| UrlHandlers.RedirectOutcome | pkg/handlers/url.go:176-207 | a reserved path is 404 whatever the store does; an empty code is a 302 to "/"; otherwise a GET error is 500, a missing code 404, and the answer is 301 to the stored target exactly when the path is not reserved, the code is non-empty, GET works and the code is stored |
| UrlHandlers.RedirectToLongURL | pkg/handlers/url.go:174-223 | the answer is RedirectOutcome; one click row is appended exactly when the answer is 301 and the insert works, and otherwise the log is unchanged; the store is never written |
| UrlHandlers.RedirectByPath | pkg/handlers/url.go:176-207 | reserved paths give 404; any other path "/code" redirects to the code's target when it is stored and gives 404 when it is not |
| UrlHandlers.ShortenThenRedirect | pkg/handlers/url.go:142-222 | following a freshly shortened code redirects with 301 to the normalised URL |
| UrlHandlers.ExampleRoundTrip | pkg/handlers/url.go:38-222 | shortening "example.com" and following the code leads to "https://example.com" |
| StatsHandlers.ClicksFor | pkg/handlers/stats.go:21 | every selected row has the requested code, and every row with that code is selected as often as it occurs in the log |
| StatsHandlers.InsertByTime | pkg/handlers/stats.go:21 | inserting gives one row more, and the rows are the old ones plus exactly the inserted row |
| StatsHandlers.InsertKeepsOrder | pkg/handlers/stats.go:21 | inserting into a newest-first list keeps it newest first |
| StatsHandlers.OrderNewestFirst | pkg/handlers/stats.go:21 | the ordered rows are newest first and a permutation of the input |
| StatsHandlers.Scanned | pkg/handlers/stats.go:31-39 | skipping rows that fail to scan never gives more details than rows |
| StatsHandlers.Kept | pkg/handlers/stats.go:31-39 | the positions that scan, in increasing order: each is below the row count and not a failure, and every such position is listed |
| StatsHandlers.KeptCount | pkg/handlers/stats.go:31-39 | the positions that scan and those that fail add up to all the rows |
| StatsHandlers.ScannedKept | pkg/handlers/stats.go:31-39 | failed rows are skipped and the rest kept in order: the k-th detail is the row at the k-th position that scans, and there are as many details as rows minus failures |
| StatsHandlers.CollectClicks | pkg/handlers/stats.go:30-39 | the loop collects exactly the details of the rows that scan, in query order |
| StatsHandlers.GetLinkStats | pkg/handlers/stats.go:15-56 | a query or iteration error is a 500 with its message; otherwise the body echoes the code, lists the scanned details of the query, and total_clicks is their number; the log is not changed |
| StatsHandlers.ScannedBounded | pkg/handlers/stats.go:31-39 | a lower bound on the rows' timestamps holds for every scanned detail |
| StatsHandlers.ScannedNewestFirst | pkg/handlers/stats.go:21-39 | skipping rows keeps the details newest first |
| StatsHandlers.ScannedAll | pkg/handlers/stats.go:31-39 | when no row fails to scan, the details are the rows, one for one |
| StatsHandlers.StatsAnswer | pkg/handlers/stats.go:21-52 | the clicks are newest first, and when every row scans they are exactly the log's rows of the requested code, with the same multiplicities |
| StatsHandlers.StatsQuery | pkg/handlers/stats.go:21 | the query's rows are newest first, all have the requested code, and each row of that code occurs as often as in the log |
| StatsHandlers.NeverClicked | pkg/handlers/stats.go:30-52 | a code with no click rows gives an empty list, so a success with 0 clicks |
| QrHandlers.HexToNRGBA | pkg/handlers/qr.go:20-38 | succeeds exactly when, after removing one leading "#", six hexadecimal digits remain; each pair is one component below 256, and alpha is 255 |
| QrHandlers.ColorHex | pkg/handlers/qr.go:20-37 | a colour printed as "#" and three pairs is seven characters long and starts with "#" |
| QrHandlers.HexRoundTrip | pkg/handlers/qr.go:20-37 | printing a colour and parsing it back gives the colour with alpha 255 |
| QrHandlers.OneHashOnly | pkg/handlers/qr.go:21-24 | only one "#" is removed: "##12345" is refused |
| QrHandlers.DefaultForeground | pkg/handlers/qr.go:85-93 | the default "#000000" parses to the fallback, opaque black |
| QrHandlers.DefaultBackground | pkg/handlers/qr.go:95-103 | the default "#FFFFFF" parses to the fallback, opaque white |
| QrHandlers.PixelSize | pkg/handlers/qr.go:70-75 | the size is positive: the parsed value when size is a positive integer, and 256 otherwise |
| QrHandlers.ModuleWidth | pkg/handlers/qr.go:77-83 | the module width is in [1, 20], and equals size / 35 clamped to [1, 20] while size / 35 is below 256 |
| QrHandlers.ModuleWidthExamples | pkg/handlers/qr.go:77-83 | size 256 gives 7, size 700 gives 20, and size 8960 wraps to 0 and gives 1 |
| QrHandlers.ColorParam | pkg/handlers/qr.go:85-103 | an absent parameter uses the default colour text; a parameter that parses gives its colour; one that does not gives the fallback; with an opaque fallback the result is always an opaque colour |
| QrHandlers.ReadColor | pkg/handlers/qr.go:85-103 | the handler's colour block, written once for fg and once for bg, gives exactly ColorParam of the parameter, its default text and its fallback |
| QrHandlers.PrepareQRCode | pkg/handlers/qr.go:55-103 | an empty code is 400; otherwise the content is scheme://domain/code, the module width is ModuleWidth of the requested size, and fg and bg are the parsed colours, or their defaults, or opaque black and white |
| Legacy.ConstantsAgree | main.go:78-82 | the server's constants are 365, 3650 and 0, the package's values |
| Legacy.SqlitePath | main.go:131-135 | the path is SQLITE_DB_PATH when it is set and non-empty, and "./riidme_stats.db" otherwise |
| Legacy.SqlitePathAgreement | main.go:131-135 | the server's path equals the package's exactly when SQLITE_DB_PATH is not set to "" |
| Legacy.Globals.Init | main.go:93-105 | the server's configuration uses the package's defaults and allow-list rule; REDIS_DB is not read |
| Legacy.Globals.constructor | main.go:62-76 | the zero values of the globals before init() |
| Legacy.CreateShortURL | main.go:182-314 | the server's create handler gives the same answer and the same store as CreatePlan, Respond and Commit, like the package handler; its custom-handle block (main.go:209-282) is the package's, statement for statement |
| Legacy.RedirectOutcome | main.go:316-350 | 301 to the stored target exactly when the lookup works and finds the code; 500 on a lookup error; 404 for an unknown code |
| Legacy.RedirectToLongURL | main.go:316-350 | the answer is the server's RedirectOutcome; one click row exactly when the answer is 301 and the insert works; the store is never written |
| Legacy.RedirectAgrees | main.go:316-350 | for a non-empty code whose path is not reserved, both redirect handlers give the same answer |
| Legacy.ReservedSuffixDiffers | main.go:316-323 | a link stored under "logo.png" is followed by the server but refused with 404 by the package handler |
| Legacy.ValidateAuthCode | main.go:376-409 | the server's answer is AuthAnswer for the global list |
| Legacy.AsText | main.go:430-438 | a NULL text column becomes "", and a value is kept |
| Legacy.NullReadsAsEmpty | main.go:430-438 | a NULL user agent and an empty one give the same click detail |
| Legacy.CollectClicks | main.go:425-440 | the loop collects the scanned details of the query, each flattened to plain strings |
| Legacy.GetLinkStats | main.go:411-456 | the same failures as the package handler; on success the clicks are the package's details with NULL read as "", and total_clicks is their number |
| Legacy.TextStatsAnswer | main.go:411-456 | the server's clicks are newest first, and rows written by the redirect handler keep their strings |
| Legacy.CreateTestCases | main_test.go:28-63 | "https://example.com" is shortened to an address holding the domain; an empty or missing long_url is a 400 that stores nothing |
| Legacy.RedirectTestCases | main_test.go:70-110 | a stored code answers 301 with its target, whatever its TTL, and an unknown code answers 404 |
| Storage.LinkStore.Exists | pkg/handlers/url.go:107-121 | 1 when the key is present, 0 when it is not, an error when the call fails |
| Storage.LinkStore.Get | pkg/handlers/url.go:199-208 | the target for a present key, Nil for a missing one, an error when the call fails |
| Storage.LinkStore.Set | pkg/handlers/url.go:154 | a successful SET maps the code to the link, replacing what was there; a failed one changes nothing |
| Storage.ClickLog.Insert | pkg/handlers/url.go:213-220 | a successful insert appends one row with the code, the current time and both strings; a failed one changes nothing |

## Left out

- HTTP plumbing is not modelled: request routing, JSON decoding and encoding, headers and
  static files. A body that fails to decode gets a 400 before any modelled step. A
  missing `long_url` decodes to "", so it is modelled as an empty URL.
- Redis and SQLite are not modelled: connecting, pinging and creating the table. The
  health check is left out too. These are I/O with no logic beyond logging.
- A failed SET is assumed to write nothing. Redis gives no such promise for a
  transport error.
- Expiry is not enforced. The TTL is recorded as data and the store applies it. The
  timestamp column's CURRENT_TIMESTAMP is the parameter `now`.
- The short-id generator's alphabet and seed are outside the model. It is a parameter
  that gives a code or an error.
- The EXISTS-then-SET race between concurrent requests is not modelled. Calls are
  taken one at a time.
- QR image rendering through the go-qrcode library is left out, together with the
  unused `level` parameter. The model stops at the settings handed to the library.
- Logging is left out.
- Reading the `.env` file and the process environment is left out. The environment is
  a map of variable names to values, after the file has been merged in.
- `main.go`'s `main()` is left out: it builds the router and reads PORT with
  `os.Getenv` again.
- The router that mounts the package handlers is not part of this model, so their
  paths are not known. The paths named here are those that `main.go` registers for its
  own copies. No file registers a path for `GenerateQRCodeHandler`; the model starts
  from its `shortcode` variable and its query.
- StatsHandlers.OrderNewestFirst: rows with equal timestamps keep their log order. SQL
  leaves the order of ties unspecified, so the model promises one particular order.
- StatsHandlers.GetLinkStats: the timestamp is a natural number, not the text that
  SQLite returns for a DATETIME column (`ClickDetail.Timestamp` is a `string` in
  `pkg/models/models.go` and is scanned as text in `pkg/handlers/stats.go`). The same
  goes for `ClickRow.timestamp`, the model's `ClickDetail.timestamp` and
  Legacy.GetLinkStats. Ordering by a number stands for SQLite's ordering of
  CURRENT_TIMESTAMP text, which sorts in time order.
- Legacy.GetLinkStats: the same timestamp-as-number choice as StatsHandlers.GetLinkStats.
- Byte lengths of request strings assume valid UTF-8, which JSON decoding ensures.
  Query parameters that are not valid UTF-8 are not modelled.
