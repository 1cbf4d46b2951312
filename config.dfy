/** Application configuration (pkg/config/config.go): the expiration constants and the
    rules that turn the process environment into an AppConfig. */
module Config {
  import opened Wrappers
  import opened Strings
  import opened Strconv

  /** Lifetime of a link created without an explicit expiration, in days. */
  const DefaultExpirationDays: int := 365
  /** Largest expiration a caller may ask for, in days (ten years). */
  const MaxExpirationDays: int := 365 * 10
  /** The expiration_days value that asks for a link that never expires. */
  const NoExpirationValue: int := 0

  /** The process environment, after the `.env` file has been merged into it. */
  type Env = map<string, string>

  /** getEnv: the variable's value whenever it is set, even to "", else the fallback. */
  function GetEnv(env: Env, key: string, fallback: string): (v: string)
    ensures key in env ==> v == env[key]
    ensures key !in env ==> v == fallback
  {
    if key in env then env[key] else fallback
  }

  /** The allow-list read from VALID_AUTH_CODES: empty for "", otherwise the pieces
      between commas, in order, empty pieces included. */
  function AuthCodeList(value: string): (codes: seq<string>)
    ensures value == "" ==> codes == []
    ensures value != "" ==> |codes| == multiset(value)[','] + 1 && Join(codes, ',') == value
    ensures forall i :: 0 <= i < |codes| ==> ',' !in codes[i]
  {
    if value == "" then [] else JoinSplit(value, ','); Split(value, ',')
  }

  /** The Redis database number read from REDIS_DB: its integer value, or 0 when it
      does not parse. */
  function RedisDBNumber(value: string): (n: int)
    ensures Atoi(value).Some? ==> n == Atoi(value).value
    ensures Atoi(value).None? ==> n == 0
  {
    Atoi(value).GetOr(0)
  }

  class AppConfig {
    var port: string
    var domain: string
    var scheme: string
    var redisURL: string
    var redisPW: string
    var redisDB: int
    var sqliteDBPath: string
    var validAuthCodes: seq<string>

    /** The zero value the global holds before LoadEnv runs. */
    constructor ()
      ensures port == "" && domain == "" && scheme == "" && redisURL == "" && redisPW == ""
      ensures redisDB == 0 && sqliteDBPath == "" && validAuthCodes == []
    {
      port, domain, scheme, redisURL, redisPW := "", "", "", "", "";
      redisDB, sqliteDBPath, validAuthCodes := 0, "", [];
    }

    /** LoadEnv: assigns every field from the environment, one by one. */
    method LoadEnv(env: Env)
      modifies this
      ensures port == GetEnv(env, "PORT", "3000")
      ensures domain == GetEnv(env, "APP_DOMAIN", "localhost:3000")
      ensures scheme == GetEnv(env, "APP_SCHEME", "http")
      ensures redisURL == GetEnv(env, "REDIS_ADDR", "localhost:6379")
      ensures redisPW == GetEnv(env, "REDIS_PASSWORD", "")
      ensures redisDB == RedisDBNumber(GetEnv(env, "REDIS_DB", "0"))
      ensures sqliteDBPath == GetEnv(env, "SQLITE_DB_PATH", "./riidme_stats.db")
      ensures validAuthCodes == AuthCodeList(GetEnv(env, "VALID_AUTH_CODES", ""))
    {
      port := GetEnv(env, "PORT", "3000");
      domain := GetEnv(env, "APP_DOMAIN", "localhost:3000");
      scheme := GetEnv(env, "APP_SCHEME", "http");
      redisURL := GetEnv(env, "REDIS_ADDR", "localhost:6379");
      redisPW := GetEnv(env, "REDIS_PASSWORD", "");
      var redisDBStr := GetEnv(env, "REDIS_DB", "0");
      var parsed := Atoi(redisDBStr);
      if parsed.None? {
        redisDB := 0;
      } else {
        redisDB := parsed.value;
      }
      sqliteDBPath := GetEnv(env, "SQLITE_DB_PATH", "./riidme_stats.db");
      var authCodesEnv := GetEnv(env, "VALID_AUTH_CODES", "");
      if authCodesEnv != "" {
        validAuthCodes := Split(authCodesEnv, ',');
      } else {
        validAuthCodes := [];
      }
    }
  }

  /** With nothing set in the environment, LoadEnv yields the documented defaults and
      an empty allow-list. */
  method DefaultConfig() returns (cfg: AppConfig)
    ensures cfg.port == "3000" && cfg.domain == "localhost:3000" && cfg.scheme == "http"
    ensures cfg.redisURL == "localhost:6379" && cfg.redisPW == "" && cfg.redisDB == 0
    ensures cfg.sqliteDBPath == "./riidme_stats.db" && cfg.validAuthCodes == []
  {
    cfg := new AppConfig();
    cfg.LoadEnv(map[]);
    assert Unsigned("0") == "0" && DecimalValue("0") == 0;
  }

  /** Commas split the allow-list exactly: "a,,b" gives three codes, the middle one empty. */
  lemma AuthCodesKeepEmptyPieces()
    ensures AuthCodeList("a,,b") == ["a", "", "b"]
  {
    var codes := ["a", "", "b"];
    assert codes[1..] == ["", "b"] && codes[1..][1..] == ["b"];
    assert Join(codes, ',') == "a" + [','] + ("" + [','] + "b");
    assert "a" + [','] + ("" + [','] + "b") == "a,,b";
    AuthCodeListJoin(codes);
  }

  /** The allow-list read back: splitting the joined codes gives the same list. */
  lemma AuthCodeListJoin(codes: seq<string>)
    requires |codes| > 0 && Join(codes, ',') != ""
    requires forall i :: 0 <= i < |codes| ==> ',' !in codes[i]
    ensures AuthCodeList(Join(codes, ',')) == codes
  {
    SplitJoin(codes, ',');
  }
}
