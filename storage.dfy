/** The two stores the handlers share: the Redis key space (short code to target URL,
    with a time to live) and the SQLite `clicks` table. Each client call that can
    fail takes a flag that says whether it does. */
module Storage {
  import opened Wrappers

  /** A stored target with the TTL it was written with, in whole days; 0 means the
      key never expires. Expiry itself is the store's business and is not modelled. */
  datatype Link = Link(target: string, ttlDays: nat)

  /** One row of the `clicks` table. The timestamp is the database's CURRENT_TIMESTAMP
      at insertion; a NULL text column is None. */
  datatype ClickRow = ClickRow(shortCode: string, timestamp: nat, userAgent: Option<string>, referrer: Option<string>)

  /** The answer to GET: the value, redis.Nil for a missing key, or a transport error. */
  datatype GetReply = Value(target: string) | Nil | GetError

  /** The Redis key space. */
  class LinkStore {
    var entries: map<string, Link>

    constructor ()
      ensures entries == map[]
    {
      entries := map[];
    }

    /** EXISTS key: 1 when the key is present, 0 when not, None on a transport error. */
    method Exists(code: string, fails: bool) returns (count: Option<nat>)
      ensures fails ==> count == None
      ensures !fails ==> count == Some(if code in entries then 1 else 0)
    {
      if fails {
        count := None;
      } else if code in entries {
        count := Some(1);
      } else {
        count := Some(0);
      }
    }

    /** GET key. */
    method Get(code: string, fails: bool) returns (reply: GetReply)
      ensures fails ==> reply == GetError
      ensures !fails && code in entries ==> reply == Value(entries[code].target)
      ensures !fails && code !in entries ==> reply == Nil
    {
      if fails {
        reply := GetError;
      } else if code in entries {
        reply := Value(entries[code].target);
      } else {
        reply := Nil;
      }
    }

    /** SET key value EX ttl: replaces whatever the key held; nothing changes when
        the call fails. */
    method Set(code: string, link: Link, fails: bool) returns (ok: bool)
      modifies this
      ensures ok == !fails
      ensures entries == if ok then old(entries)[code := link] else old(entries)
    {
      ok := !fails;
      if ok {
        entries := entries[code := link];
      }
    }
  }

  /** The append-only `clicks` table, oldest row first. */
  class ClickLog {
    var rows: seq<ClickRow>

    constructor ()
      ensures rows == []
    {
      rows := [];
    }

    /** INSERT INTO clicks (short_code, user_agent, referrer): the two text columns get
        the strings given (never NULL) and the timestamp column its default, `now`. */
    method Insert(code: string, userAgent: string, referrer: string, now: nat, fails: bool) returns (ok: bool)
      modifies this
      ensures ok == !fails
      ensures rows == if ok then old(rows) + [ClickRow(code, now, Some(userAgent), Some(referrer))] else old(rows)
    {
      ok := !fails;
      if ok {
        rows := rows + [ClickRow(code, now, Some(userAgent), Some(referrer))];
      }
    }
  }
}
