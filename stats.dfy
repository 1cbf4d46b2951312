/** GET /api/stats/{code} (pkg/handlers/stats.go): the click rows of one code, newest
    first, with their count. */
module StatsHandlers {
  import opened Models
  import opened Storage

  /** WHERE short_code = ?: the rows of one code, in log order. Every row it returns has
      that code, and each row of that code occurs as often as in the log. */
  function ClicksFor(rows: seq<ClickRow>, code: string): (r: seq<ClickRow>)
    ensures forall i :: 0 <= i < |r| ==> r[i].shortCode == code
    ensures forall row :: multiset(r)[row] == if row.shortCode == code then multiset(rows)[row] else 0
    decreases |rows|
  {
    if rows == [] then []
    else
      var rest := ClicksFor(rows[1..], code);
      assert rows == [rows[0]] + rows[1..];
      if rows[0].shortCode == code then [rows[0]] + rest else rest
  }

  /** Timestamps never increase along the sequence. */
  predicate NewestFirst(rows: seq<ClickRow>) {
    forall i, j :: 0 <= i < j < |rows| ==> rows[i].timestamp >= rows[j].timestamp
  }

  /** Puts one row into a newest-first sequence, after the rows that are newer and
      before those that are as old or older; the result holds exactly one row more. */
  function InsertByTime(row: ClickRow, sorted: seq<ClickRow>): (r: seq<ClickRow>)
    ensures |r| == |sorted| + 1
    ensures multiset(r) == multiset(sorted) + multiset{row}
    decreases |sorted|
  {
    if sorted == [] || sorted[0].timestamp <= row.timestamp then
      [row] + sorted
    else
      assert sorted == [sorted[0]] + sorted[1..];
      [sorted[0]] + InsertByTime(row, sorted[1..])
  }

  /** Inserting into a newest-first sequence keeps it newest first; the first row is
      then the inserted one or the old first row. */
  lemma {:induction false} InsertKeepsOrder(row: ClickRow, sorted: seq<ClickRow>)
    requires NewestFirst(sorted)
    ensures NewestFirst(InsertByTime(row, sorted))
    ensures InsertByTime(row, sorted)[0] == row || (|sorted| > 0 && InsertByTime(row, sorted)[0] == sorted[0])
    decreases |sorted|
  {
    if sorted != [] && sorted[0].timestamp > row.timestamp {
      var rest := InsertByTime(row, sorted[1..]);
      InsertKeepsOrder(row, sorted[1..]);
      assert rest[0].timestamp <= sorted[0].timestamp;
      assert forall j :: 0 <= j < |rest| ==> rest[j].timestamp <= rest[0].timestamp;
    }
  }

  /** ORDER BY timestamp DESC: the same rows, newest first. Rows with equal timestamps
      keep their log order. */
  function OrderNewestFirst(rows: seq<ClickRow>): (r: seq<ClickRow>)
    ensures NewestFirst(r)
    ensures multiset(r) == multiset(rows)
    ensures |r| == |rows|
    decreases |rows|
  {
    if rows == [] then []
    else
      assert rows == [rows[0]] + rows[1..];
      InsertKeepsOrder(rows[0], OrderNewestFirst(rows[1..]));
      InsertByTime(rows[0], OrderNewestFirst(rows[1..]))
  }

  /** The statistics query: SELECT timestamp, user_agent, referrer FROM clicks
      WHERE short_code = ? ORDER BY timestamp DESC. */
  function StatsQuery(rows: seq<ClickRow>, code: string): (r: seq<ClickRow>)
    ensures NewestFirst(r)
    ensures forall i :: 0 <= i < |r| ==> r[i].shortCode == code
    ensures forall row :: multiset(r)[row] == if row.shortCode == code then multiset(rows)[row] else 0
  {
    var ofCode := ClicksFor(rows, code);
    SameRowsSameCode(ofCode, OrderNewestFirst(ofCode), code);
    OrderNewestFirst(ofCode)
  }

  /** Reordering rows of one code gives rows of that code. */
  lemma SameRowsSameCode(xs: seq<ClickRow>, ys: seq<ClickRow>, code: string)
    requires multiset(xs) == multiset(ys)
    requires forall i :: 0 <= i < |xs| ==> xs[i].shortCode == code
    ensures forall i :: 0 <= i < |ys| ==> ys[i].shortCode == code
  {
    forall i | 0 <= i < |ys|
      ensures ys[i].shortCode == code
    {
      assert ys[i] in multiset(xs);
      var k :| 0 <= k < |xs| && xs[k] == ys[i];
    }
  }

  /** The three selected columns of a row. */
  function Detail(row: ClickRow): ClickDetail {
    ClickDetail(row.timestamp, row.userAgent, row.referrer)
  }

  /** The rows that scanned, as details, in query order; `scanFails` holds the positions
      of the rows whose Scan fails. */
  function Scanned(rows: seq<ClickRow>, scanFails: set<nat>): (details: seq<ClickDetail>)
    ensures |details| <= |rows|
    decreases |rows|
  {
    if rows == [] then []
    else
      var last := |rows| - 1;
      Scanned(rows[..last], scanFails) + (if last in scanFails then [] else [Detail(rows[last])])
  }

  /** Timestamps never increase along the details. */
  predicate DetailsNewestFirst(details: seq<ClickDetail>) {
    forall i, j :: 0 <= i < j < |details| ==> details[i].timestamp >= details[j].timestamp
  }

  /** The answer to GET /api/stats/{code}. */
  datatype StatsResult = Stats(body: LinkStatsResponse) | StatsFailed(status: int, error: string)

  /** The rows.Next() loop: scans each row of the query in turn, appends the ones that
      scan and skips the ones that do not. */
  method CollectClicks(rows: seq<ClickRow>, scanFails: set<nat>) returns (clicks: seq<ClickDetail>)
    ensures clicks == Scanned(rows, scanFails)
  {
    clicks := [];
    var i := 0;
    while i < |rows|
      invariant 0 <= i <= |rows|
      invariant clicks == Scanned(rows[..i], scanFails)
    {
      assert rows[..i + 1][..i] == rows[..i];
      if i !in scanFails {
        clicks := clicks + [Detail(rows[i])];
      }
      i := i + 1;
    }
    assert rows[..|rows|] == rows;
  }

  /** GetLinkStatsHandler. `queryFails` says whether the query fails, `scanFails` which
      rows fail to scan and `iterFails` whether the row iteration ends in an error. It
      reads the click log and never changes it. */
  method GetLinkStats(log: ClickLog, shortCode: string, queryFails: bool, scanFails: set<nat>, iterFails: bool)
    returns (result: StatsResult)
    ensures queryFails ==> result == StatsFailed(StatusInternalServerError, "{\"error\":\"Failed to retrieve statistics\"}")
    ensures !queryFails && iterFails ==>
              result == StatsFailed(StatusInternalServerError, "{\"error\":\"Failed to process statistics\"}")
    ensures !queryFails && !iterFails ==>
              result.Stats? && result.body.shortCode == shortCode &&
              result.body.clicks == Scanned(StatsQuery(log.rows, shortCode), scanFails)
    ensures result.Stats? ==> result.body.totalClicks == |result.body.clicks|
  {
    if queryFails {
      return StatsFailed(StatusInternalServerError, "{\"error\":\"Failed to retrieve statistics\"}");
    }
    var rows := StatsQuery(log.rows, shortCode);
    var clicks := CollectClicks(rows, scanFails);
    if iterFails {
      return StatsFailed(StatusInternalServerError, "{\"error\":\"Failed to process statistics\"}");
    }
    result := Stats(LinkStatsResponse(shortCode, |clicks|, clicks));
  }

  /** Every detail that scanned comes from a row of the query, so a bound on the rows'
      timestamps bounds the details'. */
  lemma {:induction false} ScannedBounded(rows: seq<ClickRow>, scanFails: set<nat>, t: nat)
    requires forall i :: 0 <= i < |rows| ==> rows[i].timestamp >= t
    ensures forall i :: 0 <= i < |Scanned(rows, scanFails)| ==> Scanned(rows, scanFails)[i].timestamp >= t
    decreases |rows|
  {
    if rows != [] {
      ScannedBounded(rows[..|rows| - 1], scanFails, t);
    }
  }

  /** Skipping rows keeps the order: details of a newest-first query are newest first. */
  lemma {:induction false} ScannedNewestFirst(rows: seq<ClickRow>, scanFails: set<nat>)
    requires NewestFirst(rows)
    ensures DetailsNewestFirst(Scanned(rows, scanFails))
    decreases |rows|
  {
    if rows != [] {
      var last := |rows| - 1;
      var prefix := rows[..last];
      ScannedNewestFirst(prefix, scanFails);
      ScannedBounded(prefix, scanFails, rows[last].timestamp);
    }
  }

  /** When no row fails to scan, the details are the query's rows, one for one. */
  lemma {:induction false} ScannedAll(rows: seq<ClickRow>, scanFails: set<nat>)
    requires forall i :: 0 <= i < |rows| ==> i !in scanFails
    ensures |Scanned(rows, scanFails)| == |rows|
    ensures forall i :: 0 <= i < |rows| ==> Scanned(rows, scanFails)[i] == Detail(rows[i])
    decreases |rows|
  {
    if rows != [] {
      ScannedAll(rows[..|rows| - 1], scanFails);
    }
  }

  /** The positions below `n` whose Scan succeeds, in increasing order: each is below
      `n` and not a failure, and every such position is there. */
  function Kept(n: nat, scanFails: set<nat>): (ks: seq<nat>)
    ensures forall k :: 0 <= k < |ks| ==> ks[k] < n && ks[k] !in scanFails
    ensures forall k, l :: 0 <= k < l < |ks| ==> ks[k] < ks[l]
    ensures forall i :: 0 <= i < n && i !in scanFails ==> i in ks
    decreases n
  {
    if n == 0 then [] else Kept(n - 1, scanFails) + (if n - 1 in scanFails then [] else [n - 1])
  }

  /** How many positions below `n` fail to scan. */
  function FailedCount(n: nat, scanFails: set<nat>): nat
    decreases n
  {
    if n == 0 then 0 else FailedCount(n - 1, scanFails) + (if n - 1 in scanFails then 1 else 0)
  }

  /** Every position either scans or fails: the kept ones and the failed ones add up to
      all of them. */
  lemma {:induction false} KeptCount(n: nat, scanFails: set<nat>)
    ensures |Kept(n, scanFails)| + FailedCount(n, scanFails) == n
    decreases n
  {
    if n > 0 {
      KeptCount(n - 1, scanFails);
    }
  }

  /** Rows that fail to scan are skipped and the rest kept in order: the k-th detail is
      the row at the k-th position that scans, so there are as many details as rows
      minus the failed ones. */
  lemma {:induction false} ScannedKept(rows: seq<ClickRow>, scanFails: set<nat>)
    ensures var ks := Kept(|rows|, scanFails);
            && |Scanned(rows, scanFails)| == |ks|
            && (forall k :: 0 <= k < |ks| ==> Scanned(rows, scanFails)[k] == Detail(rows[ks[k]]))
    ensures |Scanned(rows, scanFails)| == |rows| - FailedCount(|rows|, scanFails)
    decreases |rows|
  {
    KeptCount(|rows|, scanFails);
    if rows != [] {
      var last := |rows| - 1;
      ScannedKept(rows[..last], scanFails);
      KeptExtend(rows, Kept(last, scanFails), Scanned(rows[..last], scanFails), last !in scanFails);
    }
  }

  /** One more row: the kept positions and the details grow together, by the last
      position and its detail when that row scans. */
  lemma KeptExtend(rows: seq<ClickRow>, ks: seq<nat>, before: seq<ClickDetail>, keepLast: bool)
    requires |rows| > 0 && |before| == |ks|
    requires forall k :: 0 <= k < |ks| ==> ks[k] < |rows| - 1 && before[k] == Detail(rows[..|rows| - 1][ks[k]])
    ensures var all := ks + (if keepLast then [|rows| - 1] else []);
            var after := before + (if keepLast then [Detail(rows[|rows| - 1])] else []);
            |after| == |all| && forall k :: 0 <= k < |all| ==> after[k] == Detail(rows[all[k]])
  {
  }

  /** What a successful statistics answer promises: the clicks are newest first and,
      when every row scans, they are exactly the log rows of the requested code, as many
      as the log holds, with total_clicks their number. */
  lemma StatsAnswer(rows: seq<ClickRow>, shortCode: string, scanFails: set<nat>)
    ensures var query := StatsQuery(rows, shortCode);
            DetailsNewestFirst(Scanned(query, scanFails))
    ensures var query := StatsQuery(rows, shortCode);
            (forall i :: 0 <= i < |query| ==> i !in scanFails) ==>
              && Scanned(query, scanFails) == seq(|query|, i requires 0 <= i < |query| => Detail(query[i]))
              && (forall i :: 0 <= i < |query| ==> query[i].shortCode == shortCode)
              && (forall row: ClickRow :: row.shortCode == shortCode ==> multiset(query)[row] == multiset(rows)[row])
  {
    var query := StatsQuery(rows, shortCode);
    ScannedNewestFirst(query, scanFails);
    if forall i :: 0 <= i < |query| ==> i !in scanFails {
      ScannedAll(query, scanFails);
    }
  }

  /** A code that was never clicked, or is unknown, is a success with no clicks. */
  lemma NeverClicked(rows: seq<ClickRow>, shortCode: string, scanFails: set<nat>)
    requires forall i :: 0 <= i < |rows| ==> rows[i].shortCode != shortCode
    ensures StatsQuery(rows, shortCode) == []
    ensures Scanned(StatsQuery(rows, shortCode), scanFails) == []
  {
  }
}
