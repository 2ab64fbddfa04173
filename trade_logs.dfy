/** `GET /v1/logs`: a caller's own trades, newest first, at most `limit` of them. */
module TradeLogs {
  import opened Wrappers
  import opened Models
  import opened Seqs
  import opened Sorting
  import opened Auth

  /** The endpoint's default page size. */
  const DefaultLimit: int := 50

  function UserIs(userId: string): TradeLogRow -> bool {
    (x: TradeLogRow) => x.userId == userId
  }

  function OfUser(rows: seq<TradeLogRow>, userId: string): seq<TradeLogRow> {
    Filter(rows, UserIs(userId))
  }

  function TimestampKey(x: TradeLogRow): int {
    x.timestamp
  }

  /** The user's rows, newest first (ties in insertion order). */
  function NewestFirst(rows: seq<TradeLogRow>, userId: string): (r: seq<TradeLogRow>)
    ensures multiset(r) == multiset(OfUser(rows, userId))
    ensures SortedDesc(r, TimestampKey)
  {
    SortDesc(OfUser(rows, userId), TimestampKey)
  }

  /**
   * `WHERE user_id = ? ORDER BY timestamp DESC LIMIT ?`. A negative limit
   * means no limit, as in SQLite.
   */
  function QueryLogs(rows: seq<TradeLogRow>, userId: string, limit: int): (r: seq<TradeLogRow>)
    ensures 0 <= limit ==> |r| <= limit
    ensures |r| == if 0 <= limit < |OfUser(rows, userId)| then limit else |OfUser(rows, userId)|
    ensures forall i :: 0 <= i < |r| ==> r[i].userId == userId
    ensures SortedDesc(r, TimestampKey)
    ensures multiset(r) <= multiset(rows)
  {
    var sorted := NewestFirst(rows, userId);
    var r := if 0 <= limit < |sorted| then sorted[..limit] else sorted;
    QueryLogsFacts(sorted, r, rows, userId);
    r
  }

  lemma QueryLogsFacts(sorted: seq<TradeLogRow>, r: seq<TradeLogRow>, rows: seq<TradeLogRow>, userId: string)
    requires sorted == NewestFirst(rows, userId)
    requires |r| <= |sorted| && r == sorted[..|r|]
    ensures |sorted| == |OfUser(rows, userId)|
    ensures forall i :: 0 <= i < |r| ==> r[i].userId == userId
    ensures multiset(r) <= multiset(rows)
  {
    var own := OfUser(rows, userId);
    assert |multiset(sorted)| == |multiset(own)|;
    assert sorted == r + sorted[|r|..];
    forall i | 0 <= i < |r| ensures r[i].userId == userId {
      assert r[i] in multiset(own);
    }
  }

  /** The query returns a prefix of the user's rows sorted newest first. */
  lemma QueryLogsIsPrefix(rows: seq<TradeLogRow>, userId: string, limit: int)
    ensures var r := QueryLogs(rows, userId, limit);
      |r| <= |NewestFirst(rows, userId)| && r == NewestFirst(rows, userId)[..|r|]
  {
  }

  /** Nothing newer was cut off: a row of the user that is left out is no newer than any row returned. */
  lemma {:induction false} QueryLogsKeepsNewest(rows: seq<TradeLogRow>, userId: string, limit: int, x: TradeLogRow, y: TradeLogRow)
    requires x in OfUser(rows, userId) && x !in QueryLogs(rows, userId, limit)
    requires y in QueryLogs(rows, userId, limit)
    ensures y.timestamp >= x.timestamp
  {
    var r := QueryLogs(rows, userId, limit);
    QueryLogsIsPrefix(rows, userId, limit);
    PrefixKeepsNewest(NewestFirst(rows, userId), OfUser(rows, userId), r, x, y);
  }

  lemma PrefixKeepsNewest(sorted: seq<TradeLogRow>, all: seq<TradeLogRow>, r: seq<TradeLogRow>, x: TradeLogRow, y: TradeLogRow)
    requires SortedDesc(sorted, TimestampKey) && multiset(sorted) == multiset(all)
    requires |r| <= |sorted| && r == sorted[..|r|]
    requires x in all && x !in r && y in r
    ensures y.timestamp >= x.timestamp
  {
    assert x in multiset(all);
    var j :| 0 <= j < |sorted| && sorted[j] == x;
    var i :| 0 <= i < |r| && r[i] == y;
    assert forall k :: 0 <= k < |r| ==> sorted[k] != x;
    assert i < |r| <= j && sorted[i] == y;
    assert TimestampKey(sorted[i]) >= TimestampKey(sorted[j]);
  }

  /** The endpoint: the key check, then the query for the user id it yields. */
  function GetLogs(key: Option<string>, limit: int, rows: seq<TradeLogRow>): (r: Result<seq<TradeLogRow>, HttpError>)
    ensures r.Failure? <==> VerifyKey(key).Failure?
    ensures r.Failure? ==> r.error == InvalidKey
    ensures r.Success? ==> forall i :: 0 <= i < |r.value| ==> r.value[i].userId == VerifyKey(key).value
    ensures r.Success? ==> r.value == QueryLogs(rows, VerifyKey(key).value, limit)
  {
    match VerifyKey(key)
    case Failure(e) => Failure(e)
    case Success(userId) => Success(QueryLogs(rows, userId, limit))
  }

  /** A call without `limit` returns the caller's 50 newest trades, or all of them when there are fewer. */
  lemma DefaultPage(key: Option<string>, rows: seq<TradeLogRow>)
    requires VerifyKey(key).Success?
    ensures var r := GetLogs(key, DefaultLimit, rows);
      var n := |OfUser(rows, VerifyKey(key).value)|;
      r.Success? && |r.value| == if n < 50 then n else 50
  {
  }

  /** Since the key is never looked up, `sk_` followed by any user id without `_` reads that user's trades. */
  lemma ForgedKeyReadsAnyUser(userId: string, limit: int, rows: seq<TradeLogRow>)
    requires '_' !in userId
    ensures GetLogs(Some(KeyPrefix + userId), limit, rows) == Success(QueryLogs(rows, userId, limit))
  {
    AnyUserIdCanBeClaimed(userId);
  }
}
