/** `GET /v1/global_status`: the public traffic-light leaderboard. */
module GlobalMap {
  import opened Models
  import opened Aggregation
  import opened Scoring
  import opened Sorting

  function ScoreKey(e: Entry): int {
    e.score
  }

  function EntryBroker(e: Entry): string {
    e.broker
  }

  /** The entries the loop builds, in query order, before sorting. */
  function Entries(groups: seq<GroupRow>): (es: seq<Entry>)
    ensures |es| == |groups|
    ensures forall i :: 0 <= i < |es| ==> es[i] == ScoreRow(groups[i])
  {
    seq(|groups|, i requires 0 <= i < |groups| => ScoreRow(groups[i]))
  }

  /** What the endpoint returns for the store `rows` at instant `now`. */
  function Leaderboard(rows: seq<TelemetryRow>, now: int): (board: seq<Entry>)
    ensures multiset(board) == multiset(Entries(Aggregate(rows, now)))
    ensures SortedDesc(board, ScoreKey)
  {
    SortDesc(Entries(Aggregate(rows, now)), ScoreKey)
  }

  /** Brokers with equal scores keep the order the query produced them in. */
  lemma LeaderboardStable(rows: seq<TelemetryRow>, now: int, score: int)
    ensures WithKey(Leaderboard(rows, now), ScoreKey, score)
         == WithKey(Entries(Aggregate(rows, now)), ScoreKey, score)
  {
    SortDescStable(Entries(Aggregate(rows, now)), ScoreKey, score);
  }

  /** No broker is listed twice. */
  lemma LeaderboardBrokersDistinct(rows: seq<TelemetryRow>, now: int)
    ensures DistinctOn(Leaderboard(rows, now), EntryBroker)
  {
    AggregateBrokersDistinct(rows, now);
    SortKeepsDistinct(Entries(Aggregate(rows, now)), ScoreKey, EntryBroker);
  }

  /** Every listed broker pinged in the last five minutes; its score is in 0..100 and its volume at least 1. */
  lemma {:induction false} LeaderboardEntryValid(rows: seq<TelemetryRow>, now: int, e: Entry)
    requires e in Leaderboard(rows, now)
    ensures 0 <= e.score <= 100 && e.volume >= 1
    ensures exists row :: row in rows && InWindow(row, now) && row.broker == e.broker
  {
    var agg := Aggregate(rows, now);
    var es := Entries(agg);
    assert e in multiset(es);
    var i :| 0 <= i < |es| && es[i] == e;
    assert e == ScoreRow(agg[i]);
    AggregateRowNonEmpty(rows, now, i);
  }

  /** Every broker that pinged in the last five minutes is listed. */
  lemma {:induction false} LeaderboardCoversWindow(rows: seq<TelemetryRow>, now: int, row: TelemetryRow)
    requires row in rows && InWindow(row, now)
    ensures exists e :: e in Leaderboard(rows, now) && e.broker == row.broker
  {
    var es := Entries(Aggregate(rows, now));
    var i := AggregateCoversWindow(rows, now, row);
    assert es[i].broker == row.broker;
    assert es[i] in multiset(es);
    assert es[i] in multiset(Leaderboard(rows, now));
  }

  /**
   * Builds one entry per aggregated broker row and returns them best score
   * first: a permutation of the per-broker entries, ordered by score, with ties
   * in query order (Python's `sorted` is stable), each broker once.
   */
  method GetGlobalMap(rows: seq<TelemetryRow>, now: int) returns (board: seq<Entry>)
    ensures board == Leaderboard(rows, now)
    ensures multiset(board) == multiset(Entries(Aggregate(rows, now)))
    ensures SortedDesc(board, ScoreKey)
    ensures DistinctOn(board, EntryBroker)
  {
    var stats := Aggregate(rows, now);
    var leaderboard: seq<Entry> := [];
    for i := 0 to |stats|
      invariant |leaderboard| == i
      invariant forall k :: 0 <= k < i ==> leaderboard[k] == ScoreRow(stats[k])
    {
      leaderboard := leaderboard + [ScoreRow(stats[i])];
    }
    assert leaderboard == Entries(stats);
    board := SortDesc(leaderboard, ScoreKey);
    LeaderboardBrokersDistinct(rows, now);
  }
}
