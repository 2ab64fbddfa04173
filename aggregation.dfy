/**
 * The query behind the public map: telemetry of the last five minutes,
 * grouped by broker, with the average latency, the average slippage and the
 * number of pings per broker.
 */
module Aggregation {
  import opened Wrappers
  import opened Models
  import opened Seqs

  /** `timedelta(minutes=5)` in microseconds. */
  const FiveMinutes: int := 5 * 60 * 1_000_000

  /** `timestamp >= now - timedelta(minutes=5)` */
  predicate InWindow(row: TelemetryRow, now: int) {
    row.timestamp >= now - FiveMinutes
  }

  /** The cut-off is inclusive: a ping exactly five minutes old still counts, one a microsecond older does not. */
  lemma WindowBoundary(row: TelemetryRow, now: int)
    ensures row.timestamp == now - FiveMinutes ==> InWindow(row, now)
    ensures row.timestamp == now - FiveMinutes - 1 ==> !InWindow(row, now)
    ensures row.timestamp > now ==> InWindow(row, now)
  {
  }

  function Since(now: int): TelemetryRow -> bool {
    (row: TelemetryRow) => InWindow(row, now)
  }

  function BrokerIs(b: string): TelemetryRow -> bool {
    (row: TelemetryRow) => row.broker == b
  }

  /** The rows the `WHERE` clause keeps, in store order. */
  function Window(rows: seq<TelemetryRow>, now: int): (w: seq<TelemetryRow>)
    ensures |w| <= |rows| && multiset(w) <= multiset(rows)
    ensures forall i :: 0 <= i < |w| ==> InWindow(w[i], now)
  {
    Filter(rows, Since(now))
  }

  /** One broker's rows. */
  function OfBroker(rows: seq<TelemetryRow>, b: string): seq<TelemetryRow> {
    Filter(rows, BrokerIs(b))
  }

  /** The window holds every copy of each recent row, and nothing older. */
  lemma WindowCount(rows: seq<TelemetryRow>, now: int, row: TelemetryRow)
    ensures multiset(Window(rows, now))[row] == if InWindow(row, now) then multiset(rows)[row] else 0
  {
    FilterCount(rows, Since(now), row);
  }

  lemma WindowMembers(rows: seq<TelemetryRow>, now: int)
    ensures forall row :: row in Window(rows, now) <==> row in rows && InWindow(row, now)
  {
    forall row ensures row in Window(rows, now) <==> row in rows && InWindow(row, now) {
      WindowCount(rows, now, row);
    }
  }

  /** The distinct brokers of `rows`, in order of first appearance. */
  function Brokers(rows: seq<TelemetryRow>): (bs: seq<string>)
    ensures forall i, j :: 0 <= i < j < |bs| ==> bs[i] != bs[j]
    ensures forall row :: row in rows ==> row.broker in bs
    ensures forall b :: b in bs ==> exists row :: row in rows && row.broker == b
  {
    if rows == [] then []
    else
      var init := rows[..|rows| - 1];
      var last := rows[|rows| - 1];
      assert rows == init + [last];
      var bs := Brokers(init);
      if last.broker in bs then bs else bs + [last.broker]
  }

  /** One result row of the query; `AVG` is `None` (SQL NULL) over no rows. */
  datatype GroupRow = GroupRow(broker: string, avgLat: Option<real>, avgSlip: Option<real>, volume: nat)

  function Latencies(rows: seq<TelemetryRow>): seq<real> {
    seq(|rows|, i requires 0 <= i < |rows| => rows[i].latencyMs as real)
  }

  function Slippages(rows: seq<TelemetryRow>): seq<real> {
    seq(|rows|, i requires 0 <= i < |rows| => rows[i].slippage)
  }

  /** SQL `AVG`: NULL over no values, otherwise the arithmetic mean. */
  function Avg(xs: seq<real>): (m: Option<real>)
    ensures m.None? <==> xs == []
    ensures m.Some? ==> m.value * |xs| as real == Sum(xs)
  {
    if xs == [] then None else Some(Sum(xs) / |xs| as real)
  }

  /** A mean lies between the smallest and the largest value. */
  lemma AvgBounds(xs: seq<real>, lo: real, hi: real)
    requires xs != []
    requires forall i :: 0 <= i < |xs| ==> lo <= xs[i] <= hi
    ensures lo <= Avg(xs).value <= hi
  {
    SumBounds(xs, lo, hi);
    var n := |xs| as real;
    DivMonotone(lo * n, Sum(xs), n);
    DivMonotone(Sum(xs), hi * n, n);
    assert (lo * n) / n == lo && (hi * n) / n == hi;
  }

  lemma DivMonotone(a: real, b: real, n: real)
    requires a <= b && n > 0.0
    ensures a / n <= b / n
  {
    assert b / n - a / n == (b - a) / n;
  }

  /** `SELECT broker, AVG(latency_ms), AVG(slippage), COUNT(id)` over one broker's rows. */
  function GroupOf(rows: seq<TelemetryRow>, b: string): (g: GroupRow)
    ensures g.broker == b && g.volume == |OfBroker(rows, b)|
    ensures g.avgLat.None? <==> g.volume == 0
    ensures g.avgSlip.None? <==> g.volume == 0
    ensures g.avgLat.Some? ==> g.avgLat.value * g.volume as real == Sum(Latencies(OfBroker(rows, b)))
    ensures g.avgSlip.Some? ==> g.avgSlip.value * g.volume as real == Sum(Slippages(OfBroker(rows, b)))
  {
    var own := OfBroker(rows, b);
    var lats, slips := Latencies(own), Slippages(own);
    assert |lats| == |own| && |slips| == |own|;
    assert lats == [] <==> own == [];
    assert slips == [] <==> own == [];
    GroupRow(b, Avg(lats), Avg(slips), |own|)
  }

  function Groups(rows: seq<TelemetryRow>, bs: seq<string>): seq<GroupRow> {
    seq(|bs|, i requires 0 <= i < |bs| => GroupOf(rows, bs[i]))
  }

  /**
   * The whole query, evaluated at instant `now`. SQL leaves the order of the
   * groups open; here they come in order of each broker's first recent ping.
   */
  function Aggregate(rows: seq<TelemetryRow>, now: int): (r: seq<GroupRow>)
    ensures forall i :: 0 <= i < |r| ==> r[i] == GroupOf(Window(rows, now), r[i].broker)
  {
    var w := Window(rows, now);
    Groups(w, Brokers(w))
  }

  /** A broker with a recent ping has a non-empty group. */
  lemma OfBrokerNonEmpty(rows: seq<TelemetryRow>, b: string, row: TelemetryRow)
    requires row in rows && row.broker == b
    ensures |OfBroker(rows, b)| >= 1
  {
    FilterCount(rows, BrokerIs(b), row);
  }

  /** The brokers of the result rows are distinct. */
  lemma AggregateBrokersDistinct(rows: seq<TelemetryRow>, now: int)
    ensures var agg := Aggregate(rows, now);
      forall i, j :: 0 <= i < j < |agg| ==> agg[i].broker != agg[j].broker
  {
  }

  /** Every recent ping's broker has a result row, at index `i`. */
  lemma {:induction false} AggregateCoversWindow(rows: seq<TelemetryRow>, now: int, row: TelemetryRow) returns (i: nat)
    requires row in rows && InWindow(row, now)
    ensures i < |Aggregate(rows, now)| && Aggregate(rows, now)[i].broker == row.broker
  {
    var w := Window(rows, now);
    var bs := Brokers(w);
    WindowCount(rows, now, row);
    assert row in w;
    i :| 0 <= i < |bs| && bs[i] == row.broker;
  }

  /** Every result row stands for at least one recent ping of its broker, so its averages are present. */
  lemma {:induction false} AggregateRowNonEmpty(rows: seq<TelemetryRow>, now: int, i: nat)
    requires i < |Aggregate(rows, now)|
    ensures var g := Aggregate(rows, now)[i];
      && g.volume >= 1 && g.avgLat.Some? && g.avgSlip.Some?
      && exists row :: row in rows && InWindow(row, now) && row.broker == g.broker
  {
    var w := Window(rows, now);
    var bs := Brokers(w);
    assert i < |bs| && bs[i] in bs;
    var row :| row in w && row.broker == bs[i];
    OfBrokerNonEmpty(w, bs[i], row);
    WindowCount(rows, now, row);
  }

  /**
   * Each row is the aggregate of exactly its broker's recent pings; with every
   * such ping's latency between `lo` and `hi`, so is the average.
   */
  lemma {:induction false} GroupLatencyBounds(rows: seq<TelemetryRow>, now: int, i: nat, lo: real, hi: real)
    requires i < |Aggregate(rows, now)|
    requires forall row :: row in rows && InWindow(row, now) && row.broker == Aggregate(rows, now)[i].broker
               ==> lo <= row.latencyMs as real <= hi
    ensures var g := Aggregate(rows, now)[i];
      g.volume == |OfBroker(Window(rows, now), g.broker)| && g.avgLat.Some? && lo <= g.avgLat.value <= hi
  {
    var w := Window(rows, now);
    var b := Brokers(w)[i];
    var grp := OfBroker(w, b);
    assert Aggregate(rows, now)[i] == GroupOf(w, b);
    forall k | 0 <= k < |grp| ensures lo <= Latencies(grp)[k] <= hi {
      var x := grp[k];
      FilterCount(w, BrokerIs(b), x);
      assert x in multiset(grp);
      WindowCount(rows, now, x);
      assert x in multiset(rows);
    }
    if grp != [] {
      AvgBounds(Latencies(grp), lo, hi);
    } else {
      AggregateRowNonEmpty(rows, now, i);
    }
  }

  /** With every recent ping of a row's broker slipping between `lo` and `hi`, so does the row's average slippage. */
  lemma {:induction false} GroupSlippageBounds(rows: seq<TelemetryRow>, now: int, i: nat, lo: real, hi: real)
    requires i < |Aggregate(rows, now)|
    requires forall row :: row in rows && InWindow(row, now) && row.broker == Aggregate(rows, now)[i].broker
               ==> lo <= row.slippage <= hi
    ensures var g := Aggregate(rows, now)[i];
      g.avgSlip.Some? && lo <= g.avgSlip.value <= hi
  {
    var w := Window(rows, now);
    var b := Brokers(w)[i];
    var grp := OfBroker(w, b);
    assert Aggregate(rows, now)[i] == GroupOf(w, b);
    forall k | 0 <= k < |grp| ensures lo <= Slippages(grp)[k] <= hi {
      var x := grp[k];
      FilterCount(w, BrokerIs(b), x);
      assert x in multiset(grp);
      WindowCount(rows, now, x);
      assert x in multiset(rows);
    }
    if grp != [] {
      AvgBounds(Slippages(grp), lo, hi);
    } else {
      AggregateRowNonEmpty(rows, now, i);
    }
  }

  /** The number of pings counted under the brokers `bs`. */
  function CountUnder(rows: seq<TelemetryRow>, bs: seq<string>): nat {
    if bs == [] then 0 else CountUnder(rows, bs[..|bs| - 1]) + |OfBroker(rows, bs[|bs| - 1])|
  }

  function TotalVolume(groups: seq<GroupRow>): nat {
    if groups == [] then 0 else TotalVolume(groups[..|groups| - 1]) + groups[|groups| - 1].volume
  }

  lemma {:induction false} TotalVolumeOfGroups(rows: seq<TelemetryRow>, bs: seq<string>)
    ensures TotalVolume(Groups(rows, bs)) == CountUnder(rows, bs)
  {
    if bs != [] {
      var init := bs[..|bs| - 1];
      assert Groups(rows, bs)[..|bs| - 1] == Groups(rows, init);
      TotalVolumeOfGroups(rows, init);
    }
  }

  lemma OfBrokerAppend(rows: seq<TelemetryRow>, row: TelemetryRow, b: string)
    ensures OfBroker(rows + [row], b) == OfBroker(rows, b) + (if row.broker == b then [row] else [])
  {
    FilterAppend(rows, [row], BrokerIs(b));
    assert [row][1..] == [];
  }

  lemma {:induction false} CountUnderAppend(rows: seq<TelemetryRow>, row: TelemetryRow, bs: seq<string>)
    requires forall i, j :: 0 <= i < j < |bs| ==> bs[i] != bs[j]
    ensures CountUnder(rows + [row], bs) == CountUnder(rows, bs) + (if row.broker in bs then 1 else 0)
  {
    if bs != [] {
      var init := bs[..|bs| - 1];
      var b := bs[|bs| - 1];
      CountUnderAppend(rows, row, init);
      OfBrokerAppend(rows, row, b);
      assert bs == init + [b];
      assert b !in init;
    }
  }

  lemma {:induction false} CountUnderAll(rows: seq<TelemetryRow>, bs: seq<string>)
    requires forall i, j :: 0 <= i < j < |bs| ==> bs[i] != bs[j]
    requires forall row :: row in rows ==> row.broker in bs
    ensures CountUnder(rows, bs) == |rows|
  {
    if rows == [] {
      CountUnderEmpty(bs);
    } else {
      var init := rows[..|rows| - 1];
      var last := rows[|rows| - 1];
      assert rows == init + [last];
      CountUnderAll(init, bs);
      CountUnderAppend(init, last, bs);
    }
  }

  lemma {:induction false} CountUnderEmpty(bs: seq<string>)
    ensures CountUnder([], bs) == 0
  {
    if bs != [] {
      CountUnderEmpty(bs[..|bs| - 1]);
    }
  }

  /** The volumes add up to the number of pings in the window: none lost, none counted twice. */
  lemma VolumesSumToWindow(rows: seq<TelemetryRow>, now: int)
    ensures TotalVolume(Aggregate(rows, now)) == |Window(rows, now)|
  {
    var w := Window(rows, now);
    TotalVolumeOfGroups(w, Brokers(w));
    CountUnderAll(w, Brokers(w));
  }
}
