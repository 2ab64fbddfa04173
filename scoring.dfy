/** Turning one aggregated broker row into a leaderboard entry: health score and traffic light. */
module Scoring {
  import opened Wrappers
  import opened Aggregation

  datatype Light = Green | Yellow | Red

  /** A leaderboard entry; `slippage` is kept exact (the source rounds it to five decimals for display). */
  datatype Entry = Entry(broker: string, status: Light, score: int, latency: int, slippage: real, volume: nat)

  /** `float(avg) if avg else 0.0`: SQL NULL and a zero average both read as 0.0. */
  function OrZero(avg: Option<real>): (x: real)
    ensures avg.Some? ==> x == avg.value
    ensures avg.None? ==> x == 0.0
  {
    match avg
    case None => 0.0
    case Some(v) => if v != 0.0 then v else 0.0
  }

  /** Python's `int(x)` on a float: truncation toward zero. */
  function Trunc(x: real): (n: int)
    ensures x >= 0.0 ==> n as real <= x < n as real + 1.0
    ensures x < 0.0 ==> n as real - 1.0 < x <= n as real
  {
    if x >= 0.0 then x.Floor else -((-x).Floor)
  }

  /** `max(0, min(100, x))` */
  function Clamp(x: real): (r: real)
    ensures 0.0 <= r <= 100.0
    ensures r == x <==> 0.0 <= x <= 100.0
    ensures x < 0.0 ==> r == 0.0
    ensures x > 100.0 ==> r == 100.0
  {
    if x < 0.0 then 0.0 else if x > 100.0 then 100.0 else x
  }

  /** The unclamped health score: 100, less a tenth of the latency and a thousand times the slippage. */
  function RawScore(lat: real, slip: real): (r: real)
    ensures r <= 100.0 <==> lat / 10.0 + slip * 1000.0 >= 0.0
  {
    100.0 - lat / 10.0 - slip * 1000.0
  }

  /** Every 10 ms of latency and every 0.001 of slippage costs one point. */
  lemma RawScorePenalties(lat: real, slip: real)
    ensures RawScore(lat + 10.0, slip) == RawScore(lat, slip) - 1.0
    ensures RawScore(lat, slip + 0.001) == RawScore(lat, slip) - 1.0
  {
  }

  /** The health score: an integer from 0 to 100, the clamped raw score rounded down. */
  function HealthScore(lat: real, slip: real): (score: int)
    ensures 0 <= score <= 100
    ensures score as real <= Clamp(RawScore(lat, slip)) < score as real + 1.0
    ensures score == 100 <==> RawScore(lat, slip) >= 100.0
    ensures score == 0 <==> RawScore(lat, slip) < 1.0
  {
    Trunc(Clamp(RawScore(lat, slip)))
  }

  /** A slower or more slipping broker never scores higher. */
  lemma HealthScoreMonotone(lat1: real, slip1: real, lat2: real, slip2: real)
    requires lat1 <= lat2 && slip1 <= slip2
    ensures HealthScore(lat2, slip2) <= HealthScore(lat1, slip1)
  {
    assert RawScore(lat2, slip2) <= RawScore(lat1, slip1);
  }

  /** Red above 500 ms, yellow above 150 ms, green otherwise. */
  function TrafficLight(lat: real): (c: Light)
    ensures c == Red <==> lat > 500.0
    ensures c == Yellow <==> 150.0 < lat <= 500.0
    ensures c == Green <==> lat <= 150.0
  {
    if lat > 500.0 then Red else if lat > 150.0 then Yellow else Green
  }

  function Severity(c: Light): nat {
    match c
    case Green => 0
    case Yellow => 1
    case Red => 2
  }

  /** A slower broker's light is never less severe. */
  lemma TrafficLightMonotone(lat1: real, lat2: real)
    requires lat1 <= lat2
    ensures Severity(TrafficLight(lat1)) <= Severity(TrafficLight(lat2))
  {
  }

  /** The light and the score agree: a red broker with non-negative slippage scores below 50, a green one with none at least 85. */
  lemma LightAndScoreAgree(lat: real, slip: real)
    ensures TrafficLight(lat) == Red && slip >= 0.0 ==> HealthScore(lat, slip) < 50
    ensures TrafficLight(lat) == Green && lat >= 0.0 && slip == 0.0 ==> HealthScore(lat, slip) >= 85
  {
  }

  /** One loop iteration of the leaderboard: the row's averages, its score and its light. */
  function ScoreRow(g: GroupRow): (e: Entry)
    ensures e.broker == g.broker && e.volume == g.volume
    ensures 0 <= e.score <= 100
    ensures e.status == TrafficLight(OrZero(g.avgLat))
    ensures e.score == HealthScore(OrZero(g.avgLat), OrZero(g.avgSlip))
    ensures e.latency == Trunc(OrZero(g.avgLat)) && e.slippage == OrZero(g.avgSlip)
  {
    var lat := OrZero(g.avgLat);
    var slip := OrZero(g.avgSlip);
    Entry(g.broker, TrafficLight(lat), HealthScore(lat, slip), Trunc(lat), slip, g.volume)
  }
}
