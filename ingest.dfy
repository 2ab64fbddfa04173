/** The two write endpoints, `POST /v1/telemetry` and `POST /v1/log_trade`, over an append-only store. */
module Ingest {
  import opened Wrappers
  import opened Models
  import opened Strings
  import opened Seqs
  import opened Auth
  import opened Aggregation

  /** The body of `POST /v1/telemetry`. */
  datatype TelemetryPayload = TelemetryPayload(broker: string, latencyMs: int, slippage: real, status: string)

  /** The body of `POST /v1/log_trade`. */
  datatype TradeLog = TradeLog(
    symbol: string, side: string, qty: real, broker: string,
    latencyMs: int, slippage: real, status: string)

  /** The row stored for a ping received at `now`: the broker lower-cased, the measurements as sent. */
  function Ping(p: TelemetryPayload, now: int): (row: TelemetryRow)
    ensures |row.broker| == |p.broker| && forall i :: 0 <= i < |row.broker| ==> !IsUpper(row.broker[i])
    ensures forall i :: 0 <= i < |p.broker| ==> row.broker[i] == LowerChar(p.broker[i])
    ensures row.latencyMs == p.latencyMs && row.slippage == p.slippage && row.status == p.status
    ensures row.timestamp == now
  {
    TelemetryRow(Lower(p.broker), p.latencyMs, p.slippage, p.status, now)
  }

  /** The row stored for a trade: the trade as sent, plus the caller's user id, its id and its time. */
  function LogRow(log: TradeLog, userId: string, id: nat, now: int): (row: TradeLogRow)
    ensures TradeOf(row) == log
    ensures row.userId == userId && row.id == id && row.timestamp == now
  {
    TradeLogRow(id, userId, log.symbol, log.side, log.qty, log.broker,
                log.latencyMs, log.slippage, log.status, now)
  }

  /** The trade a stored row was made from: the row without its id, user id and time. */
  function TradeOf(row: TradeLogRow): TradeLog {
    TradeLog(row.symbol, row.side, row.qty, row.broker, row.latencyMs, row.slippage, row.status)
  }

  /** The database: both tables as sequences in insertion order. */
  class Store {
    var telemetry: seq<TelemetryRow>
    var tradeLogs: seq<TradeLogRow>

    constructor ()
      ensures telemetry == [] && tradeLogs == []
    {
      telemetry := [];
      tradeLogs := [];
    }

    /** Adds exactly one ping; existing rows and the trade log are untouched. */
    method SubmitTelemetry(p: TelemetryPayload, now: int)
      modifies this
      ensures telemetry == old(telemetry) + [Ping(p, now)]
      ensures tradeLogs == old(tradeLogs)
    {
      telemetry := telemetry + [Ping(p, now)];
    }

    /**
     * Rejects a bad key with 401 and stores nothing; otherwise adds one trade
     * under the user id the key yields and returns its id (ids count from 1).
     */
    method LogTrade(log: TradeLog, key: Option<string>, now: int) returns (res: Result<nat, HttpError>)
      modifies this
      ensures telemetry == old(telemetry)
      ensures VerifyKey(key).Failure? ==> res == Failure(InvalidKey) && tradeLogs == old(tradeLogs)
      ensures VerifyKey(key).Success? ==>
        res == Success(|old(tradeLogs)| + 1)
        && tradeLogs == old(tradeLogs) + [LogRow(log, VerifyKey(key).value, |old(tradeLogs)| + 1, now)]
    {
      match VerifyKey(key)
      case Failure(e) =>
        res := Failure(e);
      case Success(userId) =>
        var id := |tradeLogs| + 1;
        tradeLogs := tradeLogs + [LogRow(log, userId, id, now)];
        res := Success(id);
    }
  }

  /** A recent ping joins the window once, at its end; an older one does not. */
  lemma WindowAfterPing(rows: seq<TelemetryRow>, p: TelemetryPayload, received: int, now: int)
    ensures var ping := Ping(p, received);
      Window(rows + [ping], now) == Window(rows, now) + (if InWindow(ping, now) then [ping] else [])
  {
    var ping := Ping(p, received);
    FilterAppend(rows, [ping], Since(now));
    assert [ping][1..] == [];
  }

  /**
   * A ping received within the last five minutes is counted exactly once, under
   * its lower-cased broker, and every other broker's count is unchanged.
   */
  lemma {:induction false} SubmittedPingCountedOnce(rows: seq<TelemetryRow>, p: TelemetryPayload, received: int, now: int)
    requires now - FiveMinutes <= received
    ensures var after := Window(rows + [Ping(p, received)], now);
      |OfBroker(after, Lower(p.broker))| == |OfBroker(Window(rows, now), Lower(p.broker))| + 1
  {
    var ping := Ping(p, received);
    WindowAfterPing(rows, p, received, now);
    assert ping.broker == Lower(p.broker);
    OfBrokerAppend(Window(rows, now), ping, Lower(p.broker));
  }

  /** A ping leaves every other broker's recent pings as they were. */
  lemma {:induction false} SubmittedPingLeavesOthers(rows: seq<TelemetryRow>, p: TelemetryPayload, received: int, now: int, b: string)
    requires b != Lower(p.broker)
    ensures OfBroker(Window(rows + [Ping(p, received)], now), b) == OfBroker(Window(rows, now), b)
  {
    var ping := Ping(p, received);
    var w := Window(rows, now);
    WindowAfterPing(rows, p, received, now);
    assert ping.broker == Lower(p.broker);
    if InWindow(ping, now) {
      OfBrokerAppend(w, ping, b);
      assert OfBroker(w, b) + [] == OfBroker(w, b);
    } else {
      assert w + [] == w;
    }
  }
}
