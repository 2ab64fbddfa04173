/**
 * The two stored tables. Timestamps are instants in microseconds (the resolution
 * of Python's `datetime`); the telemetry table's surrogate `id` is left out
 * because nothing reads it beyond `COUNT(id)`, which equals the row count.
 */
module Models {
  /** A row of `global_telemetry`: one anonymous latency/slippage ping. */
  datatype TelemetryRow = TelemetryRow(
    broker: string,
    latencyMs: int,
    slippage: real,
    status: string,
    timestamp: int)

  /** A row of `trade_logs`: one trade reported by an authenticated user. */
  datatype TradeLogRow = TradeLogRow(
    id: nat,
    userId: string,
    symbol: string,
    side: string,
    qty: real,
    broker: string,
    latencyMs: int,
    slippage: real,
    status: string,
    timestamp: int)
}
