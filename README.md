# PnL Global Oracle: a Dafny model of the telemetry leaderboard

The service collects latency and slippage pings from trading bots,
tagged with the broker they went through. Anyone may post a ping; anyone
may read the public "global map", a leaderboard that groups the pings of the
last five minutes by broker and gives each broker a 0-100 health score and a
traffic-light colour. Holders of an API key (`sk_...`) may also store their own
trades and read them back, newest first.

This project models that core in Dafny and proves what it promises:

- `database.dfy`: choosing the database URL (default SQLite file, the
  `postgres://` to `postgresql://` rewrite) and the SQLite-only engine option.
- `auth.dfy`: the `X-Pro-Key` header check and the user id it yields.
- `ingest.dfy`: the store as a class whose two tables are sequences, with the
  two write endpoints appending to them.
- `aggregation.dfy`: the windowed `GROUP BY` query as a pure function over the
  telemetry table.
- `scoring.dfy`: health score, traffic light and the leaderboard entry.
- `global_map.dfy`: the endpoint's loop over the query rows and the final
  sort by score.
- `trade_logs.dfy`: the per-user log query and its endpoint.
- `strings.dfy`, `seqs.dfy`, `sorting.dfy`, `wrappers.dfy`: the Python string
  methods, SQL filtering, Python's stable `sorted` and Option/Result.

Timestamps are integers counting microseconds; Python floats are reals; the
store is a sequence of rows in insertion order. The current time and the
`DATABASE_URL` environment variable are parameters.

Notable properties of the code as written, proved here:

- The API key is never looked up. Any header `sk_<id>` whose `<id>` has no `_`
  is accepted as user `<id>`, so anyone can read any user's trade log
  (`TradeLogs.ForgedKeyReadsAnyUser`). For an issued key `sk_live_<hex>` the
  user id is the random hex part, not the user id stored with the key.
- A broker with a single recent ping is listed. The code has no
  minimum-sample threshold and the model has none either.

## Model

| member | source | states |
|---|---|---|
| `Strings.Find` | database.py:12-13 | the first index at which the pattern occurs, or none if it never occurs |
| `Strings.OccursAtShift` | database.py:12-13 | proof helper for `Find`: an occurrence at `j + 1` in `s` is an occurrence at `j` in `s[1..]` |
| `Strings.Contains` | database.py:16 | Python's `sub in s` holds iff the substring occurs at some index |
| `Strings.ReplaceFirst` | database.py:12-13 | `replace(pat, repl, 1)` leaves a string without `pat` unchanged; on a string starting with `pat` it yields `repl` followed by the rest; length changes by `|repl| - |pat|` |
| `Strings.Split` | main.py:58 | `split('_')` yields at least one piece and no piece contains the separator |
| `Strings.JoinSplit` | main.py:58 | joining the pieces of `split` with the separator gives back the original string |
| `Strings.SplitLast` | main.py:58 | the last piece of `split` is a suffix, preceded by the separator when the string contains it, and the whole string otherwise |
| `Strings.LastPiece` | main.py:58 | `split('_')[-1]` has no `_`, is a suffix of the key and is the text after the key's last `_` |
| `Strings.Lower` | main.py:95 | `lower()` keeps the length, maps each character through ASCII lower-casing, and leaves no upper-case letter |
| `Strings.LowerIdempotent` | main.py:95 | lower-casing twice equals lower-casing once |
| `Seqs.Filter` | main.py:121-122 | a `WHERE` filter keeps only rows that satisfy the condition, at most as many as there were, and no row that was not there |
| `Seqs.FilterCount` | main.py:121-122 | every copy of a row that satisfies the condition is kept, and no copy of one that does not |
| `Seqs.FilterAppend` | main.py:121-122 | filtering a concatenation equals concatenating the filtered parts |
| `Seqs.SumBounds` | main.py:118-119 | a sum of `n` values in `[lo, hi]` lies in `[n*lo, n*hi]` |
| `Sorting.Insert` | main.py:155 | insertion adds exactly the one element and keeps a descending sequence descending |
| `Sorting.SortedCons` | main.py:155 | a descending sequence stays descending under a new head whose key is at least the old head's key |
| `Sorting.SortDesc` | main.py:155 | `sorted(..., reverse=True)` returns a permutation of its input ordered by non-increasing key |
| `Sorting.WithKeyCons` | main.py:155 | proof helper for stability: the equal-key sublist of `[x] + s` is `x`, when its key matches, followed by that of `s` |
| `Sorting.InsertStable` | main.py:155 | an inserted element comes first among the elements with its key |
| `Sorting.SwapDisjoint` | main.py:155 | proof helper for stability: two elements with different keys never both occur in one equal-key sublist |
| `Sorting.SortDescStable` | main.py:155 | the sort is stable: for every key, the elements with that key keep their input order |
| `Sorting.SortKeepsDistinct` | main.py:155 | sorting makes no two elements agree on a field on which none agreed before |
| `Sorting.InsertKeepsDistinct` | main.py:155 | inserting an element whose field differs from all others keeps the field distinct |
| `Sorting.DistinctCons` | main.py:155 | a new head keeps a sequence distinct on a field iff its field differs from every other element's |
| `Database.ConfiguredUrl` | database.py:8 | the URL is the environment variable's value when it is set and `sqlite:///./pnl.db` otherwise |
| `Database.NormalizeUrl` | database.py:10-13 | a URL not starting with `postgres://` is unchanged; one that does becomes `postgresql://` followed by the same remainder, two characters longer; no result starts with `postgres://` |
| `Database.NormalizeIdempotent` | database.py:11-13 | normalising twice equals normalising once |
| `Database.Engine` | database.py:16-21 | `check_same_thread` is passed, as false, iff the normalised URL contains `sqlite`; no other connect argument is ever passed |
| `Database.DefaultEngineIsSqlite` | database.py:8-18 | with no environment variable the engine uses the SQLite file with `check_same_thread` off |
| `Database.ShortPostgresEngine` | database.py:11-21 | a `postgres://` URL without `sqlite` in it becomes `postgresql://` with the same remainder and gets no connect arguments |
| `Auth.VerifyKey` | main.py:55-58 | a missing, empty or non-`sk_` key is rejected with 401 "Invalid API Key"; an accepted key yields the text after its last `_`, which has no `_` and ends the key |
| `Auth.IssuedKeyResolvesToHex` | admin_create_key.py:13-14 | a key in the issued format `sk_live_<24 hex digits>` yields exactly its hex part |
| `Auth.BarePrefixResolvesToEmpty` | main.py:56-58 | the key `sk_` is accepted and yields the empty user id |
| `Auth.AnyUserIdCanBeClaimed` | main.py:55-58 | for any id without `_`, the key `sk_` followed by the id is accepted as that id |
| `Aggregation.Window` | main.py:113-122 | the `WHERE` clause keeps only rows not older than five minutes, taken from the table, at most as many as it holds |
| `Aggregation.WindowBoundary` | main.py:113-122 | the cut-off `timestamp >= now - 5 min` is inclusive: a ping exactly five minutes old counts, one a microsecond older does not, a future-dated one does |
| `Aggregation.WindowCount` | main.py:113-122 | the window holds every copy of each row with `timestamp >= now - 5 min` and no copy of an older row |
| `Aggregation.WindowMembers` | main.py:113-122 | a row is in the window iff it is stored and not older than five minutes |
| `Aggregation.Brokers` | main.py:123 | the group keys are distinct, every row's broker is among them, and each of them is some row's broker |
| `Aggregation.Avg` | main.py:118-119 | SQL `AVG` is NULL exactly on no rows; otherwise the average times the count is the sum |
| `Aggregation.AvgBounds` | main.py:118-119 | an average lies between any lower and upper bound of its values |
| `Aggregation.DivMonotone` | main.py:118-119 | arithmetic helper for `AvgBounds`: dividing by a positive count preserves order |
| `Aggregation.GroupOf` | main.py:117-120 | one broker's `SELECT` row: its volume is the number of that broker's rows, both averages are NULL exactly when it has none, and each average times the volume is the sum of the latencies or slippages |
| `Aggregation.Aggregate` | main.py:116-123 | every result row is the `GroupOf` its broker over the rows of the last five minutes, so its averages are means over exactly those pings |
| `Aggregation.OfBrokerNonEmpty` | main.py:123 | a broker with a row in the window has a non-empty group |
| `Aggregation.AggregateBrokersDistinct` | main.py:116-123 | the query yields at most one row per broker |
| `Aggregation.AggregateCoversWindow` | main.py:116-123 | every broker with a ping in the last five minutes has a result row |
| `Aggregation.AggregateRowNonEmpty` | main.py:116-123 | every result row counts at least one recent ping of its broker, so both averages are present |
| `Aggregation.GroupLatencyBounds` | main.py:116-123 | a row's volume is the number of its broker's recent pings, and its average latency lies within any bounds on those pings' latencies |
| `Aggregation.GroupSlippageBounds` | main.py:116-123 | a row's average slippage is present and lies within any bounds on its broker's recent pings' slippages |
| `Aggregation.TotalVolumeOfGroups` | main.py:120 | the total volume of the groups for some brokers is the number of rows counted under those brokers |
| `Aggregation.OfBrokerAppend` | main.py:123 | appending a row extends exactly its own broker's group |
| `Aggregation.CountUnderAppend` | main.py:120 | an appended row is counted once under distinct brokers that include its own, and not at all otherwise |
| `Aggregation.CountUnderAll` | main.py:120 | counting rows under a distinct list of brokers covering all of them counts each row once |
| `Aggregation.CountUnderEmpty` | main.py:120 | base-case helper for `CountUnderAll`: no rows count zero under any brokers |
| `Aggregation.VolumesSumToWindow` | main.py:116-123 | the volumes add up to the number of pings in the window |
| `Scoring.OrZero` | main.py:130-132 | a missing (NULL) or zero average reads as 0.0, any other as itself |
| `Scoring.Trunc` | main.py:136 | `int()` truncates toward zero: the floor for non-negative values, the ceiling for negative ones |
| `Scoring.Clamp` | main.py:136 | `max(0, min(100, x))` lies in 0..100, is `x` exactly when `x` is in range, 0 below it and 100 above it |
| `Scoring.RawScore` | main.py:135 | the unclamped score is at most 100 exactly when the combined latency and slippage penalty is non-negative |
| `Scoring.RawScorePenalties` | main.py:135 | every 10 ms of average latency and every 0.001 of average slippage costs exactly one point |
| `Scoring.HealthScore` | main.py:134-136 | the score is an integer in 0..100, the clamped `100 - lat/10 - slip*1000` rounded down; 100 iff the raw score reaches 100, 0 iff it is below 1 |
| `Scoring.HealthScoreMonotone` | main.py:135-136 | the score never increases when latency or slippage increases |
| `Scoring.TrafficLight` | main.py:139-143 | red iff latency > 500, yellow iff 150 < latency <= 500, green iff latency <= 150 |
| `Scoring.TrafficLightMonotone` | main.py:139-143 | a higher latency never gives a less severe light |
| `Scoring.LightAndScoreAgree` | main.py:134-143 | a red broker with non-negative slippage scores below 50; a green one with non-negative latency and zero slippage scores at least 85 |
| `Scoring.ScoreRow` | main.py:128-152 | an entry keeps its row's broker and volume; its light, score and integer latency are those of the row's averages, NULL read as 0.0 |
| `GlobalMap.Entries` | main.py:125-152 | the loop yields one entry per query row, in query order |
| `GlobalMap.Leaderboard` | main.py:107-155 | the result is a permutation of the per-broker entries with non-increasing scores |
| `GlobalMap.LeaderboardStable` | main.py:155 | entries with equal scores keep the order the query produced |
| `GlobalMap.LeaderboardBrokersDistinct` | main.py:116-155 | no broker is listed twice |
| `GlobalMap.LeaderboardEntryValid` | main.py:116-155 | every listed broker pinged in the last five minutes, has volume at least 1 and a score in 0..100 |
| `GlobalMap.LeaderboardCoversWindow` | main.py:116-155 | every broker that pinged in the last five minutes is listed |
| `GlobalMap.GetGlobalMap` | main.py:107-155 | the loop and the sort return exactly the leaderboard: a permutation of the entries, sorted by score, one per broker |
| `TradeLogs.NewestFirst` | main.py:162 | `ORDER BY timestamp DESC` over the user's rows: a permutation of exactly those rows with non-increasing timestamps |
| `TradeLogs.QueryLogs` | main.py:162 | at most `limit` rows, exactly `min(limit, user's row count)`, all with the caller's user id, timestamps non-increasing, all taken from the table |
| `TradeLogs.QueryLogsFacts` | main.py:162 | a prefix of the user's sorted rows holds only the user's rows and only stored rows |
| `TradeLogs.QueryLogsIsPrefix` | main.py:162 | the query returns a prefix of the user's rows sorted newest first |
| `TradeLogs.QueryLogsKeepsNewest` | main.py:162 | a row of the user that is left out is no newer than any row returned |
| `TradeLogs.PrefixKeepsNewest` | main.py:162 | in a descending sequence, an element outside a prefix is no newer than any element inside it |
| `TradeLogs.GetLogs` | main.py:160-162 | a bad key is rejected with 401 exactly when `verify_key` rejects it; otherwise the result is the query for the user id the key yields, so every returned row belongs to that user |
| `TradeLogs.DefaultPage` | main.py:161-162 | a call without `limit` returns the caller's 50 newest trades, or all of them when there are fewer |
| `TradeLogs.ForgedKeyReadsAnyUser` | main.py:160-162 | the key `sk_` followed by any id without `_` returns that user's trades |
| `Ingest.Ping` | main.py:94-99 | the stored ping's broker is the sent broker lower-cased character by character (same length, no upper-case letter left) and latency, slippage and status as sent |
| `Ingest.LogRow` | main.py:167 | the stored trade row carries the key's user id, its id and the time, and gives back exactly the trade that was sent |
| `Ingest.Store.constructor` | main.py:13 | a fresh store has both tables empty |
| `Ingest.Store.SubmitTelemetry` | main.py:89-102 | the telemetry table grows by exactly the one ping; existing rows and the trade table are unchanged |
| `Ingest.Store.LogTrade` | main.py:165-171 | a bad key is rejected with 401 and nothing is stored; otherwise exactly one row is added under the key's user id and its id is returned |
| `Ingest.WindowAfterPing` | main.py:94-123 | a ping received in the last five minutes joins the window once, at its end; an older one does not |
| `Ingest.SubmittedPingCountedOnce` | main.py:94-123 | a recent ping raises its lower-cased broker's count by exactly one |
| `Ingest.SubmittedPingLeavesOthers` | main.py:94-123 | a ping leaves every other broker's recent pings unchanged |

## Left out

- HTTP and framework plumbing: the FastAPI app, routing, CORS, the static-file mount (main.py:17-33, which uses `os` and `logger` without importing them), the `get_db` session lifecycle and the constant `GET /` response.
- Request validation by pydantic (the 422 responses for malformed bodies): payloads are modelled as already well-typed values.
- SQLAlchemy itself: engine and session objects, `commit`, `refresh`. The store is a class whose two tables are sequences.
- admin_create_key.py: random key generation, SHA-256 hashing, the database write and console output are foreign calls. Only the key format `sk_live_<24 hex>` is used, as an input to the key check.
- The `ApiKeyDB` table that admin_create_key.py imports is not part of this model; the key check never reads it.
- Floating-point rounding: averages, scores and slippage are exact reals. The display rounding `float(f"{slip:.5f}")` is not modelled, so an entry carries the exact average slippage.
- The database's `AVG` result type (float in SQLite, numeric in Postgres) is modelled as a real.
- Scoring.ScoreRow: entries carry the exact slippage, not the five-decimal value shown to clients.
- Strings.Lower: lower-cases ASCII letters only; Python's `str.lower` also maps non-ASCII letters.
- SQL leaves the order of `GROUP BY` rows open; the model lists groups in order of each broker's first recent ping. Ties in the final sort follow that order.
- SQL leaves the order of trade rows with equal timestamps open; the model keeps insertion order.
- TradeLogs.QueryLogs: a negative `limit` returns all the user's rows, as SQLite does; Postgres would reject the query instead.
- Trade ids are modelled as positions in the table counting from 1, as a fresh autoincrement column without deletions assigns them. The telemetry `id` column is left out; `COUNT(id)` equals the row count because ids are never NULL.
- Concurrency: concurrent requests and interleaved appends are not modelled; each operation runs alone.
- The current time (`datetime.utcnow()`) and the `DATABASE_URL` variable are parameters.
- The service has no percentile, jitter, Hurst-exponent, risk-score or routing logic in main.py or database.py, so none is modelled.
