# TSMC ADR converter: quota-aware price cache and history store

This project models the state handling of a small service. The service converts
the price of TSMC's US depositary receipt (the ADR, symbol TSM) into an implied
Taiwan share price: ADR price / 5 × USD/TWD rate. It also tracks the spread
between that implied price and the Taiwan Stock Exchange (TWSE) price over time.
Two versions are modelled: the FastAPI server (`backend/api_server.py`) and the
older single-file Streamlit app (`legacy/tsmc_adr_converter.py`).

The model is written in functional style. Each JSON file is an immutable value:

- the quota ledger `api_usage_log.json` is `Quota.Usage`;
- the daily snapshot `daily_prices_cache.json` is `Snapshot.Cache`;
- the history `price_history_cache.json` is `History.Store`.

Loading a file means reading the value. Saving it means returning the new value.
Every state transition is a pure function. It takes today's date (a day
number), the clock reading (an opaque string) and what each upstream would
answer, and it returns the new state and the answer. Two loops are methods:
the window projection and the retrying exchange quote. The quote takes only
the replies to its attempts.

The upstream answers are plain inputs:

- the Alpha Vantage quote (`Fetchers.QuoteReply`);
- the TWSE quote (`Fetchers.TwseReply`);
- the Bank of Taiwan CSV body (`Option<string>`);
- the Alpha Vantage daily series (`Option<seq<SeriesEntry>>`);
- the app's simulated rate map (`Option<map<Day, real>>`).

Python's `float()` on a string becomes the parameter `parse: string -> Option<real>`.

Modules:

- `Common`: option type, days, constants (2 calls a day, ratio 5, 30-day window, 30 series entries, 60-day retention, rate 32.0).
- `Text`: `str.split`, `in`, `startswith`.
- `Quota`: the ledger (`check_api_limit`, `record_api_call`).
- `Fetchers`: the gated ADR fetch, TWSE field selection, the bank's CSV column.
- `Snapshot`: the daily snapshot and `get_cached_prices`.
- `Conversion`: the conversion and comparison arithmetic.
- `History`: store keys and values, and the two retention prunes.
- `HistoryWindow`: the 30-day window projection shared by both versions.
- `SeriesBackfill`: one backfill pass over the daily series, shared by both versions. The server's pass is the app's pass with no rate map and no `source` tag.
- `Server`: the API server as a state machine (`Step`, `Run`), its backfill, health report and endpoints.
- `Legacy`: the single-file app's backfill, record writer, ADR cache and retrying TWSE quote.

Modelling choices that a reader of the source should know:

- Dates are day numbers. ISO dates with four-digit years sort in the same order. A history key is `DateKey(day)` or `NameKey(name)`. Every name key the code writes (`last_fetch_date`, `last_fetch_time`) starts with a lower-case letter. In the string comparison `k >= cutoff` such a key is therefore above every ISO date, and `History.AtOrAfter` states exactly that.
- A JSON `null` and an absent key are both `None`. No writer in either version stores `null` for `adr_price`. So the app's `'adr_price' in cache` test coincides with "the cached price is present".
- The historical handlers divide by `tw_price`. A complete record with a zero local price raises `ZeroDivisionError`. The server turns that into HTTP 500; in the app it is uncaught. The model's window is `None` in that case.
- TWSE selection takes `z or p`. When `z` is the string `"-"`, `p` is not consulted and no price results. The model keeps this behaviour.
- `Legacy.GetTwsePrice` receives one reply per attempt. Its `requires maxRetry <= |replies|` only says that the caller provides enough replies.

Behaviour of the code worth knowing:

- The server's backfill looks up no per-date local price. It estimates `tw_price = adr * 5 * 32 / 32` and stores every entry whose close parses. Only the single-file app skips entries, when a rate is missing.
- The server prunes nothing after a backfill. The 60-day retention prune exists only in the single-file app.
- A quote call is recorded only after the reply decodes as JSON. A request that fails before that, or a body that is not JSON, consumes no quota.
- The quota check and the record are separate steps, not one atomic step.
- The conversion endpoint omits the comparison when the reference price is zero. The historical endpoint does not guard its division in that case.
- The prices endpoint answers through a response model without `data_source`, so that field is dropped from its answer.

## Model

| member | source | states |
|---|---|---|
| Quota.CheckApiLimit | backend/api_server.py:123-131 | A call is allowed iff today's count is below 2. A date with no record yet always allows a call. |
| Quota.RecordApiCall | backend/api_server.py:133-149 | Recording never refuses. It raises today's count by exactly one, appends exactly one log line `(api, now)`, returns the new count, adds only today's date and leaves every other date's record unchanged. |
| Quota.RecordKeepsLog | backend/api_server.py:139-146 | After a record, every day's log still has one line per counted call. |
| Quota.GatedRecordWithinLimit | backend/api_server.py:123-149 | A record made only while the gate is open never takes any day past the limit of 2. |
| Fetchers.FetchAdrPrice | backend/api_server.py:154-176 | When the limit is reached it records nothing and returns no price. Once a reply decodes, it records exactly one call, whether or not the reply holds "Global Quote". When the gate is open but the reply never decodes, the ledger is left exactly as it was. A count within the limit stays within the limit. Other dates are untouched. A price is returned iff the gate was open and the decoded reply carried it, and it is the reply's price. |
| Fetchers.FetchAdrKeepsLedger | backend/api_server.py:157-167 | The gated fetch preserves both ledger invariants: each day's count is within the limit, and the log has one line per call. |
| Fetchers.SelectPriceField | backend/api_server.py:185-189 | The TWSE field is `z` when `z` is non-empty, otherwise `p`. It is kept only when it is non-empty and not `"-"`, so a `z` of `"-"` yields nothing. |
| Fetchers.TwsePrice | backend/api_server.py:178-193 | A price comes only from a decoded payload with a first `msgArray` element and a usable selected field, and it is the parse of that field. |
| Fetchers.BotRate | backend/api_server.py:195-206 | A rate comes only from the first line containing "USD", from a row with more than 12 comma-separated fields, and it is the parse of field 12. Conversely that first USD line decides: field 12 is parsed when it exists, and otherwise no rate results. A body with no USD line yields no rate. |
| Fetchers.BotRateReadsColumn | backend/api_server.py:200-202 | A CSV body built from lines, whose first USD line is built from fields, yields the parse of its field 12 when it has more than 12 fields. This composes the row and column layout with `BotRate` and reads it back. |
| Fetchers.TwseReadsQuotedPrice | backend/api_server.py:185-189 | A quote built with a usable `z` yields the parse of `z`, whatever `p` is. With `z` missing or empty, a usable `p` is read. A `z` of `"-"` yields nothing. No reply, or no `msgArray` element, yields nothing. |
| Text.Split | backend/api_server.py:200-202 | `str.split`: at least one part, no part contains the separator, and joining the parts with the separator gives back the input. |
| Text.SplitJoin | backend/api_server.py:200-202 | Splitting a join of separator-free parts returns those parts, the inverse direction of `Split`'s round trip. |
| Text.FirstContaining | backend/api_server.py:200-201 | The first row containing the substring, or none exactly when no row contains it. |
| Snapshot.IsCacheValid | backend/api_server.py:100-103 | The snapshot is valid iff its date is today, whatever prices it holds. It has no contract of its own; its consequences are stated by `WrittenSnapshotValidOnlyToday` and `GetCachedPrices`. |
| Snapshot.GetCachedPrices | backend/api_server.py:208-262 | A valid cache is returned verbatim and the ledger is untouched. Otherwise only the gated ADR fetch touches the ledger. A fetched ADR price persists `{today, adr, tw, usd, now, fresh_api_call}` and returns the same values. A failed ADR fetch leaves the cache unchanged and returns the old ADR price, last update and date with the fresh TWSE price and rate, marked `cached_due_to_api_limit`. |
| Snapshot.WrittenSnapshotValidOnlyToday | backend/api_server.py:100-103 | A freshly written snapshot is valid on the day it was written and on no other day. |
| Snapshot.SecondCallSameDay | backend/api_server.py:210-219 | After a fresh refresh, a later request the same day leaves ledger and cache unchanged and answers the same prices, whatever the upstreams would say. |
| Snapshot.RefreshKeepsLedger | backend/api_server.py:224 | A refresh preserves both ledger invariants. |
| Snapshot.RefreshKeepsAdrPrice | backend/api_server.py:228-262 | A cache that holds an ADR price still holds one after any refresh. |
| Snapshot.ExhaustedQuotaScenario | backend/api_server.py:252-262 | Setup: two calls already made today and a stale cache at 150.0. The request returns 150.0 together with the freshly fetched local price and rate, marked `cached_due_to_api_limit`, and changes neither ledger nor cache. |
| Conversion.ConvertedPrice | backend/api_server.py:328 | The implied price times 5 equals ADR price times rate. |
| Conversion.Convert | backend/api_server.py:328-342 | The implied price is ADR / 5 × rate. A comparison is attached iff the reference price is truthy (present and non-zero). When attached, reference + difference = implied price and percent × reference = difference × 100. |
| Conversion.ConvertExample | backend/api_server.py:328 | 100 USD at 32 gives 640; against a reference of 600 the difference is 40 and the percentage 20/3. |
| HistoryWindow.RowOf | backend/api_server.py:369-381 | A row carries the record's three prices, `adr_in_twd × 5 = adr × usd`, `tw + difference = adr_in_twd` and `percent × tw = difference × 100`. |
| HistoryWindow.Rows | backend/api_server.py:362-381 | The projection of the days `lo` … `hi`-1. It has no contract of its own; its properties are `RowsFail`, `RowsSound` and `RowsComplete`. |
| HistoryWindow.RowsFail | backend/api_server.py:362-371 | The projection fails exactly when a listed day of the range has a zero local price. |
| HistoryWindow.RowsSound | backend/api_server.py:362-381 | Every row is a day of the range holding a complete record and described by the row. Rows are strictly increasing by day, at most one per day of the range. |
| HistoryWindow.RowsComplete | backend/api_server.py:366-368 | Every day of the range that holds a complete record has its row. |
| HistoryWindow.WindowShape | backend/api_server.py:358-383 | The window either fails exactly on a zero local price, or lists at most 30 rows, oldest first. Each row's date is in today-30 … today-1, and a date is listed iff it holds a complete record. |
| HistoryWindow.Window | backend/api_server.py:358-383 | The projection of today-30 … today-1. It has no contract of its own; its properties are `WindowShape`. |
| HistoryWindow.BuildWindow | backend/api_server.py:362-383 | The loop over `range(30, 0, -1)` computes exactly the window. |
| SeriesBackfill.RateFor | legacy/tsmc_adr_converter.py:132 | A missing or empty (falsy) rate map gives 32.0 for every day. Otherwise a day has a rate iff the map has it, and the rate is the map's value. |
| SeriesBackfill.RecordFor | legacy/tsmc_adr_converter.py:129-144 | A stored record is complete, carries the close and the day's rate, has `tw × 32 = adr × 5 × rate`, is stamped at that day's close and carries the given source tag. |
| SeriesBackfill.Backfill | legacy/tsmc_adr_converter.py:127-148 | The per-entry loop, shared with backend/api_server.py:283-298. It has no contract of its own; its properties are `BackfillFrame` and `BackfillWrites`. |
| SeriesBackfill.WrittenDaysMembers | legacy/tsmc_adr_converter.py:127-148 | A day is written iff some entry for it has a parsable close and a rate. |
| SeriesBackfill.WrittenDaysBound | legacy/tsmc_adr_converter.py:127 | A pass writes at most one day per entry processed. |
| SeriesBackfill.BackfillFrame | legacy/tsmc_adr_converter.py:147-148 | A pass removes no key. Every key other than a written day keeps its value, so a failing entry leaves no partial record. |
| SeriesBackfill.BackfillWrites | legacy/tsmc_adr_converter.py:138-144 | Every written day holds the complete record produced by some storable entry for that day. |
| History.PruneStaleRecords | legacy/tsmc_adr_converter.py:154-157 | Dated records before the cutoff are dropped. Name keys, plain values and records on or after the cutoff stay unchanged, and nothing else changes. |
| History.PruneBefore | legacy/tsmc_adr_converter.py:215-217 | Every dated key before the cutoff is dropped, record or not. Name keys and later dates stay unchanged. |
| Server.FetchHistoricalData | backend/api_server.py:264-306 | If the backfill already ran today, or no series came, the history is unchanged. Otherwise the sentinel becomes today and no key is removed. Every new or changed dated key is a written day among the first 30 entries, and every such day holds a complete record with rate 32.0, `tw = adr × 5`, a close-of-day stamp and no source tag. That record is the one built from some parsable entry for the day: its ADR price is that entry's close. |
| Server.BackfillWritesAtMostThirty | backend/api_server.py:283 | A backfill changes at most 30 dated keys. |
| Server.BackfillOncePerDay | backend/api_server.py:269-271 | Once the backfill ran, any later backfill the same day leaves the history unchanged. |
| Server.HealthCheck | backend/api_server.py:388-416 | Calls today + remaining = limit = 2. Remaining > 0 iff the gate is open, and under the ledger invariant 0 ≤ remaining ≤ 2. The report says the cache is valid iff its date is today and repeats its date and last update. |
| Server.ConvertAdrToTw | backend/api_server.py:325-350 | The conversion endpoint refreshes prices exactly as the prices endpoint does. It answers ADR / 5 × rate, with a comparison iff the refreshed local price is truthy. The comparison is made against that price: reference + difference = implied price, and percent × reference = difference × 100. |
| Server.GetHistoricalData | backend/api_server.py:353-385 | The endpoint backfills, then projects the window. It fails (HTTP 500) exactly when a complete record of today-30 … today-1 has a zero local price. Otherwise it answers at most 30 rows, oldest first. Each row is a date of the window holding a complete record in the backfilled store, with that record's prices and spread. Every such date has its row. |
| Server.Step | backend/api_server.py:315-385 | Each request gets an answer of its own kind. The prices and conversion endpoints change only the ledger and the snapshot, exactly as the refresh does. The prices answer is the refreshed view without its data source. The conversion answer compares against the refreshed local price. The historical endpoint changes only the history: it is replaced by the backfilled history, and the answer is that history's window. The health report changes nothing. |
| Server.StepKeepsLedger | backend/api_server.py:154-173 | Every request preserves the ledger invariants. |
| Server.RunKeepsLedger | backend/api_server.py:157-167 | Any sequence of requests preserves the ledger invariants, so no day ever records more than 2 quote calls. |
| Server.QuotaFromStart | backend/api_server.py:24 | From empty files, no sequence of requests records more than 2 quote calls on any day. |
| Legacy.UpdateHistoricalCache | legacy/tsmc_adr_converter.py:107-162 | If the backfill already ran today, or the series is missing or empty, the history is unchanged and the sentinel is not updated. Otherwise the sentinel is today and the clock reading is stored. No record older than today-60 remains, and no written day older than that remains in any form. Other names, plain values and recent records keep their values. Only written days and the two bookkeeping keys change. Each recent written day holds a record from a storable entry among the first 30. |
| Legacy.BackfillPass | legacy/tsmc_adr_converter.py:127-157 | One pass: the per-entry loop, the two bookkeeping keys, then the prune. It has no contract of its own; `BackfillPassOutcome` states what it does. |
| Legacy.PassBookkeeping | legacy/tsmc_adr_converter.py:150-157 | After a pass, `last_fetch_date` is today and `last_fetch_time` is the clock reading; both survive the prune. No dated record older than today-60 remains. |
| Legacy.PassFrame | legacy/tsmc_adr_converter.py:127-157 | A pass keeps every key it neither writes, stamps nor prunes. Every key it leaves is either one of those or unchanged from before. |
| Legacy.PassWrites | legacy/tsmc_adr_converter.py:138-157 | After a pass, every written day not older than today-60 holds the record built from some storable entry for it. Every written day older than that is gone, because it was written as a record and the prune drops it. |
| Legacy.BackfillPassOutcome | legacy/tsmc_adr_converter.py:127-157 | A pass has every property listed in `PassOutcome`: the three above together. |
| Legacy.UpdateOncePerDay | legacy/tsmc_adr_converter.py:112-114 | After a backfill pass, another pass the same day changes nothing. |
| Legacy.GetHistoricalData | legacy/tsmc_adr_converter.py:164-198 | The rows come from the store as the backfill left it. The view fails exactly when a complete record of the window has a zero local price. Otherwise the rows list only complete records of today-30 … today-1, oldest first, each with its spread relative to `tw_price`, and every such record has its row. |
| Legacy.UpdateHistoricalRecord | legacy/tsmc_adr_converter.py:200-219 | If any of the three prices is falsy, nothing changes. Otherwise today's record is written, every dated key before today-60 is dropped, name keys and later dates are kept, and no other key appears. |
| Legacy.GetCachedAdrPrice | legacy/tsmc_adr_converter.py:224-251 | A valid cache holding a price is served with no request. A fetched price overwrites only date, price and last update, and other cache fields are preserved. A failed fetch returns the cached price, possibly none, and changes nothing. No price results only when none was cached. |
| Legacy.AdrCacheServesSameDay | legacy/tsmc_adr_converter.py:229-241 | After a fetched price, a second lookup the same day is served from the cache. It returns the same price and the same cache, whatever the reply would have been. |
| Legacy.GetTwsePrice | legacy/tsmc_adr_converter.py:256-300 | At most `max_retry` attempts are made. A price is the first usable one, and every earlier attempt yielded nothing. No price means all `max_retry` attempts failed. |

## Left out

- Network calls, FastAPI routing, CORS and uvicorn are not modelled. Every upstream answer is an input. HTTP 500 is modelled only where the core's own arithmetic raises, which is the historical division.
- JSON file I/O is not modelled. The model assumes every save succeeds and every load reads the last saved value. In the source a failed save is logged, and the current answer is still returned. The saves open their file with `'w'` (backend/api_server.py:77, :95, :118), which truncates it before writing. So if `open` itself fails, the previous file stays. If `json.dump` fails after that, the file is left empty or partial. The next load then reads such a file as `{}` (:69-71, :110-112). For the usage file, that resets the ledger and reopens the quota gate. None of this is modelled.
- Python's `float()` parsing and IEEE floating point are not modelled. String parsing is the `parse` parameter, and prices are exact reals.
- The simulated rate generator `fetch_historical_exchange_rate` (legacy/tsmc_adr_converter.py:86-105) is random. Its output is the optional rate-map input instead.
- `fetch_historical_adr_data` (legacy/tsmc_adr_converter.py:69-84) is network plumbing. Its result is the optional series input.
- `get_cached_usd_twd` (legacy/tsmc_adr_converter.py:306-328) is not modelled. Its result, like the other two prices, is an argument of `Legacy.UpdateHistoricalRecord` (legacy/tsmc_adr_converter.py:348-353). That argument may be any optional price.
- The check-then-record race between concurrent requests is not modelled. Only sequential requests are modelled.
- Each request reads one `today` and one clock reading `now`. The source reads the clock separately in several places:
  - `check_api_limit` reads the date (backend/api_server.py:125);
  - `record_api_call` reads the date (:135) and the time for its log line (:136);
  - `get_cached_prices` reads the date (:230) and the time for `last_updated` (:231).

  So in the source the quota log line and the snapshot's `last_updated` are two slightly different instants. A request that spans midnight can check against one day and record against the next. The model gives all of these one date and one instant, and covers neither difference.
- The sleeps between TWSE attempts are not modelled. The stock id, which only forms the URL, is not modelled either.
- The formula and explanation strings and the root message are not modelled. The health report's constant `status` and `system_info` fields, and its `timestamp` (the clock reading), are not modelled either.
- The Streamlit and Plotly UI of both versions is not modelled. This includes the frontend's `call_api` URL fallback and the statistics summary.
- The bootstrap scripts `start.py` and `streamlit_app.py` are not modelled.
- Legacy.UpdateHistoricalCache: when the series holds the same date twice, the model does not say that the later entry wins. JSON objects cannot repeat a key, so this does not arise.
- SeriesBackfill.BackfillWrites: does not say which entry wins for a repeated date, for the same reason.
- Server.FetchHistoricalData: likewise does not say which entry wins for a repeated date; it says only that some storable entry for the day does.
