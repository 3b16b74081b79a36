/**
 The API server as a state machine. Its three JSON files (quota ledger, price
 snapshot, history) form one `State`; each request is a transition given
 today's date, the clock reading, and what the upstreams would answer.
 */
module Server {

  import opened Common
  import opened Quota
  import opened Fetchers
  import opened Snapshot
  import opened History
  import opened HistoryWindow
  import opened SeriesBackfill
  import opened Conversion

  /** The server's persisted state. */
  datatype State = State(usage: Usage, cache: Cache, history: Store)

  /** No files yet. */
  const INITIAL: State := State(map[], EMPTY_CACHE, map[])

  /** A record as the server's backfill writes it: the fixed rate 32.0, the
      local price estimated as adr * 5 * 32 / 32, stamped at the day's close. */
  predicate ServerBackfillRecord(d: Day, rec: PriceRecord) {
    && Complete(rec)
    && rec.usdTwd == Some(FALLBACK_RATE)
    && rec.twPrice.value == rec.adrPrice.value * SHARE_RATIO
    && rec.timestamp == Some(MarketClose(d))
    && rec.source.None?
  }

  /** The dated keys whose value differs between `h` and `r`. */
  function ChangedDays(h: Store, r: Store): set<Day> {
    set k | k in r.Keys && k.DateKey? && (k !in h || r[k] != h[k]) :: k.day
  }

  /** The once-a-day history backfill. The series is `None` when the request
      failed or the reply has no "Time Series (Daily)". */
  function FetchHistoricalData(h: Store, today: Day, series: Option<seq<SeriesEntry>>): (r: Store)
    ensures FetchedOn(h, today) || series.None? ==> r == h
    ensures series.Some? ==> FetchedOn(r, today)
    ensures forall k | k in h :: k in r
    ensures !FetchedOn(h, today) && series.Some? ==>
      forall k | k in r && k != LAST_FETCH_DATE && (k !in h || r[k] != h[k]) ::
        && k.DateKey?
        && k.day in WrittenDays(Take(series.value, SERIES_LIMIT), None)
        && r[k].Rec? && ServerBackfillRecord(k.day, r[k].record)
    ensures !FetchedOn(h, today) && series.Some? ==>
      forall d | d in WrittenDays(Take(series.value, SERIES_LIMIT), None) ::
        DateKey(d) in r && r[DateKey(d)].Rec? && ServerBackfillRecord(d, r[DateKey(d)].record)
    // each written day holds the record built from some parsable entry for it
    ensures !FetchedOn(h, today) && series.Some? ==>
      forall d | d in WrittenDays(Take(series.value, SERIES_LIMIT), None) ::
        exists i | 0 <= i < |Take(series.value, SERIES_LIMIT)| ::
          var e := Take(series.value, SERIES_LIMIT)[i];
          e.day == d && Storable(e, None) && r[DateKey(d)] == Rec(RecordFor(e, None, None))
  {
    if FetchedOn(h, today) then h
    else if series.None? then h
    else
      var entries := Take(series.value, SERIES_LIMIT);
      BackfillFrame(h, entries, None, None);
      BackfillWrites(h, entries, None, None);
      Backfill(h, entries, None, None)[LAST_FETCH_DATE := DateValue(today)]
  }

  /** A backfill writes at most 30 dated records. */
  lemma BackfillWritesAtMostThirty(h: Store, today: Day, series: Option<seq<SeriesEntry>>)
    ensures |ChangedDays(h, FetchHistoricalData(h, today, series))| <= SERIES_LIMIT
  {
    var r := FetchHistoricalData(h, today, series);
    if !FetchedOn(h, today) && series.Some? {
      var entries := Take(series.value, SERIES_LIMIT);
      var written := WrittenDays(entries, None);
      WrittenDaysBound(entries, None);
      assert ChangedDays(h, r) <= written;
      SubsetCardinality(ChangedDays(h, r), written);
    } else {
      assert ChangedDays(h, r) == {};
    }
  }

  /** A subset is no larger than its superset. */
  lemma SubsetCardinality<T>(a: set<T>, b: set<T>)
    requires a <= b
    ensures |a| <= |b|
  {
    assert b == a + (b - a);
  }

  /** At most one backfill a day: once it ran, the same day's later
      requests leave the history alone, whatever the series would say. */
  lemma BackfillOncePerDay(h: Store, today: Day, series: Option<seq<SeriesEntry>>, later: Option<seq<SeriesEntry>>)
    requires series.Some?
    ensures var once := FetchHistoricalData(h, today, series);
            FetchHistoricalData(once, today, later) == once
  {
  }

  /** The health report. */
  datatype HealthReport = HealthReport(
    callsToday: nat,
    limit: nat,
    remaining: int,
    cacheValid: bool,
    lastUpdated: Option<string>,
    cacheDate: Option<Day>)

  /** The health counters: calls made, the budget and what is left of it,
      and whether the snapshot is today's. */
  function HealthCheck(s: State, today: Day): (r: HealthReport)
    ensures r.limit == MAX_API_CALLS_PER_DAY && r.callsToday + r.remaining == r.limit
    ensures r.callsToday == CallsOn(s.usage, today)
    ensures r.remaining > 0 <==> CheckApiLimit(s.usage, today)
    ensures WithinLimit(s.usage) ==> 0 <= r.remaining <= r.limit
    ensures r.cacheValid <==> IsCacheValid(s.cache, today)
    ensures r.lastUpdated == s.cache.lastUpdated && r.cacheDate == s.cache.date
  {
    var callsToday := if today in s.usage then s.usage[today].calls else 0;
    HealthReport(callsToday, MAX_API_CALLS_PER_DAY, MAX_API_CALLS_PER_DAY - callsToday,
                 IsCacheValid(s.cache, today), s.cache.lastUpdated, s.cache.date)
  }

  /** A request the server answers. */
  datatype Request =
    | PricesRequest
    | ConvertRequest(adrPrice: real, usdTwd: real)
    | HistoricalRequest
    | HealthRequest

  /** Its answer; historical rows are `None` when the handler fails. */
  datatype Response =
    | PricesResponse(prices: PriceView)
    | ConvertResponse(result: Converted)
    | HistoricalResponse(rows: Option<seq<Row>>)
    | HealthResponse(report: HealthReport)

  /** One request with everything it depends on from outside. */
  datatype Event = Event(today: Day, now: string, request: Request, upstream: Upstream,
                         series: Option<seq<SeriesEntry>>)

  /** The state after a request, and the answer. */
  datatype Served = Served(state: State, response: Response)

  /** The conversion endpoint: it refreshes the prices as the prices
      endpoint does, then compares against the local price obtained. */
  function ConvertAdrToTw(s: State, adrPrice: real, usdTwd: real, today: Day, now: string,
                          up: Upstream, parse: string -> Option<real>): (r: Served)
    ensures r.response.ConvertResponse?
    ensures var prices := GetCachedPrices(s.usage, s.cache, today, now, up, parse);
            && r.state == s.(usage := prices.usage, cache := prices.cache)
            && r.response.result.convertedPrice * SHARE_RATIO == adrPrice * usdTwd
            && (r.response.result.compared.Some? <==> Truthy(prices.view.twPrice))
            && (r.response.result.compared.Some? ==>
                  var c := r.response.result.compared.value;
                  && c.twReferencePrice == prices.view.twPrice.value
                  && c.twReferencePrice + c.difference == r.response.result.convertedPrice
                  && c.differencePercent * c.twReferencePrice == c.difference * 100.0)
  {
    var prices := GetCachedPrices(s.usage, s.cache, today, now, up, parse);
    Served(s.(usage := prices.usage, cache := prices.cache),
           ConvertResponse(Convert(adrPrice, usdTwd, prices.view.twPrice)))
  }

  /** The historical endpoint: backfill, then project the window. */
  function GetHistoricalData(s: State, today: Day, series: Option<seq<SeriesEntry>>): (r: Served)
    ensures r.state == s.(history := FetchHistoricalData(s.history, today, series))
    ensures r.response.HistoricalResponse?
    // the request fails (HTTP 500) exactly on a zero local price in the window
    ensures r.response.rows.None? <==>
      exists d | today - WINDOW_DAYS <= d < today :: ZeroPriced(r.state.history, d)
    ensures r.response.rows.Some? ==>
      var rows := r.response.rows.value;
      && |rows| <= WINDOW_DAYS
      && (forall i | 0 <= i < |rows| ::
            && today - WINDOW_DAYS <= rows[i].day < today
            && Listed(r.state.history, rows[i].day)
            && Describes(rows[i], r.state.history[DateKey(rows[i].day)].record))
      && (forall i, j | 0 <= i < j < |rows| :: rows[i].day < rows[j].day)
      && (forall d | today - WINDOW_DAYS <= d < today && Listed(r.state.history, d) ::
            exists i | 0 <= i < |rows| :: rows[i].day == d)
  {
    var h := FetchHistoricalData(s.history, today, series);
    WindowShape(h, today);
    Served(s.(history := h), HistoricalResponse(Window(h, today)))
  }

  /** One request: the price endpoints touch only ledger and snapshot, the
      historical endpoint only the history, the health report nothing; each
      request gets the answer of its own kind. */
  function Step(s: State, e: Event, parse: string -> Option<real>): (r: Served)
    ensures e.request.PricesRequest? ==> r.response.PricesResponse? && r.response.prices.dataSource.None?
    ensures e.request.ConvertRequest? ==> r.response.ConvertResponse?
    ensures e.request.HistoricalRequest? ==> r.response.HistoricalResponse?
    ensures e.request.HealthRequest? ==> r == Served(s, HealthResponse(HealthCheck(s, e.today)))
    ensures e.request.PricesRequest? || e.request.ConvertRequest? ==>
      var p := GetCachedPrices(s.usage, s.cache, e.today, e.now, e.upstream, parse);
      r.state == State(p.usage, p.cache, s.history)
    ensures e.request.PricesRequest? ==>
      r.response.prices == Public(GetCachedPrices(s.usage, s.cache, e.today, e.now, e.upstream, parse).view)
    ensures e.request.HistoricalRequest? ==> r.state.usage == s.usage && r.state.cache == s.cache
    // the historical endpoint backfills, then answers the window of the backfilled history
    ensures e.request.HistoricalRequest? ==>
      && r.state.history == FetchHistoricalData(s.history, e.today, e.series)
      && r.response.rows == Window(r.state.history, e.today)
    // the conversion endpoint compares against the refreshed local price
    ensures e.request.ConvertRequest? ==>
      r.response.result == Convert(e.request.adrPrice, e.request.usdTwd,
                                   GetCachedPrices(s.usage, s.cache, e.today, e.now, e.upstream, parse).view.twPrice)
  {
    match e.request
    case PricesRequest =>
      var p := GetCachedPrices(s.usage, s.cache, e.today, e.now, e.upstream, parse);
      Served(s.(usage := p.usage, cache := p.cache), PricesResponse(Public(p.view)))
    case ConvertRequest(adr, usd) => ConvertAdrToTw(s, adr, usd, e.today, e.now, e.upstream, parse)
    case HistoricalRequest => GetHistoricalData(s, e.today, e.series)
    case HealthRequest => Served(s, HealthResponse(HealthCheck(s, e.today)))
  }

  /** Requests served one after the other. */
  function Run(s: State, events: seq<Event>, parse: string -> Option<real>): State
    decreases |events|
  {
    if |events| == 0 then s else Run(Step(s, events[0], parse).state, events[1..], parse)
  }

  /** The ledger's invariant: every day within budget, log in step. */
  ghost predicate LedgerOk(s: State) {
    WithinLimit(s.usage) && LogMatchesCount(s.usage)
  }

  /** Every request keeps the ledger's invariant. */
  lemma StepKeepsLedger(s: State, e: Event, parse: string -> Option<real>)
    requires LedgerOk(s)
    ensures LedgerOk(Step(s, e, parse).state)
  {
    if e.request.PricesRequest? || e.request.ConvertRequest? {
      RefreshKeepsLedger(s.usage, s.cache, e.today, e.now, e.upstream, parse);
    }
  }

  /** However many requests are served in sequence, on whatever days, no
      day ever records more than two quote calls. */
  lemma {:induction false} RunKeepsLedger(s: State, events: seq<Event>, parse: string -> Option<real>)
    requires LedgerOk(s)
    ensures LedgerOk(Run(s, events, parse))
    ensures forall d :: CallsOn(Run(s, events, parse).usage, d) <= MAX_API_CALLS_PER_DAY
    decreases |events|
  {
    if |events| > 0 {
      StepKeepsLedger(s, events[0], parse);
      RunKeepsLedger(Step(s, events[0], parse).state, events[1..], parse);
    }
  }

  /** From a fresh start, the quota holds for any sequence of requests. */
  lemma QuotaFromStart(events: seq<Event>, parse: string -> Option<real>, d: Day)
    ensures CallsOn(Run(INITIAL, events, parse).usage, d) <= MAX_API_CALLS_PER_DAY
  {
    RunKeepsLedger(INITIAL, events, parse);
  }
}
