/**
 The older single-file app's state handling: the history backfill with its
 60-day retention prune, the per-day record writer, the unmetered ADR price
 cache, and the retrying exchange quote. Each function is a transition of
 the JSON file it reads and writes.
 */
module Legacy {

  import opened Common
  import opened Fetchers
  import opened Snapshot
  import opened History
  import opened HistoryWindow
  import opened SeriesBackfill

  /** The `source` tag of records the backfill writes. */
  const HISTORICAL_FETCH: string := "historical_fetch"

  /** The backfill happens: it did not run today and a non-empty series came. */
  predicate Backfills(h: Store, today: Day, adrHistory: Option<seq<SeriesEntry>>) {
    !FetchedOn(h, today) && adrHistory.Some? && |adrHistory.value| > 0
  }

  /** What a backfill pass over `entries` leaves in `r`, starting from `h`:
      the sentinel is today and the clock reading is stored, no record older
      than the cutoff survives (a written day before it is dropped), other names, plain values and recent records
      keep their values, only written days and the two bookkeeping keys are
      new or changed, and each recent written day holds what some storable
      entry for it yields. */
  predicate PassOutcome(h: Store, r: Store, entries: seq<SeriesEntry>, rates: Option<map<Day, real>>,
                        today: Day, now: string)
  {
    var written := WrittenDays(entries, rates);
    var cutoff := today - RETENTION_DAYS;
    && FetchedOn(r, today)
    && LAST_FETCH_TIME in r && r[LAST_FETCH_TIME] == TextValue(now)
    && (forall k | k in r && k.DateKey? && r[k].Rec? :: k.day >= cutoff)
    && (forall d | d in written && d < cutoff :: DateKey(d) !in r)
    && (forall k | k in h && k != LAST_FETCH_DATE && k != LAST_FETCH_TIME
                   && !(k.DateKey? && k.day in written)
                   && (k.NameKey? || !h[k].Rec? || k.day >= cutoff) :: k in r && r[k] == h[k])
    && (forall k | k in r && k != LAST_FETCH_DATE && k != LAST_FETCH_TIME && !(k.DateKey? && k.day in written) ::
          k in h && r[k] == h[k])
    && (forall d | d in written && d >= cutoff ::
          && DateKey(d) in r
          && exists i | 0 <= i < |entries| ::
               entries[i].day == d && Storable(entries[i], rates)
               && r[DateKey(d)] == Rec(RecordFor(entries[i], rates, Some(HISTORICAL_FETCH))))
  }

  /** One pass: backfill, stamp the two bookkeeping keys, prune. */
  function BackfillPass(h: Store, entries: seq<SeriesEntry>, rates: Option<map<Day, real>>,
                        today: Day, now: string): Store
  {
    var filled := Backfill(h, entries, rates, Some(HISTORICAL_FETCH));
    var stamped := filled[LAST_FETCH_DATE := DateValue(today)][LAST_FETCH_TIME := TextValue(now)];
    PruneStaleRecords(stamped, today - RETENTION_DAYS)
  }

  /** The pass stamps both bookkeeping keys and leaves no stale record. */
  lemma PassBookkeeping(h: Store, entries: seq<SeriesEntry>, rates: Option<map<Day, real>>,
                        today: Day, now: string)
    ensures var r := BackfillPass(h, entries, rates, today, now);
            && FetchedOn(r, today)
            && LAST_FETCH_TIME in r && r[LAST_FETCH_TIME] == TextValue(now)
            && (forall k | k in r && k.DateKey? && r[k].Rec? :: k.day >= today - RETENTION_DAYS)
  {
    assert IsBookkeeping(LAST_FETCH_DATE) && IsBookkeeping(LAST_FETCH_TIME);
  }

  /** The pass keeps what it neither writes, stamps nor prunes. */
  lemma PassFrame(h: Store, entries: seq<SeriesEntry>, rates: Option<map<Day, real>>,
                  today: Day, now: string)
    ensures var r := BackfillPass(h, entries, rates, today, now);
            var written := WrittenDays(entries, rates);
            && (forall k | k in h && k != LAST_FETCH_DATE && k != LAST_FETCH_TIME
                           && !(k.DateKey? && k.day in written)
                           && (k.NameKey? || !h[k].Rec? || k.day >= today - RETENTION_DAYS) :: k in r && r[k] == h[k])
            && (forall k | k in r && k != LAST_FETCH_DATE && k != LAST_FETCH_TIME && !(k.DateKey? && k.day in written) ::
                  k in h && r[k] == h[k])
  {
    BackfillFrame(h, entries, rates, Some(HISTORICAL_FETCH));
  }

  /** Each recent written day survives the prune holding its record; an
      older one, being a record, is pruned. */
  lemma PassWrites(h: Store, entries: seq<SeriesEntry>, rates: Option<map<Day, real>>,
                   today: Day, now: string)
    ensures var r := BackfillPass(h, entries, rates, today, now);
            forall d | d in WrittenDays(entries, rates) && d >= today - RETENTION_DAYS ::
              && DateKey(d) in r
              && exists i | 0 <= i < |entries| ::
                   entries[i].day == d && Storable(entries[i], rates)
                   && r[DateKey(d)] == Rec(RecordFor(entries[i], rates, Some(HISTORICAL_FETCH)))
    ensures var r := BackfillPass(h, entries, rates, today, now);
            forall d | d in WrittenDays(entries, rates) && d < today - RETENTION_DAYS :: DateKey(d) !in r
  {
    BackfillWrites(h, entries, rates, Some(HISTORICAL_FETCH));
  }

  /** The pass does what `PassOutcome` says. */
  lemma BackfillPassOutcome(h: Store, entries: seq<SeriesEntry>, rates: Option<map<Day, real>>,
                            today: Day, now: string)
    ensures PassOutcome(h, BackfillPass(h, entries, rates, today, now), entries, rates, today, now)
  {
    PassBookkeeping(h, entries, rates, today, now);
    PassFrame(h, entries, rates, today, now);
    PassWrites(h, entries, rates, today, now);
  }

  /** The once-a-day history backfill. `rates` is the simulated rate map
      (`None` when there is no current rate to base it on). */
  function UpdateHistoricalCache(h: Store, today: Day, now: string, adrHistory: Option<seq<SeriesEntry>>,
                                 rates: Option<map<Day, real>>): (r: Store)
    // already ran today, or no series: nothing changes, not even the sentinel
    ensures !Backfills(h, today, adrHistory) ==> r == h
    // otherwise one pass over the first 30 entries
    ensures Backfills(h, today, adrHistory) ==>
      PassOutcome(h, r, Take(adrHistory.value, SERIES_LIMIT), rates, today, now)
  {
    if FetchedOn(h, today) then h
    else if adrHistory.None? || |adrHistory.value| == 0 then h
    else
      var entries := Take(adrHistory.value, SERIES_LIMIT);
      BackfillPassOutcome(h, entries, rates, today, now);
      BackfillPass(h, entries, rates, today, now)
  }

  /** At most one backfill a day: once it ran, later passes that day change
      nothing, whatever the series and rates would be. */
  lemma UpdateOncePerDay(h: Store, today: Day, now: string, later: string,
                         adrHistory: Option<seq<SeriesEntry>>, rates: Option<map<Day, real>>,
                         adrHistory2: Option<seq<SeriesEntry>>, rates2: Option<map<Day, real>>)
    requires Backfills(h, today, adrHistory)
    ensures var once := UpdateHistoricalCache(h, today, now, adrHistory, rates);
            UpdateHistoricalCache(once, today, later, adrHistory2, rates2) == once
  {
  }

  /** The app's historical view: backfill, then the 30-day window. */
  datatype HistoryView = HistoryView(store: Store, rows: Option<seq<Row>>)

  /** `get_historical_data`: the rows come from the store as the backfill
      left it, only complete records of the window, oldest first. */
  function GetHistoricalData(h: Store, today: Day, now: string, adrHistory: Option<seq<SeriesEntry>>,
                             rates: Option<map<Day, real>>): (r: HistoryView)
    ensures r.store == UpdateHistoricalCache(h, today, now, adrHistory, rates)
    // the projection raises exactly on a zero local price in the window
    ensures r.rows.None? <==> exists d | today - WINDOW_DAYS <= d < today :: ZeroPriced(r.store, d)
    ensures r.rows.Some? ==>
      && |r.rows.value| <= WINDOW_DAYS
      && (forall i | 0 <= i < |r.rows.value| ::
            && today - WINDOW_DAYS <= r.rows.value[i].day < today
            && Listed(r.store, r.rows.value[i].day)
            && Describes(r.rows.value[i], r.store[DateKey(r.rows.value[i].day)].record))
      && (forall i, j | 0 <= i < j < |r.rows.value| :: r.rows.value[i].day < r.rows.value[j].day)
      && (forall d | today - WINDOW_DAYS <= d < today && Listed(r.store, d) ::
            exists i | 0 <= i < |r.rows.value| :: r.rows.value[i].day == d)
  {
    var store := UpdateHistoricalCache(h, today, now, adrHistory, rates);
    WindowShape(store, today);
    HistoryView(store, Window(store, today))
  }

  /** `update_historical_record`: today's record, written only when all
      three prices are truthy, then every dated key before the cutoff goes. */
  function UpdateHistoricalRecord(h: Store, today: Day, now: string,
                                  adrPrice: Option<real>, twPrice: Option<real>, usdTwd: Option<real>): (r: Store)
    ensures !(Truthy(adrPrice) && Truthy(twPrice) && Truthy(usdTwd)) ==> r == h
    ensures Truthy(adrPrice) && Truthy(twPrice) && Truthy(usdTwd) ==>
      && DateKey(today) in r
      && r[DateKey(today)] == Rec(PriceRecord(adrPrice, twPrice, usdTwd, Some(Clock(now)), None))
      && (forall k | k in r && k.DateKey? :: k.day >= today - RETENTION_DAYS)
      && (forall k | k in h && k != DateKey(today) && (k.NameKey? || k.day >= today - RETENTION_DAYS) ::
            k in r && r[k] == h[k])
      && (forall k | k in r :: k in h || k == DateKey(today))
  {
    if !(Truthy(adrPrice) && Truthy(twPrice) && Truthy(usdTwd)) then h
    else
      var written := h[DateKey(today) := Rec(PriceRecord(adrPrice, twPrice, usdTwd, Some(Clock(now)), None))];
      PruneBefore(written, today - RETENTION_DAYS)
  }

  /** The ADR price lookup and the cache after it. */
  datatype AdrLookup = AdrLookup(cache: Cache, price: Option<real>)

  /** `get_cached_adr_price`: not quota-gated. A valid cache holding a price
      is served without a request; a fetched price overwrites only the date,
      the price and the update time; a failed fetch falls back to the cached
      price, which may be missing. */
  function GetCachedAdrPrice(cache: Cache, today: Day, now: string, reply: QuoteReply): (r: AdrLookup)
    ensures IsCacheValid(cache, today) && cache.adrPrice.Some? ==> r == AdrLookup(cache, cache.adrPrice)
    ensures !(IsCacheValid(cache, today) && cache.adrPrice.Some?) && QuotePrice(reply).Some? ==>
      && r.price == QuotePrice(reply)
      && r.cache.date == Some(today) && r.cache.adrPrice == r.price && r.cache.lastUpdated == Some(now)
      && r.cache.twPrice == cache.twPrice && r.cache.usdTwd == cache.usdTwd && r.cache.dataSource == cache.dataSource
    ensures QuotePrice(reply).None? ==> r == AdrLookup(cache, cache.adrPrice)
    ensures r.price.None? ==> cache.adrPrice.None?
  {
    if IsCacheValid(cache, today) && cache.adrPrice.Some? then
      AdrLookup(cache, cache.adrPrice)
    else
      match QuotePrice(reply)
      case Some(p) => AdrLookup(cache.(date := Some(today), adrPrice := Some(p), lastUpdated := Some(now)), Some(p))
      case None => AdrLookup(cache, cache.adrPrice)
  }

  /** After a fetched price, a second lookup the same day is served from the
      cache: no request is needed, whatever the reply would be. */
  lemma AdrCacheServesSameDay(cache: Cache, today: Day, now: string, later: string,
                              reply: QuoteReply, reply2: QuoteReply)
    requires !(IsCacheValid(cache, today) && cache.adrPrice.Some?) && QuotePrice(reply).Some?
    ensures var first := GetCachedAdrPrice(cache, today, now, reply);
            GetCachedAdrPrice(first.cache, today, later, reply2) == first
  {
  }

  /** `get_twse_price`: up to `maxRetry` requests, `replies[i]` being the
      answer to the i-th; the first usable price is returned. */
  method GetTwsePrice(maxRetry: int, replies: seq<TwseReply>, parse: string -> Option<real>)
    returns (price: Option<real>, attempts: nat)
    requires maxRetry <= |replies|
    ensures attempts <= (if maxRetry < 0 then 0 else maxRetry)
    ensures forall j | 0 <= j < attempts - 1 :: TwsePrice(replies[j], parse).None?
    ensures price.Some? ==> attempts >= 1 && price == TwsePrice(replies[attempts - 1], parse)
    ensures price.None? ==> attempts == (if maxRetry < 0 then 0 else maxRetry)
                            && forall j | 0 <= j < attempts :: TwsePrice(replies[j], parse).None?
  {
    attempts := 0;
    while attempts < maxRetry
      invariant attempts <= (if maxRetry < 0 then 0 else maxRetry)
      invariant forall j | 0 <= j < attempts :: TwsePrice(replies[j], parse).None?
      decreases maxRetry - attempts
    {
      var p := TwsePrice(replies[attempts], parse);
      attempts := attempts + 1;
      if p.Some? {
        return p, attempts;
      }
    }
    return None, attempts;
  }
}
