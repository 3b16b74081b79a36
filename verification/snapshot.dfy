/**
 The shared daily price snapshot and the refresh that decides, per request,
 whether to serve it, to fetch a fresh one, or to merge the old ADR price
 with freshly fetched local price and rate.
 */
module Snapshot {

  import opened Common
  import opened Quota
  import opened Fetchers

  /** Where a served snapshot came from. */
  datatype DataSource = FreshApiCall | CachedDueToApiLimit

  /** The daily price cache file. Every field may be missing; `{}` (no file
      yet) is `EMPTY_CACHE`. */
  datatype Cache = Cache(
    date: Option<Day>,
    adrPrice: Option<real>,
    twPrice: Option<real>,
    usdTwd: Option<real>,
    lastUpdated: Option<string>,
    dataSource: Option<DataSource>)

  const EMPTY_CACHE: Cache := Cache(None, None, None, None, None, None)

  /** A cache is valid exactly on the day it was written; missing prices do
      not make it invalid. */
  predicate IsCacheValid(cache: Cache, today: Day) {
    cache.date == Some(today)
  }

  /** The prices a request is answered with. `dataSource` is `None` when the
      answer is the stored snapshot served as is. */
  datatype PriceView = PriceView(
    adrPrice: Option<real>,
    twPrice: Option<real>,
    usdTwd: Option<real>,
    lastUpdated: Option<string>,
    cacheDate: Option<Day>,
    dataSource: Option<DataSource>)

  /** What each upstream would answer if asked during this request. */
  datatype Upstream = Upstream(adr: QuoteReply, twse: TwseReply, bot: Option<string>)

  /** The ledger and cache after a refresh, and the answer. */
  datatype Refresh = Refresh(usage: Usage, cache: Cache, view: PriceView)

  /** The stored snapshot as an answer. */
  function StoredView(cache: Cache): PriceView {
    PriceView(cache.adrPrice, cache.twPrice, cache.usdTwd, cache.lastUpdated, cache.date, None)
  }

  /** The answer without its data source, as the prices endpoint's response
      model drops that field. */
  function Public(v: PriceView): PriceView {
    v.(dataSource := None)
  }

  /** The refresh orchestrator. */
  function GetCachedPrices(usage: Usage, cache: Cache, today: Day, now: string,
                           up: Upstream, parse: string -> Option<real>): (r: Refresh)
    // a valid cache is served verbatim and nothing is fetched or recorded
    ensures IsCacheValid(cache, today) ==> r == Refresh(usage, cache, StoredView(cache))
    // otherwise the ADR fetch is the only thing that touches the ledger
    ensures !IsCacheValid(cache, today) ==> r.usage == FetchAdrPrice(usage, today, now, up.adr).usage
    // a fetched ADR price is persisted together with the fresh local price and rate
    ensures !IsCacheValid(cache, today) && FetchAdrPrice(usage, today, now, up.adr).price.Some? ==>
      && r.cache == Cache(Some(today), FetchAdrPrice(usage, today, now, up.adr).price,
                          TwsePrice(up.twse, parse), BotRate(up.bot, parse), Some(now), Some(FreshApiCall))
      && r.view == StoredView(r.cache).(dataSource := Some(FreshApiCall))
    // a failed ADR fetch persists nothing and merges old ADR data with fresh local data
    ensures !IsCacheValid(cache, today) && FetchAdrPrice(usage, today, now, up.adr).price.None? ==>
      && r.cache == cache
      && r.view == PriceView(cache.adrPrice, TwsePrice(up.twse, parse), BotRate(up.bot, parse),
                             cache.lastUpdated, cache.date, Some(CachedDueToApiLimit))
  {
    if IsCacheValid(cache, today) then
      Refresh(usage, cache, StoredView(cache))
    else
      var adr := FetchAdrPrice(usage, today, now, up.adr);
      var tw := TwsePrice(up.twse, parse);
      var usd := BotRate(up.bot, parse);
      if adr.price.Some? then
        var written := Cache(Some(today), adr.price, tw, usd, Some(now), Some(FreshApiCall));
        Refresh(adr.usage, written, PriceView(adr.price, tw, usd, Some(now), Some(today), Some(FreshApiCall)))
      else
        Refresh(adr.usage, cache, PriceView(cache.adrPrice, tw, usd, cache.lastUpdated, cache.date,
                                            Some(CachedDueToApiLimit)))
  }

  /** A snapshot written by a refresh is valid on that day and on no other,
      so a fresh fetch happens at most once a day and again on the next. */
  lemma WrittenSnapshotValidOnlyToday(usage: Usage, cache: Cache, today: Day, now: string,
                                      up: Upstream, parse: string -> Option<real>, d: Day)
    requires GetCachedPrices(usage, cache, today, now, up, parse).view.dataSource == Some(FreshApiCall)
    ensures IsCacheValid(GetCachedPrices(usage, cache, today, now, up, parse).cache, d) <==> d == today
  {
  }

  /** A persisted snapshot always carries an ADR price, whatever the
      refresh did, provided the stored one did. */
  lemma RefreshKeepsAdrPrice(usage: Usage, cache: Cache, today: Day, now: string,
                             up: Upstream, parse: string -> Option<real>)
    requires cache.adrPrice.Some?
    ensures GetCachedPrices(usage, cache, today, now, up, parse).cache.adrPrice.Some?
  {
  }

  /** Same-day idempotence: once a refresh wrote a fresh snapshot, a later
      request that day makes no call, leaves ledger and cache alone, and
      gets the same prices, whatever the upstreams would answer. */
  lemma {:induction false} SecondCallSameDay(usage: Usage, cache: Cache, today: Day, now: string, later: string,
                                             up: Upstream, up2: Upstream, parse: string -> Option<real>)
    requires GetCachedPrices(usage, cache, today, now, up, parse).view.dataSource == Some(FreshApiCall)
    ensures var first := GetCachedPrices(usage, cache, today, now, up, parse);
            var second := GetCachedPrices(first.usage, first.cache, today, later, up2, parse);
            && second.usage == first.usage
            && second.cache == first.cache
            && Public(second.view) == Public(first.view)
  {
    var first := GetCachedPrices(usage, cache, today, now, up, parse);
    assert !IsCacheValid(cache, today);
    assert IsCacheValid(first.cache, today);
  }

  /** A refresh keeps the ledger within its daily budget. */
  lemma RefreshKeepsLedger(usage: Usage, cache: Cache, today: Day, now: string,
                           up: Upstream, parse: string -> Option<real>)
    requires WithinLimit(usage) && LogMatchesCount(usage)
    ensures WithinLimit(GetCachedPrices(usage, cache, today, now, up, parse).usage)
    ensures LogMatchesCount(GetCachedPrices(usage, cache, today, now, up, parse).usage)
  {
    FetchAdrKeepsLedger(usage, today, now, up.adr);
  }

  /** The exhausted-quota scenario: with two calls already made today and a
      stale cache holding 150.0, whatever local price and rate are fetched
      are merged with the old ADR price, and nothing is persisted. */
  lemma ExhaustedQuotaScenario(usage: Usage, cache: Cache, today: Day, now: string,
                               up: Upstream, parse: string -> Option<real>)
    requires today in usage && usage[today].calls == 2
    requires cache.date != Some(today) && cache.adrPrice == Some(150.0)
    ensures var r := GetCachedPrices(usage, cache, today, now, up, parse);
            && r.cache == cache && r.usage == usage
            && r.view.adrPrice == Some(150.0)
            && r.view.twPrice == TwsePrice(up.twse, parse)
            && r.view.usdTwd == BotRate(up.bot, parse)
            && r.view.dataSource == Some(CachedDueToApiLimit)
  {
  }
}
