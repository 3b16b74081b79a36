/**
 The historical price store: a JSON object whose keys are ISO dates holding
 price records, plus a few `last_*` bookkeeping keys holding plain values.
 This module defines the store and the two retention prunes.
 */
module History {

  import opened Common
  import opened Text

  /** A store key: an ISO date, or any other name. Every non-date key the
      program writes begins with a lower-case letter, and a letter sorts
      after every digit, so such a key compares above every ISO date. */
  datatype Key = DateKey(day: Day) | NameKey(name: string)

  /** A record's timestamp: the market close of a day (`<date>T16:00:00`),
      or the clock reading when it was written. */
  datatype Stamp = MarketClose(day: Day) | Clock(instant: string)

  /** A dated price record; a field is `None` when its key is absent. */
  datatype PriceRecord = PriceRecord(
    adrPrice: Option<real>,
    twPrice: Option<real>,
    usdTwd: Option<real>,
    timestamp: Option<Stamp>,
    source: Option<string>)

  /** A store value: a record (a JSON object), or a plain value such as the
      date in `last_fetch_date` or the clock reading in `last_fetch_time`. */
  datatype Entry = Rec(record: PriceRecord) | DateValue(date: Day) | TextValue(text: string)

  type Store = map<Key, Entry>

  /** The sentinel marking the day the backfill last ran. */
  const LAST_FETCH_DATE: Key := NameKey("last_fetch_date")

  /** The clock reading of the last backfill (single-file app only). */
  const LAST_FETCH_TIME: Key := NameKey("last_fetch_time")

  /** The backfill already ran today. */
  predicate FetchedOn(h: Store, today: Day) {
    LAST_FETCH_DATE in h && h[LAST_FETCH_DATE] == DateValue(today)
  }

  /** The record has all three prices. */
  predicate Complete(r: PriceRecord) {
    r.adrPrice.Some? && r.twPrice.Some? && r.usdTwd.Some?
  }

  /** The store holds a complete record for day `d`. */
  predicate Listed(h: Store, d: Day) {
    DateKey(d) in h && h[DateKey(d)].Rec? && Complete(h[DateKey(d)].record)
  }

  /** The string comparison `key >= cutoff` of a key with an ISO date. */
  predicate AtOrAfter(k: Key, cutoff: Day) {
    match k
    case DateKey(d) => d >= cutoff
    case NameKey(_) => true
  }

  /** A bookkeeping key, `key.startswith('last_')`. */
  predicate IsBookkeeping(k: Key) {
    k.NameKey? && StartsWith(k.name, "last_")
  }

  /** The backfill's retention rule: bookkeeping keys and plain values stay,
      records stay when their key is not before the cutoff. */
  predicate Retained(k: Key, v: Entry, cutoff: Day) {
    IsBookkeeping(k) || (v.Rec? && AtOrAfter(k, cutoff)) || !v.Rec?
  }

  /** The backfill's prune: drops exactly the dated records before `cutoff`. */
  function PruneStaleRecords(h: Store, cutoff: Day): (r: Store)
    ensures forall k | k in r :: k in h && r[k] == h[k]
    ensures forall k | k in r && k.DateKey? && r[k].Rec? :: k.day >= cutoff
    ensures forall k | k in h && (k.NameKey? || !h[k].Rec? || k.day >= cutoff) :: k in r
  {
    map k | k in h && Retained(k, h[k], cutoff) :: h[k]
  }

  /** The record writer's prune, `k >= cutoff` on every key: drops every
      dated entry before `cutoff`, record or not. */
  function PruneBefore(h: Store, cutoff: Day): (r: Store)
    ensures forall k | k in r :: k in h && r[k] == h[k]
    ensures forall k | k in r && k.DateKey? :: k.day >= cutoff
    ensures forall k | k in h && (k.NameKey? || k.day >= cutoff) :: k in r
  {
    map k | k in h && AtOrAfter(k, cutoff) :: h[k]
  }
}
