/**
 One backfill pass over the quote API's daily series: each entry whose close
 parses and whose day has an exchange rate becomes a complete record; any
 other entry is skipped and leaves the store as it was. Both the API server
 and the single-file app use this pass; the server behaves as the app does
 when no rate map is available.
 */
module SeriesBackfill {

  import opened Common
  import opened History

  /** One entry of the daily series: its date and its "4. close" value,
      `None` when that field is missing or is not a number. */
  datatype SeriesEntry = SeriesEntry(day: Day, close: Option<real>)

  /** The exchange rate used for a past day. A missing or empty rate map is
      falsy, and then every day gets the fixed 32.0; otherwise the map's
      entry is used, and a day without one has no rate. */
  function RateFor(rates: Option<map<Day, real>>, d: Day): (r: Option<real>)
    ensures rates.None? || |rates.value| == 0 ==> r == Some(FALLBACK_RATE)
    ensures rates.Some? && |rates.value| > 0 ==> (r.Some? <==> d in rates.value)
    ensures rates.Some? && d in rates.value ==> r == Some(rates.value[d])
  {
    if rates.Some? && |rates.value| > 0 then
      (if d in rates.value then Some(rates.value[d]) else None)
    else Some(FALLBACK_RATE)
  }

  /** The entry yields a record: its close parsed and its day has a rate. */
  predicate Storable(e: SeriesEntry, rates: Option<map<Day, real>>) {
    e.close.Some? && RateFor(rates, e.day).Some?
  }

  /** The record an entry yields: the local price is estimated from the ADR
      close as adr * 5 * rate / 32. */
  function RecordFor(e: SeriesEntry, rates: Option<map<Day, real>>, tag: Option<string>): (rec: PriceRecord)
    requires Storable(e, rates)
    ensures Complete(rec)
    ensures rec.adrPrice == e.close && rec.usdTwd == RateFor(rates, e.day)
    ensures rec.twPrice.value * FALLBACK_RATE == rec.adrPrice.value * SHARE_RATIO * rec.usdTwd.value
    ensures rec.timestamp == Some(MarketClose(e.day)) && rec.source == tag
  {
    var adr := e.close.value;
    var usd := RateFor(rates, e.day).value;
    PriceRecord(Some(adr), Some(adr * SHARE_RATIO * usd / FALLBACK_RATE), Some(usd), Some(MarketClose(e.day)), tag)
  }

  /** The store after one entry is processed. */
  function StoreOne(h: Store, e: SeriesEntry, rates: Option<map<Day, real>>, tag: Option<string>): Store {
    if Storable(e, rates) then h[DateKey(e.day) := Rec(RecordFor(e, rates, tag))] else h
  }

  /** The store after the entries are processed in order. */
  function Backfill(h: Store, entries: seq<SeriesEntry>, rates: Option<map<Day, real>>, tag: Option<string>): Store
    decreases |entries|
  {
    if |entries| == 0 then h else Backfill(StoreOne(h, entries[0], rates, tag), entries[1..], rates, tag)
  }

  /** The days a pass writes. */
  function WrittenDays(entries: seq<SeriesEntry>, rates: Option<map<Day, real>>): set<Day>
    decreases |entries|
  {
    if |entries| == 0 then {}
    else (if Storable(entries[0], rates) then {entries[0].day} else {}) + WrittenDays(entries[1..], rates)
  }

  /** A day is written exactly when some entry for it is storable. */
  lemma {:induction false} WrittenDaysMembers(entries: seq<SeriesEntry>, rates: Option<map<Day, real>>, d: Day)
    ensures d in WrittenDays(entries, rates) <==>
      exists i | 0 <= i < |entries| :: entries[i].day == d && Storable(entries[i], rates)
    decreases |entries|
  {
    if |entries| > 0 {
      WrittenDaysMembers(entries[1..], rates, d);
      if d in WrittenDays(entries[1..], rates) {
        var k :| 0 <= k < |entries[1..]| && entries[1..][k].day == d && Storable(entries[1..][k], rates);
        assert entries[k + 1] == entries[1..][k];
      }
      if exists i | 0 <= i < |entries| :: entries[i].day == d && Storable(entries[i], rates) {
        var i :| 0 <= i < |entries| && entries[i].day == d && Storable(entries[i], rates);
        if i > 0 {
          assert entries[1..][i - 1] == entries[i];
        }
      }
    }
  }

  /** A pass writes at most one day per entry. */
  lemma {:induction false} WrittenDaysBound(entries: seq<SeriesEntry>, rates: Option<map<Day, real>>)
    ensures |WrittenDays(entries, rates)| <= |entries|
    decreases |entries|
  {
    if |entries| > 0 {
      WrittenDaysBound(entries[1..], rates);
      var head: set<Day> := if Storable(entries[0], rates) then {entries[0].day} else {};
      assert |head + WrittenDays(entries[1..], rates)| <= |head| + |WrittenDays(entries[1..], rates)|;
    }
  }

  /** Nothing but the written days changes: no key is removed, and every
      key other than a written day keeps its value. */
  lemma {:induction false} BackfillFrame(h: Store, entries: seq<SeriesEntry>, rates: Option<map<Day, real>>, tag: Option<string>)
    ensures forall k | k in h :: k in Backfill(h, entries, rates, tag)
    ensures forall k | k in Backfill(h, entries, rates, tag) && !(k.DateKey? && k.day in WrittenDays(entries, rates)) ::
      k in h && Backfill(h, entries, rates, tag)[k] == h[k]
    decreases |entries|
  {
    if |entries| > 0 {
      BackfillFrame(StoreOne(h, entries[0], rates, tag), entries[1..], rates, tag);
    }
  }

  /** Every written day holds the complete record of some storable entry
      for that day. */
  lemma {:induction false} BackfillWrites(h: Store, entries: seq<SeriesEntry>, rates: Option<map<Day, real>>, tag: Option<string>)
    ensures forall d | d in WrittenDays(entries, rates) ::
      && DateKey(d) in Backfill(h, entries, rates, tag)
      && exists i | 0 <= i < |entries| :: entries[i].day == d && Storable(entries[i], rates)
           && Backfill(h, entries, rates, tag)[DateKey(d)] == Rec(RecordFor(entries[i], rates, tag))
    decreases |entries|
  {
    if |entries| > 0 {
      var h1 := StoreOne(h, entries[0], rates, tag);
      var r := Backfill(h, entries, rates, tag);
      var rest := entries[1..];
      assert r == Backfill(h1, rest, rates, tag);
      BackfillWrites(h1, rest, rates, tag);
      BackfillFrame(h1, rest, rates, tag);
      forall d | d in WrittenDays(entries, rates)
        ensures DateKey(d) in r
        ensures exists i | 0 <= i < |entries| :: entries[i].day == d && Storable(entries[i], rates)
                  && r[DateKey(d)] == Rec(RecordFor(entries[i], rates, tag))
      {
        if d in WrittenDays(rest, rates) {
          var k :| 0 <= k < |rest| && rest[k].day == d && Storable(rest[k], rates)
                   && r[DateKey(d)] == Rec(RecordFor(rest[k], rates, tag));
          assert entries[k + 1] == rest[k];
        } else {
          assert Storable(entries[0], rates) && entries[0].day == d;
          assert h1[DateKey(d)] == Rec(RecordFor(entries[0], rates, tag));
        }
      }
    }
  }
}
