/**
 The daily-quota ledger of the API server: a per-date record of how many
 calls went to the quota-limited quote source, with a log of each call.
 The JSON usage file is the map `Usage`; loading it is reading the map and
 saving it is returning the new one.
 */
module Quota {

  import opened Common

  /** One line of a day's call log: which upstream was called, and when. */
  datatype LogEntry = LogEntry(api: string, timestamp: string)

  /** A day's record: the number of calls made and their log. */
  datatype DayUsage = DayUsage(calls: nat, log: seq<LogEntry>)

  /** The usage store, keyed by date. */
  type Usage = map<Day, DayUsage>

  /** The result of recording a call: the new store and today's new count. */
  datatype Recorded = Recorded(usage: Usage, calls: nat)

  /** Today's count, zero when the date has no record yet. */
  function CallsOn(usage: Usage, day: Day): nat {
    if day in usage then usage[day].calls else 0
  }

  /** Today's log, empty when the date has no record yet. */
  function LogOn(usage: Usage, day: Day): seq<LogEntry> {
    if day in usage then usage[day].log else []
  }

  /** The gate: may one more call be made today? */
  function CheckApiLimit(usage: Usage, today: Day): (ok: bool)
    ensures today !in usage ==> ok
    ensures today in usage ==> (ok <==> usage[today].calls < MAX_API_CALLS_PER_DAY)
  {
    var daily := if today in usage then Some(usage[today]) else None;
    var callsToday := if daily.Some? then daily.value.calls else 0;
    callsToday < MAX_API_CALLS_PER_DAY
  }

  /** Records one call for today; it never refuses, whatever the count. */
  function RecordApiCall(usage: Usage, today: Day, api: string, now: string): (r: Recorded)
    ensures r.calls == CallsOn(usage, today) + 1
    ensures today in r.usage && r.usage[today].calls == r.calls
    ensures r.usage[today].log == LogOn(usage, today) + [LogEntry(api, now)]
    ensures r.usage.Keys == usage.Keys + {today}
    ensures forall d | d in usage && d != today :: r.usage[d] == usage[d]
  {
    var usage' := if today !in usage then usage[today := DayUsage(0, [])] else usage;
    var day := usage'[today];
    var updated := usage'[today := DayUsage(day.calls + 1, day.log + [LogEntry(api, now)])];
    Recorded(updated, updated[today].calls)
  }

  /** Every day's log has one line per counted call. */
  ghost predicate LogMatchesCount(usage: Usage) {
    forall d | d in usage :: |usage[d].log| == usage[d].calls
  }

  /** No day has gone past the daily budget. */
  ghost predicate WithinLimit(usage: Usage) {
    forall d | d in usage :: usage[d].calls <= MAX_API_CALLS_PER_DAY
  }

  /** Recording keeps the log and the count in step. */
  lemma RecordKeepsLog(usage: Usage, today: Day, api: string, now: string)
    requires LogMatchesCount(usage)
    ensures LogMatchesCount(RecordApiCall(usage, today, api, now).usage)
  {
    var r := RecordApiCall(usage, today, api, now);
    assert |LogOn(usage, today)| == CallsOn(usage, today);
    forall d | d in r.usage
      ensures |r.usage[d].log| == r.usage[d].calls
    {
      if d != today {
        assert r.usage[d] == usage[d];
      }
    }
  }

  /** A record made only while the gate is open never breaks the budget. */
  lemma GatedRecordWithinLimit(usage: Usage, today: Day, api: string, now: string)
    requires WithinLimit(usage)
    requires CheckApiLimit(usage, today)
    ensures WithinLimit(RecordApiCall(usage, today, api, now).usage)
  {
    var r := RecordApiCall(usage, today, api, now);
    forall d | d in r.usage
      ensures r.usage[d].calls <= MAX_API_CALLS_PER_DAY
    {
      if d != today {
        assert r.usage[d] == usage[d];
      }
    }
  }
}
