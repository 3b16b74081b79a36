/**
 Shared vocabulary of the converter: optional values, calendar days, Python
 truthiness of an optional price, and the constants that the API server and
 the older single-file app both hard-code.
 */
module Common {

  /** A value that may be missing: a Python `None`, or a JSON key that is absent
      (the program never distinguishes the two for the fields modelled here). */
  datatype Option<+T> = None | Some(value: T)

  /** A calendar date as a day number. ISO-8601 date strings with four-digit
      years compare in the same order as these numbers. */
  type Day = int

  /** Daily budget of calls to the quota-limited quote source. */
  const MAX_API_CALLS_PER_DAY: nat := 2

  /** How many ADR units make up one local share. */
  const SHARE_RATIO: real := 5.0

  /** The trailing window served by the historical endpoints, in days. */
  const WINDOW_DAYS: nat := 30

  /** How many entries of the daily series one backfill pass looks at. */
  const SERIES_LIMIT: nat := 30

  /** How long the single-file app keeps dated records, in days. */
  const RETENTION_DAYS: nat := 60

  /** The fixed USD/TWD approximation used for past dates. */
  const FALLBACK_RATE: real := 32.0

  /** Python truthiness of an optional float: present and non-zero. */
  predicate Truthy(x: Option<real>) {
    x.Some? && x.value != 0.0
  }

  /** The first `n` elements of `s`, as Python's `s[:n]`. */
  function Take<T>(s: seq<T>, n: nat): (r: seq<T>)
    ensures r <= s
    ensures |r| == if |s| <= n then |s| else n
  {
    if |s| <= n then s else s[..n]
  }
}
