/**
 The three price fetchers. Every upstream answer is an input: what the quote
 API, the exchange's quote endpoint or the bank's rate feed would reply to
 the request. Turning a decimal string into a number is the parameter
 `parse`, which yields `None` where Python's `float()` would raise.
 */
module Fetchers {

  import opened Common
  import opened Text
  import opened Quota

  /** What the quota-limited quote API answers. `Unanswered`: the request or
      the JSON decoding raised, before any call was recorded. `Decoded(price)`:
      a JSON body came back; `price` is `None` when it has no "Global Quote"
      or that quote's "05. price" is missing or not a number. */
  datatype QuoteReply = Unanswered | Decoded(price: Option<real>)

  /** The name under which ADR quote calls are logged. */
  const ADR_API: string := "ALPHA_VANTAGE_ADR"

  /** The ledger after an ADR fetch, and the price it obtained. */
  datatype AdrFetch = AdrFetch(usage: Usage, price: Option<real>)

  /** The price the reply carries, whatever happened to the ledger. */
  function QuotePrice(reply: QuoteReply): Option<real> {
    match reply
    case Unanswered => None
    case Decoded(p) => p
  }

  /** The gated ADR quote fetch: nothing is called once today's budget is
      spent; a decoded reply costs exactly one recorded call, whether or not
      it holds a price. */
  function FetchAdrPrice(usage: Usage, today: Day, now: string, reply: QuoteReply): (r: AdrFetch)
    ensures !CheckApiLimit(usage, today) ==> r == AdrFetch(usage, None)
    ensures CallsOn(r.usage, today) == CallsOn(usage, today) + (if CheckApiLimit(usage, today) && reply.Decoded? then 1 else 0)
    ensures CheckApiLimit(usage, today) && reply.Decoded? ==>
      r.usage[today].log == LogOn(usage, today) + [LogEntry(ADR_API, now)]
    ensures forall d | d != today :: (d in r.usage <==> d in usage) && (d in usage ==> r.usage[d] == usage[d])
    ensures CallsOn(usage, today) <= MAX_API_CALLS_PER_DAY ==> CallsOn(r.usage, today) <= MAX_API_CALLS_PER_DAY
    ensures r.price.Some? ==> CheckApiLimit(usage, today) && reply == Decoded(r.price)
    ensures CheckApiLimit(usage, today) && reply.Decoded? ==> r.price == reply.price
    // no decoded reply, no recorded call: the ledger is left exactly as it was
    ensures !(CheckApiLimit(usage, today) && reply.Decoded?) ==> r.usage == usage
  {
    if !CheckApiLimit(usage, today) then
      AdrFetch(usage, None)
    else
      match reply
      case Unanswered => AdrFetch(usage, None)
      case Decoded(price) =>
        var recorded := RecordApiCall(usage, today, ADR_API, now);
        AdrFetch(recorded.usage, price)
  }

  /** The fetch keeps the ledger within its daily budget and its log in step. */
  lemma FetchAdrKeepsLedger(usage: Usage, today: Day, now: string, reply: QuoteReply)
    requires WithinLimit(usage) && LogMatchesCount(usage)
    ensures WithinLimit(FetchAdrPrice(usage, today, now, reply).usage)
    ensures LogMatchesCount(FetchAdrPrice(usage, today, now, reply).usage)
  {
    if CheckApiLimit(usage, today) && reply.Decoded? {
      GatedRecordWithinLimit(usage, today, ADR_API, now);
      RecordKeepsLog(usage, today, ADR_API, now);
    }
  }

  /** The two price fields of the first `msgArray` element of the exchange's
      quote: `z` (last trade) and `p`. */
  datatype StockInfo = StockInfo(z: Option<string>, p: Option<string>)

  /** What the exchange's quote endpoint answers. `NoReply`: the request
      failed, the body was blank or was not JSON. `Payload(first)`: a JSON
      body; `first` is `None` when `msgArray` is missing or empty. */
  datatype TwseReply = NoReply | Payload(first: Option<StockInfo>)

  /** Python truthiness of an optional string. */
  predicate NonEmpty(s: Option<string>) {
    s.Some? && s.value != ""
  }

  /** A field value that can be handed to the parser: non-empty, not "-". */
  predicate Usable(s: Option<string>) {
    NonEmpty(s) && s.value != "-"
  }

  /** `z or p`, then kept only when usable. `z` wins whenever it is
      non-empty, so a `z` of "-" yields nothing even if `p` is usable. */
  function SelectPriceField(info: StockInfo): (f: Option<string>)
    ensures f.Some? ==> Usable(f)
    ensures NonEmpty(info.z) ==> f == (if info.z.value == "-" then None else info.z)
    ensures !NonEmpty(info.z) ==> f == (if Usable(info.p) then info.p else None)
  {
    var price := if NonEmpty(info.z) then info.z else info.p;
    if NonEmpty(price) && price.value != "-" then price else None
  }

  /** One request to the exchange's quote endpoint. */
  function TwsePrice(reply: TwseReply, parse: string -> Option<real>): (r: Option<real>)
    ensures r.Some? ==>
      && reply.Payload? && reply.first.Some?
      && SelectPriceField(reply.first.value).Some?
      && r == parse(SelectPriceField(reply.first.value).value)
    ensures reply.Payload? && reply.first.Some? && SelectPriceField(reply.first.value).Some? ==>
      r == parse(SelectPriceField(reply.first.value).value)
  {
    match reply
    case NoReply => None
    case Payload(first) =>
      if first.None? then None
      else
        var field := SelectPriceField(first.value);
        if field.None? then None else parse(field.value)
  }

  /** The column of the bank's CSV row that holds the USD rate. */
  const RATE_COLUMN: nat := 12

  /** The bank's rate feed: the first line mentioning "USD", split on commas,
      column 12. `reply` is the body text, `None` when the request failed. A
      row with too few columns yields nothing, as the raised IndexError does. */
  function BotRate(reply: Option<string>, parse: string -> Option<real>): (r: Option<real>)
    ensures r.Some? ==> reply.Some? && exists i | 0 <= i < |Split(reply.value, '\n')| ::
      var row := Split(reply.value, '\n')[i];
      && Contains(row, "USD")
      && (forall j | 0 <= j < i :: !Contains(Split(reply.value, '\n')[j], "USD"))
      && |Split(row, ',')| > RATE_COLUMN
      && r == parse(Split(row, ',')[RATE_COLUMN])
    ensures reply.Some? && (forall i | 0 <= i < |Split(reply.value, '\n')| :: !Contains(Split(reply.value, '\n')[i], "USD"))
      ==> r.None?
    // and the first USD row decides: column 12 when it has one, nothing otherwise
    ensures reply.Some? ==> forall i | 0 <= i < |Split(reply.value, '\n')|
                                       && Contains(Split(reply.value, '\n')[i], "USD")
                                       && (forall j | 0 <= j < i :: !Contains(Split(reply.value, '\n')[j], "USD")) ::
      var row := Split(reply.value, '\n')[i];
      r == (if |Split(row, ',')| > RATE_COLUMN then parse(Split(row, ',')[RATE_COLUMN]) else None)
  {
    if reply.None? then None
    else
      var row := FirstContaining(Split(reply.value, '\n'), "USD");
      if row.None? then None
      else
        var fields := Split(row.value, ',');
        if |fields| <= RATE_COLUMN then None else parse(fields[RATE_COLUMN])
  }

  /** The rate feed read back: a CSV body laid out as `lines`, whose first
      USD line has the fields `fields`, yields the parse of field 12. */
  lemma BotRateReadsColumn(lines: seq<string>, i: nat, fields: seq<string>, parse: string -> Option<real>)
    requires i < |lines| && forall k | 0 <= k < |lines| :: '\n' !in lines[k]
    requires Contains(lines[i], "USD") && forall j | 0 <= j < i :: !Contains(lines[j], "USD")
    requires |fields| > RATE_COLUMN && forall k | 0 <= k < |fields| :: ',' !in fields[k]
    requires lines[i] == Join(fields, ',')
    ensures BotRate(Some(Join(lines, '\n')), parse) == parse(fields[RATE_COLUMN])
  {
    SplitJoin(lines, '\n');
    SplitJoin(fields, ',');
  }

  /** A quote read back: whatever `p` holds, a usable `z` is the price read;
      with no `z`, a usable `p` is; a `z` of "-" hides `p`. */
  lemma TwseReadsQuotedPrice(z: string, p: Option<string>, parse: string -> Option<real>)
    ensures z != "" && z != "-" ==> TwsePrice(Payload(Some(StockInfo(Some(z), p))), parse) == parse(z)
    ensures Usable(p) ==> TwsePrice(Payload(Some(StockInfo(None, p))), parse) == parse(p.value)
    ensures Usable(p) ==> TwsePrice(Payload(Some(StockInfo(Some(""), p))), parse) == parse(p.value)
    ensures TwsePrice(Payload(Some(StockInfo(Some("-"), p))), parse).None?
    ensures TwsePrice(NoReply, parse).None? && TwsePrice(Payload(None), parse).None?
  {
  }
}
