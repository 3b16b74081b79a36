/**
 The 30-day window projection served by both historical views: for each day
 from today-30 to today-1, oldest first, a row for every complete record,
 with the implied local price and the spread against the local price.
 */
module HistoryWindow {

  import opened Common
  import opened History
  import opened Conversion

  /** One row of the historical answer. */
  datatype Row = Row(
    day: Day,
    adrPriceUsd: real,
    twPrice: real,
    usdTwd: real,
    adrInTwd: real,
    difference: real,
    differencePercent: real)

  /** A listed day whose local price is zero: computing its percentage
      divides by zero, which fails the whole request. */
  predicate ZeroPriced(h: Store, d: Day) {
    Listed(h, d) && h[DateKey(d)].record.twPrice.value == 0.0
  }

  /** What a row means for the complete record it was built from. */
  predicate Describes(row: Row, rec: PriceRecord)
    requires Complete(rec)
  {
    && row.adrPriceUsd == rec.adrPrice.value
    && row.twPrice == rec.twPrice.value
    && row.usdTwd == rec.usdTwd.value
    && row.adrInTwd * SHARE_RATIO == row.adrPriceUsd * row.usdTwd
    && row.twPrice + row.difference == row.adrInTwd
    && row.differencePercent * row.twPrice == row.difference * 100.0
  }

  /** The row for day `d`. */
  function RowOf(d: Day, rec: PriceRecord): (row: Row)
    requires Complete(rec) && rec.twPrice.value != 0.0
    ensures row.day == d && Describes(row, rec)
  {
    var adrInTwd := ConvertedPrice(rec.adrPrice.value, rec.usdTwd.value);
    var difference := adrInTwd - rec.twPrice.value;
    Row(d, rec.adrPrice.value, rec.twPrice.value, rec.usdTwd.value, adrInTwd, difference,
        PercentOf(difference, rec.twPrice.value))
  }

  /** The rows for days `lo` up to but excluding `hi`; `None` when a zero
      local price makes the computation fail. */
  function Rows(h: Store, lo: Day, hi: Day): Option<seq<Row>>
    decreases hi - lo
  {
    if lo >= hi then Some([])
    else
      var rest := Rows(h, lo + 1, hi);
      if !Listed(h, lo) then rest
      else if h[DateKey(lo)].record.twPrice.value == 0.0 then None
      else if rest.None? then None
      else Some([RowOf(lo, h[DateKey(lo)].record)] + rest.value)
  }

  /** The computation fails exactly when some listed day of the range has a
      zero local price. */
  lemma {:induction false} RowsFail(h: Store, lo: Day, hi: Day)
    ensures Rows(h, lo, hi).None? <==> exists d | lo <= d < hi :: ZeroPriced(h, d)
    decreases hi - lo
  {
    if lo < hi {
      RowsFail(h, lo + 1, hi);
      if ZeroPriced(h, lo) {
        assert Rows(h, lo, hi).None?;
      }
    }
  }

  /** Every row is a day of the range holding a complete record, described
      by the row; rows are in strictly increasing day order, at most one per
      day of the range. */
  lemma {:induction false} RowsSound(h: Store, lo: Day, hi: Day)
    requires Rows(h, lo, hi).Some?
    ensures lo <= hi ==> |Rows(h, lo, hi).value| <= hi - lo
    ensures forall i | 0 <= i < |Rows(h, lo, hi).value| ::
      var row := Rows(h, lo, hi).value[i];
      && lo <= row.day < hi
      && Listed(h, row.day)
      && Describes(row, h[DateKey(row.day)].record)
    ensures forall i, j | 0 <= i < j < |Rows(h, lo, hi).value| ::
      Rows(h, lo, hi).value[i].day < Rows(h, lo, hi).value[j].day
    decreases hi - lo
  {
    if lo < hi {
      RowsSound(h, lo + 1, hi);
      var rows := Rows(h, lo, hi).value;
      var rest := Rows(h, lo + 1, hi).value;
      if Listed(h, lo) {
        assert rows == [RowOf(lo, h[DateKey(lo)].record)] + rest;
        assert forall i | 1 <= i < |rows| :: rows[i] == rest[i - 1];
      }
    }
  }

  /** Every day of the range holding a complete record has its row. */
  lemma {:induction false} RowsComplete(h: Store, lo: Day, hi: Day)
    requires Rows(h, lo, hi).Some?
    ensures forall d | lo <= d < hi && Listed(h, d) ::
      exists i | 0 <= i < |Rows(h, lo, hi).value| :: Rows(h, lo, hi).value[i].day == d
    decreases hi - lo
  {
    if lo < hi {
      RowsComplete(h, lo + 1, hi);
      var rows := Rows(h, lo, hi).value;
      var rest := Rows(h, lo + 1, hi).value;
      if Listed(h, lo) {
        assert rows == [RowOf(lo, h[DateKey(lo)].record)] + rest;
        assert rows[0].day == lo;
        forall d | lo + 1 <= d < hi && Listed(h, d)
          ensures exists i | 0 <= i < |rows| :: rows[i].day == d
        {
          var k :| 0 <= k < |rest| && rest[k].day == d;
          assert rows[k + 1] == rest[k];
        }
      }
    }
  }

  /** The historical answer for `today`: the window today-30 .. today-1. */
  function Window(h: Store, today: Day): Option<seq<Row>> {
    Rows(h, today - WINDOW_DAYS, today)
  }

  /** The window's promise: it fails exactly when a listed day of the window
      has a zero local price; otherwise it lists, oldest first and without
      repeats, exactly the days from today-30 to today-1 that hold a complete
      record, each with its implied price and spread. */
  lemma WindowShape(h: Store, today: Day)
    ensures Window(h, today).None? <==> exists d | today - WINDOW_DAYS <= d < today :: ZeroPriced(h, d)
    ensures Window(h, today).Some? ==>
      var rows := Window(h, today).value;
      && |rows| <= WINDOW_DAYS
      && (forall i | 0 <= i < |rows| ::
            && today - WINDOW_DAYS <= rows[i].day < today
            && Listed(h, rows[i].day)
            && Describes(rows[i], h[DateKey(rows[i].day)].record))
      && (forall i, j | 0 <= i < j < |rows| :: rows[i].day < rows[j].day)
      && (forall d | today - WINDOW_DAYS <= d < today && Listed(h, d) ::
            exists i | 0 <= i < |rows| :: rows[i].day == d)
  {
    RowsFail(h, today - WINDOW_DAYS, today);
    if Window(h, today).Some? {
      RowsSound(h, today - WINDOW_DAYS, today);
      RowsComplete(h, today - WINDOW_DAYS, today);
    }
  }

  /** `rows` followed by the rows of `r`, failing when `r` does. */
  function Prepend(rows: seq<Row>, r: Option<seq<Row>>): Option<seq<Row>> {
    if r.None? then None else Some(rows + r.value)
  }

  /** The projection as the handlers compute it: `for i in range(30, 0, -1)`
      over the dates, appending a row for each complete record. */
  method BuildWindow(h: Store, today: Day) returns (r: Option<seq<Row>>)
    ensures r == Window(h, today)
  {
    var rows: seq<Row> := [];
    var i := WINDOW_DAYS;
    var all := Rows(h, today - i, today);
    assert all.Some? ==> [] + all.value == all.value;
    while i > 0
      invariant 0 <= i <= WINDOW_DAYS
      invariant Window(h, today) == Prepend(rows, Rows(h, today - i, today))
      decreases i
    {
      var d := today - i;
      if Listed(h, d) {
        var rec := h[DateKey(d)].record;
        if rec.twPrice.value == 0.0 {
          return None;
        }
        var row := RowOf(d, rec);
        var rest := Rows(h, d + 1, today);
        assert rest.Some? ==> rows + ([row] + rest.value) == (rows + [row]) + rest.value;
        rows := rows + [row];
      }
      i := i - 1;
    }
    assert rows + [] == rows;
    return Some(rows);
  }
}
