/**
 * The date-range filter of the records and report pages: with a start date, only the
 * records created from the start of that day to the end of the end day (the start day
 * when no end is picked) are kept, in order; with no start date every record is kept.
 */
module DateFilter {
  import opened Wrappers
  import opened Lists
  import opened Time
  import opened RecordTypes

  /** The picker's range; the page holds `undefined` or a range whose ends may be unset. */
  datatype DateRange = DateRange(from: Option<int>, to: Option<int>)

  /** `dateRange.to ?? dateRange.from` (the report page writes `||`; both are dates or unset). */
  function EndDay(range: DateRange): Option<int> {
    if range.to.Some? then range.to else range.from
  }

  predicate InRange(r: Record, from: int, to: int) {
    StartOfDay(from) <= r.createdAt <= EndOfDay(to)
  }

  /** `filterRecords`. */
  function FilterByRange(records: seq<Record>, range: Option<DateRange>): seq<Record> {
    if range.None? || range.value.from.None? then records
    else
      var from := range.value.from.value;
      var to := EndDay(range.value).value;
      Filter(records, (r: Record) => InRange(r, from, to))
  }

  /** The boundaries by day: from the start of the first day to the end of the last one, both included. */
  lemma InRangeByDay(t: int, from: int, to: int)
    ensures StartOfDay(from) <= t <= EndOfDay(to) <==> DayOf(from) <= DayOf(t) <= DayOf(to)
  {
    assert StartOfDay(from) == DayOf(from) * DayMs;
    assert EndOfDay(to) == DayOf(to) * DayMs + DayMs - 1;
    assert DayOf(t) * DayMs <= t < DayOf(t) * DayMs + DayMs;
    if DayOf(t) < DayOf(from) {
      assert DayOf(t) * DayMs + DayMs <= DayOf(from) * DayMs;
    }
    if DayOf(t) >= DayOf(from) {
      assert DayOf(t) * DayMs >= DayOf(from) * DayMs;
    }
    if DayOf(t) > DayOf(to) {
      assert DayOf(t) * DayMs >= DayOf(to) * DayMs + DayMs;
    }
    if DayOf(t) <= DayOf(to) {
      assert DayOf(t) * DayMs <= DayOf(to) * DayMs;
    }
  }

  /**
   * Without a start date every record is kept. With one, a record is kept iff its day lies
   * between the start day and the end day (the start day itself when there is no end),
   * both included; the kept records keep their order.
   */
  lemma FilterByRangeMeaning(records: seq<Record>, range: Option<DateRange>)
    ensures range.None? || range.value.from.None? ==> FilterByRange(records, range) == records
    ensures range.Some? && range.value.from.Some? ==>
      forall r :: r in FilterByRange(records, range) <==>
        r in records && DayOf(range.value.from.value) <= DayOf(r.createdAt) <= DayOf(EndDay(range.value).value)
  {
    if range.Some? && range.value.from.Some? {
      var from := range.value.from.value;
      var to := EndDay(range.value).value;
      forall r ensures r in FilterByRange(records, range) <==> r in records && DayOf(from) <= DayOf(r.createdAt) <= DayOf(to) {
        InRangeByDay(r.createdAt, from, to);
      }
    }
  }

  /** A one-day range keeps exactly the records of that day. */
  lemma SingleDayRange(records: seq<Record>, day: int)
    ensures forall r :: r in FilterByRange(records, Some(DateRange(Some(day), None))) <==>
      r in records && DayOf(r.createdAt) == DayOf(day)
  {
    FilterByRangeMeaning(records, Some(DateRange(Some(day), None)));
  }

  /** The filter keeps the order of the records: it splits over a split list. */
  lemma FilterByRangeKeepsOrder(a: seq<Record>, b: seq<Record>, range: Option<DateRange>)
    ensures FilterByRange(a + b, range) == FilterByRange(a, range) + FilterByRange(b, range)
  {
    if range.Some? && range.value.from.Some? {
      var from := range.value.from.value;
      var to := EndDay(range.value).value;
      FilterAppend(a, b, (r: Record) => InRange(r, from, to));
    }
  }
}
