/**
 * Construction of the trading-holiday calendar: the exchange's holiday list
 * (the `CM` segment of the holiday-master response), followed by every
 * Saturday and then every Sunday of the current year, all spelled
 * `dd-Mon-yyyy`. The response and the current year are parameters; the CSV
 * write is represented by the `Saved` outcome carrying the table's one column.
 */
module NseHolidayFetcher {
  import opened Wrappers
  import opened Seqs
  import opened Text
  import opened Calendar
  import opened DateFormats

  const Saturday := 5
  const Sunday := 6

  /** The holiday-master response: its status and the `tradingDate` cells of `CM` (`[]` when absent). */
  datatype HolidayResponse = HolidayResponse(status: int, tradingDates: seq<string>)

  /**
   * Saved: the `HolidayDate` column written to trading_holiday.csv.
   * ParseFailed: a cell is not a `%d-%b-%Y` timestamp and `pd.to_datetime`
   * raises. DateRangeFailed: the current year's first or last day is not a
   * timestamp and `pd.date_range` raises.
   */
  datatype HolidayOutcome = Saved(calendar: seq<string>) | NotFetched | ParseFailed | DateRangeFailed

  /**
   * One cell of `tradingDate`, stripped and read by `pd.to_datetime` with
   * `%d-%b-%Y`: a real date, and one a timestamp can hold. Its spelling is the
   * stripped cell.
   */
  function ParseHolidayCell(cell: string): (r: Result<Date>)
    ensures r.Ok? ==> Valid(r.value) && InTimestampRange(r.value)
    ensures r.Ok? ==> FormatDMonY(r.value) == Strip(cell)
  {
    var r := ToTimestampDMonY(Strip(cell));
    if r.Ok? then FormatToTimestampDMonY(Strip(cell)); r else r
  }

  /**
   * Strip every cell and parse it; one cell that does not parse makes the
   * whole conversion raise.
   */
  function ParseHolidays(cells: seq<string>): (r: Result<seq<Date>>)
    ensures r.Ok? ==> (|r.value| == |cells|
      && forall k :: 0 <= k < |cells| ==> ParseHolidayCell(cells[k]) == Ok(r.value[k]))
    ensures r.Err? <==> exists k :: 0 <= k < |cells| && ParseHolidayCell(cells[k]).Err?
  {
    MapAll(cells, ParseHolidayCell)
  }

  /**
   * `pd.date_range(start=from, end=to, freq=...)` anchored on one weekday: the
   * dates from `from` to `to` inclusive that fall on weekday `wd`, ascending.
   */
  function DatesWithWeekday(from: Date, to: Date, wd: int): (r: seq<Date>)
    requires Valid(from) && Valid(to)
    ensures forall k :: 0 <= k < |r| ==>
      (Valid(r[k]) && Weekday(r[k]) == wd && Ordinal(from) <= Ordinal(r[k]) <= Ordinal(to))
    ensures forall i, j :: 0 <= i < j < |r| ==> Ordinal(r[i]) < Ordinal(r[j])
    decreases Ordinal(to) + 1 - Ordinal(from)
  {
    BeforeIsOrdinalOrder(to, from);
    if Before(to, from) then []
    else
      var rest := DatesWithWeekday(Next(from), to, wd);
      if Weekday(from) == wd then [from] + rest else rest
  }

  /** Every date of the range on the weekday is generated. */
  lemma {:induction false} DatesWithWeekdayComplete(from: Date, to: Date, wd: int, d: Date)
    requires Valid(from) && Valid(to) && Valid(d)
    requires NotAfter(from, d) && NotAfter(d, to) && Weekday(d) == wd
    ensures d in DatesWithWeekday(from, to, wd)
    decreases Ordinal(to) + 1 - Ordinal(from)
  {
    BeforeIsOrdinalOrder(to, from);
    BeforeIsOrdinalOrder(from, d);
    BeforeIsOrdinalOrder(d, to);
    if d != from {
      NoDateBetween(from, d);
      DatesWithWeekdayComplete(Next(from), to, wd, d);
    }
  }

  /**
   * The generated dates of one weekday in a year are exactly the dates of that
   * year falling on it, and they are listed in ascending order.
   */
  lemma {:induction false} YearWeekdays(year: int, wd: int, d: Date)
    requires 1 <= year
    ensures var r := DatesWithWeekday(Date(year, 1, 1), Date(year, 12, 31), wd);
      && (d in r <==> Valid(d) && d.year == year && Weekday(d) == wd)
      && forall i, j :: 0 <= i < j < |r| ==> Before(r[i], r[j])
  {
    var first, last := Date(year, 1, 1), Date(year, 12, 31);
    var r := DatesWithWeekday(first, last, wd);
    if d in r {
      BeforeIsOrdinalOrder(first, d);
      BeforeIsOrdinalOrder(d, last);
    }
    if Valid(d) && d.year == year && Weekday(d) == wd {
      DatesWithWeekdayComplete(first, last, wd, d);
    }
    forall i, j | 0 <= i < j < |r|
      ensures Before(r[i], r[j])
    {
      BeforeIsOrdinalOrder(r[i], r[j]);
    }
  }

  /** `dt.strftime('%d-%b-%Y')` over a column. */
  function FormatAll(ds: seq<Date>): (r: seq<string>)
    requires forall k :: 0 <= k < |ds| ==> Valid(ds[k])
    ensures |r| == |ds|
    ensures forall k :: 0 <= k < |ds| ==> r[k] == FormatDMonY(ds[k])
  {
    seq(|ds|, k requires 0 <= k < |ds| => FormatDMonY(ds[k]))
  }

  function Saturdays(year: int): seq<Date>
    requires 1 <= year
  {
    DatesWithWeekday(Date(year, 1, 1), Date(year, 12, 31), Saturday)
  }

  function Sundays(year: int): seq<Date>
    requires 1 <= year
  {
    DatesWithWeekday(Date(year, 1, 1), Date(year, 12, 31), Sunday)
  }

  /**
   * `fetch_trading_holiday_data`: on status 200 the stored calendar is the
   * parsed holidays, then the year's Saturdays, then its Sundays, spelled
   * `dd-Mon-yyyy`; any other status writes nothing. The current year is a
   * `datetime` year (1 to 9999); `pd.date_range` from its 1 January to its
   * 31 December raises unless both are timestamps, which leaves 1678-2261.
   */
  function FetchTradingHolidayData(response: HolidayResponse, currentYear: int): (r: HolidayOutcome)
    requires 1 <= currentYear <= 9999
    ensures r.NotFetched? <==> response.status != 200
    ensures r.ParseFailed? <==> response.status == 200 && ParseHolidays(response.tradingDates).Err?
    ensures r.DateRangeFailed? <==> (response.status == 200 && ParseHolidays(response.tradingDates).Ok?
                                     && !(1678 <= currentYear <= 2261))
    ensures r.Saved? ==> 1678 <= currentYear <= 2261
  {
    TimestampYears(currentYear);
    if response.status != 200 then NotFetched
    else match ParseHolidays(response.tradingDates)
      case Err(_) => ParseFailed
      case Ok(remote) =>
        if !(InTimestampRange(Date(currentYear, 1, 1)) && InTimestampRange(Date(currentYear, 12, 31))) then
          DateRangeFailed
        else
          Saved(FormatAll(remote) + FormatAll(Saturdays(currentYear)) + FormatAll(Sundays(currentYear)))
  }

  /**
   * The saved calendar lists the stripped remote cells first, unchanged and in
   * order, then the Saturdays, then the Sundays, and has as many entries as the
   * three parts together.
   */
  lemma {:induction false} SavedCalendarLayout(response: HolidayResponse, currentYear: int)
    requires 1 <= currentYear <= 9999
    requires FetchTradingHolidayData(response, currentYear).Saved?
    ensures var cal := FetchTradingHolidayData(response, currentYear).calendar;
      var n, s := |response.tradingDates|, |Saturdays(currentYear)|;
      && |cal| == n + s + |Sundays(currentYear)|
      && (forall k :: 0 <= k < n ==> cal[k] == Strip(response.tradingDates[k]))
      && cal[n..n + s] == FormatAll(Saturdays(currentYear))
      && cal[n + s..] == FormatAll(Sundays(currentYear))
  {
    SavedCalendarParts(response, currentYear);
    FormattedParts(response.tradingDates, Saturdays(currentYear), Sundays(currentYear));
  }

  /**
   * The parsed cells respelled, then two generated date columns spelled: the
   * stripped cells come first, in order, then the two columns' spellings.
   */
  lemma {:induction false} FormattedParts(cells: seq<string>, sat: seq<Date>, sun: seq<Date>)
    requires ParseHolidays(cells).Ok?
    requires forall k :: 0 <= k < |sat| ==> Valid(sat[k])
    requires forall k :: 0 <= k < |sun| ==> Valid(sun[k])
    ensures var cal := FormatAll(ParseHolidays(cells).value) + FormatAll(sat) + FormatAll(sun);
      var n, s := |cells|, |sat|;
      && |cal| == n + s + |sun|
      && (forall k :: 0 <= k < n ==> cal[k] == Strip(cells[k]))
      && cal[n..n + s] == FormatAll(sat)
      && cal[n + s..] == FormatAll(sun)
  {
    var a, b, c := FormatAll(ParseHolidays(cells).value), FormatAll(sat), FormatAll(sun);
    var cal := a + b + c;
    RemoteCellsRespelled(cells);
    ThreeParts(a, b, c);
    forall k | 0 <= k < |cells|
      ensures cal[k] == Strip(cells[k])
    {
      assert cal[..|a|][k] == a[k];
    }
  }

  /** A saved calendar is the three formatted parts, concatenated. */
  lemma {:induction false} SavedCalendarParts(response: HolidayResponse, currentYear: int)
    requires 1 <= currentYear <= 9999
    requires FetchTradingHolidayData(response, currentYear).Saved?
    ensures ParseHolidays(response.tradingDates).Ok?
    ensures FetchTradingHolidayData(response, currentYear).calendar
      == FormatAll(ParseHolidays(response.tradingDates).value)
       + FormatAll(Saturdays(currentYear)) + FormatAll(Sundays(currentYear))
  {
  }

  /** Respelling the parsed holidays gives back the stripped cells. */
  lemma {:induction false} RemoteCellsRespelled(cells: seq<string>)
    requires ParseHolidays(cells).Ok?
    ensures var a := FormatAll(ParseHolidays(cells).value);
      |a| == |cells| && forall k :: 0 <= k < |cells| ==> a[k] == Strip(cells[k])
  {
    var remote := ParseHolidays(cells).value;
    forall k | 0 <= k < |cells|
      ensures FormatDMonY(remote[k]) == Strip(cells[k])
    {
      assert ParseHolidayCell(cells[k]) == Ok(remote[k]);
    }
  }

  /** Where the rows of three tables concatenated in order end up. */
  lemma {:induction false} ThreeParts<T>(a: seq<T>, b: seq<T>, c: seq<T>)
    ensures |a + b + c| == |a| + |b| + |c|
    ensures (a + b + c)[..|a|] == a
    ensures (a + b + c)[|a|..|a| + |b|] == b
    ensures (a + b + c)[|a| + |b|..] == c
  {
  }

  /** Every generated date of a year lies in that year. */
  lemma {:induction false} WeekdaysInYear(year: int, wd: int)
    requires 1 <= year
    ensures var r := DatesWithWeekday(Date(year, 1, 1), Date(year, 12, 31), wd);
      forall k :: 0 <= k < |r| ==> r[k].year == year
  {
    var first, last := Date(year, 1, 1), Date(year, 12, 31);
    var r := DatesWithWeekday(first, last, wd);
    forall k | 0 <= k < |r|
      ensures r[k].year == year
    {
      BeforeIsOrdinalOrder(first, r[k]);
      BeforeIsOrdinalOrder(r[k], last);
    }
  }

  /** Looking a spelled date up in a spelled column finds exactly the dates of the column. */
  lemma {:induction false} FormatAllMember(ds: seq<Date>, d: Date)
    requires forall k :: 0 <= k < |ds| ==> Valid(ds[k]) && ds[k].year <= 9999
    requires Valid(d) && d.year <= 9999
    ensures FormatDMonY(d) in FormatAll(ds) <==> d in ds
  {
    if FormatDMonY(d) in FormatAll(ds) {
      var k :| 0 <= k < |ds| && FormatAll(ds)[k] == FormatDMonY(d);
      FormatDMonYInjective(d, ds[k]);
    }
    if d in ds {
      var k :| 0 <= k < |ds| && ds[k] == d;
      assert FormatAll(ds)[k] == FormatDMonY(d);
    }
  }

  /**
   * A date spelled `dd-Mon-yyyy` is in the saved calendar exactly when it is
   * one of the exchange's holidays or a Saturday or Sunday of the current year;
   * this is the lookup the holiday test performs.
   */
  lemma {:induction false} CalendarMembership(response: HolidayResponse, currentYear: int, d: Date)
    requires 1 <= currentYear <= 9999
    requires FetchTradingHolidayData(response, currentYear).Saved?
    requires Valid(d) && d.year <= 9999
    ensures FormatDMonY(d) in FetchTradingHolidayData(response, currentYear).calendar
      <==> (d in ParseHolidays(response.tradingDates).value
            || (d.year == currentYear && (Weekday(d) == Saturday || Weekday(d) == Sunday)))
  {
    var remote := ParseHolidays(response.tradingDates).value;
    var sats, suns := Saturdays(currentYear), Sundays(currentYear);
    YearWeekdays(currentYear, Saturday, d);
    YearWeekdays(currentYear, Sunday, d);
    WeekdaysInYear(currentYear, Saturday);
    WeekdaysInYear(currentYear, Sunday);
    FormatAllMember(remote, d);
    FormatAllMember(sats, d);
    FormatAllMember(suns, d);
  }

  /** The spellings of timestamp dates are all read back by `pd.to_datetime`. */
  lemma {:induction false} SpelledTimestampsCast(ds: seq<Date>)
    requires forall k :: 0 <= k < |ds| ==> Valid(ds[k]) && InTimestampRange(ds[k]) && ds[k].year <= 9999
    ensures CastsToTimestamps(FormatAll(ds))
  {
    forall k | 0 <= k < |ds|
      ensures ToTimestampDMonY(FormatAll(ds)[k]).Ok?
    {
      TimestampOfFormatDMonY(ds[k]);
    }
  }

  /** Three columns that each cast make a concatenation that casts. */
  lemma {:induction false} ConcatCasts(a: seq<string>, b: seq<string>, c: seq<string>)
    requires CastsToTimestamps(a) && CastsToTimestamps(b) && CastsToTimestamps(c)
    ensures CastsToTimestamps(a + b + c)
  {
    var cal := a + b + c;
    forall k | 0 <= k < |cal|
      ensures ToTimestampDMonY(cal[k]).Ok?
    {
      if k < |a| {
        assert cal[k] == a[k];
      } else if k < |a| + |b| {
        assert cal[k] == b[k - |a|];
      } else {
        assert cal[k] == c[k - |a| - |b|];
      }
    }
  }

  /** The respelled remote holidays are all read back by `pd.to_datetime`. */
  lemma {:induction false} RemoteCellsCast(cells: seq<string>)
    requires ParseHolidays(cells).Ok?
    ensures CastsToTimestamps(FormatAll(ParseHolidays(cells).value))
  {
    var remote := ParseHolidays(cells).value;
    forall k | 0 <= k < |remote|
      ensures Valid(remote[k]) && InTimestampRange(remote[k]) && remote[k].year <= 9999
    {
      assert ParseHolidayCell(cells[k]) == Ok(remote[k]);
    }
    SpelledTimestampsCast(remote);
  }

  /** The spellings of dates of one year between 1678 and 2261 are all read back by `pd.to_datetime`. */
  lemma {:induction false} YearDatesCast(ds: seq<Date>, year: int)
    requires 1678 <= year <= 2261
    requires forall k :: 0 <= k < |ds| ==> Valid(ds[k]) && ds[k].year == year
    ensures CastsToTimestamps(FormatAll(ds))
  {
    forall k | 0 <= k < |ds|
      ensures Valid(ds[k]) && InTimestampRange(ds[k]) && ds[k].year <= 9999
    {
    }
    SpelledTimestampsCast(ds);
  }

  /** The spelled Saturdays and Sundays of a year `date_range` accepts are all timestamps. */
  lemma {:induction false} WeekendsCast(year: int)
    requires 1678 <= year <= 2261
    ensures CastsToTimestamps(FormatAll(Saturdays(year))) && CastsToTimestamps(FormatAll(Sundays(year)))
  {
    WeekdayDatesCast(year, Saturday);
    WeekdayDatesCast(year, Sunday);
  }

  /** The spelled dates of one weekday in a year `date_range` accepts are all timestamps. */
  lemma {:induction false} WeekdayDatesCast(year: int, wd: int)
    requires 1678 <= year <= 2261
    ensures CastsToTimestamps(FormatAll(DatesWithWeekday(Date(year, 1, 1), Date(year, 12, 31), wd)))
  {
    WeekdaysInYear(year, wd);
    assert forall k :: 0 <= k < |DatesWithWeekday(Date(year, 1, 1), Date(year, 12, 31), wd)| ==>
      DatesWithWeekday(Date(year, 1, 1), Date(year, 12, 31), wd)[k].year == year;
    assert forall k :: 0 <= k < |DatesWithWeekday(Date(year, 1, 1), Date(year, 12, 31), wd)| ==>
      Valid(DatesWithWeekday(Date(year, 1, 1), Date(year, 12, 31), wd)[k]);
    YearDatesCast(DatesWithWeekday(Date(year, 1, 1), Date(year, 12, 31), wd), year);
  }

  /**
   * Every entry of a saved calendar reads back through `pd.to_datetime`: the
   * remote cells were read that way before saving, and the weekend dates lie in
   * a year `date_range` accepted.
   */
  lemma {:induction false} SavedCalendarCasts(response: HolidayResponse, currentYear: int)
    requires 1 <= currentYear <= 9999
    requires FetchTradingHolidayData(response, currentYear).Saved?
    ensures CastsToTimestamps(FetchTradingHolidayData(response, currentYear).calendar)
  {
    SavedCalendarParts(response, currentYear);
    RemoteCellsCast(response.tradingDates);
    WeekendsCast(currentYear);
    ConcatCasts(FormatAll(ParseHolidays(response.tradingDates).value),
      FormatAll(Saturdays(currentYear)), FormatAll(Sundays(currentYear)));
  }

  /** No calendar is written unless the request succeeds. */
  lemma {:induction false} FailedRequestWritesNothing(response: HolidayResponse, currentYear: int)
    requires 1 <= currentYear <= 9999 && response.status != 200
    ensures FetchTradingHolidayData(response, currentYear) == NotFetched
  {
  }
}
