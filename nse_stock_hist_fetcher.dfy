/**
 * The historical backfill: walk every date from a fixed start date to today,
 * one day at a time, skip the dates the holiday calendar lists, and request
 * the full bhav report and the market-activity report of every other date.
 * Today and the calendar are parameters; a request is the `Download` issued.
 */
module NseStockHistFetcher {
  import opened Wrappers
  import opened Seqs
  import opened Text
  import opened Calendar
  import opened DateFormats
  import opened NseDataFetcher

  const StartDate := "01-Apr-2023"

  /** The dates from `from` to `to` inclusive, one day apart, ascending. */
  function DaysFrom(from: Date, to: Date): (r: seq<Date>)
    requires Valid(from) && Valid(to)
    ensures forall k :: 0 <= k < |r| ==> Valid(r[k])
    ensures |r| > 0 <==> NotAfter(from, to)
    ensures |r| > 0 ==> r[0] == from && r[|r| - 1] == to
    decreases Ordinal(to) + 1 - Ordinal(from)
  {
    BeforeIsOrdinalOrder(to, from);
    if Before(to, from) then []
    else if from == to then [from]
    else
      NoDateBetween(from, to);
      [from] + DaysFrom(Next(from), to)
  }

  /** The range holds exactly the dates between its ends, in ascending order. */
  lemma {:induction false} DaysFromSpec(from: Date, to: Date, d: Date)
    requires Valid(from) && Valid(to)
    ensures d in DaysFrom(from, to) <==> Valid(d) && NotAfter(from, d) && NotAfter(d, to)
    ensures forall i, j :: 0 <= i < j < |DaysFrom(from, to)| ==> Before(DaysFrom(from, to)[i], DaysFrom(from, to)[j])
    decreases Ordinal(to) + 1 - Ordinal(from)
  {
    BeforeIsOrdinalOrder(to, from);
    if Valid(d) {
      BeforeIsOrdinalOrder(from, d);
      BeforeIsOrdinalOrder(d, to);
    }
    if !Before(to, from) && from != to {
      var r := DaysFrom(from, to);
      var rest := DaysFrom(Next(from), to);
      NoDateBetween(from, to);
      if Valid(d) {
        NoDateBetween(from, d);
      }
      DaysFromSpec(Next(from), to, d);
      assert r == [from] + rest;
      forall j | 0 < j < |r|
        ensures Before(from, r[j])
      {
        assert r[j] in rest;
        DaysFromSpec(Next(from), to, r[j]);
        NoDateBetween(from, r[j]);
      }
    }
  }

  /** Consecutive entries of the range are one day apart. */
  lemma {:induction false} DaysFromConsecutive(from: Date, to: Date, k: int)
    requires Valid(from) && Valid(to)
    requires 0 <= k < |DaysFrom(from, to)| - 1
    ensures DaysFrom(from, to)[k + 1] == Next(DaysFrom(from, to)[k])
    decreases Ordinal(to) + 1 - Ordinal(from)
  {
    BeforeIsOrdinalOrder(to, from);
    NoDateBetween(from, to);
    var rest := DaysFrom(Next(from), to);
    assert DaysFrom(from, to) == [from] + rest;
    if k > 0 {
      DaysFromConsecutive(Next(from), to, k - 1);
    }
  }

  /** A date the loop downloads: a real date not listed in the holiday calendar. */
  predicate IsTradingDay(calendar: seq<string>, d: Date) {
    Valid(d) && !IsHoliday(calendar, FormatDMonY(d))
  }

  /** The loop's holiday test as a row selector. */
  function TradingDayTest(calendar: seq<string>): (keep: Date -> bool)
    ensures forall d :: keep(d) <==> IsTradingDay(calendar, d)
  {
    d => IsTradingDay(calendar, d)
  }

  /** The non-holiday dates of the range, in their order. */
  function TradingDays(from: Date, to: Date, calendar: seq<string>): (r: seq<Date>)
    requires Valid(from) && Valid(to)
    ensures forall k :: 0 <= k < |r| ==> Valid(r[k])
  {
    var days := DaysFrom(from, to);
    var r := Filter(days, TradingDayTest(calendar));
    assert forall k :: 0 <= k < |r| ==> r[k] in r;
    r
  }

  /**
   * The downloaded dates are exactly the non-holiday dates from the start to
   * the end inclusive, in ascending order.
   */
  lemma {:induction false} TradingDaysSpec(from: Date, to: Date, calendar: seq<string>, d: Date)
    requires Valid(from) && Valid(to)
    ensures d in TradingDays(from, to, calendar)
      <==> (IsTradingDay(calendar, d) && NotAfter(from, d) && NotAfter(d, to))
    ensures forall i, j :: 0 <= i < j < |TradingDays(from, to, calendar)| ==>
      Before(TradingDays(from, to, calendar)[i], TradingDays(from, to, calendar)[j])
  {
    var keep := TradingDayTest(calendar);
    var r := TradingDays(from, to, calendar);
    FilterMember(DaysFrom(from, to), keep, d);
    DaysFromSpec(from, to, d);
    forall i, j | 0 <= i < j < |r|
      ensures Before(r[i], r[j])
    {
      assert r[i] in r && r[j] in r;
      DaysFromSpec(from, to, r[i]);
      DaysFromSpec(from, to, r[j]);
      FilterOrder(DaysFrom(from, to), keep, i, j);
    }
  }

  /** Selection keeps the relative order of the rows it keeps. */
  lemma {:induction false} FilterOrder<T>(s: seq<T>, keep: T -> bool, i: int, j: int)
    requires 0 <= i < j < |Filter(s, keep)|
    ensures exists a, b :: 0 <= a < b < |s| && s[a] == Filter(s, keep)[i] && s[b] == Filter(s, keep)[j]
    decreases |s|
  {
    var front := s[..|s| - 1];
    var f := Filter(front, keep);
    if j < |f| {
      FilterOrder(front, keep, i, j);
      var a, b :| 0 <= a < b < |front| && front[a] == f[i] && front[b] == f[j];
      assert s[a] == front[a] && s[b] == front[b];
    } else {
      assert Filter(s, keep)[j] == s[|s| - 1];
      assert Filter(s, keep)[i] == f[i];
      assert f[i] in f;
      var a :| 0 <= a < |front| && front[a] == f[i];
      assert s[a] == front[a];
    }
  }

  /** The two report requests of each date: bhav first, then market activity. */
  function DownloadsFor(ds: seq<Date>): (r: seq<Download>)
    ensures |r| == 2 * |ds|
    ensures forall k :: 0 <= k < |ds| ==> r[2 * k] == BhavDownload(ds[k]) && r[2 * k + 1] == MaDownload(ds[k])
  {
    if |ds| == 0 then []
    else
      var d := ds[|ds| - 1];
      DownloadsFor(ds[..|ds| - 1]) + [BhavDownload(d), MaDownload(d)]
  }

  /** One more date visited: its two requests follow when it is not a holiday. */
  lemma {:induction false} DownloadsStep(visited: seq<Date>, d: Date, calendar: seq<string>)
    requires Valid(d)
    ensures DownloadsFor(Filter(visited + [d], TradingDayTest(calendar))) ==
      DownloadsFor(Filter(visited, TradingDayTest(calendar)))
      + (if IsHoliday(calendar, FormatDMonY(d)) then [] else [BhavDownload(d), MaDownload(d)])
  {
    var keep := TradingDayTest(calendar);
    var fetched := Filter(visited, keep);
    FilterAppend(visited, [d], keep);
    if !IsHoliday(calendar, FormatDMonY(d)) {
      assert (fetched + [d])[..|fetched|] == fetched;
    } else {
      assert fetched + [] == fetched;
    }
  }

  /** A range that is not empty starts with its first date and goes on from the next one. */
  lemma {:induction false} DaysFromUnfold(d: Date, end: Date)
    requires Valid(d) && Valid(end) && NotAfter(d, end)
    ensures DaysFrom(d, end) == [d] + DaysFrom(Next(d), end)
    ensures Ordinal(Next(d)) == Ordinal(d) + 1 && Ordinal(d) <= Ordinal(end)
  {
    BeforeIsOrdinalOrder(end, d);
    if d == end {
      BeforeIsOrdinalOrder(end, Next(d));
      assert DaysFrom(Next(d), end) == [];
      assert DaysFrom(d, end) == [d] + [];
    }
  }

  /** One step along the range: the dates seen so far and the dates still ahead make up the range. */
  lemma {:induction false} DaysFromStep(start: Date, d: Date, end: Date, visited: seq<Date>)
    requires Valid(start) && Valid(d) && Valid(end) && NotAfter(d, end)
    requires DaysFrom(start, end) == visited + DaysFrom(d, end)
    ensures DaysFrom(start, end) == (visited + [d]) + DaysFrom(Next(d), end)
    ensures Ordinal(Next(d)) == Ordinal(d) + 1 && Ordinal(d) <= Ordinal(end)
  {
    DaysFromUnfold(d, end);
    AppendAssoc(visited, [d], DaysFrom(Next(d), end));
  }

  /**
   * The backfill loop of `main`: every date from `start` while it is not after
   * `end`; a holiday is skipped, any other date gets its two report requests.
   */
  method Backfill(start: Date, end: Date, calendar: seq<string>) returns (downloads: seq<Download>)
    requires Valid(start) && Valid(end)
    ensures downloads == DownloadsFor(TradingDays(start, end, calendar))
  {
    var downloadDate := start;
    downloads := [];
    ghost var visited: seq<Date> := [];
    while NotAfter(downloadDate, end)
      invariant Valid(downloadDate)
      invariant DaysFrom(start, end) == visited + DaysFrom(downloadDate, end)
      invariant downloads == DownloadsFor(Filter(visited, TradingDayTest(calendar)))
      decreases Ordinal(end) + 1 - Ordinal(downloadDate)
    {
      DaysFromStep(start, downloadDate, end, visited);
      DownloadsStep(visited, downloadDate, calendar);
      if IsHoliday(calendar, FormatDMonY(downloadDate)) {
        // skipped
      } else {
        downloads := downloads + [DashedBhavDownload(downloadDate), DashedMaDownload(downloadDate)];
      }
      visited := visited + [downloadDate];
      downloadDate := Next(downloadDate);
    }
    assert DaysFrom(downloadDate, end) == [];
    assert visited + [] == visited;
  }

  /** A start after the end requests nothing. */
  lemma {:induction false} EmptyRange(start: Date, end: Date, calendar: seq<string>)
    requires Valid(start) && Valid(end) && Before(end, start)
    ensures DownloadsFor(TradingDays(start, end, calendar)) == []
  {
    FilterAppend([], [], TradingDayTest(calendar));
  }

  /**
   * `main`: the fixed start date and today, both spelled `dd-Mon-yyyy` and
   * parsed back, bound the loop.
   */
  method HistMain(now: Date, calendar: seq<string>) returns (downloads: seq<Download>)
    requires Valid(now) && now.year <= 9999
    ensures downloads == DownloadsFor(TradingDays(Date(2023, 4, 1), now, calendar))
  {
    ParseStartDate();
    ParseFormatDMonY(now);
    var startDate := ParseDMonY(StartDate);
    var endDate := ParseDMonY(FormatDMonY(now));
    downloads := Backfill(startDate.value, endDate.value, calendar);
  }

  /** The fixed start date parses to 1 April 2023. */
  lemma {:induction false} ParseStartDate()
    ensures ParseDMonY(StartDate) == Ok(Date(2023, 4, 1))
  {
    SpellStartDate();
    ParseFormatDMonY(Date(2023, 4, 1));
  }

  lemma {:induction false} SpellStartDate()
    ensures FormatDMonY(Date(2023, 4, 1)) == StartDate
  {
    assert Pad2(1) == "01" && Pad4(2023) == "2023";
  }
}
